/** The question schema: its enumerations and the record shape the
    gauntlet engine reads. */
module QuestionModel {
  import opened Common

  /** `difficulty` is one of three strings in the schema; session records
      also carry a difficulty taken from the request body, so any other
      string is kept as `Other`. */
  datatype Difficulty = Easy | Medium | Hard | Other(name: string)

  datatype QuestionType = Mcq | Code | Integer | Description

  datatype TestCase = TestCase(input: string, output: string)

  datatype Question = Question(
    id: ObjectId,
    subject: string,
    prompt: string,
    qtype: QuestionType,
    difficulty: Difficulty,
    options: seq<string>,
    correctAnswer: Option<string>,
    testCases: seq<TestCase>,
    subTopic: Option<string>)

  /** The three difficulties the schema's enumeration admits. */
  predicate IsSchemaDifficulty(d: Difficulty)
  {
    !d.Other?
  }

  /** The difficulty as the string the source stores. */
  function DifficultyName(d: Difficulty): (s: string)
    ensures IsSchemaDifficulty(d) ==> s in {"easy", "medium", "hard"}
  {
    match d
    case Easy => "easy"
    case Medium => "medium"
    case Hard => "hard"
    case Other(n) => n
  }

  /** `Other` carries only strings that are not one of the three names. */
  predicate Canonical(d: Difficulty)
  {
    d.Other? ==> d.name !in {"easy", "medium", "hard"}
  }

  /** A stored or requested difficulty string as a `Difficulty`. */
  function ParseDifficulty(name: string): (d: Difficulty)
    ensures Canonical(d)
    ensures IsSchemaDifficulty(d) <==> name in {"easy", "medium", "hard"}
  {
    if name == "easy" then Easy
    else if name == "medium" then Medium
    else if name == "hard" then Hard
    else Other(name)
  }

  /** Parsing and naming are inverse: every string names the difficulty it
      parses to, and every canonical difficulty is parsed back from its
      name. */
  lemma ParseNameRoundTrip(name: string, d: Difficulty)
    requires Canonical(d)
    ensures DifficultyName(ParseDifficulty(name)) == name
    ensures ParseDifficulty(DifficultyName(d)) == d
  {
  }
}
