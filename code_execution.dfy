/** The code-judging adapter: the language table and the loop that runs
    a submission against each test case through the external judge. */
module CodeExecution {
  import opened Common
  import opened QuestionModel

  /** What indexing `languageMap` finds: a judge language id of its own,
      or a member every object inherits whose name is all lower case (a
      truthy function or object, not an id). */
  datatype LanguageRef = JudgeId(id: nat) | Inherited(name: string)

  /** The inherited members that a lower-cased name can reach. */
  const InheritedNames: seq<string> := ["constructor", "__proto__"]

  /** The own entries of `languageMap`: the judge's language id for each
      accepted name. Aliases sit in one branch, so they share their id. */
  function OwnLanguageId(name: string): Option<nat>
  {
    if name == "javascript" then Some(63)
    else if name == "python" || name == "python3" then Some(71)
    else if name == "php" then Some(68)
    else if name == "ruby" then Some(72)
    else if name == "c" then Some(50)
    else if name == "c++" || name == "cpp" then Some(54)
    else if name == "java" then Some(62)
    else if name == "c#" || name == "csharp" then Some(51)
    else if name == "go" || name == "golang" then Some(60)
    else if name == "rust" then Some(73)
    else if name == "swift" then Some(83)
    else if name == "kotlin" then Some(78)
    else if name == "haskell" then Some(61)
    else if name == "scala" then Some(81)
    else if name == "r" then Some(80)
    else if name == "perl" then Some(85)
    else if name == "lua" then Some(64)
    else if name == "bash" || name == "shell" then Some(46)
    else if name == "assembly" then Some(45)
    else if name == "sql" || name == "mysql" then Some(82)
    else if name == "typescript" then Some(74)
    else None
  }

  /** `languageMap[name]`: an own entry, else an inherited member. */
  function LanguageMapGet(name: string): Option<LanguageRef>
  {
    if OwnLanguageId(name).Some? then Some(JudgeId(OwnLanguageId(name).value))
    else if name == "constructor" || name == "__proto__" then Some(Inherited(name))
    else None
  }

  /** `Object.keys(languageMap)`, in declaration order. */
  const LanguageNames: seq<string> := [
    "javascript", "python", "python3", "php", "ruby",
    "c", "c++", "cpp", "java", "c#", "csharp",
    "go", "golang", "rust", "swift", "kotlin",
    "haskell", "scala", "r", "perl", "lua",
    "bash", "shell", "assembly", "sql", "mysql", "typescript"]

  /** The names listed in the unsupported-language message are exactly
      the names that have a judge id. */
  lemma LanguageNamesAreKeys(name: string)
    ensures (LanguageMapGet(name).Some? && LanguageMapGet(name).value.JudgeId?) <==> name in LanguageNames
  {
    if name in LanguageNames {
      ListedNamesAccepted(name);
    }
  }

  /** Every listed name has an id. */
  lemma ListedNamesAccepted(name: string)
    requires name in LanguageNames
    ensures LanguageMapGet(name).Some? && LanguageMapGet(name).value.JudgeId?
  {
  }

  /** The lookup succeeds on exactly the listed names and the two
      inherited ones, and finds an inherited member only by its own name. */
  lemma LookupSucceeds(name: string)
    ensures LanguageMapGet(name).Some? <==> name in LanguageNames || name in InheritedNames
    ensures LanguageMapGet(name).Some? && LanguageMapGet(name).value.Inherited? <==> name in InheritedNames
    ensures name in InheritedNames ==> LanguageMapGet(name) == Some(Inherited(name))
  {
    LanguageNamesAreKeys(name);
  }

  function LowerChar(c: char): char
  {
    if 'A' <= c <= 'Z' then (c as int + 32) as char else c
  }

  /** `toLowerCase` on ASCII letters. */
  function ToLower(s: string): (r: string)
    ensures |r| == |s|
    ensures forall i :: 0 <= i < |s| ==> r[i] == LowerChar(s[i])
  {
    if s == [] then [] else [LowerChar(s[0])] + ToLower(s[1..])
  }

  /** `languageMap[language.toLowerCase()]`. */
  function LanguageId(language: string): Option<LanguageRef>
  {
    LanguageMapGet(ToLower(language))
  }

  function Join(parts: seq<string>, sep: string): string
  {
    if parts == [] then "" else if |parts| == 1 then parts[0] else parts[0] + sep + Join(parts[1..], sep)
  }

  function UnsupportedMessage(language: string): string
  {
    "Unsupported language: " + language + ". Supported languages: " + Join(LanguageNames, ", ")
  }

  /** What one judge request answers: a status with its description and
      optional stderr and compiler output, or a failed request. */
  datatype JudgeReply =
    | Reply(statusId: int, description: string, stderr: Option<string>, compileOutput: Option<string>)
    | RequestFailed

  /** The external judge: source, the looked-up language value and test
      case to a reply. */
  type Judge = (string, LanguageRef, TestCase) -> JudgeReply

  /** Status 3 is "Accepted". */
  predicate Accepted(reply: JudgeReply)
  {
    reply.Reply? && reply.statusId == 3
  }

  const JudgeErrorMessage := "An error occurred while judging your code."
  const AllPassedMessage := "All test cases passed!"

  /** The feedback for a rejected test case: the status description,
      then the stderr and compiler output when present. */
  function FailureFeedback(reply: JudgeReply): string
  {
    match reply
    case RequestFailed => JudgeErrorMessage
    case Reply(_, description, stderr, compileOutput) =>
      description
      + (if Truthy(stderr) then "\nError: " + stderr.value else "")
      + (if Truthy(compileOutput) then "\nCompile Output: " + compileOutput.value else "")
  }

  datatype ExecResult = ExecResult(isCorrect: bool, feedback: string)

  /** The test-case loop of `executeCode` for a truthy language value. */
  method RunTestCases(sourceCode: string, id: LanguageRef, testCases: seq<TestCase>, judge: Judge)
    returns (r: ExecResult, calls: nat)
    ensures r.isCorrect <==> forall i :: 0 <= i < |testCases| ==> Accepted(judge(sourceCode, id, testCases[i]))
    ensures r.isCorrect ==> r.feedback == AllPassedMessage && calls == |testCases|
    ensures !r.isCorrect ==>
              && 0 < calls <= |testCases|
              && (forall i :: 0 <= i < calls - 1 ==> Accepted(judge(sourceCode, id, testCases[i])))
              && !Accepted(judge(sourceCode, id, testCases[calls - 1]))
              && r.feedback == FailureFeedback(judge(sourceCode, id, testCases[calls - 1]))
  {
    calls := 0;
    for k := 0 to |testCases|
      invariant calls == k
      invariant forall i :: 0 <= i < k ==> Accepted(judge(sourceCode, id, testCases[i]))
    {
      var result := judge(sourceCode, id, testCases[k]);
      calls := calls + 1;
      if result.RequestFailed? {
        return ExecResult(false, JudgeErrorMessage), calls;
      }
      if result.statusId != 3 {
        return ExecResult(false, FailureFeedback(result)), calls;
      }
    }
    return ExecResult(true, AllPassedMessage), calls;
  }

  /** `executeCode`: a language whose lookup finds nothing is rejected
      without any judge request; otherwise, inherited members included,
      the test cases run in order. `calls` counts the
      judge requests made: one per test case up to and including the
      first that is not accepted. */
  method ExecuteCode(sourceCode: string, language: string, testCases: seq<TestCase>, judge: Judge)
    returns (r: ExecResult, calls: nat)
    ensures LanguageId(language).None? ==> r == ExecResult(false, UnsupportedMessage(language)) && calls == 0
    ensures LanguageId(language).Some? ==>
              var id := LanguageId(language).value;
              && (r.isCorrect <==> forall i :: 0 <= i < |testCases| ==> Accepted(judge(sourceCode, id, testCases[i])))
              && (r.isCorrect ==> r.feedback == AllPassedMessage && calls == |testCases|)
              && (!r.isCorrect ==>
                    && 0 < calls <= |testCases|
                    && (forall i :: 0 <= i < calls - 1 ==> Accepted(judge(sourceCode, id, testCases[i])))
                    && !Accepted(judge(sourceCode, id, testCases[calls - 1]))
                    && r.feedback == FailureFeedback(judge(sourceCode, id, testCases[calls - 1])))
  {
    var languageId := LanguageId(language);
    if languageId.None? {
      return ExecResult(false, UnsupportedMessage(language)), 0;
    }
    r, calls := RunTestCases(sourceCode, languageId.value, testCases, judge);
  }

  /** Lookup lower-cases the name first, so it cannot tell a name from
      its lower-case form. */
  lemma LanguageIdIgnoresCase(language: string)
    ensures LanguageId(ToLower(language)) == LanguageId(language)
  {
    assert ToLower(ToLower(language)) == ToLower(language);
  }

  lemma CapitalisedPython()
    ensures LanguageId("Python") == Some(JudgeId(71))
  {
    assert ToLower("Python") == "python";
  }

  /** Aliases share their ids; a name outside the table is unsupported. */
  lemma LanguageAliases()
    ensures OwnLanguageId("python") == OwnLanguageId("python3") == Some(71)
    ensures OwnLanguageId("c++") == OwnLanguageId("cpp") == Some(54)
    ensures OwnLanguageId("go") == OwnLanguageId("golang") == Some(60)
    ensures OwnLanguageId("c#") == OwnLanguageId("csharp") == Some(51)
    ensures LanguageMapGet("pascal") == None
  {
  }

  /** A language that lower-cases to an inherited member ("Constructor",
      "__PROTO__", ...) is not rejected: the lookup finds that member, and
      the test cases are sent to the judge with it. */
  lemma InheritedNotRejected(language: string)
    requires ToLower(language) in InheritedNames
    ensures LanguageId(language) == Some(Inherited(ToLower(language)))
  {
    LookupSucceeds(ToLower(language));
  }
}
