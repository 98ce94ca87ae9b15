/** The gauntlet session document. The schema declares only `userId`,
    `subject`, `strikesLeft`, `score`, `currentQuestionIndex`,
    `questionHistory` and `isActive`; the controller reads and writes the
    remaining fields as well, so they are declared here and start at 0,
    "easy" (or the requested difficulty) or empty. */
module SessionModel {
  import opened Common
  import opened QuestionModel

  datatype CompletionReason = Completed | Failed | Abandoned

  datatype ChangeReason = PromotedForStreak | DemotedForMistakes

  /** One entry of `difficultyProgression`. */
  datatype ProgressionEvent = ProgressionEvent(questionIndex: int, difficulty: Difficulty, reason: ChangeReason)

  /** The schema's default number of strikes. */
  const InitialStrikes := 3

  predicate NoDuplicates(s: seq<ObjectId>)
  {
    forall i, j :: 0 <= i < j < |s| ==> s[i] != s[j]
  }

  /** Appending an id not yet in the history keeps it free of repeats. */
  lemma AppendFresh(s: seq<ObjectId>, x: ObjectId)
    requires NoDuplicates(s) && x !in s
    ensures NoDuplicates(s + [x])
  {
    forall i, j | 0 <= i < j < |s + [x]|
      ensures (s + [x])[i] != (s + [x])[j]
    {
      if j == |s| {
        assert (s + [x])[i] == s[i];
      }
    }
  }

  /** The mutable fields of a session document, as one value. */
  datatype SessionState = SessionState(
    strikesLeft: int,
    score: int,
    currentQuestionIndex: int,
    questionHistory: seq<ObjectId>,
    isActive: bool,
    correctAnswers: nat,
    incorrectAnswers: nat,
    correctStreak: nat,
    maxCorrectStreak: nat,
    currentDifficulty: Difficulty,
    consecutiveCorrect: nat,
    consecutiveIncorrect: nat,
    difficultyProgression: seq<ProgressionEvent>,
    totalXpGained: int,
    completionReason: Option<CompletionReason>,
    sessionStartTime: int,
    sessionEndTime: Option<int>)

  /** The lifecycle invariant: strikes stay within [0, 3]; the question
      index is not negative; an active session has a strike left and no
      end stamp; a session that is over has a reason, and the reason is
      "failed" exactly when no strike is left; the streak never exceeds
      the best streak; no question repeats. */
  predicate SessionInv(s: SessionState)
  {
    && 0 <= s.strikesLeft <= InitialStrikes
    && 0 <= s.currentQuestionIndex
    && (s.isActive ==> s.strikesLeft >= 1 && s.completionReason.None? && s.sessionEndTime.None?)
    && (!s.isActive ==> s.completionReason.Some?)
    && (s.strikesLeft == 0 <==> s.completionReason == Some(Failed))
    && s.correctStreak <= s.maxCorrectStreak
    && NoDuplicates(s.questionHistory)
  }

  /** A new session at `difficulty`, started at `now`, with the schema's
      defaults everywhere else. */
  function NewSessionState(difficulty: Difficulty, now: int): (s: SessionState)
    ensures SessionInv(s) && s.isActive && s.strikesLeft == InitialStrikes
  {
    SessionState(InitialStrikes, 0, 0, [], true, 0, 0, 0, 0, difficulty, 0, 0, [], 0, None, now, None)
  }

  class Session {
    const userId: ObjectId
    const subject: string
    var strikesLeft: int
    var score: int
    var currentQuestionIndex: int
    var questionHistory: seq<ObjectId>
    var isActive: bool
    var correctAnswers: nat
    var incorrectAnswers: nat
    var correctStreak: nat
    var maxCorrectStreak: nat
    var currentDifficulty: Difficulty
    var consecutiveCorrect: nat
    var consecutiveIncorrect: nat
    var difficultyProgression: seq<ProgressionEvent>
    var totalXpGained: int
    var completionReason: Option<CompletionReason>
    var sessionStartTime: int
    var sessionEndTime: Option<int>

    /** The document's fields as one value. */
    function State(): SessionState
      reads this
    {
      SessionState(strikesLeft, score, currentQuestionIndex, questionHistory, isActive,
                   correctAnswers, incorrectAnswers, correctStreak, maxCorrectStreak,
                   currentDifficulty, consecutiveCorrect, consecutiveIncorrect, difficultyProgression,
                   totalXpGained, completionReason, sessionStartTime, sessionEndTime)
    }

    predicate Valid()
      reads this
    {
      SessionInv(State())
    }

    /** A new session for `userId` in `subject`, started at `now`. */
    constructor (userId: ObjectId, subject: string, difficulty: Difficulty, now: int)
      ensures this.userId == userId && this.subject == subject
      ensures State() == NewSessionState(difficulty, now)
    {
      this.userId, this.subject := userId, subject;
      strikesLeft, score, currentQuestionIndex := InitialStrikes, 0, 0;
      questionHistory, isActive := [], true;
      correctAnswers, incorrectAnswers := 0, 0;
      correctStreak, maxCorrectStreak := 0, 0;
      currentDifficulty := difficulty;
      consecutiveCorrect, consecutiveIncorrect := 0, 0;
      difficultyProgression, totalXpGained := [], 0;
      completionReason, sessionStartTime, sessionEndTime := None, now, None;
    }
  }
}
