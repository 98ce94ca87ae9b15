/** The question-selection and grading services: the weakest-topic
    analysis, the next-question rule with its fallback queries, the
    dialogue lookup and answer validation. */
module AiServices {
  import opened Common
  import opened QuestionModel
  import opened UserModel

  // ---------------------------------------------------------------------
  // Weakest link
  // ---------------------------------------------------------------------

  /** Topics with fewer attempts than this are ignored. */
  const MinimumAttempts := 3

  predicate Eligible(e: ProgressEntry)
  {
    e.totalAttempted >= MinimumAttempts
  }

  /** The success rate `correct / totalAttempted`, as an exact rational. */
  function Rate(e: ProgressEntry): real
    requires e.totalAttempted > 0
  {
    e.correct as real / e.totalAttempted as real
  }

  /** Entry `w` is an eligible entry of the first `n` whose rate is below
      1, no larger than any eligible rate among them, and strictly smaller
      than every eligible rate before it (ties keep the earliest entry). */
  ghost predicate IsWeakestIn(p: Progress, n: nat, w: int)
    requires n <= |p|
  {
    && 0 <= w < n
    && Eligible(p[w].entry)
    && Rate(p[w].entry) < 1.0
    && forall j :: 0 <= j < n && Eligible(p[j].entry) ==>
         Rate(p[w].entry) <= Rate(p[j].entry) && (j < w ==> Rate(p[w].entry) < Rate(p[j].entry))
  }

  ghost predicate IsWeakest(p: Progress, w: int)
  {
    IsWeakestIn(p, |p|, w)
  }

  /** At most one entry is the weakest. */
  lemma WeakestUnique(p: Progress, w1: int, w2: int)
    requires IsWeakest(p, w1) && IsWeakest(p, w2)
    ensures w1 == w2
  {
  }

  /** No eligible entry among the first `n` has a rate below 1. */
  ghost predicate NoneBelowOne(p: Progress, n: nat)
    requires n <= |p|
  {
    forall j :: 0 <= j < n && Eligible(p[j].entry) ==> Rate(p[j].entry) >= 1.0
  }

  /** One scan step when entry `i` does not beat the current weakest. */
  lemma KeepWeakest(p: Progress, i: nat, w: int)
    requires i < |p| && IsWeakestIn(p, i, w)
    requires Eligible(p[i].entry) ==> Rate(p[i].entry) >= Rate(p[w].entry)
    ensures IsWeakestIn(p, i + 1, w)
  {
  }

  /** One scan step when entry `i` beats the current weakest. */
  lemma ReplaceWeakest(p: Progress, i: nat, w: int)
    requires i < |p| && IsWeakestIn(p, i, w)
    requires Eligible(p[i].entry) && Rate(p[i].entry) < Rate(p[w].entry)
    ensures IsWeakestIn(p, i + 1, i)
  {
  }

  /** One scan step that finds the first candidate. */
  lemma FirstWeakest(p: Progress, i: nat)
    requires i < |p| && NoneBelowOne(p, i)
    requires Eligible(p[i].entry) && Rate(p[i].entry) < 1.0
    ensures IsWeakestIn(p, i + 1, i)
  {
  }

  /** The topic a weakness key names. */
  datatype WeakLink = WeakLink(subject: string, subTopic: Option<string>)

  predicate NoDash(s: string)
  {
    '-' !in s
  }

  /** The part of `s` before its first '-' (all of `s` when it has none). */
  function UpToDash(s: string): (r: string)
    ensures r <= s && NoDash(r)
    ensures |r| < |s| ==> s[|r|] == '-'
  {
    if s == [] || s[0] == '-' then [] else [s[0]] + UpToDash(s[1..])
  }

  /** `const [subject, subTopic] = key.split("-")`: the first two parts,
      the second undefined when the key has no '-'. */
  function SplitKey(key: string): WeakLink
  {
    var a := UpToDash(key);
    if |a| == |key| then WeakLink(a, None)
    else WeakLink(a, Some(UpToDash(key[|a| + 1..])))
  }

  lemma UpToDashOf(a: string, rest: string)
    requires NoDash(a)
    ensures UpToDash(a) == a
    ensures UpToDash(a + "-" + rest) == a
  {
    if a != [] {
      assert (a + "-" + rest)[1..] == a[1..] + "-" + rest;
      UpToDashOf(a[1..], rest);
    }
  }

  /** Splitting undoes the progress-key construction `subject-subTopic`
      when neither part contains '-', and splitting a bare subject gives
      the subject with no sub-topic. */
  lemma SplitProgressKey(subject: string, subTopic: string)
    requires NoDash(subject) && NoDash(subTopic)
    ensures SplitKey(subject) == WeakLink(subject, None)
    ensures SplitKey(subject + "-" + subTopic) == WeakLink(subject, Some(subTopic))
  {
    UpToDashOf(subject, "");
    UpToDashOf(subject, subTopic);
    UpToDashOf(subTopic, "");
    var k := subject + "-" + subTopic;
    assert k[|subject| + 1..] == subTopic;
  }

  /** Parts of a key after a second '-' are dropped. */
  lemma SplitDropsExtraParts(subject: string, subTopic: string, rest: string)
    requires NoDash(subject) && NoDash(subTopic)
    ensures SplitKey(subject + "-" + subTopic + "-" + rest) == WeakLink(subject, Some(subTopic))
  {
    var k := subject + "-" + subTopic + "-" + rest;
    assert k == subject + "-" + (subTopic + "-" + rest);
    UpToDashOf(subject, subTopic + "-" + rest);
    UpToDashOf(subTopic, rest);
    assert k[|subject| + 1..] == subTopic + "-" + rest;
  }

  /** What the analysis returns once the weakest key is known: `null`
      for an empty (falsy) key, the split key otherwise. */
  function KeyResult(key: string): Option<WeakLink>
  {
    if key == "" then None else Some(SplitKey(key))
  }

  /** `findWeakestLink`: scan the entries in insertion order, keeping the
      strictly lowest success rate below 1 among entries with at least
      three attempts. */
  method FindWeakestLink(progress: Progress) returns (r: Option<WeakLink>)
    ensures forall w :: IsWeakest(progress, w) ==> r == KeyResult(progress[w].key)
    ensures (forall j :: 0 <= j < |progress| && Eligible(progress[j].entry) ==> Rate(progress[j].entry) >= 1.0)
            ==> r == None
    ensures (exists j :: 0 <= j < |progress| && Eligible(progress[j].entry) && Rate(progress[j].entry) < 1.0)
            ==> exists w :: IsWeakest(progress, w)
  {
    var weakestTopicKey: Option<string> := None;
    var lowestScore: real := 1.0;
    ghost var w: Option<nat> := None;
    var i := 0;
    while i < |progress|
      invariant 0 <= i <= |progress|
      invariant w.None? ==> weakestTopicKey == None && lowestScore == 1.0 && NoneBelowOne(progress, i)
      invariant w.Some? ==> IsWeakestIn(progress, i, w.value)
      invariant w.Some? ==> weakestTopicKey == Some(progress[w.value].key) && lowestScore == Rate(progress[w.value].entry)
    {
      var entry := progress[i].entry;
      if entry.totalAttempted >= MinimumAttempts {
        var successRate := Rate(entry);
        if successRate < lowestScore {
          if w.Some? { ReplaceWeakest(progress, i, w.value); } else { FirstWeakest(progress, i); }
          lowestScore := successRate;
          weakestTopicKey := Some(progress[i].key);
          w := Some(i);
        } else if w.Some? {
          KeepWeakest(progress, i, w.value);
        }
      } else if w.Some? {
        KeepWeakest(progress, i, w.value);
      }
      i := i + 1;
    }
    if w.Some? {
      assert IsWeakest(progress, w.value);
      forall w' | IsWeakest(progress, w') ensures w' == w.value {
        WeakestUnique(progress, w', w.value);
      }
    } else {
      assert NoneBelowOne(progress, |progress|);
    }
    if weakestTopicKey.Some? && weakestTopicKey.value != "" {
      r := Some(SplitKey(weakestTopicKey.value));
    } else {
      r := None;
    }
  }

  // ---------------------------------------------------------------------
  // Next-question selection
  // ---------------------------------------------------------------------

  /** `["easy", "medium", "hard"].indexOf(d)`, -1 for any other string. */
  function DifficultyIndex(d: Difficulty): int
  {
    match d
    case Easy => 0
    case Medium => 1
    case Hard => 2
    case Other(_) => -1
  }

  const DifficultyOrder: seq<Difficulty> := [Easy, Medium, Hard]

  /** 1, 2, 3 for the three schema difficulties. */
  function Level(d: Difficulty): int
  {
    DifficultyIndex(d) + 1
  }

  /** The target difficulty of the next query: one step above the last
      question's after a correct answer (at most hard), one step below
      after a miss (at least easy); an unrecognised last difficulty gives
      easy. The medium-with-streak rule agrees with the plain step, so the
      streak never changes the outcome. */
  function NextDifficulty(last: Difficulty, isCorrect: bool, correctStreak: nat): (d: Difficulty)
    ensures IsSchemaDifficulty(d)
    ensures IsSchemaDifficulty(last) && isCorrect ==> Level(d) == if Level(last) == 3 then 3 else Level(last) + 1
    ensures IsSchemaDifficulty(last) && !isCorrect ==> Level(d) == if Level(last) == 1 then 1 else Level(last) - 1
    ensures last.Other? ==> d == Easy
  {
    var i := DifficultyIndex(last);
    if isCorrect then
      if i < 2 then
        if last == Medium && correctStreak >= 2 then Hard
        else DifficultyOrder[i + 1]
      else Hard
    else
      if i > 0 then DifficultyOrder[i - 1] else Easy
  }

  /** The correct-streak argument never changes the target difficulty. */
  lemma NextDifficultyIgnoresStreak(last: Difficulty, isCorrect: bool, s1: nat, s2: nat)
    ensures NextDifficulty(last, isCorrect, s1) == NextDifficulty(last, isCorrect, s2)
  {
  }

  /** A `findOne` filter: the subject, the excluded ids (`$nin`), and an
      optional sub-topic and difficulty. */
  datatype Query = Query(subject: string, excluded: seq<ObjectId>, subTopic: Option<string>, difficulty: Option<Difficulty>)

  predicate Matches(q: Question, query: Query)
  {
    && q.subject == query.subject
    && q.id !in query.excluded
    && (query.subTopic.Some? ==> q.subTopic == query.subTopic)
    && (query.difficulty.Some? ==> q.difficulty == query.difficulty.value)
  }

  predicate HasMatch(store: seq<Question>, query: Query)
  {
    exists i :: 0 <= i < |store| && Matches(store[i], query)
  }

  /** The first record of `store` that matches `query`, in store order. */
  function FirstMatch(store: seq<Question>, query: Query): (r: Option<Question>)
    ensures r.Some? ==> r.value in store && Matches(r.value, query)
    ensures r.None? <==> !HasMatch(store, query)
  {
    if store == [] then None
    else if Matches(store[0], query) then Some(store[0])
    else
      var rest := FirstMatch(store[1..], query);
      assert HasMatch(store[1..], query) ==> HasMatch(store, query) by {
        if HasMatch(store[1..], query) {
          var i :| 0 <= i < |store[1..]| && Matches(store[1..][i], query);
          assert store[i + 1] == store[1..][i];
        }
      }
      assert HasMatch(store, query) ==> HasMatch(store[1..], query) by {
        if HasMatch(store, query) {
          var i :| 0 <= i < |store| && Matches(store[i], query);
          assert store[1..][i - 1] == store[i];
        }
      }
      rest
  }

  /** `r` is what `findOne` returns: the first matching record in store
      order, or null when nothing matches. */
  ghost predicate IsFirstMatch(store: seq<Question>, query: Query, r: Option<Question>)
  {
    match r
    case None => !HasMatch(store, query)
    case Some(q) =>
      exists i :: 0 <= i < |store| && store[i] == q && Matches(q, query)
                  && forall j :: 0 <= j < i ==> !Matches(store[j], query)
  }

  /** `FirstMatch` finds a match that no earlier record makes. */
  lemma {:induction false} FirstMatchIsFirst(store: seq<Question>, query: Query)
    ensures IsFirstMatch(store, query, FirstMatch(store, query))
  {
    if store != [] && !Matches(store[0], query) {
      FirstMatchIsFirst(store[1..], query);
      var r := FirstMatch(store[1..], query);
      if r.Some? {
        var i :| 0 <= i < |store[1..]| && store[1..][i] == r.value && Matches(r.value, query)
                 && forall j :: 0 <= j < i ==> !Matches(store[1..][j], query);
        assert store[i + 1] == r.value;
        forall j | 0 <= j < i + 1
          ensures !Matches(store[j], query)
        {
          if j > 0 { assert store[j] == store[1..][j - 1]; }
        }
      }
    } else if store != [] {
      assert store[0] == FirstMatch(store, query).value;
    }
  }

  /** The first-match result is determined by the store and the query. */
  lemma FirstMatchUnique(store: seq<Question>, query: Query, r1: Option<Question>, r2: Option<Question>)
    requires IsFirstMatch(store, query, r1) && IsFirstMatch(store, query, r2)
    ensures r1 == r2
  {
    if r1.Some? && r2.Some? {
      var i1 :| 0 <= i1 < |store| && store[i1] == r1.value && Matches(r1.value, query)
                && forall j :: 0 <= j < i1 ==> !Matches(store[j], query);
      var i2 :| 0 <= i2 < |store| && store[i2] == r2.value && Matches(r2.value, query)
                && forall j :: 0 <= j < i2 ==> !Matches(store[j], query);
      assert !(i1 < i2) && !(i2 < i1);
    }
  }

  /** `Question.findOne(query)` over a store in natural order. */
  method FindOne(store: seq<Question>, query: Query) returns (r: Option<Question>)
    ensures r == FirstMatch(store, query)
  {
    var i := 0;
    while i < |store|
      invariant 0 <= i <= |store|
      invariant forall j :: 0 <= j < i ==> !Matches(store[j], query)
    {
      if Matches(store[i], query) {
        r := Some(store[i]);
        assert IsFirstMatch(store, query, r);
        FirstMatchIsFirst(store, query);
        FirstMatchUnique(store, query, r, FirstMatch(store, query));
        return;
      }
      i := i + 1;
    }
    r := None;
    FirstMatchIsFirst(store, query);
  }

  /** The first query of `selectNextQuestion`. */
  function FirstQuery(subject: string, history: seq<ObjectId>, lastDifficulty: Difficulty,
                      lastSubTopic: Option<string>, isCorrect: bool, correctStreak: nat): Query
  {
    Query(subject, history,
          if !isCorrect && Truthy(lastSubTopic) then lastSubTopic else None,
          Some(NextDifficulty(lastDifficulty, isCorrect, correctStreak)))
  }

  /** The staged search of `selectNextQuestion`: the first match of the
      full query, else of the query without the sub-topic, else of the
      query without the difficulty either. */
  function Selection(store: seq<Question>, subject: string, history: seq<ObjectId>, correctStreak: nat,
                     lastDifficulty: Difficulty, lastSubTopic: Option<string>, isCorrect: bool): Option<Question>
  {
    var q1 := FirstQuery(subject, history, lastDifficulty, lastSubTopic, isCorrect, correctStreak);
    var q2 := q1.(subTopic := None);
    var q3 := q2.(difficulty := None);
    if FirstMatch(store, q1).Some? then FirstMatch(store, q1)
    else if FirstMatch(store, q2).Some? then FirstMatch(store, q2)
    else FirstMatch(store, q3)
  }

  /** `r` is what the staged search returns: the first match of the full
      query when there is one, else the first match without the
      sub-topic, else the first match without the difficulty either. */
  ghost predicate IsSelection(store: seq<Question>, subject: string, history: seq<ObjectId>, correctStreak: nat,
                              lastDifficulty: Difficulty, lastSubTopic: Option<string>, isCorrect: bool,
                              r: Option<Question>)
  {
    var q1 := FirstQuery(subject, history, lastDifficulty, lastSubTopic, isCorrect, correctStreak);
    var q2 := q1.(subTopic := None);
    var q3 := q2.(difficulty := None);
    && (HasMatch(store, q1) ==> IsFirstMatch(store, q1, r))
    && (!HasMatch(store, q1) && HasMatch(store, q2) ==> IsFirstMatch(store, q2, r))
    && (!HasMatch(store, q1) && !HasMatch(store, q2) ==> IsFirstMatch(store, q3, r))
  }

  /** The staged search meets the declarative description of each stage. */
  lemma SelectionStages(store: seq<Question>, subject: string, history: seq<ObjectId>, correctStreak: nat,
                        lastDifficulty: Difficulty, lastSubTopic: Option<string>, isCorrect: bool)
    ensures IsSelection(store, subject, history, correctStreak, lastDifficulty, lastSubTopic, isCorrect,
                        Selection(store, subject, history, correctStreak, lastDifficulty, lastSubTopic, isCorrect))
  {
    var q1 := FirstQuery(subject, history, lastDifficulty, lastSubTopic, isCorrect, correctStreak);
    FirstMatchIsFirst(store, q1);
    FirstMatchIsFirst(store, q1.(subTopic := None));
    FirstMatchIsFirst(store, q1.(subTopic := None).(difficulty := None));
  }

  /** The staged search sends an unseen question of the subject, and
      finds nothing exactly when every question of the subject has been
      seen. */
  lemma SelectionSound(store: seq<Question>, subject: string, history: seq<ObjectId>, correctStreak: nat,
                       lastDifficulty: Difficulty, lastSubTopic: Option<string>, isCorrect: bool)
    ensures var r := Selection(store, subject, history, correctStreak, lastDifficulty, lastSubTopic, isCorrect);
            && (r.Some? ==> r.value in store && r.value.subject == subject && r.value.id !in history)
            && (r.None? <==> forall i :: 0 <= i < |store| ==> store[i].subject != subject || store[i].id in history)
  {
    var q3 := FirstQuery(subject, history, lastDifficulty, lastSubTopic, isCorrect, correctStreak)
                .(subTopic := None).(difficulty := None);
    if FirstMatch(store, q3).None? {
      forall i | 0 <= i < |store|
        ensures store[i].subject != subject || store[i].id in history
      {
        assert !Matches(store[i], q3);
      }
    }
  }

  /** `selectNextQuestion`: query by subject, unseen, target difficulty
      and (after a miss) the last sub-topic; then drop the sub-topic;
      then drop the difficulty. */
  method SelectNextQuestion(store: seq<Question>, subject: string, history: seq<ObjectId>, correctStreak: nat,
                            lastDifficulty: Difficulty, lastSubTopic: Option<string>, isCorrect: bool)
    returns (r: Option<Question>)
    ensures r == Selection(store, subject, history, correctStreak, lastDifficulty, lastSubTopic, isCorrect)
  {
    var queryOptions := FirstQuery(subject, history, lastDifficulty, lastSubTopic, isCorrect, correctStreak);
    r := FindOne(store, queryOptions);
    if r.None? {
      queryOptions := queryOptions.(subTopic := None);
      r := FindOne(store, queryOptions);
    }
    if r.None? {
      queryOptions := queryOptions.(difficulty := None);
      r := FindOne(store, queryOptions);
    }
  }

  // ---------------------------------------------------------------------
  // Dialogue and validation
  // ---------------------------------------------------------------------

  datatype DialogueLine = DialogueLine(text: string, audioUrl: Option<string>)

  /** The silent line returned for an unknown or empty trigger. */
  const SilentLine := DialogueLine("...", None)

  /** `getDevilDialogue`: one of the trigger's lines, chosen by `pick`
      (standing for the random draw), or the silent line. */
  function DevilDialogue(catalog: map<string, seq<DialogueLine>>, trigger: string, pick: nat): (r: DialogueLine)
    ensures (trigger !in catalog || catalog[trigger] == []) ==> r == SilentLine
    ensures trigger in catalog && catalog[trigger] != [] ==> r in catalog[trigger]
  {
    var lines := if trigger in catalog then catalog[trigger] else [];
    if |lines| == 0 then SilentLine else lines[pick % |lines|]
  }

  /** Every line of a trigger can be drawn. */
  lemma DialogueReachable(catalog: map<string, seq<DialogueLine>>, trigger: string, k: nat)
    requires trigger in catalog && k < |catalog[trigger]|
    ensures exists pick: nat :: DevilDialogue(catalog, trigger, pick) == catalog[trigger][k]
  {
    assert DevilDialogue(catalog, trigger, k) == catalog[trigger][k];
  }

  /** What `validateAnswer` does with an answer: it grades it, or it throws
      because `toString` is called on a missing value. */
  datatype Validation = Graded(isCorrect: bool) | Threw

  /** `validateAnswer`: only multiple-choice and integer questions are
      graded, by exact equality of the stringified answers; code and
      description answers are always incorrect. On a graded type a missing
      answer or a missing `correctAnswer` makes `toString` throw. */
  function ValidateAnswer(answer: Option<string>, q: Question): (r: Validation)
    ensures r.Threw? <==> (q.qtype == Mcq || q.qtype == Integer) && (answer.None? || q.correctAnswer.None?)
    ensures r == Graded(true) <==> (q.qtype == Mcq || q.qtype == Integer) && answer.Some? && answer == q.correctAnswer
    ensures q.qtype == Code || q.qtype == Description ==> r == Graded(false)
  {
    match q.qtype
    case Code | Description => Graded(false)
    case Mcq | Integer =>
      if answer.None? || q.correctAnswer.None? then Threw
      else Graded(answer.value == q.correctAnswer.value)
  }

  /** Grading the stored answer itself succeeds exactly on graded types, and
      only an answer equal to it is correct there. */
  lemma OnlyTheStoredAnswerIsCorrect(answer: string, q: Question)
    requires q.qtype == Mcq || q.qtype == Integer
    requires q.correctAnswer.Some?
    ensures ValidateAnswer(q.correctAnswer, q) == Graded(true)
    ensures ValidateAnswer(Some(answer), q) == Graded(answer == q.correctAnswer.value)
  {
  }
}
