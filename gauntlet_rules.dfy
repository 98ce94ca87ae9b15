/** The pure rules of the gauntlet controller: difficulty progression,
    ranks, XP and effects, progress bookkeeping, timeout dialogue,
    punishments and the end-of-session summary. */
module GauntletRules {
  import opened Common
  import opened QuestionModel
  import opened UserModel
  import opened SessionModel
  import opened AiServices

  // ---------------------------------------------------------------------
  // Difficulty progression
  // ---------------------------------------------------------------------

  /** The session's difficulty and streak counters after one answer. */
  datatype DifficultyStep = DifficultyStep(
    difficulty: Difficulty,
    consecutiveCorrect: nat,
    consecutiveIncorrect: nat,
    changed: bool)

  /** The progression policy: a correct answer extends the correct run and
      clears the miss run, a miss the other way round. Easy moves up after
      5 correct in a row and medium after 4; hard drops after one miss and
      medium after 2. A move resets the run that caused it, moves exactly
      one level, and never happens at the ceiling (hard, correct) or at the
      floor (easy, miss) or from an unrecognised difficulty. */
  function Advance(d: Difficulty, cc: nat, ci: nat, isCorrect: bool): (st: DifficultyStep)
    ensures isCorrect ==> st.consecutiveIncorrect == 0
    ensures !isCorrect ==> st.consecutiveCorrect == 0
    ensures isCorrect ==> (st.changed <==> (d == Easy && cc + 1 >= 5) || (d == Medium && cc + 1 >= 4))
    ensures !isCorrect ==> (st.changed <==> d == Hard || (d == Medium && ci + 1 >= 2))
    ensures st.changed ==>
              && st.consecutiveCorrect == 0 && st.consecutiveIncorrect == 0
              && IsSchemaDifficulty(st.difficulty)
              && Level(st.difficulty) == Level(d) + (if isCorrect then 1 else -1)
    ensures !st.changed ==>
              && st.difficulty == d
              && (isCorrect ==> st.consecutiveCorrect == cc + 1)
              && (!isCorrect ==> st.consecutiveIncorrect == ci + 1)
  {
    if isCorrect then
      var c := cc + 1;
      if d == Easy && c >= 5 then DifficultyStep(Medium, 0, 0, true)
      else if d == Medium && c >= 4 then DifficultyStep(Hard, 0, 0, true)
      else DifficultyStep(d, c, 0, false)
    else
      var i := ci + 1;
      if d == Hard && i >= 1 then DifficultyStep(Medium, 0, 0, true)
      else if d == Medium && i >= 2 then DifficultyStep(Easy, 0, 0, true)
      else DifficultyStep(d, 0, i, false)
  }

  /** The policy applied to a run of answers. */
  function Run(d: Difficulty, cc: nat, ci: nat, answers: seq<bool>): DifficultyStep
    decreases |answers|
  {
    if answers == [] then DifficultyStep(d, cc, ci, false)
    else
      var st := Advance(d, cc, ci, answers[0]);
      Run(st.difficulty, st.consecutiveCorrect, st.consecutiveIncorrect, answers[1..])
  }

  /** Five correct answers from a fresh easy session promote to medium,
      not two levels, and the run counter starts over. */
  lemma FiveCorrectFromEasy()
    ensures Run(Easy, 0, 0, [true, true, true, true, true]) == DifficultyStep(Medium, 0, 0, false)
    ensures Run(Easy, 0, 0, [true, true, true, true]).difficulty == Easy
  {
  }

  /** Under the policy a run of k answers never moves more than k levels
      and never leaves the three schema difficulties. */
  lemma {:induction false} RunMovesAtMostOnePerAnswer(d: Difficulty, cc: nat, ci: nat, answers: seq<bool>)
    requires IsSchemaDifficulty(d)
    ensures IsSchemaDifficulty(Run(d, cc, ci, answers).difficulty)
    ensures -|answers| <= Level(Run(d, cc, ci, answers).difficulty) - Level(d) <= |answers|
    decreases |answers|
  {
    if answers != [] {
      var st := Advance(d, cc, ci, answers[0]);
      RunMovesAtMostOnePerAnswer(st.difficulty, st.consecutiveCorrect, st.consecutiveIncorrect, answers[1..]);
    }
  }

  // ---------------------------------------------------------------------
  // Ranks
  // ---------------------------------------------------------------------

  /** `RANK_THRESHOLDS`, iterated in ascending key order. */
  const RankThresholds: seq<(int, string)> := [(1, "Novice"), (5, "Code Imp"), (10, "Byte Fiend"), (20, "Code Devil")]

  /** `rank` is the name of the largest threshold not above `level`, or
      "Novice" when the level is below every threshold. */
  ghost predicate IsRankFor(level: int, rank: string)
  {
    || (level < RankThresholds[0].0 && rank == "Novice")
    || exists k :: 0 <= k < |RankThresholds| && RankThresholds[k].0 <= level && rank == RankThresholds[k].1
                   && forall j :: k < j < |RankThresholds| ==> RankThresholds[j].0 > level
  }

  /** The rank of a level, highest threshold first. */
  function RankFor(level: int): string
  {
    if level >= 20 then "Code Devil"
    else if level >= 10 then "Byte Fiend"
    else if level >= 5 then "Code Imp"
    else "Novice"
  }

  /** `RankFor` names the rank `IsRankFor` describes. */
  lemma RankForIsRank(level: int)
    ensures IsRankFor(level, RankFor(level))
  {
    var k := if level >= 20 then 3 else if level >= 10 then 2 else if level >= 5 then 1 else 0;
    if level >= 1 {
      assert RankThresholds[k].0 <= level && RankFor(level) == RankThresholds[k].1;
    }
  }

  /** `getRankForLevel`. */
  method GetRankForLevel(level: int) returns (currentRank: string)
    ensures IsRankFor(level, currentRank)
    ensures currentRank == RankFor(level)
  {
    currentRank := "Novice";
    ghost var found: int := -1;
    for i := 0 to |RankThresholds|
      invariant -1 <= found < i
      invariant found == -1 ==> currentRank == "Novice" && forall j :: 0 <= j < i ==> RankThresholds[j].0 > level
      invariant found >= 0 ==> RankThresholds[found].0 <= level && currentRank == RankThresholds[found].1
      invariant found >= 0 ==> forall j :: found < j < i ==> RankThresholds[j].0 > level
    {
      if level >= RankThresholds[i].0 {
        currentRank := RankThresholds[i].1;
        found := i;
      }
    }
    RankForIsRank(level);
    RankUnique(level, currentRank, RankFor(level));
  }

  /** The rank is a function of the level. */
  lemma RankUnique(level: int, r1: string, r2: string)
    requires IsRankFor(level, r1) && IsRankFor(level, r2)
    ensures r1 == r2
  {
    var n := |RankThresholds|;
    if level >= RankThresholds[0].0 {
      var k1 :| 0 <= k1 < n && RankThresholds[k1].0 <= level && r1 == RankThresholds[k1].1
                && forall j :: k1 < j < n ==> RankThresholds[j].0 > level;
      var k2 :| 0 <= k2 < n && RankThresholds[k2].0 <= level && r2 == RankThresholds[k2].1
                && forall j :: k2 < j < n ==> RankThresholds[j].0 > level;
      assert k1 == k2;
    }
  }

  // ---------------------------------------------------------------------
  // XP and effects
  // ---------------------------------------------------------------------

  /** `XP_VALUES[difficulty] || 10`. Only the three schema difficulties
      are own keys of `XP_VALUES`; an `Other` name gets 10 here, although a
      name such as "constructor" or "toString" finds an inherited member of
      the plain object in the source and yields NaN XP. Such a name is
      outside the schema's enumeration. */
  function XpValue(d: Difficulty): (xp: nat)
    ensures 10 <= xp <= 50
  {
    match d
    case Easy => 10
    case Medium => 25
    case Hard => 50
    case Other(_) => 10
  }

  /** `Math.round(base * halves / 2)`: the nearest integer, halves rounded
      up. */
  function RoundedXp(base: nat, halves: nat): (g: nat)
    ensures 2 * g <= base * halves + 1 < 2 * g + 2
  {
    (base * halves + 1) / 2
  }

  lemma RoundingExamples()
    ensures RoundedXp(25, 3) == 38 && RoundedXp(25, 1) == 13 && RoundedXp(50, 3) == 75
  {
  }

  /** Five minutes on the millisecond clock. */
  const EffectDuration := 5 * 60 * 1000

  /** An effect with a type whose expiry lies in the future. */
  predicate EffectActive(e: ActiveEffect, now: int)
  {
    e.kind != NoEffect && e.expiresAt.Some? && e.expiresAt.value > now
  }

  /** An effect with a type whose expiry has passed. */
  predicate EffectExpired(e: ActiveEffect, now: int)
  {
    e.kind != NoEffect && e.expiresAt.Some? && e.expiresAt.value <= now
  }

  /** The multiplier, in halves, applied to a correct answer's XP. */
  function ModifierHalves(e: ActiveEffect, now: int): nat
  {
    if EffectActive(e, now) then e.modifierHalves else 2
  }

  /** The XP a correct answer earns. */
  function XpFor(d: Difficulty, e: ActiveEffect, now: int): (g: nat)
    ensures EffectWellFormed(e) ==> 5 <= g <= 75
    ensures !EffectActive(e, now) ==> g == XpValue(d)
  {
    RoundedXp(XpValue(d), ModifierHalves(e, now))
  }

  const ClearedEffect := ActiveEffect(NoEffect, None, 2, None)

  function BlessingFrom(now: int): ActiveEffect
  {
    ActiveEffect(Blessing, Some("Feverish Focus"), 3, Some(now + EffectDuration))
  }

  function CurseFrom(now: int): ActiveEffect
  {
    ActiveEffect(Curse, Some("Crippling Doubt"), 1, Some(now + EffectDuration))
  }

  /** The effect after a correct answer whose new streak is `streak`: an
      expired effect is cleared; then a blessing starts when the streak is
      exactly 5 and no effect type is set. */
  function EffectAfterCorrect(e: ActiveEffect, now: int, streak: nat): (r: ActiveEffect)
    ensures EffectWellFormed(e) ==> EffectWellFormed(r)
    ensures r.kind == Blessing && r != e ==> streak == 5 && (e.kind == NoEffect || EffectExpired(e, now))
    ensures EffectActive(e, now) ==> r == e
    ensures streak != 5 ==> r == if EffectExpired(e, now) then ClearedEffect else e
  {
    var cleared := if EffectExpired(e, now) then ClearedEffect else e;
    if streak == 5 && cleared.kind == NoEffect then BlessingFrom(now) else cleared
  }

  /** The effect after a miss that leaves `strikesLeft` strikes: a curse
      starts when one strike is left and no effect type is set, expired or
      not. */
  function EffectAfterMiss(e: ActiveEffect, now: int, strikesLeft: int): (r: ActiveEffect)
    ensures EffectWellFormed(e) ==> EffectWellFormed(r)
    ensures r != e <==> strikesLeft == 1 && e.kind == NoEffect
    ensures r != e ==> r == CurseFrom(now)
  {
    if strikesLeft == 1 && e.kind == NoEffect then CurseFrom(now) else e
  }

  /** An effect that is in force is never replaced by a blessing or a
      curse. */
  lemma ActiveEffectNeverOverwritten(e: ActiveEffect, now: int, streak: nat, strikesLeft: int)
    requires EffectActive(e, now)
    ensures EffectAfterCorrect(e, now, streak) == e
    ensures EffectAfterMiss(e, now, strikesLeft) == e
  {
  }

  // ---------------------------------------------------------------------
  // Per-topic progress
  // ---------------------------------------------------------------------

  /** `subject-subTopic` when the question has a sub-topic, else the
      subject. */
  function ProgressKey(q: Question): string
  {
    if Truthy(q.subTopic) then q.subject + "-" + q.subTopic.value else q.subject
  }

  function Bump(e: ProgressEntry, correct: bool): ProgressEntry
  {
    e.(correct := e.correct + (if correct then 1 else 0), totalAttempted := e.totalAttempted + 1)
  }

  /** Record one attempt under `key`, starting a missing key at {0, 0}. */
  function RecordAttempt(p: Progress, key: string, correct: bool): Progress
  {
    Set(p, key, Bump(EntryOrNew(p, key), correct))
  }

  /** The entry recording starts from: the stored one, or {0, 0}. */
  function EntryOrNew(p: Progress, key: string): ProgressEntry
  {
    var e := Lookup(p, key);
    if e.Some? then e.value else NewEntry
  }

  /** Recording an attempt keeps the keys distinct and in insertion
      order, adding a new key at the end. */
  lemma RecordAttemptKeys(p: Progress, key: string, correct: bool)
    requires DistinctKeys(p)
    ensures var r := RecordAttempt(p, key, correct);
            && DistinctKeys(r)
            && Keys(r) == (if key in Keys(p) then Keys(p) else Keys(p) + [key])
  {
    SetKeys(p, key, Bump(EntryOrNew(p, key), correct));
  }

  /** The recorded key has one attempt more, and one correct answer more
      exactly when the answer was right; its mastery flag is kept. */
  lemma RecordAttemptEntry(p: Progress, key: string, correct: bool)
    requires DistinctKeys(p)
    ensures var r := RecordAttempt(p, key, correct);
            var before := EntryOrNew(p, key);
            && Lookup(r, key).Some?
            && Lookup(r, key).value.totalAttempted == before.totalAttempted + 1
            && Lookup(r, key).value.correct == before.correct + (if correct then 1 else 0)
            && Lookup(r, key).value.mastered == before.mastered
  {
    LookupAfterSet(p, key, Bump(EntryOrNew(p, key), correct), key);
  }

  /** Every other key keeps its entry. */
  lemma RecordAttemptOther(p: Progress, key: string, correct: bool, other: string)
    requires DistinctKeys(p) && other != key
    ensures Lookup(RecordAttempt(p, key, correct), other) == Lookup(p, other)
  {
    LookupAfterSet(p, key, Bump(EntryOrNew(p, key), correct), other);
  }

  /** Recording preserves correct <= totalAttempted for every entry. */
  lemma RecordAttemptConsistent(p: Progress, key: string, correct: bool)
    requires DistinctKeys(p) && Consistent(p)
    ensures Consistent(RecordAttempt(p, key, correct))
  {
    var start := EntryOrNew(p, key);
    if Lookup(p, key).Some? {
      LookupAt(p, IndexOf(p, key));
    }
    SetKeepsConsistent(p, key, Bump(start, correct));
  }

  // ---------------------------------------------------------------------
  // Dialogue, punishment, summary
  // ---------------------------------------------------------------------

  const TimeoutFallback := "Time's up! Speed up or face my wrath!"

  /** The timeout table: a line per schema difficulty and question type
      for mcq, integer and code; no entry otherwise. */
  function TimeoutMessage(d: Difficulty, t: QuestionType): (m: Option<string>)
    ensures m.None? <==> d.Other? || t == Description
  {
    if t == Description then None
    else match d
      case Easy =>
        Some(match t
             case Mcq => "Too slow! Even a sloth could pick faster than that!"
             case Integer => "Time's up! Your calculations need more speed, mortal!"
             case _ => "Timeout! Your coding fingers are as slow as your brain!")
      case Medium =>
        Some(match t
             case Mcq => "Time expired! Speed is as important as accuracy in my realm!"
             case Integer => "Too sluggish! Mathematical prowess requires swift thinking!"
             case _ => "Code timeout! Your programming pace disappoints me greatly!")
      case Hard =>
        Some(match t
             case Mcq => "Pathetically slow! Elite minds don't hesitate this long!"
             case Integer => "Time's up! Advanced problems demand rapid solutions!"
             case _ => "Coding timeout! Four minutes should be plenty for a competent programmer!")
      case Other(_) => None
  }

  /** `getTimeoutDialogue`: the table's line, or the fallback line when
      the table has none; never with audio. */
  function TimeoutDialogue(d: Difficulty, t: QuestionType): (r: DialogueLine)
    ensures r.audioUrl == None
    ensures d.Other? || t == Description ==> r.text == TimeoutFallback
    ensures TimeoutMessage(d, t).Some? ==> r.text == TimeoutMessage(d, t).value
  {
    var m := TimeoutMessage(d, t);
    DialogueLine(if m.Some? then m.value else TimeoutFallback, None)
  }

  datatype Penance = Penance(task: string, quote: string)

  const FallbackPenance := Penance(
    "Reflect on your coding mistakes and try again with renewed determination.",
    "Even the devil's files can sometimes be corrupted. Learn from this failure.")

  /** `generatePunishment`: `catalog` is the penance file's contents, or
      None when it cannot be read or parsed; `pick` stands for the random
      draw. An empty catalog yields `undefined`. */
  function Punishment(catalog: Option<seq<Penance>>, pick: nat): (r: Option<Penance>)
    ensures catalog.None? ==> r == Some(FallbackPenance)
    ensures catalog == Some([]) ==> r == None
    ensures catalog.Some? && catalog.value != [] ==> r.Some? && r.value in catalog.value
  {
    match catalog
    case None => Some(FallbackPenance)
    case Some(c) => if c == [] then None else Some(c[pick % |c|])
  }

  /** 1, 2 or 3 for an entry of the progression log (anything but easy
      and medium counts as 3). */
  function EventLevel(e: ProgressionEvent): int
  {
    if e.difficulty == Easy then 1 else if e.difficulty == Medium then 2 else 3
  }

  /** The summary's `highestDifficulty`: the largest level among the logged
      changes, 1 when nothing was logged. The session's starting
      difficulty does not enter. */
  function HighestDifficulty(log: seq<ProgressionEvent>): (h: int)
    ensures 1 <= h <= 3
    ensures forall i :: 0 <= i < |log| ==> EventLevel(log[i]) <= h
    ensures log != [] ==> exists i :: 0 <= i < |log| && EventLevel(log[i]) == h
    ensures log == [] ==> h == 1
  {
    if log == [] then 1
    else
      var rest := HighestDifficulty(log[1..]);
      var here := EventLevel(log[0]);
      assert forall i :: 1 <= i < |log| ==> log[i] == log[1..][i - 1];
      if here >= rest then here else rest
  }

  /** `Math.round((end - start) / 1000)` on millisecond clock readings. */
  function DurationSeconds(start: int, end: int): (sec: int)
    ensures 1000 * sec - 500 <= end - start < 1000 * sec + 500
  {
    (end - start + 500) / 1000
  }

  datatype Summary = Summary(
    questionsCompleted: int,
    correctAnswers: nat,
    incorrectAnswers: nat,
    finalScore: int,
    totalXpGained: int,
    maxCorrectStreak: nat,
    sessionDuration: int,
    completionReason: CompletionReason,
    highestDifficulty: int)

  /** The dialogue a handler answers with: one of the fixed lines it
      builds itself, a catalog trigger, or a timeout line. */
  datatype Feedback =
    | BlessingGranted
    | CurseInflicted
    | LevelReached(level: int, rank: string)
    | Promoted(to: Difficulty)
    | Demoted(to: Difficulty)
    | Trigger(name: string)
    | TimeoutLine(line: DialogueLine)

  function UpperChar(c: char): char
  {
    if 'a' <= c <= 'z' then (c as int - 32) as char else c
  }

  /** `toUpperCase` on ASCII letters. */
  function ToUpper(s: string): (r: string)
    ensures |r| == |s|
    ensures forall i :: 0 <= i < |s| ==> r[i] == UpperChar(s[i])
  {
    if s == [] then [] else [UpperChar(s[0])] + ToUpper(s[1..])
  }

  /** `CORRECT_ANSWER_<DIFFICULTY>` or `INCORRECT_ANSWER_<DIFFICULTY>`. */
  function AnswerTrigger(isCorrect: bool, d: Difficulty): string
  {
    (if isCorrect then "CORRECT_ANSWER_" else "INCORRECT_ANSWER_") + ToUpper(DifficultyName(d))
  }
}
