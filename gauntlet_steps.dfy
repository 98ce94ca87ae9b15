/** The gauntlet handlers as steps on the values of the session and user
    documents: what an answer, a timeout and a quit do to the two
    records, and what each sends back. The handlers in
    `GauntletController` are proved to perform exactly these steps; the
    lemmas here state what the steps promise. */
module GauntletSteps {
  import opened Common
  import opened QuestionModel
  import opened UserModel
  import opened SessionModel
  import opened AiServices
  import opened GauntletRules

  /** The response of a handler. */
  datatype Outcome =
    | NotFound
    | NotAuthorized
    | SessionOver
    | GameOver(feedback: Feedback, punishment: Option<Penance>, summary: Summary)
    | SessionComplete(feedback: Feedback, summary: Summary)
    | NextQuestion(feedback: Feedback, question: Question)
    | Quit(summary: Summary)
    | ServerError
  {
    predicate Rejected()
    {
      NotFound? || NotAuthorized? || SessionOver?
    }
  }

  datatype StartOutcome = NoQuestionFound | Started(question: Question)

  // ---------------------------------------------------------------------
  // Difficulty progression
  // ---------------------------------------------------------------------

  /** The session after `updateDifficultyProgression`, and whether the
      difficulty moved. */
  datatype Progression = Progression(session: SessionState, changed: bool)

  function DifficultyUpdate(s: SessionState, isCorrect: bool): Progression
  {
    var st := Advance(s.currentDifficulty, s.consecutiveCorrect, s.consecutiveIncorrect, isCorrect);
    var reason := if isCorrect then PromotedForStreak else DemotedForMistakes;
    Progression(
      s.(currentDifficulty := st.difficulty,
         consecutiveCorrect := st.consecutiveCorrect,
         consecutiveIncorrect := st.consecutiveIncorrect,
         difficultyProgression := s.difficultyProgression +
           (if st.changed then [ProgressionEvent(s.currentQuestionIndex, st.difficulty, reason)] else [])),
      st.changed)
  }

  /** A difficulty change is logged exactly when it happens, as one event
      at the current question index naming the new difficulty, one level
      up after a correct answer and one level down after a miss; nothing
      else in the session changes. */
  lemma DifficultyUpdateLog(s: SessionState, isCorrect: bool)
    ensures var p := DifficultyUpdate(s, isCorrect);
            && (p.changed <==> |p.session.difficultyProgression| == |s.difficultyProgression| + 1)
            && (!p.changed ==> p.session.difficultyProgression == s.difficultyProgression
                               && p.session.currentDifficulty == s.currentDifficulty)
            && (p.changed ==>
                  var e := p.session.difficultyProgression[|s.difficultyProgression|];
                  && e.questionIndex == s.currentQuestionIndex
                  && e.difficulty == p.session.currentDifficulty
                  && e.reason == (if isCorrect then PromotedForStreak else DemotedForMistakes)
                  && Level(e.difficulty) == Level(s.currentDifficulty) + (if isCorrect then 1 else -1))
            && p.session.(currentDifficulty := s.currentDifficulty, consecutiveCorrect := s.consecutiveCorrect,
                          consecutiveIncorrect := s.consecutiveIncorrect,
                          difficultyProgression := s.difficultyProgression) == s
  {
  }

  // ---------------------------------------------------------------------
  // Scoring an answer
  // ---------------------------------------------------------------------

  /** The two records after a scoring step, with the line it produced. */
  datatype Scoring = Scoring(session: SessionState, user: UserState, dialogue: Option<Feedback>)

  function CountCorrectStep(s: SessionState): SessionState
  {
    var streak := s.correctStreak + 1;
    s.(correctAnswers := s.correctAnswers + 1, correctStreak := streak,
       maxCorrectStreak := if s.maxCorrectStreak >= streak then s.maxCorrectStreak else streak)
  }

  function AwardXpSession(s: SessionState, gained: nat): SessionState
  {
    s.(score := s.score + gained, totalXpGained := s.totalXpGained + gained)
  }

  /** The user after an expired effect is cleared. */
  function ExpiryCleared(u: UserState, now: int): UserState
  {
    u.(activeEffect := if EffectExpired(u.activeEffect, now) then ClearedEffect else u.activeEffect)
  }

  function AwardXpUser(u: UserState, gained: nat, now: int): UserState
  {
    ExpiryCleared(u, now).(xp := u.xp + gained, correctAnswers := u.correctAnswers + 1)
  }

  function Recorded(u: UserState, key: string, correct: bool): UserState
  {
    u.(progress := RecordAttempt(u.progress, key, correct))
  }

  /** Recording an attempt keeps the user invariant. */
  lemma RecordedKeepsInv(u: UserState, key: string, correct: bool)
    requires UserInv(u)
    ensures UserInv(Recorded(u, key, correct))
  {
    RecordAttemptKeys(u.progress, key, correct);
    RecordAttemptConsistent(u.progress, key, correct);
  }

  function Blessed(u: UserState, streak: nat, now: int): UserState
  {
    if streak == 5 && u.activeEffect.kind == NoEffect then u.(activeEffect := BlessingFrom(now)) else u
  }

  function Leveled(u: UserState): UserState
  {
    if u.xp >= u.xpToNextLevel then
      var level := u.level + 1;
      u.(level := level, xp := u.xp - u.xpToNextLevel, xpToNextLevel := level * 150, rank := RankFor(level))
    else u
  }

  /** A correct answer: counters and streaks, XP under the effect in
      force (an expired effect is cleared), progress, blessing, level-up.
      The line is the level-up line, else the blessing line. */
  function CorrectStep(s: SessionState, u: UserState, q: Question, now: int): Scoring
  {
    var s1 := CountCorrectStep(s);
    var gained := XpFor(q.difficulty, u.activeEffect, now);
    var s2 := AwardXpSession(s1, gained);
    var u1 := Recorded(AwardXpUser(u, gained, now), ProgressKey(q), true);
    var blessed := s2.correctStreak == 5 && u1.activeEffect.kind == NoEffect;
    var u2 := Blessed(u1, s2.correctStreak, now);
    var leveled := u2.xp >= u2.xpToNextLevel;
    var u3 := Leveled(u2);
    Scoring(s2, u3, if leveled then Some(LevelReached(u3.level, u3.rank))
                    else if blessed then Some(BlessingGranted) else None)
  }

  function CountMissStep(s: SessionState): SessionState
  {
    s.(incorrectAnswers := s.incorrectAnswers + 1, strikesLeft := s.strikesLeft - 1, correctStreak := 0)
  }

  /** A wrong answer: counters, progress, and the curse when one strike
      is left and no effect type is set. */
  function MissStep(s: SessionState, u: UserState, q: Question, now: int): Scoring
  {
    var s1 := CountMissStep(s);
    var u1 := Recorded(u, ProgressKey(q), false);
    if s1.correctStreak == 0 && s1.strikesLeft == 1 && u1.activeEffect.kind == NoEffect
    then Scoring(s1, u1.(activeEffect := CurseFrom(now)), Some(CurseInflicted))
    else Scoring(s1, u1, None)
  }

  /** The scoring step of a correct or a wrong answer. */
  function ScoreStep(s: SessionState, u: UserState, q: Question, isCorrect: bool, now: int): Scoring
  {
    if isCorrect then CorrectStep(s, u, q, now) else MissStep(s, u, q, now)
  }

  /** The records after grading, the verdict and the feedback. */
  datatype Grading = Grading(session: SessionState, user: UserState, isCorrect: bool, feedback: Feedback)

  /** Grading one answer: score it, apply the progression policy, pick
      the feedback, and move the question index on. */
  function GradeStep(s: SessionState, u: UserState, q: Question, answer: Option<string>, now: int): Grading
    requires ValidateAnswer(answer, q).Graded?
  {
    var ok := ValidateAnswer(answer, q).isCorrect;
    var sc := ScoreStep(s, u, q, ok, now);
    var p := DifficultyUpdate(sc.session, ok);
    var line := if p.changed && sc.dialogue.None?
                then Some(if ok then Promoted(p.session.currentDifficulty) else Demoted(p.session.currentDifficulty))
                else sc.dialogue;
    Grading(p.session.(currentQuestionIndex := p.session.currentQuestionIndex + 1), sc.user, ok,
            if line.Some? then line.value else Trigger(AnswerTrigger(ok, q.difficulty)))
  }

  /** The statistics after grading: a correct answer adds one correct
      answer and one to the streak (raising the best streak to it when
      beaten) and earns `XpFor` the question's difficulty under the effect
      in force, added alike to the user's XP (net of at most one
      threshold), the score and the session's XP; a miss adds one wrong
      answer, takes a strike, breaks the streak and earns nothing. The
      question index moves on and the answer is recorded under the
      question's progress key. */
  lemma GradeStats(s: SessionState, u: UserState, q: Question, answer: Option<string>, now: int)
    requires ValidateAnswer(answer, q).Graded?
    ensures var g := GradeStep(s, u, q, answer, now);
            var ok := g.isCorrect;
            var gained := if ok then XpFor(q.difficulty, u.activeEffect, now) else 0;
            && ok == ValidateAnswer(answer, q).isCorrect
            && g.session.correctAnswers == s.correctAnswers + (if ok then 1 else 0)
            && g.session.incorrectAnswers == s.incorrectAnswers + (if ok then 0 else 1)
            && g.session.strikesLeft == s.strikesLeft - (if ok then 0 else 1)
            && g.session.correctStreak == (if ok then s.correctStreak + 1 else 0)
            && g.session.maxCorrectStreak == (if g.session.correctStreak > s.maxCorrectStreak
                                              then g.session.correctStreak else s.maxCorrectStreak)
            && g.session.score == s.score + gained
            && g.session.totalXpGained == s.totalXpGained + gained
            && g.session.currentQuestionIndex == s.currentQuestionIndex + 1
            && g.user.correctAnswers == u.correctAnswers + (if ok then 1 else 0)
            && (g.user.xp == u.xp + gained || g.user.xp == u.xp + gained - u.xpToNextLevel)
            && g.user.progress == RecordAttempt(u.progress, ProgressKey(q), ok)
            && g.session.questionHistory == s.questionHistory
            && g.session.isActive == s.isActive
            && g.session.completionReason == s.completionReason
            && g.session.sessionEndTime == s.sessionEndTime
            && g.user.maxSessionStreak == u.maxSessionStreak
  {
  }

  /** The level after grading: a correct answer whose XP reaches the
      threshold gains exactly one level, keeps the XP above the old
      threshold, sets the threshold to 150 times the new level and takes
      the rank of that level; otherwise level, XP threshold and rank are
      kept. */
  lemma GradeLevel(s: SessionState, u: UserState, q: Question, answer: Option<string>, now: int)
    requires ValidateAnswer(answer, q).Graded?
    ensures var g := GradeStep(s, u, q, answer, now);
            var x := u.xp + (if g.isCorrect then XpFor(q.difficulty, u.activeEffect, now) else 0);
            if g.isCorrect && x >= u.xpToNextLevel then
              && g.user.level == u.level + 1
              && g.user.xp == x - u.xpToNextLevel
              && g.user.xpToNextLevel == 150 * g.user.level
              && IsRankFor(g.user.level, g.user.rank)
            else
              && g.user.level == u.level && g.user.xp == x
              && g.user.xpToNextLevel == u.xpToNextLevel && g.user.rank == u.rank
  {
    RankForIsRank(u.level + 1);
  }

  /** The effect after grading: after a correct answer an expired effect
      is cleared and a blessing starts at a streak of exactly five when
      no effect type is left; after a miss a curse starts when one strike
      is left and no effect type is set. */
  lemma GradeEffect(s: SessionState, u: UserState, q: Question, answer: Option<string>, now: int)
    requires ValidateAnswer(answer, q).Graded?
    ensures var g := GradeStep(s, u, q, answer, now);
            g.user.activeEffect == (if g.isCorrect
                                    then EffectAfterCorrect(u.activeEffect, now, g.session.correctStreak)
                                    else EffectAfterMiss(u.activeEffect, now, g.session.strikesLeft))
  {
  }

  /** The difficulty after grading follows the progression policy, and a
      change is logged at the index of the answered question. */
  lemma GradeDifficulty(s: SessionState, u: UserState, q: Question, answer: Option<string>, now: int)
    requires ValidateAnswer(answer, q).Graded?
    ensures var g := GradeStep(s, u, q, answer, now);
            var st := Advance(s.currentDifficulty, s.consecutiveCorrect, s.consecutiveIncorrect, g.isCorrect);
            && g.session.currentDifficulty == st.difficulty
            && g.session.consecutiveCorrect == st.consecutiveCorrect
            && g.session.consecutiveIncorrect == st.consecutiveIncorrect
            && g.session.difficultyProgression == s.difficultyProgression +
                 (if st.changed
                  then [ProgressionEvent(s.currentQuestionIndex, st.difficulty,
                                         if g.isCorrect then PromotedForStreak else DemotedForMistakes)]
                  else [])
  {
  }

  /** The feedback of a correct answer, in order of precedence: the
      level-up line, the blessing line, the promotion line, and the
      catalog trigger for a correct answer at the question's difficulty. */
  lemma GradeFeedbackCorrect(s: SessionState, u: UserState, q: Question, answer: Option<string>, now: int)
    requires ValidateAnswer(answer, q) == Graded(true)
    ensures var g := GradeStep(s, u, q, answer, now);
            g.feedback ==
              if g.user.level != u.level then LevelReached(g.user.level, g.user.rank)
              else if g.user.activeEffect.kind == Blessing && g.user.activeEffect != u.activeEffect
              then BlessingGranted
              else if g.session.difficultyProgression != s.difficultyProgression
              then Promoted(g.session.currentDifficulty)
              else Trigger(AnswerTrigger(true, q.difficulty))
  {
    var s1 := CountCorrectStep(s);
    var gained := XpFor(q.difficulty, u.activeEffect, now);
    var u1 := Recorded(AwardXpUser(u, gained, now), ProgressKey(q), true);
    if s1.correctStreak == 5 && u1.activeEffect.kind == NoEffect {
      assert u1.activeEffect.kind != Blessing;
    }
  }

  /** The feedback of a wrong answer, in order of precedence: the curse
      line, the demotion line, and the catalog trigger for a wrong answer
      at the question's difficulty. */
  lemma GradeFeedbackMiss(s: SessionState, u: UserState, q: Question, answer: Option<string>, now: int)
    requires ValidateAnswer(answer, q) == Graded(false)
    ensures var g := GradeStep(s, u, q, answer, now);
            g.feedback ==
              if g.user.activeEffect != u.activeEffect then CurseInflicted
              else if g.session.difficultyProgression != s.difficultyProgression
              then Demoted(g.session.currentDifficulty)
              else Trigger(AnswerTrigger(false, q.difficulty))
  {
  }

  /** The user invariant survives grading: the XP of one answer is at most
      75, below every threshold, so one level-up restores xp below the
      new threshold; the effect stays well formed and the progress map
      consistent. */
  lemma GradeKeepsUserInv(s: SessionState, u: UserState, q: Question, answer: Option<string>, now: int)
    requires ValidateAnswer(answer, q).Graded? && UserInv(u)
    ensures UserInv(GradeStep(s, u, q, answer, now).user)
  {
    var ok := ValidateAnswer(answer, q).isCorrect;
    if ok {
      var gained := XpFor(q.difficulty, u.activeEffect, now);
      RecordedKeepsInv(u.(xp := 0, correctAnswers := u.correctAnswers + 1,
                          activeEffect := if EffectExpired(u.activeEffect, now) then ClearedEffect else u.activeEffect),
                       ProgressKey(q), true);
    } else {
      RecordedKeepsInv(u, ProgressKey(q), false);
    }
  }

  /** The session state between grading and the end-of-answer step:
      still active and unstamped, the counters within their bounds. */
  predicate ReadyToConclude(s: SessionState)
  {
    && 0 <= s.strikesLeft <= InitialStrikes && 0 <= s.currentQuestionIndex
    && s.isActive && s.completionReason.None? && s.sessionEndTime.None?
    && s.correctStreak <= s.maxCorrectStreak && NoDuplicates(s.questionHistory)
  }

  lemma GradeReady(s: SessionState, u: UserState, q: Question, answer: Option<string>, now: int)
    requires ValidateAnswer(answer, q).Graded? && SessionInv(s) && s.isActive
    ensures ReadyToConclude(GradeStep(s, u, q, answer, now).session)
  {
  }

  // ---------------------------------------------------------------------
  // Ending or continuing a session
  // ---------------------------------------------------------------------

  /** The user's best session after a session that completed `completed`
      questions: replaced when unset (0) or beaten. */
  function StreakRecord(best: int, completed: int): (r: int)
    ensures completed >= 0 ==> r >= best && r >= completed && (r == best || r == completed)
    ensures best == 0 ==> r == completed
  {
    if best == 0 || completed > best then completed else best
  }

  function Ended(s: SessionState, reason: CompletionReason, now: int): SessionState
  {
    s.(isActive := false, sessionEndTime := Some(now), completionReason := Some(reason))
  }

  function StreakUpdated(u: UserState, completed: int): UserState
  {
    u.(maxSessionStreak := StreakRecord(u.maxSessionStreak, completed))
  }

  /** The summary sent when a session ends. */
  function SessionSummary(s: SessionState, completed: int, now: int, reason: CompletionReason): (r: Summary)
    ensures r.questionsCompleted == completed && r.completionReason == reason
    ensures 1 <= r.highestDifficulty <= 3
    ensures r.correctAnswers == s.correctAnswers && r.incorrectAnswers == s.incorrectAnswers
    ensures r.finalScore == s.score && r.totalXpGained == s.totalXpGained
    ensures r.maxCorrectStreak == s.maxCorrectStreak
  {
    Summary(completed, s.correctAnswers, s.incorrectAnswers, s.score, s.totalXpGained,
            s.maxCorrectStreak, DurationSeconds(s.sessionStartTime, now), reason,
            HighestDifficulty(s.difficultyProgression))
  }

  /** The two records after a handler, and its response. */
  datatype Step = Step(session: SessionState, user: UserState, out: Outcome)

  /** The end-of-answer step shared by answers and timeouts, after the
      question index has moved on: no strike left ends the session as
      failed; no unseen question of the subject ends it as completed;
      otherwise the selected question is added to the history and sent.
      `lost` is the feedback sent with a game over. */
  function ConcludeStep(s: SessionState, u: UserState, subject: string, q: Question, isCorrect: bool,
                        store: seq<Question>, feedback: Feedback, lost: Feedback, now: int,
                        penance: Option<seq<Penance>>, pick: nat): Step
  {
    var completed := s.currentQuestionIndex - 1;
    if s.strikesLeft <= 0 then
      var ended := Ended(s, Failed, now);
      Step(ended, StreakUpdated(u, completed),
           GameOver(lost, Punishment(penance, pick), SessionSummary(ended, completed, now, Failed)))
    else
      ContinueStep(s, u, Selection(store, subject, s.questionHistory, s.correctStreak, q.difficulty, q.subTopic, isCorrect),
                   feedback, now)
  }

  /** With a strike left: complete the session when the selection found
      nothing, else send the selected question. */
  function ContinueStep(s: SessionState, u: UserState, next: Option<Question>, feedback: Feedback, now: int): Step
  {
    var completed := s.currentQuestionIndex - 1;
    if next.None? then
      var ended := Ended(s, Completed, now);
      Step(ended, StreakUpdated(u, completed),
           SessionComplete(Trigger("SESSION_WIN"), SessionSummary(ended, completed, now, Completed)))
    else
      Step(s.(questionHistory := s.questionHistory + [next.value.id]), u, NextQuestion(feedback, next.value))
  }

  /** Every question of `subject` in the store is already in `history`. */
  predicate AllSeen(store: seq<Question>, subject: string, history: seq<ObjectId>)
  {
    forall i :: 0 <= i < |store| ==> store[i].subject != subject || store[i].id in history
  }

  /** The three ways an answer or a timeout ends: a game over exactly
      when no strike is left, a completion exactly when a strike is left
      and every question of the subject has been seen, and otherwise the
      next question, an unseen one of the subject chosen by the staged
      search, appended to the history. An ending closes the session at
      `now` with its reason, counts the questions before the current
      index as completed and updates the user's best session; continuing
      changes neither the user nor anything but the history. */
  lemma ConcludeOutcome(s: SessionState, u: UserState, subject: string, q: Question, isCorrect: bool,
                        store: seq<Question>, feedback: Feedback, lost: Feedback, now: int,
                        penance: Option<seq<Penance>>, pick: nat)
    ensures var c := ConcludeStep(s, u, subject, q, isCorrect, store, feedback, lost, now, penance, pick);
            var completed := s.currentQuestionIndex - 1;
            && (c.out.GameOver? || c.out.SessionComplete? || c.out.NextQuestion?)
            && (c.out.GameOver? <==> s.strikesLeft <= 0)
            && (c.out.SessionComplete? <==> s.strikesLeft > 0 && AllSeen(store, subject, s.questionHistory))
            && (c.out.GameOver? ==>
                  c.out == GameOver(lost, Punishment(penance, pick), SessionSummary(c.session, completed, now, Failed)))
            && (c.out.SessionComplete? ==>
                  c.out == SessionComplete(Trigger("SESSION_WIN"),
                                           SessionSummary(c.session, completed, now, Completed)))
            && (!c.out.NextQuestion? ==>
                  && c.session == Ended(s, if c.out.GameOver? then Failed else Completed, now)
                  && c.user == StreakUpdated(u, completed))
            && (c.out.NextQuestion? ==>
                  && c.out.feedback == feedback
                  && Some(c.out.question) ==
                     Selection(store, subject, s.questionHistory, s.correctStreak, q.difficulty, q.subTopic, isCorrect)
                  && c.out.question in store && c.out.question.subject == subject
                  && c.out.question.id !in s.questionHistory
                  && c.session == s.(questionHistory := s.questionHistory + [c.out.question.id])
                  && c.user == u)
  {
    SelectionSound(store, subject, s.questionHistory, s.correctStreak, q.difficulty, q.subTopic, isCorrect);
  }

  /** The end-of-answer step turns a session that is ready to conclude
      into one that meets the lifecycle invariant, and keeps the user's. */
  lemma ConcludeKeepsInv(s: SessionState, u: UserState, subject: string, q: Question, isCorrect: bool,
                         store: seq<Question>, feedback: Feedback, lost: Feedback, now: int,
                         penance: Option<seq<Penance>>, pick: nat)
    requires ReadyToConclude(s)
    ensures var c := ConcludeStep(s, u, subject, q, isCorrect, store, feedback, lost, now, penance, pick);
            SessionInv(c.session) && (UserInv(u) ==> UserInv(c.user))
  {
    var next := Selection(store, subject, s.questionHistory, s.correctStreak, q.difficulty, q.subTopic, isCorrect);
    SelectionSound(store, subject, s.questionHistory, s.correctStreak, q.difficulty, q.subTopic, isCorrect);
    if s.strikesLeft > 0 && next.Some? {
      AppendFresh(s.questionHistory, next.value.id);
    }
  }

  // ---------------------------------------------------------------------
  // The handlers' steps
  // ---------------------------------------------------------------------

  /** An accepted answer: grade it, then end or continue the session. When
      `validateAnswer` throws nothing has been changed yet, and the
      handler answers with a server error. */
  function AnswerStep(s: SessionState, u: UserState, subject: string, q: Question, answer: Option<string>,
                      store: seq<Question>, now: int, penance: Option<seq<Penance>>, pick: nat): Step
  {
    if ValidateAnswer(answer, q).Threw? then Step(s, u, ServerError) else
    var g := GradeStep(s, u, q, answer, now);
    ConcludeStep(g.session, g.user, subject, q, g.isCorrect, store, g.feedback, Trigger("GAME_OVER"),
                 now, penance, pick)
  }

  /** An answer to an active session keeps both invariants. */
  lemma AnswerKeepsInv(s: SessionState, u: UserState, subject: string, q: Question, answer: Option<string>,
                       store: seq<Question>, now: int, penance: Option<seq<Penance>>, pick: nat)
    requires SessionInv(s) && s.isActive && UserInv(u)
    ensures var a := AnswerStep(s, u, subject, q, answer, store, now, penance, pick);
            SessionInv(a.session) && UserInv(a.user)
  {
    if ValidateAnswer(answer, q).Threw? {
      return;
    }
    var g := GradeStep(s, u, q, answer, now);
    GradeReady(s, u, q, answer, now);
    GradeKeepsUserInv(s, u, q, answer, now);
    ConcludeKeepsInv(g.session, g.user, subject, q, g.isCorrect, store, g.feedback, Trigger("GAME_OVER"),
                     now, penance, pick);
  }

  /** How an answer to an active session ends: a server error, changing
      neither record, exactly when `validateAnswer` throws; a correct
      answer never loses the game; a miss loses it exactly when it takes
      the last strike, with the game-over trigger as feedback; the session
      stays active exactly when a next question is sent, and then the
      feedback is the grading feedback. */
  lemma AnswerOutcome(s: SessionState, u: UserState, subject: string, q: Question, answer: Option<string>,
                      store: seq<Question>, now: int, penance: Option<seq<Penance>>, pick: nat)
    requires SessionInv(s) && s.isActive
    ensures var a := AnswerStep(s, u, subject, q, answer, store, now, penance, pick);
            && (a.out.ServerError? <==> ValidateAnswer(answer, q).Threw?)
            && (a.out.ServerError? ==> a.session == s && a.user == u)
            && (a.out.GameOver? <==> ValidateAnswer(answer, q) == Graded(false) && s.strikesLeft == 1)
            && (a.out.GameOver? ==> a.out.feedback == Trigger("GAME_OVER") && a.session.completionReason == Some(Failed))
            && (a.out.SessionComplete? ==>
                  a.out.feedback == Trigger("SESSION_WIN") && a.session.completionReason == Some(Completed))
            && (!a.out.ServerError? ==> (a.out.NextQuestion? <==> a.session.isActive))
            && (a.out.NextQuestion? ==>
                  ValidateAnswer(answer, q).Graded? && a.out.feedback == GradeStep(s, u, q, answer, now).feedback)
            && (a.out.ServerError? || a.out.GameOver? || a.out.SessionComplete? || a.out.NextQuestion?)
  {
    if ValidateAnswer(answer, q).Threw? {
      return;
    }
    var g := GradeStep(s, u, q, answer, now);
    ConcludeOutcome(g.session, g.user, subject, q, g.isCorrect, store, g.feedback, Trigger("GAME_OVER"),
                    now, penance, pick);
  }

  /** The session after a timeout, before the end-of-answer step: a
      miss, the index moved on, then the difficulty step. */
  function TimedOutSession(s: SessionState): SessionState
  {
    DifficultyUpdate(CountMissStep(s).(currentQuestionIndex := s.currentQuestionIndex + 1), false).session
  }

  /** A timeout: a miss without a curse and without XP; the question
      index moves on before the difficulty is updated, so a demotion is
      logged at the new index; the timeout line is the feedback unless the
      session completes; and the progress entry is kept only when the
      session continues (the ending branches save a freshly read user
      record instead). */
  function TimeoutStep(s: SessionState, u: UserState, subject: string, q: Question, store: seq<Question>,
                       now: int, penance: Option<seq<Penance>>, pick: nat): Step
  {
    var stepped := TimedOutSession(s);
    var line := TimeoutLine(TimeoutDialogue(q.difficulty, q.qtype));
    var c := ConcludeStep(stepped, u, subject, q, false, store, line, line, now, penance, pick);
    if c.out.NextQuestion? then c.(user := Recorded(c.user, ProgressKey(q), false)) else c
  }

  /** What a timeout changes: one more wrong answer, one strike fewer,
      the streak broken, the index moved on and the difficulty stepped
      down by the policy; score, correct answers, XP, level and effect are
      kept; the progress entry is recorded only if the session goes on. */
  lemma TimeoutStats(s: SessionState, u: UserState, subject: string, q: Question, store: seq<Question>,
                     now: int, penance: Option<seq<Penance>>, pick: nat)
    ensures var t := TimeoutStep(s, u, subject, q, store, now, penance, pick);
            var st := Advance(s.currentDifficulty, s.consecutiveCorrect, s.consecutiveIncorrect, false);
            && t.session.incorrectAnswers == s.incorrectAnswers + 1
            && t.session.strikesLeft == s.strikesLeft - 1
            && t.session.correctStreak == 0
            && t.session.correctAnswers == s.correctAnswers && t.session.score == s.score
            && t.session.totalXpGained == s.totalXpGained
            && t.session.currentQuestionIndex == s.currentQuestionIndex + 1
            && t.session.currentDifficulty == st.difficulty
            && t.session.difficultyProgression == s.difficultyProgression +
                 (if st.changed then [ProgressionEvent(s.currentQuestionIndex + 1, st.difficulty, DemotedForMistakes)]
                  else [])
            && t.user.xp == u.xp && t.user.level == u.level && t.user.activeEffect == u.activeEffect
            && t.user.correctAnswers == u.correctAnswers
            && t.user.progress == (if t.out.NextQuestion? then RecordAttempt(u.progress, ProgressKey(q), false)
                                   else u.progress)
  {
  }

  /** How a timeout on an active session ends: a game over exactly when
      it takes the last strike; the timeout line is the feedback of a game
      over and of a next question, the win trigger that of a completion;
      the session stays active exactly when a next question is sent. */
  lemma TimeoutOutcome(s: SessionState, u: UserState, subject: string, q: Question, store: seq<Question>,
                       now: int, penance: Option<seq<Penance>>, pick: nat)
    requires SessionInv(s) && s.isActive
    ensures var t := TimeoutStep(s, u, subject, q, store, now, penance, pick);
            var line := TimeoutLine(TimeoutDialogue(q.difficulty, q.qtype));
            && (t.out.GameOver? || t.out.SessionComplete? || t.out.NextQuestion?)
            && (t.out.GameOver? <==> s.strikesLeft == 1)
            && (t.out.GameOver? ==> t.out.feedback == line && t.session.completionReason == Some(Failed))
            && (t.out.SessionComplete? ==>
                  t.out.feedback == Trigger("SESSION_WIN") && t.session.completionReason == Some(Completed))
            && (t.out.NextQuestion? ==> t.out.feedback == line)
            && (t.out.NextQuestion? <==> t.session.isActive)
  {
    var stepped := TimedOutSession(s);
    var line := TimeoutLine(TimeoutDialogue(q.difficulty, q.qtype));
    ConcludeOutcome(stepped, u, subject, q, false, store, line, line, now, penance, pick);
  }

  /** A timeout on an active session keeps both invariants. */
  lemma TimeoutKeepsInv(s: SessionState, u: UserState, subject: string, q: Question, store: seq<Question>,
                        now: int, penance: Option<seq<Penance>>, pick: nat)
    requires SessionInv(s) && s.isActive && UserInv(u)
    ensures var t := TimeoutStep(s, u, subject, q, store, now, penance, pick);
            SessionInv(t.session) && UserInv(t.user)
  {
    var stepped := TimedOutSession(s);
    var line := TimeoutLine(TimeoutDialogue(q.difficulty, q.qtype));
    assert ReadyToConclude(stepped);
    ConcludeKeepsInv(stepped, u, subject, q, false, store, line, line, now, penance, pick);
    RecordedKeepsInv(u, ProgressKey(q), false);
  }

  /** A voluntary quit: the session ends as abandoned at `now`, counting
      the current question index as completed questions. */
  function QuitStep(s: SessionState, u: UserState, now: int): Step
  {
    var ended := Ended(s, Abandoned, now);
    Step(ended, StreakUpdated(u, s.currentQuestionIndex),
         Quit(SessionSummary(ended, s.currentQuestionIndex, now, Abandoned)))
  }

  /** Quitting an active session closes it, keeps every statistic and the
      history, updates only the user's best session, and keeps both
      invariants. */
  lemma QuitSpec(s: SessionState, u: UserState, now: int)
    requires SessionInv(s) && s.isActive
    ensures var r := QuitStep(s, u, now);
            && !r.session.isActive && r.session.completionReason == Some(Abandoned)
            && r.session.sessionEndTime == Some(now)
            && r.out.summary.questionsCompleted == s.currentQuestionIndex
            && r.out.summary.correctAnswers == s.correctAnswers
            && r.out.summary.finalScore == s.score
            && r.session.questionHistory == s.questionHistory && r.session.strikesLeft == s.strikesLeft
            && r.user.maxSessionStreak == StreakRecord(u.maxSessionStreak, s.currentQuestionIndex)
            && r.user.(maxSessionStreak := u.maxSessionStreak) == u
            && SessionInv(r.session)
            && (UserInv(u) ==> UserInv(r.user))
  {
  }

  // ---------------------------------------------------------------------
  // Starting a session
  // ---------------------------------------------------------------------

  /** The difficulty a new session starts at: the requested string, or
      easy when none (or an empty one) is given. */
  function StartDifficulty(requested: Option<string>): (d: Difficulty)
    ensures Canonical(d)
    ensures requested.Some? && requested.value != "" ==> DifficultyName(d) == requested.value
    ensures requested.None? || requested == Some("") ==> d == Easy
  {
    if requested.None? || requested == Some("") then Easy else ParseDifficulty(requested.value)
  }

  /** The stand-in "last question" difficulty for the first selection:
      easy only when "easy" was requested, medium otherwise. */
  function MockDifficulty(requested: Option<string>): (d: Difficulty)
    ensures d == Easy <==> requested == Some("easy")
    ensures d == Easy || d == Medium
  {
    if requested == Some("easy") then Easy else Medium
  }

  /** The first selection asks for one level above the stand-in
      difficulty: a session that asked for easy gets a medium question
      first when there is one, and any other request gets a hard one. */
  lemma FirstQuestionTarget(subject: string, requested: Option<string>)
    ensures FirstQuery(subject, [], MockDifficulty(requested), None, true, 0).difficulty ==
            Some(if requested == Some("easy") then Medium else Hard)
    ensures FirstQuery(subject, [], MockDifficulty(requested), None, true, 0).subTopic == None
  {
  }
}
