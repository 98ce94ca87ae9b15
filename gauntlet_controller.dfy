/** The gauntlet request handlers: starting a session, submitting an
    answer, timing out and quitting. Each handler updates the session and
    user records in place, as the source does before saving them, and is
    proved to perform the corresponding step of `GauntletSteps` on the
    records' values; the returned `Outcome` stands for the response. */
module GauntletController {
  import opened Common
  import opened QuestionModel
  import opened UserModel
  import opened SessionModel
  import opened AiServices
  import opened GauntletRules
  import opened GauntletSteps

  /** `updateDifficultyProgression`: apply the progression policy to the
      session's counters and log a change. */
  method UpdateDifficultyProgression(session: Session, isCorrect: bool) returns (difficultyChanged: bool)
    modifies session
    ensures Progression(session.State(), difficultyChanged) == DifficultyUpdate(old(session.State()), isCorrect)
  {
    var currentDifficulty := session.currentDifficulty;
    var newDifficulty := currentDifficulty;
    difficultyChanged := false;
    if isCorrect {
      session.consecutiveCorrect := session.consecutiveCorrect + 1;
      session.consecutiveIncorrect := 0;
      if currentDifficulty == Easy && session.consecutiveCorrect >= 5 {
        newDifficulty := Medium;
        difficultyChanged := true;
        session.consecutiveCorrect := 0;
      } else if currentDifficulty == Medium && session.consecutiveCorrect >= 4 {
        newDifficulty := Hard;
        difficultyChanged := true;
        session.consecutiveCorrect := 0;
      }
    } else {
      session.consecutiveIncorrect := session.consecutiveIncorrect + 1;
      session.consecutiveCorrect := 0;
      if currentDifficulty == Hard && session.consecutiveIncorrect >= 1 {
        newDifficulty := Medium;
        difficultyChanged := true;
        session.consecutiveIncorrect := 0;
      } else if currentDifficulty == Medium && session.consecutiveIncorrect >= 2 {
        newDifficulty := Easy;
        difficultyChanged := true;
        session.consecutiveIncorrect := 0;
      }
    }
    if difficultyChanged {
      session.currentDifficulty := newDifficulty;
      session.difficultyProgression := session.difficultyProgression +
        [ProgressionEvent(session.currentQuestionIndex, newDifficulty,
                          if isCorrect then PromotedForStreak else DemotedForMistakes)];
    }
  }

  /** Counters and streaks after a correct answer. */
  method CountCorrect(session: Session)
    modifies session
    ensures session.State() == CountCorrectStep(old(session.State()))
  {
    session.correctAnswers := session.correctAnswers + 1;
    session.correctStreak := session.correctStreak + 1;
    session.maxCorrectStreak := if session.maxCorrectStreak >= session.correctStreak
                                then session.maxCorrectStreak else session.correctStreak;
  }

  /** The XP a correct answer earns: the modifier of an effect in force
      applies, and an expired effect is cleared instead. */
  method XpGain(user: User, d: Difficulty, now: int) returns (gained: nat)
    modifies user
    ensures gained == XpFor(d, old(user.activeEffect), now)
    ensures user.State() == ExpiryCleared(old(user.State()), now)
  {
    var halves := 2;
    if EffectActive(user.activeEffect, now) {
      halves := user.activeEffect.modifierHalves;
    } else if EffectExpired(user.activeEffect, now) {
      user.activeEffect := ClearedEffect;
    }
    gained := RoundedXp(XpValue(d), halves);
  }

  /** The XP of a correct answer, added alike to the user's XP, the
      session score and the session's XP. */
  method AwardXp(session: Session, user: User, d: Difficulty, now: int) returns (gained: nat)
    modifies session, user
    ensures gained == XpFor(d, old(user.activeEffect), now)
    ensures session.State() == AwardXpSession(old(session.State()), gained)
    ensures user.State() == AwardXpUser(old(user.State()), gained, now)
  {
    gained := XpGain(user, d, now);
    user.xp := user.xp + gained;
    user.correctAnswers := user.correctAnswers + 1;
    session.score := session.score + gained;
    session.totalXpGained := session.totalXpGained + gained;
  }

  /** At most one level per answer: the threshold is subtracted, the next
      threshold is 150 times the new level and the rank is looked up. */
  method LevelUp(user: User) returns (leveled: bool)
    modifies user
    ensures leveled <==> old(user.xp) >= old(user.xpToNextLevel)
    ensures user.State() == Leveled(old(user.State()))
  {
    leveled := false;
    if user.xp >= user.xpToNextLevel {
      user.level := user.level + 1;
      user.xp := user.xp - user.xpToNextLevel;
      user.xpToNextLevel := user.level * 150;
      user.rank := GetRankForLevel(user.level);
      leveled := true;
    }
  }

  /** Record one attempt in the user's progress map. */
  method RecordProgress(user: User, key: string, correct: bool)
    modifies user
    ensures user.State() == Recorded(old(user.State()), key, correct)
  {
    user.progress := RecordAttempt(user.progress, key, correct);
  }

  /** A five-answer streak blesses a user who has no effect type set. */
  method Bless(user: User, streak: nat, now: int) returns (blessed: bool)
    modifies user
    ensures blessed <==> streak == 5 && old(user.activeEffect).kind == NoEffect
    ensures user.State() == Blessed(old(user.State()), streak, now)
  {
    blessed := streak == 5 && user.activeEffect.kind == NoEffect;
    if blessed {
      user.activeEffect := BlessingFrom(now);
    }
  }

  /** The statistics update for a correct answer: counters and streaks,
      XP under the active effect, progress, blessing and level-up. The
      returned line is the level-up line, else the blessing line. */
  method ScoreCorrect(session: Session, user: User, q: Question, now: int) returns (dialogue: Option<Feedback>)
    modifies session, user
    ensures Scoring(session.State(), user.State(), dialogue) == CorrectStep(old(session.State()), old(user.State()), q, now)
  {
    CountCorrect(session);
    var gained := AwardXp(session, user, q.difficulty, now);
    RecordProgress(user, ProgressKey(q), true);
    dialogue := None;
    var blessed := Bless(user, session.correctStreak, now);
    if blessed {
      dialogue := Some(BlessingGranted);
    }
    var leveled := LevelUp(user);
    if leveled {
      dialogue := Some(LevelReached(user.level, user.rank));
    }
  }

  /** Counters after a miss or a timeout: one more incorrect answer, one
      strike fewer, and the streak broken. */
  method CountMiss(session: Session)
    modifies session
    ensures session.State() == CountMissStep(old(session.State()))
  {
    session.incorrectAnswers := session.incorrectAnswers + 1;
    session.strikesLeft := session.strikesLeft - 1;
    session.correctStreak := 0;
  }

  /** The statistics update for a wrong answer: counters, progress, and
      the curse when one strike is left and no effect type is set. */
  method ScoreMiss(session: Session, user: User, q: Question, now: int) returns (dialogue: Option<Feedback>)
    modifies session, user
    ensures Scoring(session.State(), user.State(), dialogue) == MissStep(old(session.State()), old(user.State()), q, now)
  {
    CountMiss(session);
    RecordProgress(user, ProgressKey(q), false);
    dialogue := None;
    if session.correctStreak == 0 && session.strikesLeft == 1 && user.activeEffect.kind == NoEffect {
      user.activeEffect := CurseFrom(now);
      dialogue := Some(CurseInflicted);
    }
  }

  /** The statistics update of a correct or a wrong answer. */
  method Score(session: Session, user: User, q: Question, isCorrect: bool, now: int)
    returns (dialogue: Option<Feedback>)
    modifies session, user
    ensures Scoring(session.State(), user.State(), dialogue) ==
            ScoreStep(old(session.State()), old(user.State()), q, isCorrect, now)
  {
    if isCorrect {
      dialogue := ScoreCorrect(session, user, q, now);
    } else {
      dialogue := ScoreMiss(session, user, q, now);
    }
  }

  /** Grade one answer: score it, apply the progression policy, pick the
      feedback, and move the question index on. */
  method Grade(session: Session, user: User, q: Question, answer: Option<string>, now: int)
    returns (isCorrect: bool, feedback: Feedback)
    requires ValidateAnswer(answer, q).Graded?
    modifies session, user
    ensures Grading(session.State(), user.State(), isCorrect, feedback) ==
            GradeStep(old(session.State()), old(user.State()), q, answer, now)
  {
    isCorrect := ValidateAnswer(answer, q).isCorrect;
    var devilDialogue := Score(session, user, q, isCorrect, now);
    var difficultyChanged := UpdateDifficultyProgression(session, isCorrect);
    if difficultyChanged && devilDialogue.None? {
      devilDialogue := Some(if isCorrect then Promoted(session.currentDifficulty)
                            else Demoted(session.currentDifficulty));
    }
    feedback := if devilDialogue.Some? then devilDialogue.value
                else Trigger(AnswerTrigger(isCorrect, q.difficulty));
    session.currentQuestionIndex := session.currentQuestionIndex + 1;
  }

  /** Close the session with `reason` at `now` and update the user's best
      session. */
  method EndSession(session: Session, user: User, reason: CompletionReason, now: int, completed: int)
    modifies session, user
    ensures session.State() == Ended(old(session.State()), reason, now)
    ensures user.State() == StreakUpdated(old(user.State()), completed)
  {
    session.isActive := false;
    session.sessionEndTime := Some(now);
    session.completionReason := Some(reason);
    if user.maxSessionStreak == 0 || completed > user.maxSessionStreak {
      user.maxSessionStreak := completed;
    }
  }

  /** The end-of-answer step shared by answers and timeouts. */
  method Conclude(session: Session, user: User, q: Question, isCorrect: bool, store: seq<Question>,
                  feedback: Feedback, lost: Feedback, now: int, penance: Option<seq<Penance>>, pick: nat)
    returns (out: Outcome)
    modifies session, user
    ensures Step(session.State(), user.State(), out) ==
            ConcludeStep(old(session.State()), old(user.State()), session.subject, q, isCorrect, store,
                         feedback, lost, now, penance, pick)
    ensures out.GameOver? || out.SessionComplete? || out.NextQuestion?
  {
    ghost var s0, u0 := session.State(), user.State();
    var completed := session.currentQuestionIndex - 1;
    if session.strikesLeft <= 0 {
      EndSession(session, user, Failed, now, completed);
      return GameOver(lost, Punishment(penance, pick), SessionSummary(session.State(), completed, now, Failed));
    }
    var nextQuestion := SelectNextQuestion(store, session.subject, session.questionHistory, session.correctStreak,
                                           q.difficulty, q.subTopic, isCorrect);
    assert ConcludeStep(s0, u0, session.subject, q, isCorrect, store, feedback, lost, now, penance, pick) ==
           ContinueStep(s0, u0, nextQuestion, feedback, now);
    if nextQuestion.None? {
      EndSession(session, user, Completed, now, completed);
      return SessionComplete(Trigger("SESSION_WIN"), SessionSummary(session.State(), completed, now, Completed));
    }
    session.questionHistory := session.questionHistory + [nextQuestion.value.id];
    out := NextQuestion(feedback, nextQuestion.value);
  }

  /** An accepted answer: grade it, then end or continue the session; a
      validation that throws changes nothing. */
  method Answer(session: Session, user: User, q: Question, answer: Option<string>, store: seq<Question>, now: int,
                penance: Option<seq<Penance>>, pick: nat)
    returns (out: Outcome)
    modifies session, user
    ensures Step(session.State(), user.State(), out) ==
            AnswerStep(old(session.State()), old(user.State()), session.subject, q, answer, store, now, penance, pick)
    ensures out.ServerError? <==> ValidateAnswer(answer, q).Threw?
    ensures out.ServerError? ==> unchanged(session) && unchanged(user)
    ensures !out.Rejected()
  {
    if ValidateAnswer(answer, q).Threw? {
      return ServerError;
    }
    var isCorrect, devilDialogue := Grade(session, user, q, answer, now);
    out := Conclude(session, user, q, isCorrect, store, devilDialogue, Trigger("GAME_OVER"), now, penance, pick);
  }

  /** `submitAnswer`: the three rejections (a missing session, question
      or user; a session of another user; a session that is over) change
      nothing, and neither does the server error of a validation that
      throws. Otherwise the handler performs `AnswerStep`, which keeps
      both records' invariants. */
  method SubmitAnswer(session: Session?, question: Option<Question>, user: User?, requester: ObjectId,
                      answer: Option<string>, store: seq<Question>, now: int,
                      penance: Option<seq<Penance>>, pick: nat)
    returns (out: Outcome)
    modifies session, user
    ensures (session == null || question.None? || user == null) <==> out == NotFound
    ensures out == NotAuthorized <==> session != null && question.Some? && user != null && session.userId != requester
    ensures out == SessionOver <==>
              session != null && question.Some? && user != null && session.userId == requester && !old(session.isActive)
    ensures out.Rejected() ==> (session != null ==> unchanged(session)) && (user != null ==> unchanged(user))
    ensures out.ServerError? <==>
              session != null && question.Some? && user != null && session.userId == requester &&
              old(session.isActive) && ValidateAnswer(answer, question.value).Threw?
    ensures out.ServerError? ==> session != null && user != null && unchanged(session) && unchanged(user)
    ensures !out.Rejected() ==>
              Step(session.State(), user.State(), out) ==
              AnswerStep(old(session.State()), old(user.State()), session.subject, question.value, answer,
                         store, now, penance, pick)
    ensures !out.Rejected() && old(session.Valid()) && old(user.Valid()) ==> session.Valid() && user.Valid()
  {
    if session == null || question.None? || user == null {
      return NotFound;
    }
    if session.userId != requester {
      return NotAuthorized;
    }
    if !session.isActive {
      return SessionOver;
    }
    ghost var s0, u0 := session.State(), user.State();
    out := Answer(session, user, question.value, answer, store, now, penance, pick);
    if SessionInv(s0) && UserInv(u0) {
      AnswerKeepsInv(s0, u0, session.subject, question.value, answer, store, now, penance, pick);
    }
  }

  /** The session update of a timeout: a miss, the index moved on, then
      the difficulty step. */
  method CountTimeout(session: Session)
    modifies session
    ensures session.State() == TimedOutSession(old(session.State()))
  {
    CountMiss(session);
    session.currentQuestionIndex := session.currentQuestionIndex + 1;
    var _ := UpdateDifficultyProgression(session, false);
  }

  /** A timeout on an accepted session. */
  method TimeOut(session: Session, user: User, q: Question, store: seq<Question>, now: int,
                 penance: Option<seq<Penance>>, pick: nat)
    returns (out: Outcome)
    modifies session, user
    ensures Step(session.State(), user.State(), out) ==
            TimeoutStep(old(session.State()), old(user.State()), session.subject, q, store, now, penance, pick)
  {
    CountTimeout(session);
    var line := TimeoutLine(TimeoutDialogue(q.difficulty, q.qtype));
    out := Conclude(session, user, q, false, store, line, line, now, penance, pick);
    if out.NextQuestion? {
      RecordProgress(user, ProgressKey(q), false);
    }
  }

  /** `handleTimeout`: the same three rejections as an answer, then
      `TimeoutStep`, which keeps both records' invariants. */
  method HandleTimeout(session: Session?, question: Option<Question>, user: User?, requester: ObjectId,
                       store: seq<Question>, now: int, penance: Option<seq<Penance>>, pick: nat)
    returns (out: Outcome)
    modifies session, user
    ensures (session == null || question.None? || user == null) <==> out == NotFound
    ensures out == NotAuthorized <==> session != null && question.Some? && user != null && session.userId != requester
    ensures out == SessionOver <==>
              session != null && question.Some? && user != null && session.userId == requester && !old(session.isActive)
    ensures out.Rejected() ==> (session != null ==> unchanged(session)) && (user != null ==> unchanged(user))
    ensures !out.Rejected() ==>
              Step(session.State(), user.State(), out) ==
              TimeoutStep(old(session.State()), old(user.State()), session.subject, question.value,
                          store, now, penance, pick)
    ensures !out.Rejected() && old(session.Valid()) && old(user.Valid()) ==> session.Valid() && user.Valid()
  {
    if session == null || question.None? || user == null {
      return NotFound;
    }
    if session.userId != requester {
      return NotAuthorized;
    }
    if !session.isActive {
      return SessionOver;
    }
    ghost var s0, u0 := session.State(), user.State();
    out := TimeOut(session, user, question.value, store, now, penance, pick);
    if SessionInv(s0) && UserInv(u0) {
      TimeoutKeepsInv(s0, u0, session.subject, question.value, store, now, penance, pick);
    }
  }

  /** `quitSession`: a missing session or user, a session of another
      user and a session that is over are rejected unchanged; otherwise
      the handler performs `QuitStep`. */
  method QuitSession(session: Session?, user: User?, requester: ObjectId, now: int) returns (out: Outcome)
    modifies session, user
    ensures (session == null || user == null) <==> out == NotFound
    ensures out == NotAuthorized <==> session != null && user != null && session.userId != requester
    ensures out == SessionOver <==> session != null && user != null && session.userId == requester && !old(session.isActive)
    ensures out.Rejected() ==> (session != null ==> unchanged(session)) && (user != null ==> unchanged(user))
    ensures !out.Rejected() ==>
              Step(session.State(), user.State(), out) == QuitStep(old(session.State()), old(user.State()), now)
  {
    if session == null || user == null {
      return NotFound;
    }
    if session.userId != requester {
      return NotAuthorized;
    }
    if !session.isActive {
      return SessionOver;
    }
    var completed := session.currentQuestionIndex;
    EndSession(session, user, Abandoned, now, completed);
    out := Quit(SessionSummary(session.State(), completed, now, Abandoned));
  }

  /** `startGauntlet`: a new session at `StartDifficulty`, whose first
      question is selected as after a correct answer to a question of
      `MockDifficulty`. Without such a question nothing is saved. */
  method StartGauntlet(userId: ObjectId, subject: string, requested: Option<string>, store: seq<Question>, now: int)
    returns (out: StartOutcome, session: Session?)
    ensures out.NoQuestionFound? <==> session == null
    ensures out.NoQuestionFound? <==> AllSeen(store, subject, [])
    ensures out.Started? ==>
              && fresh(session) && session.userId == userId && session.subject == subject
              && session.State() == NewSessionState(StartDifficulty(requested), now).(
                                      questionHistory := [out.question.id], currentQuestionIndex := 1)
              && session.Valid()
              && out.question in store && out.question.subject == subject
              && Some(out.question) == Selection(store, subject, [], 0, MockDifficulty(requested), None, true)
  {
    var s := new Session(userId, subject, StartDifficulty(requested), now);
    var firstQuestion := SelectNextQuestion(store, s.subject, s.questionHistory, s.correctStreak,
                                            MockDifficulty(requested), None, true);
    SelectionSound(store, s.subject, s.questionHistory, s.correctStreak, MockDifficulty(requested), None, true);
    if firstQuestion.None? {
      return NoQuestionFound, null;
    }
    s.questionHistory := s.questionHistory + [firstQuestion.value.id];
    s.currentQuestionIndex := 1;
    return Started(firstQuestion.value), s;
  }
}
