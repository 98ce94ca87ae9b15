# Byte-Sized Banishment: the gauntlet engine in Dafny

Byte-Sized Banishment is a quiz game. A player runs a "gauntlet" in one
subject: questions one after another, three strikes, XP, levels and ranks,
temporary blessings and curses, and a difficulty that follows the player's
streaks. This project models the server side of that game and proves what
it promises:

- the session and user records (classes `SessionModel.Session` and
  `UserModel.User`, whose fields the handlers update in place);
- the gauntlet handlers: start, answer, timeout and quit, with the
  difficulty-progression state machine and the rank table;
- the question-selection service, the weakest-topic analysis, the
  dialogue lookup and answer validation;
- the code-judging loop, with the external judge as an oracle;
- the friend-request list operations;
- the skill-tree builder;
- the bulk-upload validator of the admin route.

Layout, one module per source file:

- `common.dfy`: `Option`, ids, and JavaScript truthiness of an optional string.
- `question_model.dfy`, `user_model.dfy`, `session_model.dfy`: the three schemas.
  - The progress `Map` is an association list in insertion order, because JS Map iteration order decides ties.
  - Each class has a `State()` function that gives its fields as one value, and a `Valid()` predicate over it.
- `gauntlet_rules.dfy`: the pure rules of the gauntlet controller.
- `gauntlet_steps.dfy`: each handler as a function from the old record values to the new ones plus the response, with the lemmas about those steps.
- `gauntlet_controller.dfy`: the handlers as methods on `Session` and `User`.
  - Each method is proved to perform its step exactly; the top-level ones also keep both invariants.
- `ai_services.dfy`, `code_execution.dfy`, `friend_controller.dfy`, `skill_tree.dfy`, `admin_routes.dfy`.

Modelling conventions:

- **Clock.** The clock is an integer `now` in milliseconds.
- **Random draws.** The two random draws are a `pick: nat` parameter, used modulo the list length: one for the dialogue line, one for the punishment.
- **XP multiplier.** It is kept in halves: 2 means ×1, 3 means ×1.5, 1 means ×0.5. `Math.round` becomes `(base * halves + 1) / 2`, so halves round up.
- **Weakest-topic rates.** These are exact `real` ratios.
- **Question collection.** It is a sequence `store`. `findOne` is "first match in store order".
- **Outside data.** These are parameters: the dialogue catalog, the penance file (`None` when it cannot be read), the judge and the success of `insertMany`.
- **Missing records.** A database lookup that may find nothing is a nullable class reference or an `Option`.
- **Errors.** A `TypeError` from reading a missing record, or from `toString` on a missing answer, becomes a `ServerError` or `UploadFailed` outcome.

Discrepancies:

- **Undeclared session fields.** The session schema declares only `userId`, `subject`, `strikesLeft`, `score`, `currentQuestionIndex`, `questionHistory` and `isActive`. The controller also reads and writes `correctAnswers`, `incorrectAnswers`, `correctStreak`, `maxCorrectStreak`, `currentDifficulty`, `consecutiveCorrect`, `consecutiveIncorrect`, `difficultyProgression`, `totalXpGained`, `completionReason`, `sessionStartTime` and `sessionEndTime`. They are declared here and start at 0, at empty, or at the requested difficulty (easy when none is given).
- **`user.maxSessionStreak`.** The user schema does not declare it. It is declared here and starts at 0. An unset value and 0 are both falsy, so `StreakRecord` treats 0 as unset.
- **The model declares what the schemas omit.** Mongoose schemas are strict by default, and neither schema overrides that. As written, the program drops the undeclared fields when it creates a session (`gauntletController.js:359-367`) and never saves the later assignments to them. This model is of the program with those fields declared in the schemas. Read against that default, the code as written behaves differently on every request:
  - the undeclared counters come back `undefined`, so `+= 1` gives NaN (`gauntletController.js:462-463`, `494`, `531`);
  - `currentDifficulty` is never "easy", "medium" or "hard", so `updateDifficultyProgression` (`gauntletController.js:267-322`) never moves the difficulty;
  - `session.correctStreak === 5` (`gauntletController.js:509`) never holds, so no blessing is granted;
  - `session.difficultyProgression` is undefined, so reading its `length` (`gauntletController.js:140`, `194`, `629`, `682`, `840`) throws, and every game over, completion and quit answers 500;
  - `user.maxSessionStreak` is never saved.
- **Next difficulty.** `selectNextQuestion` derives the next question's difficulty from the last question's difficulty, not from the session's `currentDifficulty`, which `updateDifficultyProgression` maintains. The model keeps the two rules apart: `AiServices.NextDifficulty` and `GauntletRules.Advance`.
- **Code answers.** `validateAnswer` never calls `executeCode`. Code and description answers are always graded wrong (`AiServices.ValidateAnswer`).
- **First question.** `startGauntlet` selects the first question as if answering correctly after a question of easy (when easy was requested) or medium. It therefore asks for medium or hard first, not for the requested difficulty (`GauntletSteps.FirstQuestionTarget`).
- **Timeout endings.** When a timeout ends the session, the handler saves a freshly read user record, so the progress entry it just incremented is not saved on those paths. `GauntletSteps.TimeoutStep` records progress only when the session goes on. A timeout never starts a curse.
- **Questions completed on quit.** A quit counts `currentQuestionIndex` questions as completed. The answer and timeout endings count `currentQuestionIndex - 1`.
- **Progress keys with an empty sub-topic.** The gauntlet's key for a question with an empty sub-topic is the bare subject. The skill tree's key for an empty sub-topic is `subject-`.
- **Missing answers.** `correctAnswer` is optional in the question schema, and the request body may carry no `answer`. For an mcq or integer question `validateAnswer` then calls `toString` on `undefined` and throws, so the answer handler sends a 500 before changing either record (`AiServices.ValidateAnswer`, `GauntletSteps.AnswerOutcome`).
- **Inherited language names.** `languageMap` is a plain object, so indexing it with "constructor" or "__proto__" (any capitalisation, after lower-casing) finds an inherited member, which is truthy. Such a language is not rejected: its test cases are sent to the judge with that member as the language id (`CodeExecution.LookupSucceeds`, `CodeExecution.InheritedNotRejected`). With no test cases it is even judged correct. `XP_VALUES` is a plain object too: a question difficulty outside the schema's enumeration such as "constructor", "toString" or "__proto__" finds an inherited member and earns NaN XP, where `GauntletRules.XpValue` gives 10.
- **Skill tree without a user.** The handler reads `user.progress` only inside the per-sub-topic callback. A missing user record is therefore a 500 only when the subject has a sub-topic; otherwise the response is an empty tree (`SkillTree.GetSkillTree`).
- **Weakest-link result.** `findWeakestLink` returns `{subject, subTopic}`. Its only caller treats the result as a string, and that caller is left out (see below).

## Model

| member | source | states |
|---|---|---|
| QuestionModel.DifficultyName | byte-sized-banishment/server/models/questionModel.js:18-23 | a schema difficulty is stored as one of "easy", "medium", "hard" |
| QuestionModel.ParseDifficulty | byte-sized-banishment/server/models/questionModel.js:18-23 | reading a difficulty string gives one of the three schema difficulties exactly for "easy", "medium" and "hard", and never an `Other` that aliases them |
| QuestionModel.ParseNameRoundTrip | byte-sized-banishment/server/models/questionModel.js:18-23 | reading and naming a difficulty are inverse: every string names what it reads as, and every canonical difficulty reads back from its name |
| UserModel.Lookup | byte-sized-banishment/server/models/userModel.js:45 | `progress.get(key)` is absent exactly when the key is not in the map, and otherwise is an entry stored under that key |
| UserModel.Set | byte-sized-banishment/server/models/userModel.js:45 | `progress.set` overwrites the entry of a present key in place and appends a new key at the end |
| UserModel.SetKeys | byte-sized-banishment/server/models/userModel.js:45 | setting keeps keys distinct and in insertion order, and adds a new key last |
| UserModel.LookupAfterSet | byte-sized-banishment/server/models/userModel.js:45 | after `set(key, e)`, `get(key)` is `e` and every other key keeps its entry |
| UserModel.SetKeepsConsistent | byte-sized-banishment/server/models/userModel.js:15-21 | writing an entry with correct <= totalAttempted keeps that bound for every entry |
| UserModel.NewUserValid | byte-sized-banishment/server/models/userModel.js:37-45 | the defaults (level 1, xp 0, threshold 150, modifier 1, empty progress) meet the levelling invariant threshold = 150 x level, 0 <= xp < threshold |
| UserModel.User.constructor | byte-sized-banishment/server/models/userModel.js:24-55 | a new user has level 1, xp 0, threshold 150, rank "Novice", no correct answers, the default effect, empty progress and empty friend lists |
| SessionModel.AppendFresh | byte-sized-banishment/server/models/gauntletSessionModel.js:26-32 | appending an unseen id keeps the question history free of repeats |
| SessionModel.NewSessionState | byte-sized-banishment/server/models/gauntletSessionModel.js:14-36 | a new session is active with 3 strikes and meets the lifecycle invariant |
| SessionModel.Session.constructor | byte-sized-banishment/server/models/gauntletSessionModel.js:3-39 | a new session has 3 strikes, score 0, index 0, empty history, is active, and starts at the given difficulty and time |
| GauntletRules.Advance | byte-sized-banishment/server/controllers/gauntletController.js:267-322 | a correct answer extends the correct run and clears the miss run (a miss the reverse); easy moves up at 5 in a row, medium at 4; hard drops at the first miss, medium at 2; a move resets the runs and goes exactly one level; no move at the ceiling, at the floor or from an unknown difficulty |
| GauntletRules.FiveCorrectFromEasy | byte-sized-banishment/server/controllers/gauntletController.js:272-290 | five correct answers from a fresh easy session reach medium, four do not |
| GauntletRules.RunMovesAtMostOnePerAnswer | byte-sized-banishment/server/controllers/gauntletController.js:267-322 | k answers move the difficulty at most k levels and never leave easy/medium/hard |
| GauntletRules.RankForIsRank | byte-sized-banishment/server/controllers/gauntletController.js:21-34 | the rank of a level is the name of the largest threshold in 1, 5, 10, 20 not above it, "Novice" below all |
| GauntletRules.GetRankForLevel | byte-sized-banishment/server/controllers/gauntletController.js:28-34 | the threshold loop returns the rank of the largest threshold not above the level |
| GauntletRules.RankUnique | byte-sized-banishment/server/controllers/gauntletController.js:21-26 | the threshold table gives each level one rank |
| GauntletRules.XpValue | byte-sized-banishment/server/controllers/gauntletController.js:469 | base XP is between 10 and 50 (easy 10, medium 25, hard 50, otherwise 10) |
| GauntletRules.RoundedXp | byte-sized-banishment/server/controllers/gauntletController.js:490 | the awarded XP is the nearest integer to base x modifier, halves rounded up |
| GauntletRules.RoundingExamples | byte-sized-banishment/server/controllers/gauntletController.js:490 | 25 x 1.5 rounds to 38, 25 x 0.5 to 13, 50 x 1.5 to 75 |
| GauntletRules.XpFor | byte-sized-banishment/server/controllers/gauntletController.js:469-490 | a correct answer earns between 5 and 75 XP, and exactly the base when no effect is in force |
| GauntletRules.EffectAfterCorrect | byte-sized-banishment/server/controllers/gauntletController.js:471-519 | an effect in force is kept; an expired one is cleared; a new blessing appears only at a streak of exactly 5 with no effect type left |
| GauntletRules.EffectAfterMiss | byte-sized-banishment/server/controllers/gauntletController.js:547-561 | the effect changes exactly when one strike is left and no effect type is set, and then becomes the 0.5 curse for five minutes |
| GauntletRules.ActiveEffectNeverOverwritten | byte-sized-banishment/server/controllers/gauntletController.js:509-561 | an effect in force is never replaced by a blessing or a curse |
| GauntletRules.RecordAttemptKeys | byte-sized-banishment/server/controllers/gauntletController.js:497-507 | recording an attempt keeps progress keys distinct and ordered, adding a missing key last |
| GauntletRules.RecordAttemptEntry | byte-sized-banishment/server/controllers/gauntletController.js:497-507 | the recorded key has one attempt more than before (from {0, 0} when missing), one correct answer more exactly when right, and keeps its mastery flag |
| GauntletRules.RecordAttemptOther | byte-sized-banishment/server/controllers/gauntletController.js:536-545 | recording leaves every other key's entry unchanged |
| GauntletRules.RecordAttemptConsistent | byte-sized-banishment/server/controllers/gauntletController.js:85-94 | recording preserves correct <= totalAttempted for every entry |
| GauntletRules.TimeoutMessage | byte-sized-banishment/server/controllers/gauntletController.js:241-264 | the timeout table has a line exactly for the three difficulties and the mcq, integer and code types |
| GauntletRules.TimeoutDialogue | byte-sized-banishment/server/controllers/gauntletController.js:241-264 | the timeout line is the table's line, else the fallback line, never with audio |
| GauntletRules.Punishment | byte-sized-banishment/server/controllers/gauntletController.js:37-56 | an unreadable penance file gives the fallback penance, an empty one nothing, otherwise one of its entries |
| GauntletRules.HighestDifficulty | byte-sized-banishment/server/controllers/gauntletController.js:628-639 | the summary's highest difficulty is between 1 and 3, the maximum level of the logged changes, and 1 when nothing was logged |
| GauntletRules.DurationSeconds | byte-sized-banishment/server/controllers/gauntletController.js:609-611 | the duration is the elapsed milliseconds divided by 1000, rounded to the nearest second |
| GauntletRules.ToUpper | byte-sized-banishment/server/controllers/gauntletController.js:584-585 | upper-casing maps each character to its upper-case ASCII letter and keeps the length |
| GauntletSteps.DifficultyUpdateLog | byte-sized-banishment/server/controllers/gauntletController.js:306-321 | a change is logged exactly when it happens, as one event at the current index naming the new difficulty (one level up after a correct answer, down after a miss) with the matching reason; nothing else changes |
| GauntletSteps.RecordedKeepsInv | byte-sized-banishment/server/controllers/gauntletController.js:497-507 | recording an attempt keeps the user invariant |
| GauntletSteps.GradeStats | byte-sized-banishment/server/controllers/gauntletController.js:460-590 | a correct answer adds a correct answer and one to the streak, raises the best streak, and adds the same rounded XP to the user's XP (net of a level-up threshold), the score and the session XP; a miss adds a wrong answer, takes a strike, zeroes the streak and earns nothing; the index moves on; the progress entry is recorded; history, activity and the best session are untouched |
| GauntletSteps.GradeLevel | byte-sized-banishment/server/controllers/gauntletController.js:521-529 | XP reaching the threshold gains exactly one level, subtracts the old threshold, sets the threshold to 150 x the new level and takes its rank; otherwise level, threshold and rank stay |
| GauntletSteps.GradeEffect | byte-sized-banishment/server/controllers/gauntletController.js:471-561 | the effect after grading is the blessing/expiry rule after a correct answer and the curse rule after a miss |
| GauntletSteps.GradeDifficulty | byte-sized-banishment/server/controllers/gauntletController.js:564-565 | grading applies the progression policy once and logs a change at the answered question's index |
| GauntletSteps.GradeFeedbackCorrect | byte-sized-banishment/server/controllers/gauntletController.js:509-587 | a correct answer's feedback is the level-up line, else the blessing line, else the promotion line, else the correct-answer trigger for the question's difficulty |
| GauntletSteps.GradeFeedbackMiss | byte-sized-banishment/server/controllers/gauntletController.js:547-587 | a miss's feedback is the curse line, else the demotion line, else the incorrect-answer trigger for the question's difficulty |
| GauntletSteps.GradeKeepsUserInv | byte-sized-banishment/server/controllers/gauntletController.js:461-562 | grading keeps the user invariant: one answer's XP (at most 75) needs at most one level-up, effects stay well formed, progress stays consistent |
| GauntletSteps.GradeReady | byte-sized-banishment/server/controllers/gauntletController.js:460-590 | grading an active session leaves it active, unstamped, with strikes in [0, 3] and the streak bound kept |
| GauntletSteps.StreakRecord | byte-sized-banishment/server/controllers/gauntletController.js:599-604 | the best session becomes the larger of the stored one and this one, and this one when none is stored |
| GauntletSteps.SessionSummary | byte-sized-banishment/server/controllers/gauntletController.js:618-639 | the summary reports the completed count and reason given, the session's counters, score, XP and best streak, and a highest difficulty in 1..3 |
| GauntletSteps.ConcludeOutcome | byte-sized-banishment/server/controllers/gauntletController.js:592-697 | game over exactly when no strike is left; completion exactly when a strike is left and every question of the subject has been seen; otherwise an unseen question of the subject, the staged-search result, appended to the history with the user unchanged; an ending closes the session at `now` with its reason and updates the best session |
| GauntletSteps.ConcludeKeepsInv | byte-sized-banishment/server/controllers/gauntletController.js:592-697 | ending or continuing restores the session lifecycle invariant and keeps the user's |
| GauntletSteps.AnswerKeepsInv | byte-sized-banishment/server/controllers/gauntletController.js:410-729 | an answer to an active session keeps both records' invariants |
| GauntletSteps.AnswerOutcome | byte-sized-banishment/server/controllers/gauntletController.js:447-697 | a server error, changing neither record, exactly when validation throws; a game over exactly when a wrong answer takes the last strike, with the game-over trigger and reason "failed"; a completion carries the win trigger and reason "completed"; otherwise the session stays active exactly when a next question is sent, with the grading feedback |
| GauntletSteps.TimeoutStats | byte-sized-banishment/server/controllers/gauntletController.js:76-94 | a timeout adds a wrong answer, takes a strike, zeroes the streak, moves the index on, then steps the difficulty down by the policy (logged at the new index); score, XP, level, effect and correct answers are kept; progress is recorded only when the session goes on |
| GauntletSteps.TimeoutOutcome | byte-sized-banishment/server/controllers/gauntletController.js:103-214 | a timeout loses the game exactly when one strike was left; game over and next question carry the timeout line, completion the win trigger; the session stays active exactly when a next question is sent |
| GauntletSteps.TimeoutKeepsInv | byte-sized-banishment/server/controllers/gauntletController.js:59-238 | a timeout on an active session keeps both invariants |
| GauntletSteps.QuitSpec | byte-sized-banishment/server/controllers/gauntletController.js:808-851 | quitting closes the session as abandoned at `now`, reports the current index as completed, keeps history, strikes and counters, changes only the user's best session, and keeps both invariants (so a second quit is rejected) |
| GauntletSteps.StartDifficulty | byte-sized-banishment/server/controllers/gauntletController.js:357-362 | a session starts at the difficulty the requested string names, or easy when none or an empty one is given |
| GauntletSteps.MockDifficulty | byte-sized-banishment/server/controllers/gauntletController.js:369-371 | the stand-in last difficulty is easy exactly when the string "easy" was requested, medium otherwise |
| GauntletSteps.FirstQuestionTarget | byte-sized-banishment/server/controllers/gauntletController.js:369-377 | the first query asks for medium when "easy" was requested and hard otherwise, with no sub-topic filter |
| GauntletController.UpdateDifficultyProgression | byte-sized-banishment/server/controllers/gauntletController.js:267-322 | the in-place update leaves the session at `DifficultyUpdate` of the old one and returns whether the difficulty changed |
| GauntletController.CountCorrect | byte-sized-banishment/server/controllers/gauntletController.js:462-467 | correct answers and streak rise by one; the best streak becomes the larger of the old one and the streak |
| GauntletController.XpGain | byte-sized-banishment/server/controllers/gauntletController.js:469-490 | returns `XpFor` the difficulty under the old effect and clears an expired effect, nothing else |
| GauntletController.AwardXp | byte-sized-banishment/server/controllers/gauntletController.js:469-494 | the same gain is added to user XP, score and session XP, and the user's correct answers rise by one |
| GauntletController.LevelUp | byte-sized-banishment/server/controllers/gauntletController.js:521-529 | a level-up happens exactly when xp reaches the threshold, and the user becomes `Leveled` of the old one |
| GauntletController.RecordProgress | byte-sized-banishment/server/controllers/gauntletController.js:497-507 | the progress map becomes `RecordAttempt` of the old one |
| GauntletController.Bless | byte-sized-banishment/server/controllers/gauntletController.js:509-519 | a blessing starts exactly at a streak of 5 with no effect type set |
| GauntletController.ScoreCorrect | byte-sized-banishment/server/controllers/gauntletController.js:461-529 | the two records become `CorrectStep` of the old ones, with its line |
| GauntletController.CountMiss | byte-sized-banishment/server/controllers/gauntletController.js:531-533 | a miss adds a wrong answer, takes a strike and zeroes the streak |
| GauntletController.ScoreMiss | byte-sized-banishment/server/controllers/gauntletController.js:530-562 | the two records become `MissStep` of the old ones, with its line |
| GauntletController.Score | byte-sized-banishment/server/controllers/gauntletController.js:461-562 | the two records become `ScoreStep` of the old ones |
| GauntletController.Grade | byte-sized-banishment/server/controllers/gauntletController.js:447-590 | the two records, verdict and feedback are `GradeStep` of the old records |
| GauntletController.EndSession | byte-sized-banishment/server/controllers/gauntletController.js:593-604 | the session is closed at `now` with the reason, and the user's best session is updated |
| GauntletController.Conclude | byte-sized-banishment/server/controllers/gauntletController.js:592-697 | the records and response are `ConcludeStep` of the old records |
| GauntletController.Answer | byte-sized-banishment/server/controllers/gauntletController.js:447-698 | the records and response are `AnswerStep` of the old records; a server error exactly when validation throws, and then nothing changes |
| GauntletController.SubmitAnswer | byte-sized-banishment/server/controllers/gauntletController.js:410-729 | 404 exactly for a missing session, question or user; 401 exactly for another user's session; 400 exactly for a session that is over; 500 exactly when validation throws on an accepted answer; a rejection or a 500 changes nothing; otherwise the handler performs `AnswerStep` and keeps both invariants |
| GauntletController.CountTimeout | byte-sized-banishment/server/controllers/gauntletController.js:76-82 | the session becomes `TimedOutSession` of the old one |
| GauntletController.TimeOut | byte-sized-banishment/server/controllers/gauntletController.js:76-210 | the records and response are `TimeoutStep` of the old records |
| GauntletController.HandleTimeout | byte-sized-banishment/server/controllers/gauntletController.js:59-238 | the same three rejections as an answer, changing nothing; otherwise the handler performs `TimeoutStep` and keeps both invariants |
| GauntletController.QuitSession | byte-sized-banishment/server/controllers/gauntletController.js:793-857 | 404 exactly for a missing session or user, 401 for another user's session, 400 for a session already over, each changing nothing; otherwise the handler performs `QuitStep` |
| GauntletController.StartGauntlet | byte-sized-banishment/server/controllers/gauntletController.js:356-408 | nothing is created exactly when the subject has no question; otherwise a fresh valid session at the start difficulty with the first question in its history and index 1, the question being the staged-search result for the stand-in difficulty |
| AiServices.WeakestUnique | byte-sized-banishment/server/services/aiServices.js:23-33 | at most one entry is the weakest topic |
| AiServices.FindWeakestLink | byte-sized-banishment/server/services/aiServices.js:22-40 | the result is the split key of the entry with the strictly lowest success rate below 1 among entries with at least 3 attempts, the earliest on ties; null when no such entry exists |
| AiServices.SplitProgressKey | byte-sized-banishment/server/services/aiServices.js:35-37 | splitting undoes the key construction: `subject-subTopic` gives back both parts, a bare subject gives no sub-topic |
| AiServices.SplitDropsExtraParts | byte-sized-banishment/server/services/aiServices.js:36 | parts after a second '-' are dropped |
| AiServices.NextDifficulty | byte-sized-banishment/server/services/aiServices.js:43-61 | after a correct answer one level above the last question's (at most hard), after a miss one below (at least easy); an unknown last difficulty gives easy |
| AiServices.NextDifficultyIgnoresStreak | byte-sized-banishment/server/services/aiServices.js:50-55 | the medium-with-streak branch never changes the target difficulty |
| AiServices.FirstMatch | byte-sized-banishment/server/services/aiServices.js:63 | `findOne` returns a stored question matching the filter, and nothing exactly when none matches |
| AiServices.FirstMatchIsFirst | byte-sized-banishment/server/services/aiServices.js:63 | the match found is preceded by no other match |
| AiServices.FirstMatchUnique | byte-sized-banishment/server/services/aiServices.js:63 | the first match is determined by the store and the filter |
| AiServices.FindOne | byte-sized-banishment/server/services/aiServices.js:63 | the scan returns the first match in store order |
| AiServices.SelectionStages | byte-sized-banishment/server/services/aiServices.js:46-72 | the result is the first match of the full filter, else of the filter without sub-topic, else of the filter without difficulty |
| AiServices.SelectionSound | byte-sized-banishment/server/services/aiServices.js:46-72 | a selected question is in the store, of the session's subject and not in the history; nothing is selected exactly when every question of the subject has been seen |
| AiServices.SelectNextQuestion | byte-sized-banishment/server/services/aiServices.js:42-73 | the staged queries compute `Selection` |
| AiServices.DevilDialogue | byte-sized-banishment/server/services/aiServices.js:75-79 | an unknown or empty trigger gives the silent line "..." without audio, otherwise one of the trigger's lines |
| AiServices.DialogueReachable | byte-sized-banishment/server/services/aiServices.js:78 | every line of a trigger can be drawn |
| AiServices.ValidateAnswer | byte-sized-banishment/server/services/aiServices.js:81-87 | validation throws exactly for an mcq or integer question missing the answer or the stored answer; an answer is correct exactly for an mcq or integer question whose answer string equals the stored one; code and description answers are graded wrong |
| AiServices.OnlyTheStoredAnswerIsCorrect | byte-sized-banishment/server/services/aiServices.js:83-85 | on an mcq or integer question with a stored answer, that answer is correct and any other answer string is graded wrong |
| CodeExecution.LanguageNamesAreKeys | byte-sized-banishment/server/services/codeExecutionService.js:5-57 | the names listed in the unsupported-language message are exactly the names the table gives a judge id |
| CodeExecution.LookupSucceeds | byte-sized-banishment/server/services/codeExecutionService.js:5-56 | the lookup finds something exactly for a listed name or an inherited member's name, and an inherited member exactly for "constructor" and "__proto__" |
| CodeExecution.InheritedNotRejected | byte-sized-banishment/server/services/codeExecutionService.js:55-56 | a language that lower-cases to an inherited member's name is not rejected: its lookup finds that member |
| CodeExecution.ListedNamesAccepted | byte-sized-banishment/server/services/codeExecutionService.js:5-52 | every listed name has a language id |
| CodeExecution.ToLower | byte-sized-banishment/server/services/codeExecutionService.js:55 | lower-casing maps each character and keeps the length |
| CodeExecution.RunTestCases | byte-sized-banishment/server/services/codeExecutionService.js:65-109 | the verdict is correct exactly when every test case is accepted (status 3), after one judge call per case; otherwise the calls stop at the first case not accepted, every earlier case was accepted, and the feedback is that case's |
| CodeExecution.ExecuteCode | byte-sized-banishment/server/services/codeExecutionService.js:54-110 | a language whose lookup finds nothing is rejected with the unsupported-language message and no judge call; otherwise, inherited members included, the verdict and feedback of the test-case loop |
| CodeExecution.LanguageIdIgnoresCase | byte-sized-banishment/server/services/codeExecutionService.js:55 | a name and its lower-case form get the same id |
| CodeExecution.CapitalisedPython | byte-sized-banishment/server/services/codeExecutionService.js:55 | "Python" is accepted as Python (judge id 71) |
| CodeExecution.LanguageAliases | byte-sized-banishment/server/services/codeExecutionService.js:5-52 | python/python3, c++/cpp, go/golang and c#/csharp share ids in the table; an unlisted name is unsupported |
| FriendController.Without | byte-sized-banishment/server/controllers/friendController.js:75-80 | the filter removes every copy of the id, keeps every other id, and changes nothing when the id is absent |
| FriendController.WithoutAppended | byte-sized-banishment/server/controllers/friendController.js:100-114 | filtering out an id just pushed gives the list filtered without it |
| FriendController.SendSpec | byte-sized-banishment/server/controllers/friendController.js:35-45 | a request is sent exactly when the two are not friends and it is not pending; it appends one id to each of the two lists and changes nothing else; a rejected request changes nothing |
| FriendController.SendTwiceRejected | byte-sized-banishment/server/controllers/friendController.js:35-42 | sending the same request twice is rejected the second time |
| FriendController.AcceptSpec | byte-sized-banishment/server/controllers/friendController.js:64-80 | a request is accepted exactly when it is pending; each user is appended to the other's friends, every copy of the request leaves both request lists, other requests stay, nothing else changes |
| FriendController.DeclineSpec | byte-sized-banishment/server/controllers/friendController.js:100-114 | declining removes the pair in both directions from all four request lists, keeps every other request and both friends lists, and is idempotent |
| FriendController.StepsKeepPairConsistent | byte-sized-banishment/server/controllers/friendController.js:44-114 | send, accept and decline keep the two users' sent/received lists and friendships in agreement |
| FriendController.SendThenAccept | byte-sized-banishment/server/controllers/friendController.js:44-80 | a sent request, once accepted, makes the two mutual friends with nothing pending |
| FriendController.SendThenDecline | byte-sized-banishment/server/controllers/friendController.js:44-114 | declining a request just sent restores both users' lists |
| FriendController.SendFriendRequest | byte-sized-banishment/server/controllers/friendController.js:29-54 | 404 exactly when the recipient is missing, 500 when only the sender is; otherwise the records become `SendStep`; a failure changes nothing |
| FriendController.AcceptFriendRequest | byte-sized-banishment/server/controllers/friendController.js:59-89 | a missing sender is "no request", a missing recipient a 500; otherwise the records become `AcceptStep`; a failure changes nothing |
| FriendController.DeclineFriendRequest | byte-sized-banishment/server/controllers/friendController.js:94-123 | 500 exactly when a record is missing; otherwise the records become `DeclineStep` |
| SkillTree.SubTopicValues | byte-sized-banishment/server/controllers/skillTreeController.js:14 | a value is a sub-topic of some question of the subject exactly when listed |
| SkillTree.Dedup | byte-sized-banishment/server/controllers/skillTreeController.js:14 | deduplication has no repeats and the same members |
| SkillTree.SubTopics | byte-sized-banishment/server/controllers/skillTreeController.js:14 | the distinct sub-topics are the sub-topics of the subject's questions, each once |
| SkillTree.CountQuestionsPositive | byte-sized-banishment/server/controllers/skillTreeController.js:33-36 | a sub-topic carried by a question of the subject counts at least one question |
| SkillTree.NodeIdInjective | byte-sized-banishment/server/controllers/skillTreeController.js:19 | different sub-topics give different node ids |
| SkillTree.NodesSpec | byte-sized-banishment/server/controllers/skillTreeController.js:17-48 | one node per distinct sub-topic in order, with id `subject-subTopic`, the sub-topic as name, never locked, mastered exactly when the entry says so, the entry's correct count or 0, a total of at least 1, and distinct ids |
| SkillTree.NodeAfterAttempt | byte-sized-banishment/server/controllers/skillTreeController.js:19-44 | a node reads the key the gauntlet writes: answering one of its questions adds one to its correct count exactly when right and keeps its status and total |
| SkillTree.BuildEdges | byte-sized-banishment/server/controllers/skillTreeController.js:54-57 | max(n - 1, 0) edges, edge i from node i to node i + 1 |
| SkillTree.GetSkillTree | byte-sized-banishment/server/controllers/skillTreeController.js:7-70 | a 500 exactly when the user record is missing and the subject has a sub-topic; an empty tree when the user is missing and there is none; otherwise the user's nodes and the chain of edges |
| AdminRoutes.ValidateSpec | byte-sized-banishment/server/routes/adminRoutes.js:21-34 | the loop passes exactly when every element has the four fields; otherwise the first failing element decides: null throws, an object is a 400 |
| AdminRoutes.BulkUpload | byte-sized-banishment/server/routes/adminRoutes.js:8-52 | a non-array is a 400 with its message; an upload reports the count of exactly the items given |
| AdminRoutes.BulkUploadSpec | byte-sized-banishment/server/routes/adminRoutes.js:13-43 | the batch is inserted whole and counted exactly when it is an array whose every element has the four fields and the database accepts it; a record missing a field first rejects the whole batch with a 400 |

## Left out

- `getSubjects`, `startWeaknessDrill` and `getTimerDuration`:
  - `getSubjects` is a distinct query with a fixed fallback list;
  - `startWeaknessDrill` parses the weakest-link result with a regular expression, as the discrepancies above describe;
  - `getTimerDuration` is not part of this model, because no server file defines it. `gauntletController.js:4-10` imports it from `aiServices.js`, whose export list (`aiServices.js:89-94`) does not name it. An ES module import of a name the module does not export fails when the modules are linked, so as written the controller module does not load. The model assumes that import resolves.
- The friends listing and user search handlers: they are database queries.
- Persistence: `findById`, `save` and `Promise.all`. A handler's model stops where the records are saved. Database and network failures, and the 500 responses they cause, are not modelled, except where noted above.
- The HTTP responses: they are abstracted to outcome values. A response's extra fields (`sessionProgress`, `updatedStats`, `executionFeedback`, `timerDuration`, the `"Unlimited"` total) are not modelled. The `Feedback` value names a dialogue line; `AiServices.DevilDialogue` resolves it in the catalog.
- Reading the dialogue and penance files, and `Math.random`: the contents are parameters, and the draw is `pick`.
- The Judge0 HTTP request: it is the `judge` function parameter. In the model, a thrown request error is its `RequestFailed` reply.
- Floating point: XP multipliers and success rates are exact halves and rationals. Doubles are not modelled.
- CodeExecution.ToLower and GauntletRules.ToUpper map ASCII letters only. They leave out the rest of Unicode case mapping. The one non-ASCII character that `toLowerCase` maps to an ASCII letter is U+212A KELVIN SIGN, which becomes "k". So the source accepts "\u212Aotlin" as Kotlin and "has\u212Aell" as Haskell, and the model rejects both. In the other direction, `toUpperCase` maps U+0131 (dotless i) to "I" and U+017F (long s) to "S"; the model's `ToUpper` keeps both as they are.
- Mongoose: enum validation, casting and `ObjectId` string comparison are not modelled. Ids are naturals compared by value.
- UserModel.Set: a Mongoose `Map` rejects a key that contains "." or starts with "$", so `progress.set` throws on such a key (a subject or sub-topic containing a dot) and the handler sends a 500 with nothing saved. `UserModel.Set`, `GauntletRules.RecordAttempt` and `GauntletController.RecordProgress` accept every key.
- SkillTree.SubTopics: `Question.distinct` is taken to return sub-topics in order of first occurrence, and questions without a sub-topic are skipped. The database's actual order is not modelled.
- Two-document aliasing: the friend handlers take the two loaded documents to be distinct objects. With the same id twice, the source would save two copies of one document, and the model does not capture that.
- The password hook, authentication, e-mail, duels, leaderboard, and the client application: none of these are part of the gauntlet engine.
