# dle-new: the guessing duel, modelled in Dafny

The game is a "dle": the player guesses characters of an anime or video
game, and each guess is compared with a hidden target, attribute by
attribute. Each cell comes back as `correct`, `close`, `higher`, `lower` or
`wrong`. A solo page runs the game in the browser. The duel server pairs two
sockets through matchmaking queues or private lobbies that have
six-character codes. Each room then plays rounds in turn-based or
simultaneous mode, with chat, rematch votes, a three-minute draw timer and
teardown when a player leaves.

This project models the core logic:

- **The server's feedback engine.** `Feedback`, with its laws in `FeedbackLaws`.
- **The session directory.** The room state machine is in `GameRoom`: each room is a value, and every transition is a function from the old room to the new one. `GameManager.Manager` is a class holding the six maps. Its methods update them and keep an invariant.
- **The solo page.** Its own copy of the feedback rules is in `SoloFeedback`, with lemmas stating where it differs from the server's. Its attempt rules and local statistics are in `SoloGame`.
- **The validators of the account routes.** `AuthValidation`.
- **The statistics.** The counter update of the database layer is in `UserStats`. The `/all` aggregation loop is in `StatsSummary`.
- **Smaller front-end components:**
  - the character table's filter, comparator and pagination (`CharactersTable`);
  - the room-code input (`JoinPrivateRoom`, with `RoomCode`);
  - the countdown (`Timer`).

Shared JavaScript semantics live in `JsText` and `GameData`:

- ASCII case mapping, `trim`, `includes`, `join`;
- `Number()` on decimal integers;
- truthiness.

`Math.random()` is a parameter: a `Random.Roll` fraction in [0, 1). `Date.now()` is also a parameter (`now`). Room ids are passed in as well.

## Model

| member | source | states |
|---|---|---|
| Feedback.FindIndex | backend/socket/feedbackUtils.js:97-98 | the index is -1 exactly when no lower-cased entry equals the value; otherwise it is the first entry that does |
| Feedback.SharedGroup | backend/socket/feedbackUtils.js:120-131 | the group loop succeeds exactly when some group lists both lower-cased values |
| Feedback.ComputeFieldFeedback | backend/socket/feedbackUtils.js:2-159 | a direction is only ever attached to a `close` result |
| Feedback.FeedbackMap | backend/socket/feedbackUtils.js:162-168 | the object has exactly one key per attribute key |
| Feedback.FeedbackMapCell | backend/socket/feedbackUtils.js:164-166 | each key holds the cell of the last attribute with that key |
| Feedback.FeedbackObjectCells | backend/socket/feedbackUtils.js:162-168 | `FeedbackObject` (`getFeedbackObject`) has one entry per attribute key, computed from the guess's and the target's values under that key |
| FeedbackLaws.MultipleClassification | backend/socket/feedbackUtils.js:6-32 | "multiple": equal case-insensitive sets are correct, overlapping sets are close, disjoint or one-sided empty sets are wrong |
| FeedbackLaws.MultipleEmptyLists | backend/socket/feedbackUtils.js:14-20 | two empty lists give correct; exactly one empty list gives wrong |
| FeedbackLaws.ExactMatchIsCorrect | backend/socket/feedbackUtils.js:34-40 | outside "multiple", two non-empty values that are equal after lower-casing and trimming are correct, before any other rule (including "unknown" against "unknown") |
| FeedbackLaws.Reflexive | backend/socket/feedbackUtils.js:14-40 | a value is correct against itself unless it normalises to nothing |
| FeedbackLaws.SentinelIsWrong | backend/socket/feedbackUtils.js:42-61 | an empty, "unknown" or "none" value on either side is wrong, shown as the guess or "-", unless the attribute is ordered and its order lists "unknown" or "none" |
| FeedbackLaws.SentinelExempted | backend/socket/feedbackUtils.js:47-115 | with that exemption, sentinel values go on to the ordered comparison |
| FeedbackLaws.RankedRule | backend/socket/feedbackUtils.js:72-92 | equal ranks are correct; ranks one apart are close, with direction higher exactly when the guess is greater; otherwise higher exactly when the guess is greater, else lower |
| FeedbackLaws.NumberRule | backend/socket/feedbackUtils.js:63-76 | "number": a non-numeric side gives wrong; otherwise the rank rule on the two numbers |
| FeedbackLaws.OrderedRule | backend/socket/feedbackUtils.js:79-115 | "ordered": two numbers use the rank rule; otherwise a value missing from the order list gives wrong, and positions use the rank rule |
| FeedbackLaws.SwapMirrors | backend/socket/feedbackUtils.js:72-114 | swapping guess and target on "number" or "ordered" keeps correct, close and wrong, and swaps higher with lower, directions included |
| FeedbackLaws.TextGroupRule | backend/socket/feedbackUtils.js:117-134 | "text-group": a different pair is close exactly when some group lists both lower-cased values, else wrong |
| FeedbackLaws.TextRule | backend/socket/feedbackUtils.js:136-158 | "text": a non-empty order or hints list makes any mismatch wrong; otherwise containment either way is close, except male against female |
| FeedbackLaws.MaleFemaleIsWrong | backend/socket/feedbackUtils.js:137-153 | "Male" against "female" is wrong, although one contains the other |
| FeedbackLaws.NumberExamples | backend/socket/feedbackUtils.js:72-75 | 5 against 7 is lower; 6 against 7 is close with direction lower |
| SoloFeedback.SoloFieldFeedback | frontend/src/pages/Game.jsx:97-219 | on the solo page a direction is only attached to a close result |
| SoloFeedback.SharedFrontRules | frontend/src/pages/Game.jsx:100-126 | the solo copy answers like the server whenever the exact-match or the sentinel rule decides |
| SoloFeedback.AgreesOnOtherTypes | frontend/src/pages/Game.jsx:129-192 | for "number" and "text-group" the two copies agree on every input |
| SoloFeedback.OrderedNumbersInverted | frontend/src/pages/Game.jsx:144-158 | "ordered" with two numbers: the solo page answers higher where the server answers lower and vice versa, close directions included |
| SoloFeedback.OrderedPositionsAgree | frontend/src/pages/Game.jsx:160-177 | "ordered" with a non-number side: both copies compare positions and agree |
| SoloFeedback.TextHintsRule | frontend/src/pages/Game.jsx:196-218 | "text" with hints: partial credit is withheld only when the guess equals a hint cut at its "(" and trimmed; otherwise the substring rule applies, still excluding male/female |
| SoloFeedback.TextWithoutHintsAgrees | frontend/src/pages/Game.jsx:196-218 | "text" without order and hints: both copies agree |
| SoloFeedback.TextOrderAgrees | frontend/src/pages/Game.jsx:196-200 | "text" with a non-empty order list: both copies agree, and answer wrong unless the texts match exactly |
| SoloFeedback.MultipleFallsThrough | frontend/src/pages/Game.jsx:97-219 | the solo page has no "multiple" branch: two lists are correct only on an exact match of their texts |
| Random.Scale | frontend/src/pages/Game.jsx:92 | `Math.floor(Math.random() * n)` is an index below n |
| Random.Pick | frontend/src/pages/Game.jsx:91-95 | `pickTarget` gives an element of the list, and nothing exactly when the list is empty |
| SoloGame.MaxAttempts | frontend/src/pages/Game.jsx:327 | the attempt limit is `maxAttempts`, or 26 when that is missing or 0 |
| SoloGame.Load | frontend/src/pages/Game.jsx:260-264 | loading keeps the data, takes its characters as the pool, and picks the target from that pool |
| SoloGame.ValidateSelection | frontend/src/pages/Game.jsx:306-331 | an ended game, a missing target or data, or a repeated character changes nothing; otherwise the attempt is put first, and the game ends on a correct guess or when the count reaches the limit |
| SoloGame.NewGame | frontend/src/pages/Game.jsx:333-340 | a new game has a target from the pool, no attempts, is not over and is not reported |
| SoloGame.RevealAnswer | frontend/src/pages/Game.jsx:342-344 | revealing ends the game and changes nothing else |
| SoloGame.Suggestions | frontend/src/pages/Game.jsx:352-357 | the suggestions are exactly the untried pool characters whose lower-case name contains the lower-case query, and there are none when the query is blank |
| SoloGame.Keep | frontend/src/pages/Game.jsx:353-356 | the pool filter keeps exactly the suggested characters and never lengthens the pool |
| SoloGame.KeepAppend | frontend/src/pages/Game.jsx:353-356 | filtering a concatenated pool is concatenating the filtered parts, so suggestions keep the pool's order |
| SoloGame.KeepOne | frontend/src/pages/Game.jsx:353-356 | a single pool character is kept exactly when it is suggested |
| SoloGame.KeepFirst | frontend/src/pages/Game.jsx:353-356 | the first kept character is the first suggested one of the pool |
| SoloGame.KeepNone | frontend/src/pages/Game.jsx:353-356 | a pool with no suggested character yields no suggestion |
| SoloGame.EnterAddsAttempt | frontend/src/pages/Game.jsx:346-350 | Enter with suggestions in a running game always adds an attempt, because a suggestion is never a repeat |
| SoloGame.EnterGuessesFirst | frontend/src/pages/Game.jsx:346-350 | `PressEnter` (`handleKeyDown` on Enter) with a non-blank query guesses the pool character at the least index that is suggested |
| SoloGame.EnterWithoutSuggestions | frontend/src/pages/Game.jsx:346-350 | Enter with a blank query, or with no suggested character, leaves the page unchanged |
| SoloGame.ReportStats | frontend/src/pages/Game.jsx:293-297 | an ended, unreported game is reported once, as won exactly when some attempt is correct, with its attempt count |
| SoloGame.InitialOk | frontend/src/pages/Game.jsx:229-243 | the starting state meets the page invariant |
| SoloGame.LoadKeepsOk | frontend/src/pages/Game.jsx:260-264 | loading into a state with no attempts keeps the invariant |
| SoloGame.ValidateKeepsOk | frontend/src/pages/Game.jsx:306-331 | a guess keeps the invariant: distinct guesses, at most the newest correct, none correct while running, never more than the limit, and fewer while running |
| SoloGame.NewGameKeepsOk | frontend/src/pages/Game.jsx:333-340 | a new game keeps the invariant |
| SoloGame.RevealKeepsOk | frontend/src/pages/Game.jsx:342-344 | revealing keeps the invariant |
| SoloGame.ReportKeepsOk | frontend/src/pages/Game.jsx:293-304 | reporting keeps the invariant |
| SoloGame.ReportedWinIsNewest | frontend/src/pages/Game.jsx:295-318 | a reported game is won exactly when its newest attempt is correct |
| SoloGame.UpdateLocal | frontend/src/pages/Game.jsx:72-85 | the local update keeps the streak at most the best streak, and the wins between 0 and the games played |
| SoloGame.LocalAgreesWithServer | frontend/src/pages/Game.jsx:72-85 | the local update is the server's `updateStats` restricted to games, wins, streak and best streak: one more game, one more win on a win, the streak extended or reset, the best streak its maximum |
| AuthValidation.IndexOf | backend/routes/authRoutes.js:41-44 | the first position of a character, or -1 when it does not occur |
| AuthValidation.EmailMatchesPattern | backend/routes/authRoutes.js:41-44 | `IsValidEmail` (`isValidEmail`) accepts an address exactly when it has no whitespace, has exactly one '@' with a non-empty part before it, and its domain has a '.' that is neither first nor last |
| AuthValidation.WordRun | backend/routes/authRoutes.js:46-50 | the run of word characters at the start of a name, and nothing longer |
| AuthValidation.UsernameRule | backend/routes/authRoutes.js:46-50 | `IsValidUsername` (`isValidUsername`) accepts a user name exactly when it has 2 to 20 characters, all letters, digits or '_' |
| AuthValidation.ValidatePassword | backend/routes/authRoutes.js:52-67 | a rule is listed exactly when the password fails it; each is listed once, in the order length, uppercase, lowercase, digit; there are at most four; the list is empty exactly when all hold |
| AuthValidation.RuleTexts | backend/routes/authRoutes.js:91-96 | one message per failed rule, in the same order |
| AuthValidation.CheckRegistration | backend/routes/authRoutes.js:70-96 | the checks run in order, each verdict answered exactly when the earlier checks pass and its own fails: missing fields when a field is absent or empty, then a bad e-mail, then a bad user name, then a weak password carrying the message of the failed rules; it goes on exactly when all pass |
| AuthValidation.RegistrationMatchesPattern | backend/routes/authRoutes.js:79-81 | a registration goes on only with an address that matches the e-mail pattern |
| AuthValidation.CheckReset | backend/routes/authRoutes.js:255-270 | a reset is refused for missing fields exactly when the token or password is absent or empty; it goes on exactly when the password passes all rules; any other refusal carries the failed rules' message |
| AuthValidation.PasswordExamples | backend/routes/authRoutes.js:52-67 | an empty password fails all four rules in order; "Abcdefg1" fails none |
| UserStats.GetStats | backend/db/database.js:196-208 | a missing row reads as all-zero counters |
| UserStats.UpdateStats | backend/db/database.js:220-226 | consistent counters stay consistent: streak not above best, wins not above games, duo wins not above duo games, duo not above total, solo wins not above solo games |
| UserStats.ReplayCounts | backend/db/database.js:220-226 | after any history of games, games played is its length, and the wins, duo games, duo wins and total attempts are its counts and sums |
| UserStats.ReplayStreak | backend/db/database.js:222 | the current streak is the run of wins that ends the history |
| UserStats.ReplayMaxStreak | backend/db/database.js:223 | the best streak is the longest run of consecutive wins anywhere in the history |
| UserStats.PutStats | backend/routes/statsRoutes.js:93-97 | PUT is refused when `won` is not a boolean; otherwise the row is updated with `isDuo` read by truthiness and `attempts` defaulting to 0 |
| StatsSummary.ByAnime | backend/routes/statsRoutes.js:27-35 | the per-game object has exactly one key per game of the rows |
| StatsSummary.AllStats | backend/routes/statsRoutes.js:14-51 | the totals are the sums over the rows, the best streak their maximum from 0, the solo counts total minus duo, and each rate the rounded percentage or 0 |
| StatsSummary.BestIsLargest | backend/routes/statsRoutes.js:15-25 | the best streak is at least every row's best streak and equals one of them, or is 0 |
| StatsSummary.ByAnimeEntry | backend/routes/statsRoutes.js:27-35 | each game's entry holds the counters of its last row |
| StatsSummary.WinRateMeaning | backend/routes/statsRoutes.js:45-51 | a win rate is 0 without games; otherwise it is 100·wins/played rounded to nearest with halves up, and lies in 0..100 when wins do not exceed games |
| StatsSummary.TotalsOrdered | backend/routes/statsRoutes.js:19-24 | on consistent rows, the totals are consistent too: wins not above games, overall, in solo and in duo |
| StatsSummary.RatesBounded | backend/routes/statsRoutes.js:45-51 | on consistent rows the three win rates lie between 0 and 100 |
| CharactersTable.Filter | frontend/src/components/CharactersTable.jsx:24-28 | the filter keeps exactly the characters whose lower-case name contains the lower-case search, in order, as `FilterAppend` and `FilterOne` pin down |
| CharactersTable.FilterAppend | frontend/src/components/CharactersTable.jsx:24-28 | filtering a concatenation is concatenating the filtered parts, so the filter keeps the list's order and its duplicates |
| CharactersTable.FilterOne | frontend/src/components/CharactersTable.jsx:24-28 | a single character is kept exactly when its lower-case name contains the lower-case search |
| CharactersTable.FindAttr | frontend/src/components/CharactersTable.jsx:37 | an attribute of the list with that key, and none exactly when no attribute has that key |
| CharactersTable.Antisymmetric | frontend/src/components/CharactersTable.jsx:39-70 | swapping the two rows negates `Compare`, the sort comparator, in every column and direction |
| CharactersTable.MissingLast | frontend/src/components/CharactersTable.jsx:44-59 | in ordered and number columns, a value not found or not a number sorts after every found one in both directions, and two such values tie |
| CharactersTable.DescendingNegates | frontend/src/components/CharactersTable.jsx:49-70 | among found values, descending is ascending negated |
| CharactersTable.TextTiesAreEqual | frontend/src/components/CharactersTable.jsx:65-70 | a text column ties exactly the values whose lower-case texts are equal |
| CharactersTable.Insert | frontend/src/components/CharactersTable.jsx:31-72 | inserting into sorted rows keeps them sorted and adds exactly that row |
| CharactersTable.Sort | frontend/src/components/CharactersTable.jsx:31-72 | the sorted rows are a permutation of the filtered rows, ordered by the comparator |
| CharactersTable.PageCount | frontend/src/components/CharactersTable.jsx:75 | the page count is max(1, ⌈n/15⌉) |
| CharactersTable.Visible | frontend/src/components/CharactersTable.jsx:76 | the page is the clamped slice of at most 15 rows starting at page·15 |
| CharactersTable.Shown | frontend/src/components/CharactersTable.jsx:24-76 | at most 15 rows are shown, and each matches the search |
| CharactersTable.RowOnItsPage | frontend/src/components/CharactersTable.jsx:75-76 | every row is on the page its position gives, and every page before the last is full |
| CharactersTable.HandleSort | frontend/src/components/CharactersTable.jsx:78-85 | the same column flips the direction; another column sorts ascending by that column |
| CharactersTable.SortTwiceRestores | frontend/src/components/CharactersTable.jsx:78-85 | clicking the same header twice restores the sort state |
| CharactersTable.PagesStayInRange | frontend/src/components/CharactersTable.jsx:75-76 | the previous and next buttons keep an in-range page in range |
| RoomCode.AlphabetIsCodeChars | backend/socket/gameManager.js:37 | the 36-character alphabet holds exactly A-Z and 0-9, each once |
| JoinPrivateRoom.Sanitize | frontend/src/components/game/JoinPrivateRoom.jsx:15 | the sanitised value has only A-Z and 0-9, and holds exactly the code characters of the upper-cased input |
| JoinPrivateRoom.SanitizeAppend | frontend/src/components/game/JoinPrivateRoom.jsx:15 | sanitising a concatenation is concatenating the sanitised parts, so characters keep their order and are never reordered or merged |
| JoinPrivateRoom.SanitizeOne | frontend/src/components/game/JoinPrivateRoom.jsx:15 | a single character becomes its upper-case form when that is A-Z or 0-9, and disappears otherwise |
| JoinPrivateRoom.SanitizeExample | frontend/src/components/game/JoinPrivateRoom.jsx:15 | a typed "ab-1" becomes "AB1" |
| JoinPrivateRoom.SanitizeIdempotent | frontend/src/components/game/JoinPrivateRoom.jsx:15 | sanitising twice is sanitising once |
| JoinPrivateRoom.HandleCodeChange | frontend/src/components/game/JoinPrivateRoom.jsx:14-19 | the code becomes the sanitised input when that has at most six characters, and stays as it was otherwise |
| JoinPrivateRoom.ChangeKeepsField | frontend/src/components/game/JoinPrivateRoom.jsx:14-19 | typing keeps the field at most six code characters |
| JoinPrivateRoom.HandleSubmit | frontend/src/components/game/JoinPrivateRoom.jsx:7-12 | `onJoin` is called exactly when the trimmed code has six characters, and then it gets that code upper-cased |
| JoinPrivateRoom.SubmitMatchesButton | frontend/src/components/game/JoinPrivateRoom.jsx:9-56 | on a well-formed field the button is enabled exactly when submit joins, and what it submits is the field, a room code |
| Timer.Remaining | frontend/src/components/game/Timer.jsx:12-13 | the time left is never negative; it is 0 exactly when the elapsed time reaches the duration; it never exceeds the duration once started; otherwise it is the duration minus the elapsed time |
| Timer.RemainingMonotone | frontend/src/components/game/Timer.jsx:12-13 | the time left only goes down as the clock advances |
| Timer.Update | frontend/src/components/game/Timer.jsx:8-19 | no start time or no duration changes nothing; otherwise the time shown becomes the time left, and expiry fires exactly when it is 0 and a callback is given |
| Timer.JsRem | frontend/src/components/game/Timer.jsx:31 | JavaScript's `%` takes the dividend's sign and agrees with the mathematical remainder on non-negative numbers |
| Timer.ClockReadsTime | frontend/src/components/game/Timer.jsx:30-32 | the seconds lie in 0..59; minutes and seconds give the time left to the second below; low time is exactly under 30 seconds |
| Timer.SecondsTwoDigits | frontend/src/components/game/Timer.jsx:38 | the seconds always show two digits |
| Timer.DisplayExample | frontend/src/components/game/Timer.jsx:30-38 | three minutes read "3:00" |
| GameRoom.NewRoom | backend/socket/gameManager.js:249-310 | a new room is playing, with no winner, no attempts, no votes and zero scores; the turn is a player's exactly in turn-based mode; a 180000 ms timer exists exactly in simultaneous mode |
| GameRoom.OpponentOf | backend/socket/gameManager.js:320-323 | the opponent is the first player id that is not the caller |
| GameRoom.Prefix | backend/socket/gameManager.js:335 | the stored text is the first 200 characters of the message |
| GameRoom.AddMessage | backend/socket/gameManager.js:326-349 | only a player of the room may post; the message is appended, truncated to 200 characters, and the oldest message is dropped beyond 50 |
| GameRoom.GuessCheck | backend/socket/gameManager.js:358-388 | the checks run in order and each rejection is answered exactly when every earlier check passes and its own fails: not playing, not your turn in turn-based mode, not a player, your own repeat, a character either player tried in turn-based mode, and a room without a target (`NoTarget`); a guess that passes every check is accepted |
| GameRoom.ApplyGuess | backend/socket/gameManager.js:352-431 | a rejected guess changes nothing; an accepted one appends exactly one attempt; a correct one finishes the round, names the guesser winner and adds 1 to the guesser's score only; a wrong one passes the turn in turn-based mode and keeps it in simultaneous mode |
| GameRoom.ExpireTimer | backend/socket/gameManager.js:435-448 | expiry acts only on a playing room and ends it as a draw, with scores unchanged |
| GameRoom.ClearPlayers | backend/socket/gameManager.js:493-496 | every player keeps its name and user, with no attempts and no vote |
| GameRoom.RequestRematch | backend/socket/gameManager.js:451-507 | a vote needs a finished room and a player; it restarts only when all have voted, clearing attempts and votes, keeping scores and messages, with a new target, turn or timer |
| GameRoom.NewRoomOk | backend/socket/gameManager.js:249-310 | a new room between two sockets meets the room invariant |
| GameRoom.MessageKeepsOk | backend/socket/gameManager.js:326-349 | chat keeps the room invariant: at most 50 messages of at most 200 characters |
| GameRoom.GuessKeepsOk | backend/socket/gameManager.js:352-431 | a guess keeps the invariant: no repeats, no shared guesses in turn-based mode, a winner with a correct attempt, no correct attempt while playing |
| GameRoom.AppendKeepsRecord | backend/socket/gameManager.js:390-391 | appending a fresh, correctly judged attempt keeps a record free of repeats and judged against the target; it has a correct attempt exactly when the old record had one or the new attempt is correct |
| GameRoom.AppendKeepsApart | backend/socket/gameManager.js:390-391 | in turn-based mode, a new attempt on a character the opponent never tried keeps the two records apart |
| GameRoom.HitKeepsOk | backend/socket/gameManager.js:394-397 | a winning attempt followed by finishing the round, naming the winner and adding one point keeps the room invariant |
| GameRoom.MissKeepsOk | backend/socket/gameManager.js:414-431 | a missed attempt with the turn handed to a player in turn-based mode, and left alone otherwise, keeps the room invariant |
| GameRoom.VoteKeepsOk | backend/socket/gameManager.js:466 | a rematch vote in a finished room keeps the room invariant, since no attempt changes |
| GameRoom.RestartKeepsOk | backend/socket/gameManager.js:472-495 | a new round with cleared records, a turn holder in turn-based mode and a clock in simultaneous mode keeps the room invariant |
| GameRoom.ExpireKeepsOk | backend/socket/gameManager.js:435-448 | expiry keeps the room invariant |
| GameRoom.RematchKeepsOk | backend/socket/gameManager.js:451-507 | a vote or a restart keeps the room invariant |
| GameRoom.ExpiryAfterWinIsNoOp | backend/socket/gameManager.js:394-437 | after a winning guess the timer's expiry changes nothing |
| GameRoom.NoGuessAfterExpiry | backend/socket/gameManager.js:358-441 | after the timer expires, every guess is refused |
| GameRoom.TurnsAlternate | backend/socket/gameManager.js:363-417 | in turn-based mode, after a wrong guess the same player's next guess is refused as out of turn |
| GameRoom.ScoresCountWins | backend/socket/gameManager.js:386-397 | a score changes only for the guesser of the target, and then by exactly one |
| GameManager.SocketIndex | backend/socket/gameManager.js:196-223 | the position of the socket's first queue entry, or -1 when it has none |
| GameManager.CodeOf | backend/socket/gameManager.js:40-43 | six draws spell a room code of six characters from A-Z and 0-9 |
| GameManager.Manager.constructor | backend/socket/gameManager.js:4-17 | all six maps start empty, and the directory invariant holds |
| GameManager.Manager.IsUserBusy | backend/socket/gameManager.js:156-174 | a user whose bound socket is in a room is in game, a user in some queue is in a queue, and nobody else is busy; hosting a lobby does not count |
| GameManager.Manager.CheckAndBind | backend/socket/gameManager.js:51-58 | a busy signed-in user is refused and nothing changes; otherwise the user is bound to the socket |
| GameManager.Manager.Spell | backend/socket/gameManager.js:40-43 | the inner loop spells the code of its six draws |
| GameManager.Manager.GenerateRoomCode | backend/socket/gameManager.js:36-46 | the code is the first spelled code that is not yet a lobby; it is six characters from A-Z and 0-9 |
| GameManager.Manager.CreatePrivateRoom | backend/socket/gameManager.js:49-87 | a busy user is refused with nothing changed; otherwise the user is bound; a host gets its existing code back; else a lobby opens under a fresh code |
| GameManager.Manager.CreateRoom | backend/socket/gameManager.js:249-310 | the new room is stored under its id, and both sockets point to it |
| GameManager.Manager.JoinPrivateRoom | backend/socket/gameManager.js:90-135 | an unknown upper-cased code is refused; a busy user is refused; the host is refused after being bound; otherwise the lobby leaves both lobby maps and a room opens with the host's game and mode |
| GameManager.Manager.CancelPrivateRoom | backend/socket/gameManager.js:138-153 | nothing hosted changes nothing; otherwise the lobby and the host entry are removed, along with the host user's binding |
| GameManager.Manager.JoinQueue | backend/socket/gameManager.js:177-213 | a busy user is refused; a queued socket gets its 1-based position; a first arrival waits at position 1; a second arrival empties the queue into a room, with the first arrival's game data and mode |
| GameManager.Manager.Enqueue | backend/socket/gameManager.js:186-212 | the queue half of joining: a queued socket gets its 1-based position; a first arrival waits at position 1; a second arrival empties the queue into a room |
| GameManager.Manager.StartMatch | backend/socket/gameManager.js:205-210 | two waiting sockets empty their queue and open a room with the first one's game data and mode |
| GameManager.Manager.StartLobbyRoom | backend/socket/gameManager.js:111-134 | a lobby joined by another socket leaves both lobby maps, and a room opens with the host's game data and mode |
| GameManager.Manager.LeaveQueue | backend/socket/gameManager.js:216-231 | the socket's entry leaves that queue, and its user's binding is dropped |
| GameManager.Manager.LeaveAllQueues | backend/socket/gameManager.js:234-246 | the socket's entry leaves every queue, the bindings of the users it queued as are dropped, and no queue still holds it |
| GameManager.Manager.PlayerRoom | backend/socket/gameManager.js:313-317 | a socket's room, when present, is a stored room |
| GameManager.Manager.AddMessage | backend/socket/gameManager.js:326-349 | a message goes into the socket's room as the room transition says; without a room, nothing changes |
| GameManager.Manager.MakeGuess | backend/socket/gameManager.js:352-432 | a missing room is refused; otherwise the room transition's verdict, stored only when accepted |
| GameManager.Manager.HandleTimerExpired | backend/socket/gameManager.js:435-448 | expiry acts exactly on a stored, playing room |
| GameManager.Manager.RequestRematch | backend/socket/gameManager.js:451-507 | a vote in the socket's room, as the room transition says; no room gives no answer |
| GameManager.Manager.LeaveRoom | backend/socket/gameManager.js:511-542 | the room, both sockets' room entries and both players' user bindings are removed, and the opponent is named; a dangling entry is just dropped |
| GameManager.Manager.HandleDisconnect | backend/socket/gameManager.js:545-549 | the three steps compose: the socket leaves every queue; its lobby and host entry go; its room, its own and its opponent's room entries go and the opponent and room id are returned; the user bindings lose the users queued with the socket, the lobby's host and both players; afterwards the socket is in no queue, hosts no lobby and points to no room |

## Left out

- The socket.io transport, the `setTimeout` that drives the draw timer, and the `setInterval` of the countdown are not modelled. The timer is the explicit `HandleTimerExpired` and `Timer.Update` steps.
- `Math.random()` and `Date.now()` are not modelled. They are parameters (`Random.Roll`, `now`). Room ids are passed to `CreateRoom`, `JoinPrivateRoom` and `JoinQueue`; a colliding id overwrites, as in the source.
- `GameManager.Manager.GenerateRoomCode` requires that some round of the supplied draws spells a free code. The source loops until one does.
- Floating point is not modelled: `avgAttempts` with `toFixed`, and `Number()` on decimals, exponents, hexadecimal or `Infinity`. `Number()` reads optionally signed decimal integers, and blank text reads as 0. Win rates are computed exactly in integers, rounding half up as `Math.round` does; the source divides in floating point first, so the two can differ: 57 wins in 200 games gives 28.499999999999996 and a rate of 28 in the source, and 29 in the model.
- Case mapping and `trim` cover ASCII letters and the JavaScript whitespace set. Unicode case mapping (for example 'ı' to 'I') is not modelled.
- GameRoom.GuessCheck: a room without a target makes the source throw an uncaught TypeError when it reads `room.target.id` (backend/socket/gameManager.js:388); the model answers `Rejected(NoTarget)` and leaves the room unchanged.
- AuthValidation.ValidatePassword: strings are sequences of Unicode scalar values, while JavaScript's `length` counts UTF-16 code units, so a password with characters outside the Basic Multilingual Plane can pass the length rule in the source and fail it in the model.
- GameRoom.Prefix: the 200-character cap counts Unicode scalar values, while `substring` counts UTF-16 code units, so messages with characters outside the Basic Multilingual Plane are cut at a different place.
- CharactersTable.LexLess: strings are compared by Unicode scalar value, while JavaScript's `<` compares UTF-16 code units; the two orders differ only between characters outside the Basic Multilingual Plane and characters from U+E000 to U+FFFF.
- A room is a value inside the rooms map, so the model has no aliasing between the room object returned to callers and the stored one.
- The directory invariant does not tie `playerRooms` to the rooms. The source does not keep them consistent: a socket can host a lobby and queue at the same time, and so end up in two rooms.
- A player's score is read as 0 when its key is missing; the source would produce `NaN`. The room invariant rules this out anyway.
- Socket ids are assumed non-empty. An empty opponent id would skip the opponent's cleanup in `leaveRoom`.
- `CharactersTable.Sort` is a stable insertion sort, standing in for the engine's `Array.prototype.sort`. It is proved to be a sorted permutation under the comparator.
- React rendering and UI state are not modelled: the query text, showing suggestions, alerts, and the `statsUpdated` timeout beyond its flag.
- `SoloGame.LoadKeepsOk` assumes the page starts with no attempts. A route change that reloads data while attempts remain is not modelled.
- The e-mail, password and account checks stop at validation. The database lookups, hashing, tokens and e-mails that follow are not modelled.
- Request bodies are modelled as optional strings; non-string field values are not modelled.
- The SQL reads and writes around `updateStats` and `getAllStatsForUser` are not modelled. `fetch` and `localStorage` on the pages are not modelled either.
