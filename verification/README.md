# margin-game in Dafny

This project models the core of *margin-game*, a Telegram bot that runs a
live investment game. Registered teams each hold two asset slots. An
administrator opens rounds. In each round every team puts each slot on one of
the positions scheduled for that round. When the administrator closes the
round, every chosen slot is multiplied by that position's payout coefficient.
A coefficient depends on how many slot selections the position received.

The model covers three parts:

- **The coefficient engine** (`Models`, from `RoundPosition`): investor
  counting, and the four payout rules in their precedence order. The rules
  are a linear function of the count; a table of count ranges scanned first
  match first; a rule derived from a mother position's count; and a custom
  value the administrator supplies.
- **The static catalog** (`Config`): the eight positions, the six-round
  schedule, the quiz answers and the quiz bonuses.
- **The game state machine** (`Bot`, `Session`, `RoundFacts`): the handlers
  as pure steps over `App`. `App` holds the game record, the team registry in
  registration order, and the positions with any stored custom values. Each
  step returns the new state together with the kind of answer the handler
  gives.
  - `Session.Valid` is the invariant. Every handler keeps it on every event
    the bot's own keyboards can produce (`Session.FromKeyboard`), so every
    state reachable from boot through such events satisfies it
    (`Session.Reachable`).
  - `RoundFacts` proves what closing a round does to teams and to the ledger.

Amounts are exact reals. Python's `round(x, 2)` is `Rounding.Round2`, decimal
round-half-to-even. Optional values use `Wrappers.Option`.

Two behaviours of the original are reproduced as written:

- `/stop` marks the round closed before it checks whether a custom
  coefficient is needed. A refused `/stop` therefore already refuses further
  choices (`RoundFacts.PendingStopRefusesChoices`).
- `/next` does not look at the pending-coefficient flag. From a pending
  round 5 it opens round 6, and round 5 is never settled
  (`RoundFacts.NextSkipsPendingRound`).

## Model

`Models.TotalScore` (the sum of both slots, src/models.py:17-19) and
`Bot.Payout` (the coefficient rounded to two decimals, src/bot.py:170 and 173)
are definitions used by the rows below, not members with contracts of their own.

| member | source | states |
|---|---|---|
| Models.NewTeam | src/models.py:5-19 | a new team starts with 10 in each slot (total score 20), no choices and no quiz answers |
| Models.NewGame | src/models.py:21-27 | a new game is at round 0 with no round open, nothing pending, no quiz running and an empty ledger |
| Models.InvestorCount | src/models.py:58-66 | the count of slot selections of a position is at most two per team |
| Models.CountInvestors | src/models.py:58-66 | the team-by-team counting loop computes exactly `InvestorCount` |
| Models.InvestorCountIsMultiplicity | src/models.py:58-66 | the count equals the number of occurrences of the id among all slot choices, so a team choosing the same position twice counts twice |
| Models.ChosenIsCounted | src/models.py:58-66 | any team that chose the position in either slot makes its count at least 1 |
| Models.CountDependsOnlyOnChoices | src/models.py:58-66 | two registries with the same choices, team by team, give the same count, whatever their assets |
| Models.NoChoicesNoInvestors | src/models.py:58-66 | with no choices at all, every count is 0 |
| Models.ApplyLinear | src/config.py:15-17 | a constant rule returns its constant; a shared pool split among n investors gives a share that, times n, equals the pool; with no investors the share is the whole pool (`n or 1`) |
| Models.FirstMatch | src/models.py:43-47 | the table scan gives a coefficient iff some range contains the count, and then it is the coefficient of the first such range in declaration order |
| Models.FirstMatchIsUnique | src/models.py:43-47 | when no two ranges overlap, the range containing the count is the only one, and the scan returns its coefficient |
| Models.DerivedCoefficient | src/models.py:48-53 | the derived rule is exactly 1 with no own investors, 1 when the mother count is 0, and otherwise the mother-to-own quotient rounded to two decimals |
| Models.GetCoefficient | src/models.py:40-56 | the engine returns no coefficient exactly when the position has no linear rule, no range matching the count, no mother, and no custom rule with a stored value |
| Models.SingleRuleAgrees | src/models.py:40-56 | for a position with exactly one rule, the precedence chain agrees with evaluating its rule as a sum type |
| Models.LinearIgnoresOtherFields | src/models.py:41-42 | a linear rule wins: the result is the rounded linear value, and changing every other rule field or the custom value does not change it |
| Models.TierMissFallsThrough | src/models.py:43-48 | when no range contains the count, the result is what the position gives without its range table |
| Models.TieredFirstMatchWins | src/models.py:43-47 | with no linear rule, a range table returns the unrounded coefficient of the first range containing the count |
| Models.DerivedPays | src/models.py:48-53 | with no linear rule and no matching range, a position with a mother pays the derived coefficient of the two counts; with an uninvested mother that is 1, never 0 |
| Models.DerivedUninvestedIsOne | src/models.py:48-51 | a derived position nobody chose pays exactly 1, whatever its mother's count |
| Models.DerivedNeverZero | src/models.py:48-53 | a derived position pays at least 0.01 while its own count stays below 200 |
| Models.CustomReturnsStoredValue | src/models.py:54-55 | a custom position returns the stored value, and nothing until one is stored |
| Models.FindPosition | src/bot.py:334-335 | lookup by id finds a position iff one has that id, and then it is the first one with that id |
| Models.FindPositionAt | src/bot.py:334-335 | with unique ids, looking up a position's own id returns that position |
| Rounding.Round2 | src/bot.py:175 | rounding to two decimals moves a value by at most half a hundredth |
| Rounding.Round2WholeHundredths | src/bot.py:175 | the rounded amount is a whole number of hundredths |
| Rounding.Round2Idempotent | src/bot.py:175 | rounding an already rounded amount changes nothing |
| Text.Lower | src/bot.py:108 | lower-casing keeps the length and lower-cases each character |
| Text.LowerIdempotent | src/bot.py:108 | lower-casing twice is lower-casing once |
| Config.CryptoKinopoiskTiersPartition | src/config.py:18-39 | the crypto and kinopoisk tables do not overlap, cover every count from 1 up, and give count 0 nothing; the scan equals the tables read as ascending ranges |
| Config.DjaraTiersPartition | src/config.py:40-48 | the djara table, declared out of order, does not overlap and covers every count from 1 up, so its scan equals the ascending reading |
| Config.TbankAlwaysPays | src/config.py:15 | tbank pays 1.1 whatever its count |
| Config.SharedPoolsDefinedAtZero | src/config.py:16-17 | sibur pays its whole pool of 25 when its own count is 0, and vk its pool of 15 when its own count is 0, whatever else was chosen |
| Config.CatalogWellFormed | src/config.py:15-60 | every catalog position has exactly one rule and no stored custom value, and the ids are unique |
| Config.NftOnlyCustom | src/config.py:54-108 | nft is the only custom position, and it is scheduled in rounds 5 and 6 and in no other round |
| Config.MotherScheduledWithChild | src/config.py:49-108 | vkplay derives from vk, and every round that schedules vkplay also schedules vk |
| Config.ScheduleResolves | src/config.py:60-108 | every scheduled id names a catalog position |
| Config.BonusTableMatchesQuiz | src/config.py:110-114 | there is one bonus per possible number of correct answers |
| Config.ChosenCatalogPositionPays | src/config.py:15-60 | a catalog position somebody chose always yields a coefficient, provided a custom one has its value |
| Bot.Boot | src/bot.py:31-32 | the bot starts from a fresh game, an empty team registry and the catalog positions |
| Bot.OwnerIndex | src/bot.py:39-41 | the sender's team is found iff some team has that owner, and it is the first such team |
| Bot.TeamIndexById | src/bot.py:331-332 | a team is found iff its id equals the lower-cased argument, and it is the first such team |
| Bot.Register | src/bot.py:37-61 | registration is refused to a registered sender, and then to anyone once the game has started; it succeeds exactly for a fresh token and appends a default team named after the token; every refusal leaves the state unchanged |
| Bot.RegisterOnlyOnce | src/bot.py:39-41 | a sender who has just registered is refused a second time |
| Bot.StartQuiz | src/bot.py:81-91 | a quiz starts exactly when no round is open and no quiz is running, and only the quiz flag changes |
| Bot.EndQuiz | src/bot.py:93-99 | a running quiz ends, and only the quiz flag changes; otherwise nothing changes |
| Bot.QuizStartEndRestores | src/bot.py:81-99 | starting and then ending a quiz restores the state |
| Bot.Answer | src/bot.py:314-327 | a message is ignored from an unregistered sender, outside a quiz, or from a team that has answered everything; otherwise it is appended to that team's answers and nothing else changes |
| Bot.IsCorrectIgnoresCase | src/bot.py:108 | judging an answer ignores its case |
| Bot.CorrectCount | src/bot.py:106-109 | there are never more correct answers than answers |
| Bot.CorrectCountIsSize | src/bot.py:106-109 | the correct-answer count is the number of questions whose answer is among the accepted ones |
| Bot.Multiplier | src/bot.py:110 | no correct answer gives a multiplier of 1; any correct answer gives more than 1 |
| Bot.MultiplierIncreasing | src/bot.py:110 | more correct answers always give a larger multiplier |
| Bot.ScoreTeam | src/bot.py:103-120 | a team without answers is skipped; otherwise both assets are multiplied by the multiplier for its number of correct answers, rounded, and the answers are cleared; nothing else changes |
| Bot.QuizResults | src/bot.py:101-124 | every team is scored independently; the game and the positions do not change |
| Bot.NoCorrectAnswerOnlyRounds | src/bot.py:110-113 | a team that answered but got nothing right only has its assets rounded |
| Bot.Next | src/bot.py:126-147 | the next round opens exactly when no round is open, no quiz runs and the last round has not been played; only the round number and the open flag change |
| Bot.NextTwiceRefused | src/bot.py:128-139 | a round opened by `/next` must be closed before another one opens |
| Bot.Invest | src/bot.py:293-312 | an unregistered sender is ignored; a choice is refused unless its round is the open one; otherwise only the sender's slot-1 choice (asset "1") or slot-2 choice (any other asset) is replaced |
| Bot.InvestIdempotent | src/bot.py:305-310 | sending the same choice twice has the same effect as sending it once |
| Bot.StoreCustom | src/bot.py:156-163 | the given value is stored on exactly the custom positions of the round; without a value there are none, so nothing changes |
| Bot.SettleAsset | src/bot.py:168-175 | a chosen slot becomes the asset times the slot's rounded coefficient, rounded; a slot nobody chose is only rounded |
| Bot.SettleAll | src/bot.py:166-175 | every team is paid, and coefficients are taken from the registry as it was before any payment |
| Bot.ClearChoices | src/bot.py:191-192 | every choice is cleared and nothing else changes |
| Bot.LedgerCoefficient | src/bot.py:189 | the ledger shows the placeholder exactly when the coefficient is missing or zero, and the coefficient itself otherwise |
| Bot.EntryFor | src/bot.py:185-190 | a ledger cell holds the position's investor count, and its coefficient exactly when that exists and is non-zero, the placeholder otherwise |
| Bot.Record | src/bot.py:185-190 | the ledger cell for the round is written for every position of the round, and no other cell changes |
| Bot.Stop | src/bot.py:149-196 | with no round open or pending, nothing happens. A round needing a custom value that was not given is marked closed and pending, and nothing else changes. Otherwise the round is settled |
| Bot.Settle | src/bot.py:154-196 | settling clears the flags and stores the value on the round's custom positions. It writes one ledger cell per scheduled position from the counts before payment. It pays every team from its choices, then clears the choices |
| Bot.SettlingKeepsCounts | src/bot.py:185-190 | every ledger cell is the same whether computed after payment, as the original does, or before it |
| Bot.RecordSameCounts | src/bot.py:185-190 | registries with the same cells write the same ledger |
| Bot.SettlementPayable | src/bot.py:166-174 | in a state ready to close, every chosen slot names a position with a coefficient, so payment never meets a missing one |
| Bot.Multiply | src/bot.py:198-216 | the command is refused when the slot is not "1" or "2" or the factor is not a number. It is then refused when no team has the lower-cased id. Otherwise exactly one slot of that team is multiplied, with no rounding |
| Bot.MultiplyByOneKeepsState | src/bot.py:210-213 | multiplying by 1 leaves the state unchanged, since there is no rounding |
| Bot.Insert | src/bot.py:263-267 | inserting adds exactly the one team to the ranking |
| Bot.InsertKeepsDescending | src/bot.py:263-267 | inserting into a ranking ordered by total score keeps it ordered |
| Bot.Ranking | src/bot.py:263-267 | the leaderboard is a permutation of the registry, ordered by total score, highest first |
| Session.BootValid | src/bot.py:31-32 | the boot state satisfies the invariant |
| Session.CustomRoundsAreFiveAndSix | src/bot.py:156-162 | a custom value is demanded in rounds 5 and 6 and in no other round |
| Session.RegisterPreservesValid | src/bot.py:37-61 | registration keeps the invariant |
| Session.QuizResultsPreservesValid | src/bot.py:101-124 | quiz scoring keeps the invariant |
| Session.NextPreservesValid | src/bot.py:126-147 | opening a round keeps the invariant, even from a pending round 5 |
| Session.StopClearsTeams | src/bot.py:191-192 | after settling, no team has a choice, and owners stay unique |
| Session.StopHistoryBehind | src/bot.py:185-190 | after settling, ledger cells exist only for rounds already played |
| Session.StopPreservesValid | src/bot.py:149-196 | closing a round keeps the invariant |
| Session.MultiplyPreservesValid | src/bot.py:198-216 | `/multiply` keeps the invariant |
| Session.InvestPreservesValid | src/bot.py:293-312 | a choice offered by the round keyboard keeps the invariant |
| Session.AnswerPreservesValid | src/bot.py:314-327 | a quiz answer keeps the invariant: no team holds more answers than there are questions |
| Session.Handle | src/bot.py:37-327 | from a valid state, an event reaches its handler; any answer other than a completed step or a pending `/stop` leaves the state unchanged, and only a `/stop` without a value can leave the round pending, with the teams untouched |
| Session.HandlePreservesValid | src/bot.py:37-327 | every handler keeps the invariant on every keyboard-built event (`FromKeyboard`) |
| Session.Run | src/bot.py:37-327 | any sequence of keyboard-built events (`FromKeyboard`) from a valid state ends in a valid state |
| Session.Reachable | src/bot.py:31-327 | every state reachable from boot through keyboard-built events (`FromKeyboard`) is valid, and its round is within the schedule |
| RoundFacts.SecondStopIsNoOp | src/bot.py:151-153 | after a successful `/stop`, a second `/stop` has nothing to close and changes nothing |
| RoundFacts.PendingStopRefusesChoices | src/bot.py:154-162 | after a `/stop` refused for want of a custom value, any registered team's choice is refused |
| RoundFacts.NextSkipsPendingRound | src/bot.py:126-139 | from a pending round 5, `/next` opens round 6 with the flag still pending, and the ledger stays as it was |
| RoundFacts.SettlementWritesFreshCells | src/bot.py:185-190 | each ledger cell of the settled round did not exist before, and exists after |
| RoundFacts.LedgerMatchesPayout | src/bot.py:166-190 | a chosen slot, slot 1 or slot 2, is paid at its ledger coefficient rounded to two decimals, with the placeholder standing for 0; the ledger count includes the team |
| RoundFacts.EntryMatchesPayout | src/bot.py:168-189 | a payable slot's payout is its ledger cell's coefficient, rounded |
| RoundFacts.TbankSettlement | src/bot.py:166-190 | tbank slots are paid at 1.1, and the ledger shows the tbank count with coefficient 1.1 |
| RoundFacts.UnchosenCryptoRecordsPlaceholder | src/bot.py:185-190 | a crypto position nobody chose is recorded with count 0 and the placeholder |
| RoundFacts.CustomValueIsUsed | src/bot.py:156-190 | the value given to `/stop` is what nft pays, rounded, and what the ledger records |

## Left out

- Telegram I/O is not modelled. This covers message texts, the broadcast of rounds and quiz questions, inline keyboards and callback answers. A choice arrives as an already-parsed `Choice` event.
- The admin filter is not modelled. Admin commands are events, and who may send them is not checked.
- SQLite persistence, the Google Sheets mirror, and the `qrs`, `send`, `help` and plain `start` handlers are I/O only and are left out.
- The join-token table is not modelled. Its answer for the token is a parameter of `Register`, and marking the token used is left out.
- `set_name_handler` is left out, along with the team-naming conversation state. A team keeps the name it registers with.
- Bot.Answer: does not model the naming state a registration enters. In the original, the naming handler (src/bot.py:67-77) is registered before the catch-all quiz handler (src/bot.py:314). So when a team registers at round 0 while a quiz is running, its next message becomes its name, not a quiz answer. The model appends that message as an answer.
- `stats_handler` is modelled only as the ordering of the leaderboard. The position history it prints is the ledger itself.
- Bot.Ranking: does not state how ties are ordered. Python's stable sort keeps registration order among equal scores; the model proves only the permutation and the descending order.
- Argument parsing is not modelled: `is_float`, splitting the command text, and the decimal-comma replacement of `/multiply`. Parsed numbers arrive as `Option<real>`, with `None` for a missing or malformed argument.
- Floating point is not modelled. Amounts are exact reals, and `round(x, 2)` is exact decimal half-to-even. A binary float whose decimal value lies just off a tie may round the other way in the original.
- Text.Lower: lower-cases only Latin A-Z, Cyrillic А-Я and Ё. Other scripts are left unchanged, whereas `str.lower` maps all of Unicode.
- Ledger round keys are the round number, not its decimal string.
- Models.ApplyLinear: models only the two callable shapes the catalog uses, a constant and a pool shared with `n or 1`. Arbitrary callables are not modelled.
- Bot.Stop: requires `StopReady`. That is the round inside the schedule, the catalog positions, and choices taken from the open round. Every state reachable through keyboard-built events satisfies it (`Session.Reachable`). Outside it the original can fail, on a missing position or on rounding a missing coefficient, and those failures are not modelled.
- Bot.QuizResults: requires that no team holds more answers than there are questions. `quiz_handler` guarantees this in every reachable state.
- Session.HandlePreservesValid, Session.Run, Session.Reachable: cover only keyboard-built events. A forged callback naming a position outside the round is accepted by src/bot.py:293-312. The next `/stop` then fails on that position, and the resulting states are not covered.
- Session.InvestPreservesValid: assumes the choice came from the round keyboard, so the position is one scheduled for the round named in the callback. Forged callback data is not modelled.
- Models.DerivedNeverZero: is stated only for an own count below 200. Beyond that, a tiny quotient can round to 0 in the original as well.
- Bot.Answer, Bot.QuizResults, Bot.Stop: each step completes or changes nothing; a handler that raises partway is not modelled. In the original, a non-text message during a quiz stores `None` as an answer (src/bot.py:323), and `/quiz_results` then fails on it at src/bot.py:108 after earlier teams were already rescored. A failed message send in `/quiz_results` (src/bot.py:114) comes after the assets changed and before the answers are cleared, so a rerun scores the same answers twice. A failed send in `/stop` (src/bot.py:178) leaves the round closed with some teams paid, no ledger cells and their choices still set for the next round. Answers are text-only here, and every send succeeds.
- Concurrency is not modelled: the handlers' `await` points and any interleaving of concurrent updates. Each handler is one atomic step.
