/**
 * The bot's handlers as pure steps over the in-memory state: registration
 * guard, the round cycle (`/next`, choices, `/stop`), the quiz, `/multiply`
 * and the leaderboard order. Messages, persistence and the spreadsheet mirror
 * are not modelled; each step reports which answer the handler gives.
 */
module Bot {
  import opened Wrappers
  import opened Rounding
  import opened Text
  import opened Models
  import opened Config

  /** The state the handlers share: the game record, the team registry in
      registration order (`user_teams`, one team per owner), and the catalog
      positions carrying the custom values `/stop` stores on them. */
  datatype App = App(game: Game, teams: seq<Team>, positions: seq<Position>)

  /** The state right after a first boot. */
  function Boot(): (a: App)
    ensures a.game == NewGame() && a.teams == [] && a.positions == AllPositions
  {
    App(NewGame(), [], AllPositions)
  }

  /** How a handler answers; every answer other than `Done` leaves the state as it was,
      except `NeedCustomCoefficient`. */
  datatype Reply =
    | Done
    | Ignored
    | AlreadyRegistered
    | GameAlreadyStarted
    | UnknownToken
    | TokenUsed
    | RoundNotFinished
    | QuizRunning
    | QuizNotRunning
    | LastRound
    | NothingToClose
    | NeedCustomCoefficient
    | TradingClosed
    | MultiplyUsage
    | UnknownTeam

  datatype Step = Step(app: App, reply: Reply)

  /** What the one-time token table says about a join token. */
  datatype Token = Unknown | Activated | Fresh

  // ---------------------------------------------------------------------------
  // Lookups
  // ---------------------------------------------------------------------------

  /** `user_teams[sender]`: the index of the team the sender owns. */
  function OwnerIndex(teams: seq<Team>, sender: int): (r: Option<nat>)
    ensures r.None? <==> forall i :: 0 <= i < |teams| ==> teams[i].owner != sender
    ensures r.Some? ==> (r.value < |teams| && teams[r.value].owner == sender
      && forall j :: 0 <= j < r.value ==> teams[j].owner != sender)
  {
    if teams == [] then None
    else if teams[0].owner == sender then Some(0)
    else match OwnerIndex(teams[1..], sender)
      case None => None
      case Some(i) => Some(i + 1)
  }

  /** `get_team_by_id`: the first team whose id equals the lower-cased argument. */
  function TeamIndexById(teams: seq<Team>, arg: string): (r: Option<nat>)
    ensures r.None? <==> forall i :: 0 <= i < |teams| ==> teams[i].id != Lower(arg)
    ensures r.Some? ==> (r.value < |teams| && teams[r.value].id == Lower(arg)
      && forall j :: 0 <= j < r.value ==> teams[j].id != Lower(arg))
  {
    if teams == [] then None
    else if teams[0].id == Lower(arg) then Some(0)
    else match TeamIndexById(teams[1..], arg)
      case None => None
      case Some(i) => Some(i + 1)
  }

  // ---------------------------------------------------------------------------
  // Registration and the quiz
  // ---------------------------------------------------------------------------

  /** `register_handler`: a sender may register once, before the first round,
      with a token that exists and has not been used. */
  function Register(app: App, sender: int, teamId: string, token: Token): (r: Step)
    ensures r.reply == AlreadyRegistered <==> OwnerIndex(app.teams, sender).Some?
    ensures r.reply == GameAlreadyStarted <==>
      OwnerIndex(app.teams, sender).None? && (app.game.round != 0 || app.game.started)
    ensures r.reply == Done <==>
      OwnerIndex(app.teams, sender).None? && app.game.round == 0 && !app.game.started && token == Fresh
    ensures r.reply != Done ==> r.app == app
    ensures r.reply == Done ==>
      r.app == app.(teams := app.teams + [NewTeam(teamId, "Team #" + teamId, sender)])
  {
    if OwnerIndex(app.teams, sender).Some? then Step(app, AlreadyRegistered)
    else if app.game.round != 0 || app.game.started then Step(app, GameAlreadyStarted)
    else match token
      case Unknown => Step(app, UnknownToken)
      case Activated => Step(app, TokenUsed)
      case Fresh => Step(app.(teams := app.teams + [NewTeam(teamId, "Team #" + teamId, sender)]), Done)
  }

  /** `start_quiz_handler`: refused while a round is open or a quiz is running. */
  function StartQuiz(app: App): (r: Step)
    ensures r.reply == Done <==> !app.game.started && !app.game.quizStarted
    ensures r.reply == RoundNotFinished <==> app.game.started
    ensures r.reply != Done ==> r.app == app
    ensures r.reply == Done ==> r.app == app.(game := app.game.(quizStarted := true))
  {
    if app.game.started then Step(app, RoundNotFinished)
    else if app.game.quizStarted then Step(app, QuizRunning)
    else Step(app.(game := app.game.(quizStarted := true)), Done)
  }

  /** A sender who has just registered is refused a second time. */
  lemma RegisterOnlyOnce(app: App, sender: int, teamId: string, token: Token, teamId': string, token': Token)
    requires Register(app, sender, teamId, token).reply == Done
    ensures Register(Register(app, sender, teamId, token).app, sender, teamId', token').reply == AlreadyRegistered
  {
    var teams := Register(app, sender, teamId, token).app.teams;
    assert teams[|teams| - 1].owner == sender;
  }

  /** `end_quiz_handler`: closes a running quiz. */
  function EndQuiz(app: App): (r: Step)
    ensures r.reply == Done <==> app.game.quizStarted
    ensures r.reply != Done ==> r.app == app
    ensures r.reply == Done ==> r.app == app.(game := app.game.(quizStarted := false))
  {
    if !app.game.quizStarted then Step(app, QuizNotRunning)
    else Step(app.(game := app.game.(quizStarted := false)), Done)
  }

  /** Starting and then ending a quiz with no answers in between leaves the
      state as it was. */
  lemma QuizStartEndRestores(app: App)
    requires StartQuiz(app).reply == Done
    ensures EndQuiz(StartQuiz(app).app) == Step(app, Done)
  {
  }

  /** `quiz_handler`: while a quiz runs, a registered team's message is its next
      answer, until it has answered every question. */
  function Answer(app: App, sender: int, text: string): (r: Step)
    ensures r.reply == Ignored <==>
      OwnerIndex(app.teams, sender).None? || !app.game.quizStarted
      || |app.teams[OwnerIndex(app.teams, sender).value].answers| == |QuizAnswers|
    ensures r.reply in {Done, Ignored}
    ensures r.reply == Ignored ==> r.app == app
    ensures r.reply == Done ==>
      var i := OwnerIndex(app.teams, sender).value;
      r.app == app.(teams := app.teams[i := app.teams[i].(answers := app.teams[i].answers + [text])])
  {
    match OwnerIndex(app.teams, sender)
    case None => Step(app, Ignored)
    case Some(i) =>
      if !app.game.quizStarted || |app.teams[i].answers| == |QuizAnswers| then Step(app, Ignored)
      else Step(app.(teams := app.teams[i := app.teams[i].(answers := app.teams[i].answers + [text])]), Done)
  }

  /** An answer is correct when its lower-cased text is among the
      lower-cased accepted answers of its question. */
  predicate IsCorrect(accepted: seq<string>, answer: string) {
    Lower(answer) in LowerAll(accepted)
  }

  /** Correctness ignores the case of the answer. */
  lemma IsCorrectIgnoresCase(accepted: seq<string>, answer: string)
    ensures IsCorrect(accepted, answer) <==> IsCorrect(accepted, Lower(answer))
  {
    LowerIdempotent(answer);
  }

  /** The number of correct answers, answer `i` judged against question `i`. */
  function CorrectCount(answers: seq<string>, questions: seq<seq<string>>): (c: nat)
    requires |answers| <= |questions|
    ensures c <= |answers|
  {
    if answers == [] then 0
    else
      CorrectCount(answers[..|answers| - 1], questions)
        + (if IsCorrect(questions[|answers| - 1], answers[|answers| - 1]) then 1 else 0)
  }

  /** The indices of the correctly answered questions. */
  function CorrectIndices(answers: seq<string>, questions: seq<seq<string>>): set<nat>
    requires |answers| <= |questions|
  {
    set i: nat | i < |answers| && IsCorrect(questions[i], answers[i])
  }

  /** The count is the number of correctly answered questions. */
  lemma {:induction false} CorrectCountIsSize(answers: seq<string>, questions: seq<seq<string>>)
    requires |answers| <= |questions|
    ensures CorrectCount(answers, questions) == |CorrectIndices(answers, questions)|
  {
    if answers != [] {
      var m := |answers| - 1;
      CorrectCountIsSize(answers[..m], questions);
      IndicesOfLonger(answers, questions);
    }
  }

  /** One more answer adds its own index exactly when it is correct. */
  lemma IndicesOfLonger(answers: seq<string>, questions: seq<seq<string>>)
    requires 0 < |answers| <= |questions|
    ensures var m := |answers| - 1;
      var before := CorrectIndices(answers[..m], questions);
      && m !in before
      && CorrectIndices(answers, questions)
         == if IsCorrect(questions[m], answers[m]) then before + {m} else before
  {
    var m := |answers| - 1;
    var prefix := answers[..m];
    assert forall i :: 0 <= i < m ==> prefix[i] == answers[i];
  }

  /** The quiz multiplier: the bonus for `correct` answers, 1 for none. */
  function Multiplier(correct: nat): (m: real)
    requires correct <= |QuizBonus|
    ensures correct == 0 ==> m == 1.0
    ensures correct > 0 ==> m > 1.0
  {
    if correct > 0 then QuizBonus[correct - 1] else 1.0
  }

  /** More correct answers never earn less. */
  lemma MultiplierIncreasing(a: nat, b: nat)
    requires a < b <= |QuizBonus|
    ensures Multiplier(a) < Multiplier(b)
  {
  }

  /** One team's quiz scoring: both assets times the multiplier, rounded, and
      the answers cleared; a team without answers is skipped. */
  function ScoreTeam(t: Team): (s: Team)
    requires |t.answers| <= |QuizAnswers|
    ensures t.answers == [] ==> s == t
    ensures s.answers == []
    ensures s.(asset1 := t.asset1, asset2 := t.asset2, answers := t.answers) == t
    ensures t.answers != [] ==> (
      CorrectCountIsSize(t.answers, QuizAnswers);
      var m := Multiplier(|CorrectIndices(t.answers, QuizAnswers)|);
      s.asset1 == Round2(t.asset1 * m) && s.asset2 == Round2(t.asset2 * m))
  {
    if t.answers == [] then t
    else
      CorrectCountIsSize(t.answers, QuizAnswers);
      BonusTableMatchesQuiz();
      var m := Multiplier(CorrectCount(t.answers, QuizAnswers));
      t.(asset1 := Round2(t.asset1 * m), asset2 := Round2(t.asset2 * m), answers := [])
  }

  predicate AnswersBounded(teams: seq<Team>) {
    forall t :: t in teams ==> |t.answers| <= |QuizAnswers|
  }

  /** `quiz_results_handler`: scores every team that answered. */
  function QuizResults(app: App): (r: Step)
    requires AnswersBounded(app.teams)
    ensures r.reply == Done
    ensures r.app.game == app.game && r.app.positions == app.positions
    ensures |r.app.teams| == |app.teams|
    ensures forall i :: 0 <= i < |app.teams| ==> r.app.teams[i] == ScoreTeam(app.teams[i])
  {
    Step(app.(teams := seq(|app.teams|, i requires 0 <= i < |app.teams| => ScoreTeam(app.teams[i]))), Done)
  }

  /** Scoring with no correct answer only re-rounds the assets. */
  lemma NoCorrectAnswerOnlyRounds(t: Team)
    requires |t.answers| <= |QuizAnswers| && t.answers != []
    requires CorrectCount(t.answers, QuizAnswers) == 0
    ensures ScoreTeam(t).asset1 == Round2(t.asset1) && ScoreTeam(t).asset2 == Round2(t.asset2)
  {
    CorrectCountIsSize(t.answers, QuizAnswers);
  }

  // ---------------------------------------------------------------------------
  // The round cycle
  // ---------------------------------------------------------------------------

  /** `next_handler`: opens the next scheduled round. It does not look at
      `waitForCoefficient`. */
  function Next(app: App): (r: Step)
    ensures r.reply == Done <==> !app.game.started && !app.game.quizStarted && app.game.round != |Rounds|
    ensures r.reply != Done ==> r.app == app
    ensures r.reply == Done ==> r.app == app.(game := app.game.(round := app.game.round + 1, started := true))
  {
    if app.game.started then Step(app, RoundNotFinished)
    else if app.game.quizStarted then Step(app, QuizRunning)
    else if app.game.round == |Rounds| then Step(app, LastRound)
    else Step(app.(game := app.game.(round := app.game.round + 1, started := true)), Done)
  }

  /** A round opened by `/next` must be closed before the next one. */
  lemma NextTwiceRefused(app: App)
    requires Next(app).reply == Done
    ensures Next(Next(app).app) == Step(Next(app).app, RoundNotFinished)
  {
  }

  /** `invest_handler`: while the round is open, a registered team's choice for
      the current round replaces its slot-1 choice (asset "1") or its slot-2
      choice (anything else). */
  function Invest(app: App, sender: int, roundId: int, posId: string, asset: string): (r: Step)
    ensures r.reply == Ignored <==> OwnerIndex(app.teams, sender).None?
    ensures r.reply == TradingClosed <==>
      OwnerIndex(app.teams, sender).Some? && (!app.game.started || roundId != app.game.round)
    ensures r.reply in {Done, Ignored, TradingClosed}
    ensures r.reply != Done ==> r.app == app
    ensures r.reply == Done ==>
      var i := OwnerIndex(app.teams, sender).value;
      && r.app.game == app.game && r.app.positions == app.positions
      && |r.app.teams| == |app.teams|
      && (forall j :: 0 <= j < |app.teams| && j != i ==> r.app.teams[j] == app.teams[j])
      && (asset == "1" ==> r.app.teams[i] == app.teams[i].(choice1 := Some(posId)))
      && (asset != "1" ==> r.app.teams[i] == app.teams[i].(choice2 := Some(posId)))
  {
    match OwnerIndex(app.teams, sender)
    case None => Step(app, Ignored)
    case Some(i) =>
      if !app.game.started || roundId != app.game.round then Step(app, TradingClosed)
      else if asset == "1" then Step(app.(teams := app.teams[i := app.teams[i].(choice1 := Some(posId))]), Done)
      else Step(app.(teams := app.teams[i := app.teams[i].(choice2 := Some(posId))]), Done)
  }

  /** Resubmitting the same choice changes nothing more. */
  lemma InvestIdempotent(app: App, sender: int, roundId: int, posId: string, asset: string)
    ensures Invest(Invest(app, sender, roundId, posId, asset).app, sender, roundId, posId, asset).app
         == Invest(app, sender, roundId, posId, asset).app
  {
    var once := Invest(app, sender, roundId, posId, asset);
    if once.reply == Done {
      var i := OwnerIndex(app.teams, sender).value;
      assert OwnerIndex(once.app.teams, sender) == Some(i) by {
        assert forall j :: 0 <= j < |app.teams| ==> once.app.teams[j].owner == app.teams[j].owner;
      }
    }
  }

  /** A round is open, or closing is pending on a custom coefficient. */
  predicate Open(g: Game) {
    g.started || g.waitForCoefficient
  }

  /** The positions are the catalog's, apart from stored custom values. */
  predicate CatalogIntact(positions: seq<Position>) {
    |positions| == |AllPositions|
    && forall k :: 0 <= k < |positions| ==> positions[k].(customValue := None) == AllPositions[k]
  }

  /** A slot choice is empty or one of the positions open in `round`. */
  predicate InSchedule(c: Option<string>, round: nat) {
    c.None? || (1 <= round <= |Rounds| && c.value in Rounds[round - 1])
  }

  /** What `/stop` relies on: a round number inside the schedule, the catalog's
      positions, and choices taken from the open round's schedule. */
  predicate StopReady(app: App) {
    && app.game.round <= |Rounds|
    && (Open(app.game) ==> app.game.round >= 1)
    && CatalogIntact(app.positions)
    && (Open(app.game) ==> forall t :: t in app.teams ==>
          InSchedule(t.choice1, app.game.round) && InSchedule(t.choice2, app.game.round))
  }

  /** Some position open in the round takes a custom coefficient. */
  predicate NeedsCustom(positions: seq<Position>, schedule: seq<string>) {
    exists p :: p in positions && p.custom.Some? && p.id in schedule
  }

  /** Stores `value` on every custom position open in the round. */
  function SetCustom(positions: seq<Position>, schedule: seq<string>, value: real): (r: seq<Position>)
    ensures |r| == |positions|
    ensures forall k :: 0 <= k < |positions| ==> r[k].(customValue := positions[k].customValue) == positions[k]
    ensures forall k :: 0 <= k < |positions| ==>
      r[k].customValue == (if positions[k].custom.Some? && positions[k].id in schedule then Some(value) else positions[k].customValue)
  {
    seq(|positions|, k requires 0 <= k < |positions| =>
      if positions[k].custom.Some? && positions[k].id in schedule then positions[k].(customValue := Some(value))
      else positions[k])
  }

  /** The positions settlement uses: the argument stored on the custom
      positions of the round. Without an argument there are none, so
      nothing changes. */
  function StoreCustom(positions: seq<Position>, schedule: seq<string>, arg: Option<real>): (r: seq<Position>)
    requires !(NeedsCustom(positions, schedule) && arg.None?)
    ensures |r| == |positions|
    ensures forall k :: 0 <= k < |positions| ==> (r[k] ==
      if positions[k].custom.Some? && positions[k].id in schedule
      then positions[k].(customValue := arg) else positions[k])
  {
    if arg.Some? then SetCustom(positions, schedule, arg.value)
    else
      assert forall k :: 0 <= k < |positions| ==> positions[k] in positions;
      positions
  }

  /** A slot counts as chosen when its choice is a non-empty id. */
  predicate Chosen(c: Option<string>) {
    c.Some? && c.value != ""
  }

  /** A chosen slot names a position that yields a coefficient. */
  predicate SlotPayable(positions: seq<Position>, teams: seq<Team>, c: Option<string>) {
    Chosen(c) ==> (FindPosition(positions, c.value).Some?
      && GetCoefficient(FindPosition(positions, c.value).value, teams).Some?)
  }

  predicate TeamPayable(positions: seq<Position>, teams: seq<Team>, t: Team) {
    SlotPayable(positions, teams, t.choice1) && SlotPayable(positions, teams, t.choice2)
  }

  /** The coefficient a chosen slot is paid with, rounded to two decimals. */
  function Payout(positions: seq<Position>, teams: seq<Team>, c: Option<string>): real
    requires Chosen(c) && SlotPayable(positions, teams, c)
  {
    Round2(GetCoefficient(FindPosition(positions, c.value).value, teams).value)
  }

  /** One slot at settlement: times its coefficient when chosen, then rounded. */
  function SettleAsset(a: real, positions: seq<Position>, teams: seq<Team>, c: Option<string>): (r: real)
    requires SlotPayable(positions, teams, c)
    ensures !Chosen(c) ==> r == Round2(a)
    ensures Chosen(c) ==> r == Round2(a * Payout(positions, teams, c))
  {
    Round2(if Chosen(c) then a * Payout(positions, teams, c) else a)
  }

  function SettleTeam(t: Team, positions: seq<Position>, teams: seq<Team>): (s: Team)
    requires TeamPayable(positions, teams, t)
  {
    t.(asset1 := SettleAsset(t.asset1, positions, teams, t.choice1),
       asset2 := SettleAsset(t.asset2, positions, teams, t.choice2))
  }

  /** Every team's chosen slots yield a coefficient. */
  predicate AllPayable(positions: seq<Position>, teams: seq<Team>) {
    forall t :: t in teams ==> TeamPayable(positions, teams, t)
  }

  /** Pays every team; coefficients are computed against the teams as they
      were before anyone was paid. */
  function SettleAll(teams: seq<Team>, positions: seq<Position>): (r: seq<Team>)
    requires AllPayable(positions, teams)
    ensures |r| == |teams|
    ensures forall i :: 0 <= i < |teams| ==> r[i] == SettleTeam(teams[i], positions, teams)
  {
    seq(|teams|, i requires 0 <= i < |teams| => assert teams[i] in teams; SettleTeam(teams[i], positions, teams))
  }

  function ClearChoices(ts: seq<Team>): (r: seq<Team>)
    ensures |r| == |ts|
    ensures forall i :: 0 <= i < |ts| ==> r[i] == ts[i].(choice1 := None, choice2 := None)
  {
    seq(|ts|, i requires 0 <= i < |ts| => ts[i].(choice1 := None, choice2 := None))
  }

  /** `coefficient or "-"`: a missing coefficient and a zero one are both
      recorded as the placeholder. */
  function LedgerCoefficient(c: Option<real>): (r: Option<real>)
    ensures r.None? <==> c.None? || c.value == 0.0
    ensures r.Some? ==> r == c
  {
    if c.None? || c.value == 0.0 then None else c
  }

  /** The ledger cell a position gets at settlement: its investor count, and
      its coefficient unless that is missing or zero. */
  function EntryFor(positions: seq<Position>, id: string, teams: seq<Team>): (e: LedgerEntry)
    ensures e.investors == InvestorCount(id, teams)
    ensures e.coefficient.None? <==> (FindPosition(positions, id).None?
      || GetCoefficient(FindPosition(positions, id).value, teams).None?
      || GetCoefficient(FindPosition(positions, id).value, teams).value == 0.0)
    ensures e.coefficient.Some? ==> e.coefficient == GetCoefficient(FindPosition(positions, id).value, teams)
  {
    LedgerEntry(InvestorCount(id, teams),
      match FindPosition(positions, id)
      case Some(p) => LedgerCoefficient(GetCoefficient(p, teams))
      case None => None)
  }

  /** `history.setdefault(id, {})[round] = entry` for one position. */
  function Write(h: map<string, map<nat, LedgerEntry>>, id: string, round: nat, e: LedgerEntry): map<string, map<nat, LedgerEntry>> {
    h[id := (if id in h then h[id] else map[])[round := e]]
  }

  /** The ledger is `h` with the cell `round` of every id in `ids` set to its
      entry, and nothing else changed. */
  ghost predicate Recorded(h: map<string, map<nat, LedgerEntry>>, h': map<string, map<nat, LedgerEntry>>,
                           ids: seq<string>, round: nat, positions: seq<Position>, teams: seq<Team>) {
    && (forall id :: id in ids ==> id in h' && round in h'[id] && h'[id][round] == EntryFor(positions, id, teams))
    && (forall id :: id !in ids ==> (id in h' <==> id in h) && (id in h ==> h'[id] == h[id]))
    && (forall id :: id in ids && id in h ==> forall k :: k != round ==>
          (k in h'[id] <==> k in h[id]) && (k in h[id] ==> h'[id][k] == h[id][k]))
    && (forall id :: id in ids && id !in h ==> h'[id].Keys == {round})
  }

  /** Writes one ledger cell per position open in the round, in schedule order. */
  function Record(h: map<string, map<nat, LedgerEntry>>, ids: seq<string>, round: nat,
                   positions: seq<Position>, teams: seq<Team>): (r: map<string, map<nat, LedgerEntry>>)
    ensures Recorded(h, r, ids, round, positions, teams)
    decreases |ids|
  {
    if ids == [] then h
    else
      var r := Record(Write(h, ids[0], round, EntryFor(positions, ids[0], teams)), ids[1..], round, positions, teams);
      RecordedAfterWrite(h, r, ids, round, positions, teams);
      r
  }

  /** Writing the first cell and then recording the rest records them all. */
  lemma RecordedAfterWrite(h: map<string, map<nat, LedgerEntry>>, r: map<string, map<nat, LedgerEntry>>,
                           ids: seq<string>, round: nat, positions: seq<Position>, teams: seq<Team>)
    requires ids != []
    requires Recorded(Write(h, ids[0], round, EntryFor(positions, ids[0], teams)), r, ids[1..], round, positions, teams)
    ensures Recorded(h, r, ids, round, positions, teams)
  {
    var h1 := Write(h, ids[0], round, EntryFor(positions, ids[0], teams));
    assert forall id :: id in ids <==> id == ids[0] || id in ids[1..];
    forall id | id in ids
      ensures id in r && round in r[id] && r[id][round] == EntryFor(positions, id, teams)
    {
    }
    forall id | id in ids && id in h
      ensures forall k :: k != round ==> (k in r[id] <==> k in h[id]) && (k in h[id] ==> r[id][k] == h[id][k])
    {
      assert id in h1;
    }
    forall id | id in ids && id !in h
      ensures r[id].Keys == {round}
    {
      if id == ids[0] {
        assert h1[id] == map[round := EntryFor(positions, id, teams)];
        assert forall k :: k in r[id] <==> k == round;
      }
    }
  }

  /** `/stop`, with `arg` the coefficient given as the command's single numeric
      argument. Nothing happens unless a round is open or pending; the round
      is reported closed first, and if a position of the round takes a custom
      coefficient and none was given, the step ends there, pending. Otherwise
      the round is settled. */
  function Stop(app: App, arg: Option<real>): (r: Step)
    requires StopReady(app)
    ensures r.reply in {NothingToClose, NeedCustomCoefficient, Done}
    ensures r.reply == NothingToClose <==> !Open(app.game)
    ensures r.reply == NothingToClose ==> r.app == app
    ensures r.reply == NeedCustomCoefficient <==>
      Open(app.game) && arg.None? && NeedsCustom(app.positions, Rounds[app.game.round - 1])
    ensures r.reply == NeedCustomCoefficient ==>
      r.app == app.(game := app.game.(started := false, waitForCoefficient := true))
    ensures r.reply == Done ==> Settled(app, arg, r.app)
  {
    var g := app.game;
    if !Open(g) then Step(app, NothingToClose)
    else if NeedsCustom(app.positions, Rounds[g.round - 1]) && arg.None? then
      Step(app.(game := g.(started := false, waitForCoefficient := true)), NeedCustomCoefficient)
    else
      Step(Settle(app, arg), Done)
  }

  /** What settling the open round leaves: the flags cleared, one ledger cell
      per position of the round counted against the teams as they were, the
      custom positions of the round holding `arg`, and every team paid from
      its choices, which are then cleared. */
  ghost predicate Settled(app: App, arg: Option<real>, r: App)
    requires StopReady(app) && Open(app.game)
  {
    var schedule := Rounds[app.game.round - 1];
    && r.game == app.game.(started := false, waitForCoefficient := false, history := r.game.history)
    && Recorded(app.game.history, r.game.history, schedule, app.game.round, r.positions, app.teams)
    && |r.positions| == |app.positions|
    && (forall k :: 0 <= k < |app.positions| ==> (r.positions[k] ==
          if app.positions[k].custom.Some? && app.positions[k].id in schedule
          then app.positions[k].(customValue := arg) else app.positions[k]))
    && |r.teams| == |app.teams|
    && forall i :: 0 <= i < |app.teams| ==>
         && TeamPayable(r.positions, app.teams, app.teams[i])
         && r.teams[i] == app.teams[i].(
              asset1 := SettleAsset(app.teams[i].asset1, r.positions, app.teams, app.teams[i].choice1),
              asset2 := SettleAsset(app.teams[i].asset2, r.positions, app.teams, app.teams[i].choice2),
              choice1 := None, choice2 := None)
  }

  /** The settling branch of `/stop`: stores the value on the custom positions,
      pays every team, writes the ledger cells of the round from the paid
      teams, and clears choices and flags. */
  function Settle(app: App, arg: Option<real>): (r: App)
    requires StopReady(app) && Open(app.game)
    requires !(NeedsCustom(app.positions, Rounds[app.game.round - 1]) && arg.None?)
    ensures Settled(app, arg, r)
  {
    var g := app.game;
    var schedule := Rounds[g.round - 1];
    var positions := StoreCustom(app.positions, schedule, arg);
    SettlementPayable(app, arg, positions);
    var settled := SettleAll(app.teams, positions);
    var history := Record(g.history, schedule, g.round, positions, settled);
    LedgerOfSettled(g.history, schedule, g.round, positions, app.teams);
    PaidAndCleared(app.teams, positions);
    App(g.(started := false, waitForCoefficient := false, history := history), ClearChoices(settled), positions)
  }

  /** The ledger is written from the paid teams, and reads as if written from
      the teams before payment. */
  lemma LedgerOfSettled(h: map<string, map<nat, LedgerEntry>>, ids: seq<string>, round: nat,
                        positions: seq<Position>, teams: seq<Team>)
    requires AllPayable(positions, teams)
    ensures Recorded(h, Record(h, ids, round, positions, SettleAll(teams, positions)), ids, round, positions, teams)
  {
    SettlingKeepsCounts(teams, positions);
    RecordSameCounts(h, ids, round, positions, SettleAll(teams, positions), teams);
  }

  /** Team by team, settlement pays both slots and then clears the choices. */
  lemma PaidAndCleared(teams: seq<Team>, positions: seq<Position>)
    requires AllPayable(positions, teams)
    ensures var r := ClearChoices(SettleAll(teams, positions));
      && |r| == |teams|
      && forall i :: 0 <= i < |teams| ==>
           && TeamPayable(positions, teams, teams[i])
           && r[i] == teams[i].(
                asset1 := SettleAsset(teams[i].asset1, positions, teams, teams[i].choice1),
                asset2 := SettleAsset(teams[i].asset2, positions, teams, teams[i].choice2),
                choice1 := None, choice2 := None)
  {
    forall i | 0 <= i < |teams|
      ensures TeamPayable(positions, teams, teams[i])
    {
      assert teams[i] in teams;
    }
  }

  /** Paying teams does not touch choices, so every count, and hence every
      ledger cell, is the same before and after payment. */
  lemma SettlingKeepsCounts(teams: seq<Team>, positions: seq<Position>)
    requires AllPayable(positions, teams)
    ensures forall id :: EntryFor(positions, id, SettleAll(teams, positions)) == EntryFor(positions, id, teams)
  {
    var settled := SettleAll(teams, positions);
    forall id ensures EntryFor(positions, id, settled) == EntryFor(positions, id, teams) {
      CountDependsOnlyOnChoices(id, settled, teams);
      forall p: Position ensures GetCoefficient(p, settled) == GetCoefficient(p, teams) {
        CountDependsOnlyOnChoices(p.id, settled, teams);
        if p.mother.Some? {
          CountDependsOnlyOnChoices(p.mother.value, settled, teams);
        }
      }
    }
  }

  /** The ledger only sees the teams through the cells it writes, so teams
      with the same cells give the same ledger. */
  lemma {:induction false} RecordSameCounts(h: map<string, map<nat, LedgerEntry>>, ids: seq<string>, round: nat,
                                            positions: seq<Position>, teams: seq<Team>, others: seq<Team>)
    requires forall id :: EntryFor(positions, id, teams) == EntryFor(positions, id, others)
    ensures Record(h, ids, round, positions, teams) == Record(h, ids, round, positions, others)
    decreases |ids|
  {
    if ids != [] {
      RecordSameCounts(Write(h, ids[0], round, EntryFor(positions, ids[0], teams)), ids[1..], round, positions, teams, others);
    }
  }

  /** Ids of intact positions are the catalog's ids, hence unique. */
  lemma IntactUniqueIds(positions: seq<Position>)
    requires CatalogIntact(positions)
    ensures UniqueIds(positions)
    ensures forall k :: 0 <= k < |positions| ==> positions[k].id == AllPositions[k].id
  {
    CatalogWellFormed();
    assert forall k :: 0 <= k < |positions| ==> positions[k].id == positions[k].(customValue := None).id;
  }

  /** Once custom values are in place, every chosen slot yields a coefficient:
      the settlement loop never meets a missing position or a missing value. */
  lemma SettlementPayable(app: App, arg: Option<real>, positions: seq<Position>)
    requires StopReady(app) && Open(app.game)
    requires !(NeedsCustom(app.positions, Rounds[app.game.round - 1]) && arg.None?)
    requires positions == StoreCustom(app.positions, Rounds[app.game.round - 1], arg)
    ensures AllPayable(positions, app.teams)
  {
    assert CatalogIntact(positions) by {
      forall k | 0 <= k < |positions|
        ensures positions[k].(customValue := None) == AllPositions[k]
      {
        assert positions[k].(customValue := None) == app.positions[k].(customValue := None);
      }
    }
    IntactUniqueIds(positions);
    forall t | t in app.teams
      ensures TeamPayable(positions, app.teams, t)
    {
      var i :| 0 <= i < |app.teams| && app.teams[i] == t;
      SlotPays(app, arg, positions, i, t.choice1);
      SlotPays(app, arg, positions, i, t.choice2);
    }
  }

  lemma SlotPays(app: App, arg: Option<real>, positions: seq<Position>, i: int, c: Option<string>)
    requires StopReady(app) && Open(app.game)
    requires !(NeedsCustom(app.positions, Rounds[app.game.round - 1]) && arg.None?)
    requires positions == StoreCustom(app.positions, Rounds[app.game.round - 1], arg)
    requires CatalogIntact(positions) && UniqueIds(positions)
    requires forall k :: 0 <= k < |positions| ==> positions[k].id == AllPositions[k].id
    requires 0 <= i < |app.teams| && (c == app.teams[i].choice1 || c == app.teams[i].choice2)
    ensures SlotPayable(positions, app.teams, c)
  {
    var schedule := Rounds[app.game.round - 1];
    if Chosen(c) {
      var id := c.value;
      assert app.teams[i] in app.teams;
      assert id in schedule;
      ScheduleResolves(app.game.round - 1, id);
      var k :| 0 <= k < |AllPositions| && AllPositions[k].id == id;
      FindPositionAt(positions, k);
      ChosenIsCounted(id, app.teams, i);
      var p := positions[k];
      if p.custom.Some? {
        assert app.positions[k].custom.Some? && app.positions[k].id in schedule;
        assert app.positions[k] in app.positions;
        assert NeedsCustom(app.positions, schedule);
      }
      ChosenCatalogPositionPays(p, k, app.teams);
    }
  }

  // ---------------------------------------------------------------------------
  // Administrator adjustments and the leaderboard
  // ---------------------------------------------------------------------------

  /** `multiply_handler`: multiplies one asset slot of the team named by the
      (lower-cased) id; no rounding. `factor` is the parsed multiplier. */
  function Multiply(app: App, teamArg: string, asset: string, factor: Option<real>): (r: Step)
    ensures r.reply == MultiplyUsage <==> (asset != "1" && asset != "2") || factor.None?
    ensures r.reply == UnknownTeam <==>
      (asset == "1" || asset == "2") && factor.Some? && TeamIndexById(app.teams, teamArg).None?
    ensures r.reply in {Done, MultiplyUsage, UnknownTeam}
    ensures r.reply != Done ==> r.app == app
    ensures r.reply == Done ==>
      var i := TeamIndexById(app.teams, teamArg).value;
      && r.app.game == app.game && r.app.positions == app.positions
      && |r.app.teams| == |app.teams|
      && (forall j :: 0 <= j < |app.teams| && j != i ==> r.app.teams[j] == app.teams[j])
      && (asset == "1" ==> r.app.teams[i] == app.teams[i].(asset1 := app.teams[i].asset1 * factor.value))
      && (asset == "2" ==> r.app.teams[i] == app.teams[i].(asset2 := app.teams[i].asset2 * factor.value))
  {
    if (asset != "1" && asset != "2") || factor.None? then Step(app, MultiplyUsage)
    else match TeamIndexById(app.teams, teamArg)
      case None => Step(app, UnknownTeam)
      case Some(i) =>
        var t := app.teams[i];
        var t' := if asset == "1" then t.(asset1 := t.asset1 * factor.value) else t.(asset2 := t.asset2 * factor.value);
        Step(app.(teams := app.teams[i := t']), Done)
  }

  /** `/multiply` does not round: a factor of 1 leaves the state as it was
      (scoring a quiz with no correct answer, by contrast, re-rounds). */
  lemma MultiplyByOneKeepsState(app: App, teamArg: string, asset: string)
    requires Multiply(app, teamArg, asset, Some(1.0)).reply == Done
    ensures Multiply(app, teamArg, asset, Some(1.0)).app == app
  {
    var r := Multiply(app, teamArg, asset, Some(1.0)).app;
    var i := TeamIndexById(app.teams, teamArg).value;
    assert r.teams[i] == app.teams[i];
    assert r.teams == app.teams;
  }

  /** Highest total score first. */
  predicate Descending(ts: seq<Team>) {
    forall i, j :: 0 <= i < j < |ts| ==> TotalScore(ts[i]) >= TotalScore(ts[j])
  }

  /** Places `t` in front of the first team that does not score more. */
  function Insert(t: Team, ranked: seq<Team>): (r: seq<Team>)
    ensures multiset(r) == multiset(ranked) + multiset{t}
  {
    if ranked == [] || TotalScore(ranked[0]) <= TotalScore(t) then [t] + ranked
    else
      assert ranked == [ranked[0]] + ranked[1..];
      [ranked[0]] + Insert(t, ranked[1..])
  }

  /** No team of `ts` scores more than `bound`. */
  predicate AtMost(ts: seq<Team>, bound: real) {
    forall i :: 0 <= i < |ts| ==> TotalScore(ts[i]) <= bound
  }

  /** Inserting a team that does not exceed `bound` keeps every score within it. */
  lemma {:induction false} InsertAtMost(t: Team, ranked: seq<Team>, bound: real)
    requires AtMost(ranked, bound) && TotalScore(t) <= bound
    ensures AtMost(Insert(t, ranked), bound)
  {
    if ranked != [] && TotalScore(ranked[0]) > TotalScore(t) {
      assert AtMost(ranked[1..], bound) by {
        forall i | 0 <= i < |ranked[1..]| ensures TotalScore(ranked[1..][i]) <= bound {
          assert ranked[1..][i] == ranked[i + 1];
        }
      }
      InsertAtMost(t, ranked[1..], bound);
      var r := Insert(t, ranked);
      assert r == [ranked[0]] + Insert(t, ranked[1..]);
      forall i | 0 <= i < |r| ensures TotalScore(r[i]) <= bound {
        if i > 0 {
          assert r[i] == Insert(t, ranked[1..])[i - 1];
        }
      }
    }
  }

  /** Inserting into a descending ranking keeps it descending. */
  lemma {:induction false} InsertKeepsDescending(t: Team, ranked: seq<Team>)
    requires Descending(ranked)
    ensures Descending(Insert(t, ranked))
  {
    if ranked == [] || TotalScore(ranked[0]) <= TotalScore(t) {
      var r := Insert(t, ranked);
      forall i, j | 0 <= i < j < |r| ensures TotalScore(r[i]) >= TotalScore(r[j]) {
        if i > 0 {
          assert r[i] == ranked[i - 1];
        }
        assert r[j] == ranked[j - 1];
      }
    } else {
      var tail := ranked[1..];
      assert Descending(tail) by {
        forall i, j | 0 <= i < j < |tail| ensures TotalScore(tail[i]) >= TotalScore(tail[j]) {
          assert tail[i] == ranked[i + 1] && tail[j] == ranked[j + 1];
        }
      }
      assert AtMost(tail, TotalScore(ranked[0])) by {
        forall i | 0 <= i < |tail| ensures TotalScore(tail[i]) <= TotalScore(ranked[0]) {
          assert tail[i] == ranked[i + 1];
        }
      }
      InsertKeepsDescending(t, tail);
      InsertAtMost(t, tail, TotalScore(ranked[0]));
      var rest := Insert(t, tail);
      var r := Insert(t, ranked);
      assert r == [ranked[0]] + rest;
      forall i, j | 0 <= i < j < |r| ensures TotalScore(r[i]) >= TotalScore(r[j]) {
        assert r[j] == rest[j - 1];
        if i > 0 {
          assert r[i] == rest[i - 1];
        }
      }
    }
  }

  /** The leaderboard order of `stats_handler`: the registry sorted by total
      score, highest first. */
  function Ranking(teams: seq<Team>): (r: seq<Team>)
    ensures multiset(r) == multiset(teams)
    ensures Descending(r)
  {
    if teams == [] then []
    else
      assert teams == [teams[0]] + teams[1..];
      InsertKeepsDescending(teams[0], Ranking(teams[1..]));
      Insert(teams[0], Ranking(teams[1..]))
  }
}
