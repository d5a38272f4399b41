/**
 * A session of the bot: the events the handlers react to, one dispatcher, and
 * the invariant every reachable state keeps.
 */
module Session {
  import opened Wrappers
  import opened Models
  import opened Config
  import opened Bot

  /** One inbound message or button press, already parsed. */
  datatype Event =
    | Join(sender: int, teamId: string, token: Token)
    | QuizStart
    | QuizEnd
    | QuizScore
    | RoundNext
    | RoundStop(arg: Option<real>)
    | AssetMultiply(teamArg: string, asset: string, factor: Option<real>)
    | Choice(sender: int, roundId: int, posId: string, asset: string)
    | QuizMessage(sender: int, text: string)

  /** A choice comes from a round keyboard, which only offers the positions
      scheduled for the round it was built for. */
  predicate FromKeyboard(e: Event) {
    e.Choice? ==> 1 <= e.roundId <= |Rounds| && e.posId in Rounds[e.roundId - 1]
  }

  predicate OwnersUnique(teams: seq<Team>) {
    forall i, j :: 0 <= i < j < |teams| ==> teams[i].owner != teams[j].owner
  }

  /** Ledger cells only exist for rounds already played, and never for the
      round still open. */
  predicate HistoryBehind(g: Game) {
    forall id, k :: id in g.history && k in g.history[id] ==>
      1 <= k <= g.round && !(Open(g) && k == g.round)
  }

  /** What holds of every state the bot can reach. */
  predicate Valid(app: App) {
    && StopReady(app)
    && (app.game.waitForCoefficient ==> NeedsCustom(app.positions, Rounds[app.game.round - 1]))
    && (!Open(app.game) ==> forall t :: t in app.teams ==> t.choice1 == None && t.choice2 == None)
    && AnswersBounded(app.teams)
    && OwnersUnique(app.teams)
    && HistoryBehind(app.game)
  }

  /** The handler an event reaches. Only a completed step and a `/stop` left
      pending change the state; every other answer leaves it as it was. */
  function Handle(app: App, e: Event): (r: Step)
    requires Valid(app)
    ensures r.reply != Done && r.reply != NeedCustomCoefficient ==> r.app == app
    ensures r.reply == NeedCustomCoefficient ==> e.RoundStop? && e.arg.None? && r.app.teams == app.teams
  {
    match e
    case Join(sender, teamId, token) => Register(app, sender, teamId, token)
    case QuizStart => StartQuiz(app)
    case QuizEnd => EndQuiz(app)
    case QuizScore => QuizResults(app)
    case RoundNext => Next(app)
    case RoundStop(arg) => Stop(app, arg)
    case AssetMultiply(teamArg, asset, factor) => Multiply(app, teamArg, asset, factor)
    case Choice(sender, roundId, posId, asset) => Invest(app, sender, roundId, posId, asset)
    case QuizMessage(sender, text) => Answer(app, sender, text)
  }

  // ---------------------------------------------------------------------------
  // The invariant
  // ---------------------------------------------------------------------------

  lemma BootValid()
    ensures Valid(Boot())
  {
    assert AllPositions[..] == AllPositions;
  }

  /** Only rounds 5 and 6 open a custom position, and they open the same ones. */
  lemma CustomRoundsAreFiveAndSix(positions: seq<Position>, r: int)
    requires CatalogIntact(positions) && 1 <= r <= |Rounds|
    ensures NeedsCustom(positions, Rounds[r - 1]) <==> r == 5 || r == 6
  {
    NftOnlyCustom();
    assert positions[7].(customValue := None) == Nft;
    if NeedsCustom(positions, Rounds[r - 1]) {
      var p :| p in positions && p.custom.Some? && p.id in Rounds[r - 1];
      var k :| 0 <= k < |positions| && positions[k] == p;
      assert positions[k].(customValue := None) == AllPositions[k];
      assert AllPositions[k].custom.Some?;
    }
    if r == 5 || r == 6 {
      assert positions[7] in positions && positions[7].custom.Some? && positions[7].id in Rounds[r - 1];
    }
  }

  lemma RegisterPreservesValid(app: App, sender: int, teamId: string, token: Token)
    requires Valid(app)
    ensures Valid(Register(app, sender, teamId, token).app)
  {
    var r := Register(app, sender, teamId, token);
    if r.reply == Done {
      var teams := r.app.teams;
      assert forall i :: 0 <= i < |app.teams| ==> teams[i] == app.teams[i];
      assert teams[|app.teams|].owner == sender;
      forall t | t in teams
        ensures |t.answers| <= |QuizAnswers|
        ensures t in app.teams || (t.choice1 == None && t.choice2 == None)
      {
        var i :| 0 <= i < |teams| && teams[i] == t;
        if i < |app.teams| { assert t in app.teams; }
      }
    }
  }

  lemma QuizResultsPreservesValid(app: App)
    requires Valid(app)
    ensures Valid(QuizResults(app).app)
  {
    var teams := QuizResults(app).app.teams;
    forall i | 0 <= i < |app.teams|
      ensures teams[i].choice1 == app.teams[i].choice1 && teams[i].choice2 == app.teams[i].choice2
      ensures teams[i].owner == app.teams[i].owner && |teams[i].answers| <= |QuizAnswers|
    {
      assert app.teams[i] in app.teams;
      var s := ScoreTeam(app.teams[i]);
      assert s.(asset1 := app.teams[i].asset1, asset2 := app.teams[i].asset2, answers := app.teams[i].answers) == app.teams[i];
    }
    BookkeepingOnly(app, QuizResults(app).app);
  }

  lemma NextPreservesValid(app: App)
    requires Valid(app)
    ensures Valid(Next(app).app)
  {
    var r := Next(app);
    if r.reply == Done {
      var g := app.game;
      var round := g.round + 1;
      if g.waitForCoefficient {
        CustomRoundsAreFiveAndSix(app.positions, g.round);
        assert g.round == 5;
        CustomRoundsAreFiveAndSix(app.positions, round);
        assert Rounds[g.round - 1] == Rounds[round - 1];
      } else {
        assert forall t :: t in app.teams ==> t.choice1 == None && t.choice2 == None;
      }
    }
  }

  /** A step that only changes assets and answers keeps the invariant, as
      long as no team ends up with more answers than questions. */
  lemma BookkeepingOnly(app: App, app': App)
    requires Valid(app)
    requires app'.game == app.game && app'.positions == app.positions
    requires |app'.teams| == |app.teams|
    requires forall i :: 0 <= i < |app.teams| ==>
      && app'.teams[i].choice1 == app.teams[i].choice1 && app'.teams[i].choice2 == app.teams[i].choice2
      && app'.teams[i].owner == app.teams[i].owner && |app'.teams[i].answers| <= |QuizAnswers|
    ensures Valid(app')
  {
    forall t | t in app'.teams
      ensures InSchedule(t.choice1, app.game.round) && InSchedule(t.choice2, app.game.round)
      ensures |t.answers| <= |QuizAnswers|
      ensures !Open(app.game) ==> t.choice1 == None && t.choice2 == None
    {
      var j :| 0 <= j < |app'.teams| && app'.teams[j] == t;
      assert app.teams[j] in app.teams;
    }
  }

  lemma StopKeepsCatalog(app: App, arg: Option<real>)
    requires Valid(app) && Stop(app, arg).reply == Done
    ensures CatalogIntact(Stop(app, arg).app.positions)
  {
    var ps := Stop(app, arg).app.positions;
    forall k | 0 <= k < |ps|
      ensures ps[k].(customValue := None) == AllPositions[k]
    {
      assert ps[k].(customValue := None) == app.positions[k].(customValue := None);
    }
  }

  lemma StopClearsTeams(app: App, arg: Option<real>)
    requires Valid(app) && Stop(app, arg).reply == Done
    ensures forall t :: t in Stop(app, arg).app.teams ==>
      t.choice1 == None && t.choice2 == None && |t.answers| <= |QuizAnswers|
    ensures OwnersUnique(Stop(app, arg).app.teams)
  {
    var teams := Stop(app, arg).app.teams;
    assert Settled(app, arg, Stop(app, arg).app);
    forall t | t in teams
      ensures t.choice1 == None && t.choice2 == None && |t.answers| <= |QuizAnswers|
    {
      var i :| 0 <= i < |teams| && teams[i] == t;
      assert app.teams[i] in app.teams;
    }
    assert forall i :: 0 <= i < |app.teams| ==> teams[i].owner == app.teams[i].owner;
  }

  lemma StopHistoryBehind(app: App, arg: Option<real>)
    requires Valid(app) && Stop(app, arg).reply == Done
    ensures HistoryBehind(Stop(app, arg).app.game)
  {
    var r := Stop(app, arg).app;
    assert Settled(app, arg, r);
    RecordedKeys(app.game.history, r.game.history, Rounds[app.game.round - 1], app.game.round, r.positions, app.teams);
  }

  /** Recording adds only cells of `round`. */
  lemma RecordedKeys(h: map<string, map<nat, LedgerEntry>>, h': map<string, map<nat, LedgerEntry>>,
                     ids: seq<string>, round: nat, positions: seq<Position>, teams: seq<Team>)
    requires Recorded(h, h', ids, round, positions, teams)
    ensures forall id, k :: id in h' && k in h'[id] ==> k == round || (id in h && k in h[id])
  {
    forall id, k | id in h' && k in h'[id] && k != round
      ensures id in h && k in h[id]
    {
      if id !in ids {
        assert id in h;
      }
    }
  }

  lemma StopPreservesValid(app: App, arg: Option<real>)
    requires Valid(app)
    ensures Valid(Stop(app, arg).app)
  {
    if Stop(app, arg).reply == Done {
      StopKeepsCatalog(app, arg);
      StopClearsTeams(app, arg);
      StopHistoryBehind(app, arg);
    }
  }

  lemma MultiplyPreservesValid(app: App, teamArg: string, asset: string, factor: Option<real>)
    requires Valid(app)
    ensures Valid(Multiply(app, teamArg, asset, factor).app)
  {
    var r := Multiply(app, teamArg, asset, factor);
    if r.reply == Done {
      forall i | 0 <= i < |app.teams|
        ensures r.app.teams[i].choice1 == app.teams[i].choice1 && r.app.teams[i].choice2 == app.teams[i].choice2
        ensures r.app.teams[i].owner == app.teams[i].owner && |r.app.teams[i].answers| <= |QuizAnswers|
      {
        assert app.teams[i] in app.teams;
      }
      BookkeepingOnly(app, r.app);
    }
  }

  lemma InvestPreservesValid(app: App, sender: int, roundId: int, posId: string, asset: string)
    requires Valid(app)
    requires 1 <= roundId <= |Rounds| && posId in Rounds[roundId - 1]
    ensures Valid(Invest(app, sender, roundId, posId, asset).app)
  {
    var r := Invest(app, sender, roundId, posId, asset);
    if r.reply == Done {
      var i := OwnerIndex(app.teams, sender).value;
      forall t | t in r.app.teams
        ensures InSchedule(t.choice1, app.game.round) && InSchedule(t.choice2, app.game.round)
        ensures |t.answers| <= |QuizAnswers|
      {
        var j :| 0 <= j < |r.app.teams| && r.app.teams[j] == t;
        assert app.teams[j] in app.teams;
      }
      assert forall j :: 0 <= j < |app.teams| ==> r.app.teams[j].owner == app.teams[j].owner;
    }
  }

  lemma AnswerPreservesValid(app: App, sender: int, text: string)
    requires Valid(app)
    ensures Valid(Answer(app, sender, text).app)
  {
    var r := Answer(app, sender, text);
    if r.reply == Done {
      var i := OwnerIndex(app.teams, sender).value;
      assert app.teams[i] in app.teams;
      forall t | t in r.app.teams
        ensures InSchedule(t.choice1, app.game.round) && InSchedule(t.choice2, app.game.round)
        ensures |t.answers| <= |QuizAnswers|
        ensures !Open(app.game) ==> t.choice1 == None && t.choice2 == None
      {
        var j :| 0 <= j < |r.app.teams| && r.app.teams[j] == t;
        assert app.teams[j] in app.teams;
      }
      assert forall j :: 0 <= j < |app.teams| ==> r.app.teams[j].owner == app.teams[j].owner;
    }
  }

  /** Every handler keeps the invariant. */
  lemma HandlePreservesValid(app: App, e: Event)
    requires Valid(app) && FromKeyboard(e)
    ensures Valid(Handle(app, e).app)
  {
    match e
    case Join(sender, teamId, token) => RegisterPreservesValid(app, sender, teamId, token);
    case QuizStart =>
    case QuizEnd =>
    case QuizScore => QuizResultsPreservesValid(app);
    case RoundNext => NextPreservesValid(app);
    case RoundStop(arg) => StopPreservesValid(app, arg);
    case AssetMultiply(teamArg, asset, factor) => MultiplyPreservesValid(app, teamArg, asset, factor);
    case Choice(sender, roundId, posId, asset) => InvestPreservesValid(app, sender, roundId, posId, asset);
    case QuizMessage(sender, text) => AnswerPreservesValid(app, sender, text);
  }

  /** The state after a sequence of events. */
  function Run(app: App, events: seq<Event>): (r: App)
    requires Valid(app)
    requires forall e :: e in events ==> FromKeyboard(e)
    ensures Valid(r)
    decreases |events|
  {
    if events == [] then app
    else
      HandlePreservesValid(app, events[0]);
      Run(Handle(app, events[0]).app, events[1..])
  }

  /** The state after a sequence of events from boot. Every such state keeps
      the invariant: the round inside the schedule, at most one answer per
      question, choices only from the open round, no choices between rounds. */
  function Reachable(events: seq<Event>): (r: App)
    requires forall e :: e in events ==> FromKeyboard(e)
    ensures Valid(r)
    ensures r.game.round <= |Rounds|
  {
    BootValid();
    Run(Boot(), events)
  }
}
