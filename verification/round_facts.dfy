/**
 * Facts about closing rounds in reachable states: what a failed `/stop`
 * leaves behind, what a successful one writes, and how the ledger and the
 * payouts agree.
 */
module RoundFacts {
  import opened Wrappers
  import opened Rounding
  import opened Models
  import opened Config
  import opened Bot
  import opened Session

  /** After a successful `/stop` a second one has nothing to close. */
  lemma SecondStopIsNoOp(app: App, arg: Option<real>, again: Option<real>)
    requires Valid(app) && Stop(app, arg).reply == Done
    ensures StopReady(Stop(app, arg).app)
    ensures Stop(Stop(app, arg).app, again) == Step(Stop(app, arg).app, NothingToClose)
  {
    StopPreservesValid(app, arg);
  }

  /** A `/stop` refused for want of a custom coefficient has already marked the
      round closed, so choices are refused until the round is settled. */
  lemma PendingStopRefusesChoices(app: App, sender: int, roundId: int, posId: string, asset: string)
    requires Valid(app) && Stop(app, None).reply == NeedCustomCoefficient
    requires OwnerIndex(app.teams, sender).Some?
    ensures Invest(Stop(app, None).app, sender, roundId, posId, asset).reply == TradingClosed
  {
  }

  /** `/next` does not look at the pending flag: from a pending round 5 it
      opens round 6, and round 5 is never settled. */
  lemma NextSkipsPendingRound(app: App)
    requires Valid(app) && app.game.round == 5 && !app.game.quizStarted
    requires Stop(app, None).reply == NeedCustomCoefficient
    ensures var s := Next(Stop(app, None).app);
      && s.reply == Done
      && s.app.game.round == 6 && s.app.game.started && s.app.game.waitForCoefficient
      && s.app.game.history == app.game.history
  {
  }

  /** A successful `/stop` writes each ledger cell of the round exactly once:
      none of them existed before. */
  lemma SettlementWritesFreshCells(app: App, arg: Option<real>, id: string)
    requires Valid(app) && Stop(app, arg).reply == Done
    requires id in Rounds[app.game.round - 1]
    ensures id !in app.game.history || app.game.round !in app.game.history[id]
    ensures var h := Stop(app, arg).app.game.history;
      id in h && app.game.round in h[id]
  {
  }

  /** The ledger and the payouts agree: a chosen slot, either of the two, is
      paid with the recorded coefficient rounded to two decimals (a "-" cell
      can only come from a zero coefficient), and the recorded count includes
      the team. */
  lemma LedgerMatchesPayout(app: App, arg: Option<real>, i: int, c: Option<string>)
    requires Valid(app) && Stop(app, arg).reply == Done
    requires 0 <= i < |app.teams| && (c == app.teams[i].choice1 || c == app.teams[i].choice2)
    requires Chosen(c)
    ensures var r := Stop(app, arg).app;
      var id := c.value;
      var round := app.game.round;
      && id in r.game.history && round in r.game.history[id]
      && r.game.history[id][round].investors == InvestorCount(id, app.teams) >= 1
      && SlotPayable(r.positions, app.teams, c)
      && Payout(r.positions, app.teams, c) == Round2(r.game.history[id][round].coefficient.GetOr(0.0))
  {
    var r := Stop(app, arg).app;
    assert app.teams[i] in app.teams;
    ChosenIsCounted(c.value, app.teams, i);
    SettledCell(app, arg, c.value);
    assert TeamPayable(r.positions, app.teams, app.teams[i]);
    EntryMatchesPayout(r.positions, app.teams, c);
  }

  /** A payable slot's payout is its ledger coefficient, rounded; the
      placeholder stands for zero. */
  lemma EntryMatchesPayout(positions: seq<Position>, teams: seq<Team>, c: Option<string>)
    requires Chosen(c) && SlotPayable(positions, teams, c)
    ensures Payout(positions, teams, c) == Round2(EntryFor(positions, c.value, teams).coefficient.GetOr(0.0))
  {
    Round2Hundredths(0);
  }

  /** tbank: its slots are paid at 1.1 and the ledger shows its count with
      coefficient 1.1. */
  lemma TbankSettlement(app: App, arg: Option<real>)
    requires Valid(app) && Stop(app, arg).reply == Done
    requires Tbank.id in Rounds[app.game.round - 1]
    ensures var r := Stop(app, arg).app;
      && SlotPayable(r.positions, app.teams, Some(Tbank.id))
      && Payout(r.positions, app.teams, Some(Tbank.id)) == 1.1
      && Tbank.id in r.game.history && app.game.round in r.game.history[Tbank.id]
      && r.game.history[Tbank.id][app.game.round] == LedgerEntry(InvestorCount(Tbank.id, app.teams), Some(1.1))
  {
    var r := Stop(app, arg).app;
    IntactUniqueIdsAfterStop(app, arg);
    SettledCell(app, arg, Tbank.id);
    TbankEntry(r.positions, app.teams);
  }

  lemma TbankEntry(positions: seq<Position>, teams: seq<Team>)
    requires CatalogIntact(positions) && UniqueIds(positions)
    ensures SlotPayable(positions, teams, Some(Tbank.id))
    ensures Payout(positions, teams, Some(Tbank.id)) == 1.1
    ensures EntryFor(positions, Tbank.id, teams) == LedgerEntry(InvestorCount(Tbank.id, teams), Some(1.1))
  {
    FindPositionAt(positions, 0);
    assert positions[0].(customValue := None) == Tbank;
    TbankAlwaysPays(teams);
    assert GetCoefficient(positions[0], teams) == GetCoefficient(Tbank, teams);
    Round2Constants();
  }

  /** A tiered position nobody chose has no tier for count 0: its ledger cell
      is the "-" placeholder. */
  lemma UnchosenCryptoRecordsPlaceholder(app: App, arg: Option<real>)
    requires Valid(app) && Stop(app, arg).reply == Done
    requires Crypto.id in Rounds[app.game.round - 1]
    requires InvestorCount(Crypto.id, app.teams) == 0
    ensures var h := Stop(app, arg).app.game.history;
      Crypto.id in h && app.game.round in h[Crypto.id]
      && h[Crypto.id][app.game.round] == LedgerEntry(0, None)
  {
    var r := Stop(app, arg).app;
    IntactUniqueIdsAfterStop(app, arg);
    SettledCell(app, arg, Crypto.id);
    UnchosenCryptoEntry(r.positions, app.teams);
  }

  lemma UnchosenCryptoEntry(positions: seq<Position>, teams: seq<Team>)
    requires CatalogIntact(positions) && UniqueIds(positions)
    requires InvestorCount(Crypto.id, teams) == 0
    ensures EntryFor(positions, Crypto.id, teams) == LedgerEntry(0, None)
  {
    FindPositionAt(positions, 3);
    assert positions[3].(customValue := None) == Crypto;
    CryptoKinopoiskTiersPartition(0);
    assert GetCoefficient(positions[3], teams) == GetCoefficient(Crypto, teams);
  }

  /** The value given to `/stop` is the one a custom position pays with and
      the one the ledger records (a zero shows as "-"). */
  lemma CustomValueIsUsed(app: App, v: real)
    requires Valid(app) && Stop(app, Some(v)).reply == Done
    requires Nft.id in Rounds[app.game.round - 1]
    ensures var r := Stop(app, Some(v)).app;
      && SlotPayable(r.positions, app.teams, Some(Nft.id))
      && Payout(r.positions, app.teams, Some(Nft.id)) == Round2(v)
      && Nft.id in r.game.history && app.game.round in r.game.history[Nft.id]
      && r.game.history[Nft.id][app.game.round].coefficient == LedgerCoefficient(Some(v))
  {
    var r := Stop(app, Some(v)).app;
    IntactUniqueIdsAfterStop(app, Some(v));
    assert app.positions[7].(customValue := None) == Nft;
    assert r.positions[7] == Nft.(customValue := Some(v));
    SettledCell(app, Some(v), Nft.id);
    CustomEntry(r.positions, app.teams, v);
  }

  lemma CustomEntry(positions: seq<Position>, teams: seq<Team>, v: real)
    requires CatalogIntact(positions) && UniqueIds(positions)
    requires positions[7] == Nft.(customValue := Some(v))
    ensures SlotPayable(positions, teams, Some(Nft.id))
    ensures Payout(positions, teams, Some(Nft.id)) == Round2(v)
    ensures EntryFor(positions, Nft.id, teams).coefficient == LedgerCoefficient(Some(v))
  {
    FindPositionAt(positions, 7);
  }

  lemma IntactUniqueIdsAfterStop(app: App, arg: Option<real>)
    requires Valid(app) && Stop(app, arg).reply == Done
    ensures CatalogIntact(Stop(app, arg).app.positions)
    ensures UniqueIds(Stop(app, arg).app.positions)
    ensures forall k :: 0 <= k < |AllPositions| ==>
      Stop(app, arg).app.positions[k].(customValue := None) == AllPositions[k]
  {
    StopKeepsCatalog(app, arg);
    IntactUniqueIds(Stop(app, arg).app.positions);
  }

  /** The ledger cell a successful `/stop` writes for a position of the round. */
  lemma SettledCell(app: App, arg: Option<real>, id: string)
    requires StopReady(app) && Stop(app, arg).reply == Done
    requires id in Rounds[app.game.round - 1]
    ensures var h := Stop(app, arg).app.game.history;
      id in h && app.game.round in h[id]
      && h[id][app.game.round] == EntryFor(Stop(app, arg).app.positions, id, app.teams)
  {
    var r := Stop(app, arg).app;
    assert Settled(app, arg, r);
    RecordedCell(app.game.history, r.game.history, Rounds[app.game.round - 1], app.game.round, r.positions, app.teams, id);
  }

  lemma RecordedCell(h: map<string, map<nat, LedgerEntry>>, h': map<string, map<nat, LedgerEntry>>,
                     ids: seq<string>, round: nat, positions: seq<Position>, teams: seq<Team>, id: string)
    requires Recorded(h, h', ids, round, positions, teams) && id in ids
    ensures id in h' && round in h'[id] && h'[id][round] == EntryFor(positions, id, teams)
  {
  }
}
