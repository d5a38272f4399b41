/**
 * The game's records and the payout-coefficient engine (`Team`, `Game` and
 * `RoundPosition` of the original). Amounts are reals; rounding is `Round2`.
 */
module Models {
  import opened Wrappers
  import opened Rounding

  // ---------------------------------------------------------------------------
  // Teams and the game record
  // ---------------------------------------------------------------------------

  /** A registered team: two asset slots, the position chosen for each slot in
      the current round, and the quiz answers given so far. */
  datatype Team = Team(
    id: string,
    name: string,
    owner: int,
    asset1: real,
    asset2: real,
    choice1: Option<string>,
    choice2: Option<string>,
    answers: seq<string>)

  /** `Team(id, name, owner_id)` with every other field at its default. */
  function NewTeam(id: string, name: string, owner: int): (t: Team)
    ensures t.id == id && t.name == name && t.owner == owner
    ensures t.asset1 == 10.0 && t.asset2 == 10.0 && TotalScore(t) == 20.0
    ensures t.choice1 == None && t.choice2 == None && t.answers == []
  {
    Team(id, name, owner, 10.0, 10.0, None, None, [])
  }

  /** What the leaderboard ranks by. */
  function TotalScore(t: Team): real {
    t.asset1 + t.asset2
  }

  /** One ledger cell: how many slot selections a position had in a round and
      the coefficient recorded for it; `None` is the "-" placeholder. */
  datatype LedgerEntry = LedgerEntry(investors: nat, coefficient: Option<real>)

  /** The game record. `history[positionId][round]` is the ledger; the round
      number stands for the decimal string key the original uses. */
  datatype Game = Game(
    round: nat,
    started: bool,
    waitForCoefficient: bool,
    quizStarted: bool,
    history: map<string, map<nat, LedgerEntry>>)

  /** `Game()`: before the first round, nothing running, empty ledger. */
  function NewGame(): (g: Game)
    ensures g.round == 0 && !g.started && !g.waitForCoefficient && !g.quizStarted
    ensures g.history == map[]
  {
    Game(0, false, false, false, map[])
  }

  // ---------------------------------------------------------------------------
  // Investor count
  // ---------------------------------------------------------------------------

  /** How many of one team's two slots point at `id`. */
  function SlotHits(t: Team, id: string): nat {
    (if t.choice1 == Some(id) then 1 else 0) + (if t.choice2 == Some(id) then 1 else 0)
  }

  /** `get_invests_by_id`: slot selections of `id` over all teams; a team that
      picks the same position in both slots counts twice. */
  function InvestorCount(id: string, teams: seq<Team>): (n: nat)
    ensures n <= 2 * |teams|
  {
    if teams == [] then 0
    else InvestorCount(id, teams[..|teams| - 1]) + SlotHits(teams[|teams| - 1], id)
  }

  /** The loop of `get_invests_by_id`, team by team in registry order. */
  method CountInvestors(id: string, teams: seq<Team>) returns (total: nat)
    ensures total == InvestorCount(id, teams)
    ensures total <= 2 * |teams|
  {
    total := 0;
    var i := 0;
    while i < |teams|
      invariant 0 <= i <= |teams|
      invariant total == InvestorCount(id, teams[..i])
    {
      assert teams[..i + 1][..i] == teams[..i];
      if teams[i].choice1 == Some(id) {
        total := total + 1;
      }
      if teams[i].choice2 == Some(id) {
        total := total + 1;
      }
      i := i + 1;
    }
    assert teams[..i] == teams;
  }

  /** Every slot choice of every team, slot 1 before slot 2, in registry order. */
  function Choices(teams: seq<Team>): (cs: seq<Option<string>>)
    ensures |cs| == 2 * |teams|
  {
    if teams == [] then []
    else Choices(teams[..|teams| - 1]) + [teams[|teams| - 1].choice1, teams[|teams| - 1].choice2]
  }

  /** The investor count is the multiplicity of `id` among all slot choices. */
  lemma {:induction false} InvestorCountIsMultiplicity(id: string, teams: seq<Team>)
    ensures InvestorCount(id, teams) == multiset(Choices(teams))[Some(id)]
  {
    if teams != [] {
      var last := teams[|teams| - 1];
      InvestorCountIsMultiplicity(id, teams[..|teams| - 1]);
      assert multiset(Choices(teams)) ==
        multiset(Choices(teams[..|teams| - 1])) + multiset{last.choice1, last.choice2};
    }
  }

  /** A team that chose `id` in either slot is counted. */
  lemma {:induction false} ChosenIsCounted(id: string, teams: seq<Team>, k: int)
    requires 0 <= k < |teams|
    requires teams[k].choice1 == Some(id) || teams[k].choice2 == Some(id)
    ensures InvestorCount(id, teams) >= 1
  {
    if k < |teams| - 1 {
      ChosenIsCounted(id, teams[..|teams| - 1], k);
    }
  }

  /** Only the choices matter: two registries with the same choices, team by
      team, give every position the same count. */
  lemma {:induction false} CountDependsOnlyOnChoices(id: string, a: seq<Team>, b: seq<Team>)
    requires |a| == |b|
    requires forall i :: 0 <= i < |a| ==> a[i].choice1 == b[i].choice1 && a[i].choice2 == b[i].choice2
    ensures InvestorCount(id, a) == InvestorCount(id, b)
  {
    if a != [] {
      CountDependsOnlyOnChoices(id, a[..|a| - 1], b[..|b| - 1]);
    }
  }

  /** Nobody chose anything: every count is zero. */
  lemma {:induction false} NoChoicesNoInvestors(id: string, teams: seq<Team>)
    requires forall t :: t in teams ==> t.choice1 == None && t.choice2 == None
    ensures InvestorCount(id, teams) == 0
  {
    if teams != [] {
      assert forall t :: t in teams[..|teams| - 1] ==> t in teams;
      NoChoicesNoInvestors(id, teams[..|teams| - 1]);
    }
  }

  // ---------------------------------------------------------------------------
  // Payout rules
  // ---------------------------------------------------------------------------

  /** The linear rules the catalog uses: a constant (`lambda _: c`) and a pool
      shared between the investors (`lambda n: pool / (n or 1)`). */
  datatype LinearFn = Constant(value: real) | Shared(pool: real)

  function ApplyLinear(f: LinearFn, n: nat): (c: real)
    ensures f.Constant? ==> c == f.value
    ensures f.Shared? && n > 0 ==> c * n as real == f.pool
    ensures f.Shared? && n == 0 ==> c == f.pool
  {
    match f
    case Constant(v) => v
    case Shared(pool) =>
      if n == 0 then pool
      else
        QuotientTimesDivisor(pool, n as real);
        pool / n as real
  }

  lemma QuotientTimesDivisor(x: real, d: real)
    requires d != 0.0
    ensures (x / d) * d == x
  {
  }

  /** One tier `(low, high): coefficient`; `high == None` is open-ended. */
  datatype Tier = Tier(low: int, high: Option<int>, coefficient: real)

  /** The per-entry test of the tier scan: `n >= low` for an open tier,
      `low <= n <= high` for a bounded one. */
  predicate TierMatches(t: Tier, n: int) {
    (t.high.None? && n >= t.low) || (t.high.Some? && t.low <= n <= t.high.value)
  }

  /** The tier scan: the coefficient of the first tier, in declaration order,
      that contains `n`; `None` when none does. */
  function FirstMatch(tiers: seq<Tier>, n: int): (r: Option<real>)
    ensures r.Some? <==> exists i :: 0 <= i < |tiers| && TierMatches(tiers[i], n)
    ensures r.Some? ==> exists i :: (0 <= i < |tiers| && TierMatches(tiers[i], n)
      && r.value == tiers[i].coefficient
      && forall j :: 0 <= j < i ==> !TierMatches(tiers[j], n))
  {
    if tiers == [] then None
    else if TierMatches(tiers[0], n) then Some(tiers[0].coefficient)
    else
      assert forall i :: 1 <= i < |tiers| ==> tiers[i] == tiers[1..][i - 1];
      FirstMatch(tiers[1..], n)
  }

  /** Two tiers that cannot both contain a count. */
  predicate Apart(a: Tier, b: Tier) {
    (a.high.Some? && a.high.value < b.low) || (b.high.Some? && b.high.value < a.low)
  }

  /** No count lies in two tiers of the table. */
  predicate Disjoint(tiers: seq<Tier>) {
    forall i, j :: 0 <= i < j < |tiers| ==> Apart(tiers[i], tiers[j])
  }

  lemma ApartExcludes(a: Tier, b: Tier, n: int)
    requires Apart(a, b)
    ensures !(TierMatches(a, n) && TierMatches(b, n))
  {
  }

  /** With disjoint tiers the first match is the only match, so declaration
      order does not change the result. */
  lemma FirstMatchIsUnique(tiers: seq<Tier>, n: int, k: int)
    requires Disjoint(tiers)
    requires 0 <= k < |tiers| && TierMatches(tiers[k], n)
    ensures FirstMatch(tiers, n) == Some(tiers[k].coefficient)
    ensures forall j :: 0 <= j < |tiers| && j != k ==> !TierMatches(tiers[j], n)
  {
    forall j | 0 <= j < |tiers| && j != k
      ensures !TierMatches(tiers[j], n)
    {
      if j < k {
        ApartExcludes(tiers[j], tiers[k], n);
      } else {
        ApartExcludes(tiers[k], tiers[j], n);
      }
    }
  }

  // ---------------------------------------------------------------------------
  // Positions and the coefficient engine
  // ---------------------------------------------------------------------------

  /** `RoundPosition`: one record with four optional rule fields, checked in a
      fixed precedence order, and the custom value the administrator supplies. */
  datatype Position = Position(
    id: string,
    name: string,
    linear: Option<LinearFn>,
    tiers: Option<seq<Tier>>,
    mother: Option<string>,
    custom: Option<bool>,
    customValue: Option<real>)

  /** The derived rule: mother count over own count, rounded; exactly 1 when
      nobody invested, and 1 again when the quotient is 0 (`or 1`). */
  function DerivedCoefficient(motherCount: nat, ownCount: nat): (c: real)
    ensures ownCount == 0 ==> c == 1.0
    ensures ownCount > 0 && motherCount == 0 ==> c == 1.0
    ensures ownCount > 0 && motherCount > 0 ==>
      c == Round2(motherCount as real / ownCount as real)
  {
    if ownCount == 0 then 1.0
    else
      var q := motherCount as real / ownCount as real;
      Round2(if q == 0.0 then 1.0 else q)
  }

  /** `get_coefficient`: linear, then the tier scan (falling through on a
      miss), then derived, then custom; `None` when nothing applies. */
  function GetCoefficient(p: Position, teams: seq<Team>): (r: Option<real>)
    ensures r.None? <==>
      && p.linear.None?
      && (p.tiers.None? || forall i :: 0 <= i < |p.tiers.value| ==> !TierMatches(p.tiers.value[i], InvestorCount(p.id, teams)))
      && p.mother.None?
      && (p.custom.None? || p.customValue.None?)
  {
    var n := InvestorCount(p.id, teams);
    if p.linear.Some? then Some(Round2(ApplyLinear(p.linear.value, n)))
    else if p.tiers.Some? && FirstMatch(p.tiers.value, n).Some? then FirstMatch(p.tiers.value, n)
    else if p.mother.Some? then Some(DerivedCoefficient(InvestorCount(p.mother.value, teams), n))
    else if p.custom.Some? then p.customValue
    else None
  }

  /** The payout rule as a sum type: what a position means when exactly one of
      its rule fields is set. */
  datatype Rule =
    | Linear(f: LinearFn)
    | Tiered(tiers: seq<Tier>)
    | Derived(mother: string)
    | Custom(value: Option<real>)
    | NoRule

  /** Exactly one rule field is set. */
  predicate SingleRule(p: Position) {
    (if p.linear.Some? then 1 else 0) + (if p.tiers.Some? then 1 else 0)
      + (if p.mother.Some? then 1 else 0) + (if p.custom.Some? then 1 else 0) == 1
  }

  /** The rule a position declares, by precedence. */
  function RuleOf(p: Position): (rule: Rule)
    ensures rule.NoRule? <==> p.linear.None? && p.tiers.None? && p.mother.None? && p.custom.None?
  {
    if p.linear.Some? then Linear(p.linear.value)
    else if p.tiers.Some? then Tiered(p.tiers.value)
    else if p.mother.Some? then Derived(p.mother.value)
    else if p.custom.Some? then Custom(p.customValue)
    else NoRule
  }

  /** One evaluation per rule: a tier miss is "no coefficient". */
  function Evaluate(rule: Rule, id: string, teams: seq<Team>): (r: Option<real>)
    ensures rule.Linear? || rule.Derived? ==> r.Some?
    ensures rule.NoRule? ==> r.None?
    ensures rule.Custom? ==> r == rule.value
    ensures rule.Tiered? ==> (r.Some? <==> exists i :: 0 <= i < |rule.tiers| && TierMatches(rule.tiers[i], InvestorCount(id, teams)))
  {
    var n := InvestorCount(id, teams);
    match rule
    case Linear(f) => Some(Round2(ApplyLinear(f, n)))
    case Tiered(tiers) => FirstMatch(tiers, n)
    case Derived(mother) => Some(DerivedCoefficient(InvestorCount(mother, teams), n))
    case Custom(v) => v
    case NoRule => None
  }

  /** For a position with a single rule, the precedence chain and the sum-type
      evaluation agree. */
  lemma SingleRuleAgrees(p: Position, teams: seq<Team>)
    requires SingleRule(p)
    ensures GetCoefficient(p, teams) == Evaluate(RuleOf(p), p.id, teams)
  {
  }

  /** A linear position never consults the other rule fields or the custom value. */
  lemma LinearIgnoresOtherFields(p: Position, teams: seq<Team>, tiers: Option<seq<Tier>>,
                                 mother: Option<string>, custom: Option<bool>, value: Option<real>)
    requires p.linear.Some?
    ensures GetCoefficient(p, teams) == Some(Round2(ApplyLinear(p.linear.value, InvestorCount(p.id, teams))))
    ensures GetCoefficient(p.(tiers := tiers, mother := mother, custom := custom, customValue := value), teams)
         == GetCoefficient(p, teams)
  {
  }

  /** A tier miss falls through to the later rules: with no linear rule and no
      matching tier, the result is what the position would give without tiers. */
  lemma TierMissFallsThrough(p: Position, teams: seq<Team>)
    requires p.linear.None? && p.tiers.Some?
    requires forall i :: 0 <= i < |p.tiers.value| ==> !TierMatches(p.tiers.value[i], InvestorCount(p.id, teams))
    ensures GetCoefficient(p, teams) == GetCoefficient(p.(tiers := None), teams)
  {
  }

  /** A tiered position returns the unrounded coefficient of the first tier
      containing the count. */
  lemma TieredFirstMatchWins(p: Position, teams: seq<Team>, k: int)
    requires p.linear.None? && p.tiers.Some?
    requires 0 <= k < |p.tiers.value| && TierMatches(p.tiers.value[k], InvestorCount(p.id, teams))
    requires forall j :: 0 <= j < k ==> !TierMatches(p.tiers.value[j], InvestorCount(p.id, teams))
    ensures GetCoefficient(p, teams) == Some(p.tiers.value[k].coefficient)
  {
    var n := InvestorCount(p.id, teams);
    var r := FirstMatch(p.tiers.value, n);
    var i :| 0 <= i < |p.tiers.value| && TierMatches(p.tiers.value[i], n)
      && r.value == p.tiers.value[i].coefficient
      && forall j :: 0 <= j < i ==> !TierMatches(p.tiers.value[j], n);
    assert !(i < k) && !(k < i);
  }

  /** A derived position nobody invested in pays exactly 1, whatever its mother's count. */
  lemma DerivedUninvestedIsOne(p: Position, teams: seq<Team>)
    requires p.linear.None? && p.tiers.None? && p.mother.Some?
    requires InvestorCount(p.id, teams) == 0
    ensures GetCoefficient(p, teams) == Some(1.0)
  {
  }

  /** When no linear rule applies and no range matches, a position with a
      mother pays the derived coefficient; with an uninvested mother the
      `or 1` makes that 1, never 0. */
  lemma DerivedPays(p: Position, teams: seq<Team>)
    requires p.linear.None? && p.mother.Some?
    requires p.tiers.None? || FirstMatch(p.tiers.value, InvestorCount(p.id, teams)).None?
    ensures GetCoefficient(p, teams)
         == Some(DerivedCoefficient(InvestorCount(p.mother.value, teams), InvestorCount(p.id, teams)))
    ensures InvestorCount(p.mother.value, teams) == 0 ==> GetCoefficient(p, teams) == Some(1.0)
  {
  }

  /** A derived position never pays 0 while its own count stays below 200
      (at most 100 teams): the quotient is then above half a hundredth. */
  lemma DerivedNeverZero(p: Position, teams: seq<Team>)
    requires p.linear.None? && p.tiers.None? && p.mother.Some?
    requires InvestorCount(p.id, teams) < 200
    ensures GetCoefficient(p, teams).Some? && GetCoefficient(p, teams).value >= 0.01
  {
    var own := InvestorCount(p.id, teams);
    var m := InvestorCount(p.mother.value, teams);
    if own > 0 && m > 0 {
      QuotientAboveHalfHundredth(m, own);
      Round2Positive(m as real / own as real);
    } else {
      Round2Constants();
    }
  }

  lemma QuotientAboveHalfHundredth(m: nat, own: nat)
    requires m >= 1 && 0 < own < 200
    ensures m as real / own as real > 0.005
  {
    var q := m as real / own as real;
    assert q * own as real == m as real;
  }

  /** A custom position returns the stored custom value, `None` until one is set. */
  lemma CustomReturnsStoredValue(p: Position, teams: seq<Team>)
    requires p.linear.None? && p.tiers.None? && p.mother.None? && p.custom.Some?
    ensures GetCoefficient(p, teams) == p.customValue
  {
  }

  /** `get_pos_by_id`: the first position with the given id. The original
      raises when there is none; that is `None` here. */
  function FindPosition(positions: seq<Position>, id: string): (r: Option<Position>)
    ensures r.Some? <==> exists k :: 0 <= k < |positions| && positions[k].id == id
    ensures r.Some? ==> exists k :: (0 <= k < |positions| && positions[k] == r.value && r.value.id == id
      && forall j :: 0 <= j < k ==> positions[j].id != id)
  {
    if positions == [] then None
    else if positions[0].id == id then Some(positions[0])
    else
      assert forall k :: 1 <= k < |positions| ==> positions[k] == positions[1..][k - 1];
      FindPosition(positions[1..], id)
  }

  /** No two positions share an id. */
  predicate UniqueIds(positions: seq<Position>) {
    forall i, j :: 0 <= i < j < |positions| ==> positions[i].id != positions[j].id
  }

  /** With unique ids the lookup finds each position by its own id. */
  lemma FindPositionAt(positions: seq<Position>, k: int)
    requires UniqueIds(positions) && 0 <= k < |positions|
    ensures FindPosition(positions, positions[k].id) == Some(positions[k])
  {
    var r := FindPosition(positions, positions[k].id);
    var i :| 0 <= i < |positions| && positions[i] == r.value && r.value.id == positions[k].id
      && forall j :: 0 <= j < i ==> positions[j].id != positions[k].id;
    assert !(k < i) && !(i < k);
  }
}
