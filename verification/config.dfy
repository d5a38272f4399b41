/**
 * The static catalog: the eight positions with their payout rules, the round
 * schedule, the quiz's accepted answers and the quiz bonus table.
 */
module Config {
  import opened Wrappers
  import opened Models
  import opened Rounding

  const Tbank := Position("tbank", "Т-Банк", Some(Constant(1.1)), None, None, None, None)
  const Sibur := Position("sibur", "Сибур", Some(Shared(25.0)), None, None, None, None)
  const Vk := Position("vk", "VK", Some(Shared(15.0)), None, None, None, None)

  const CryptoTiers: seq<Tier> :=
    [Tier(1, Some(2), 1.5), Tier(3, Some(4), 2.0), Tier(5, Some(6), 3.0), Tier(7, Some(8), 6.0), Tier(9, None, 0.3)]
  const Crypto := Position("crypto", "Крипта", None, Some(CryptoTiers), None, None, None)

  const KinopoiskTiers: seq<Tier> :=
    [Tier(1, Some(2), 4.0), Tier(3, Some(4), 3.0), Tier(5, Some(6), 2.0), Tier(7, Some(8), 1.5), Tier(9, None, 0.8)]
  const Kinopoisk := Position("kinopoisk", "Кинопоиск", None, Some(KinopoiskTiers), None, None, None)

  /** Declared out of numeric order: (4, 7) comes before (1, 3). */
  const DjaraTiers: seq<Tier> := [Tier(4, Some(7), 10.0), Tier(1, Some(3), 0.8), Tier(8, None, 0.8)]
  const Djara := Position("djara", "Djara", None, Some(DjaraTiers), None, None, None)

  const VkPlay := Position("vkplay", "VK.Play", None, None, Some(Vk.id), None, None)
  const Nft := Position("nft", "NFT", None, None, None, Some(true), None)

  /** `ALL_POSITIONS`, in declaration order. */
  const AllPositions: seq<Position> := [Tbank, Sibur, Vk, Crypto, Kinopoisk, Djara, VkPlay, Nft]

  /** `ROUNDS`: the ids of the positions open in rounds 1 to 6. */
  const Rounds: seq<seq<string>> := [
    [Tbank.id, Sibur.id, Vk.id, Crypto.id],
    [Tbank.id, Sibur.id, Vk.id, Kinopoisk.id, Crypto.id],
    [Tbank.id, Sibur.id, Vk.id, Kinopoisk.id, Crypto.id, Djara.id],
    [Tbank.id, Sibur.id, Vk.id, Crypto.id, Djara.id, VkPlay.id],
    [Tbank.id, Sibur.id, Vk.id, Nft.id, Djara.id, VkPlay.id],
    [Tbank.id, Sibur.id, Vk.id, Nft.id, Djara.id, VkPlay.id]
  ]

  /** The accepted answers of `QUIZ_QUESTIONS`, question by question. */
  const QuizAnswers: seq<seq<string>> := [["nvidia", "нвидиа", "нвидия"], ["дивиденды"]]

  /** `QUIZ_BONUS_COEFFICIENTS`, indexed by the number of correct answers minus one. */
  const QuizBonus: seq<real> := [1.1, 1.21]

  // ---------------------------------------------------------------------------
  // Facts the engine relies on
  // ---------------------------------------------------------------------------

  /** Some tier of the table contains `n`. */
  predicate Covered(tiers: seq<Tier>, n: int) {
    exists i :: 0 <= i < |tiers| && TierMatches(tiers[i], n)
  }

  /** The crypto table, read as ascending ranges. */
  function CryptoPayout(n: int): Option<real> {
    if n < 1 then None
    else if n <= 2 then Some(1.5)
    else if n <= 4 then Some(2.0)
    else if n <= 6 then Some(3.0)
    else if n <= 8 then Some(6.0)
    else Some(0.3)
  }

  /** The kinopoisk table, read as ascending ranges. */
  function KinopoiskPayout(n: int): Option<real> {
    if n < 1 then None
    else if n <= 2 then Some(4.0)
    else if n <= 4 then Some(3.0)
    else if n <= 6 then Some(2.0)
    else if n <= 8 then Some(1.5)
    else Some(0.8)
  }

  /** The djara table, read as ascending ranges. */
  function DjaraPayout(n: int): Option<real> {
    if n < 1 then None
    else if n <= 3 then Some(0.8)
    else if n <= 7 then Some(10.0)
    else Some(0.8)
  }

  lemma FiveTiersDisjoint(t: seq<Tier>)
    requires |t| == 5 && t[4].high == None
    requires forall k :: 0 <= k < 4 ==> t[k].high == Some(2 * k + 2) && t[k].low == 2 * k + 1
    requires t[4].low == 9
    ensures Disjoint(t)
  {
    forall i, j | 0 <= i < j < 5
      ensures Apart(t[i], t[j])
    {
      assert t[i].high == Some(2 * i + 2);
    }
  }

  /** The crypto and kinopoisk tables do not overlap, cover every count from 1
      up with (9, None) as the catch-all, and give count 0 nothing. */
  lemma CryptoKinopoiskTiersPartition(n: int)
    ensures Disjoint(CryptoTiers) && Disjoint(KinopoiskTiers)
    ensures n >= 1 ==> Covered(CryptoTiers, n) && Covered(KinopoiskTiers, n)
    ensures !Covered(CryptoTiers, 0) && !Covered(KinopoiskTiers, 0)
    ensures FirstMatch(CryptoTiers, n) == CryptoPayout(n)
    ensures FirstMatch(KinopoiskTiers, n) == KinopoiskPayout(n)
  {
    FiveTiersDisjoint(CryptoTiers);
    FiveTiersDisjoint(KinopoiskTiers);
    var k := if n <= 2 then 0 else if n <= 4 then 1 else if n <= 6 then 2 else if n <= 8 then 3 else 4;
    if n >= 1 {
      assert TierMatches(CryptoTiers[k], n) && TierMatches(KinopoiskTiers[k], n);
      FirstMatchIsUnique(CryptoTiers, n, k);
      FirstMatchIsUnique(KinopoiskTiers, n, k);
    }
  }

  /** The djara table, though declared out of order, does not overlap and
      covers every count from 1 up, so its first match is its only match. */
  lemma DjaraTiersPartition(n: int)
    ensures Disjoint(DjaraTiers)
    ensures n >= 1 ==> Covered(DjaraTiers, n)
    ensures !Covered(DjaraTiers, 0)
    ensures FirstMatch(DjaraTiers, n) == DjaraPayout(n)
  {
    var t := DjaraTiers;
    assert Apart(t[0], t[1]) && Apart(t[0], t[2]) && Apart(t[1], t[2]);
    if n >= 1 {
      var k := if n <= 3 then 1 else if n <= 7 then 0 else 2;
      assert TierMatches(t[k], n);
      FirstMatchIsUnique(t, n, k);
    }
  }

  /** tbank pays 1.1 whatever the number of investors. */
  lemma TbankAlwaysPays(teams: seq<Team>)
    ensures GetCoefficient(Tbank, teams) == Some(1.1)
  {
    Round2Constants();
  }

  /** sibur and vk use `n or 1`, so each is defined, and pays its whole
      pool, when nobody invested in it. */
  lemma SharedPoolsDefinedAtZero(teams: seq<Team>)
    ensures InvestorCount(Sibur.id, teams) == 0 ==> GetCoefficient(Sibur, teams) == Some(25.0)
    ensures InvestorCount(Vk.id, teams) == 0 ==> GetCoefficient(Vk, teams) == Some(15.0)
  {
    Round2Constants();
  }

  /** Every catalog position has exactly one rule and starts with no custom value. */
  lemma CatalogWellFormed()
    ensures forall k :: 0 <= k < |AllPositions| ==> SingleRule(AllPositions[k]) && AllPositions[k].customValue == None
    ensures UniqueIds(AllPositions)
  {
  }

  /** nft is the only custom position, and it is open in rounds 5 and 6 only. */
  lemma NftOnlyCustom()
    ensures forall k :: 0 <= k < |AllPositions| && AllPositions[k].custom.Some? ==> AllPositions[k] == Nft
    ensures forall r :: 0 <= r < |Rounds| ==> (Nft.id in Rounds[r] <==> r == 4 || r == 5)
  {
  }

  /** vkplay derives from vk, and every round that opens vkplay opens vk. */
  lemma MotherScheduledWithChild()
    ensures VkPlay.mother == Some(Vk.id)
    ensures forall r :: 0 <= r < |Rounds| && VkPlay.id in Rounds[r] ==> Vk.id in Rounds[r]
  {
  }

  /** Every scheduled id names a catalog position, so the lookup never fails. */
  lemma ScheduleResolves(r: int, id: string)
    requires 0 <= r < |Rounds| && id in Rounds[r]
    ensures FindPosition(AllPositions, id).Some?
    ensures exists k :: 0 <= k < |AllPositions| && AllPositions[k].id == id
  {
    assert id in [Tbank.id, Sibur.id, Vk.id, Crypto.id, Kinopoisk.id, Djara.id, VkPlay.id, Nft.id];
    var k := if id == Tbank.id then 0 else if id == Sibur.id then 1 else if id == Vk.id then 2
      else if id == Crypto.id then 3 else if id == Kinopoisk.id then 4 else if id == Djara.id then 5
      else if id == VkPlay.id then 6 else 7;
    assert AllPositions[k].id == id;
  }

  /** One bonus per possible number of correct answers. */
  lemma BonusTableMatchesQuiz()
    ensures |QuizBonus| == |QuizAnswers|
  {
  }

  /** A catalog position (its custom value aside) that somebody chose always
      yields a coefficient, provided a custom one has its value. */
  lemma ChosenCatalogPositionPays(p: Position, k: int, teams: seq<Team>)
    requires 0 <= k < |AllPositions| && p.(customValue := None) == AllPositions[k]
    requires InvestorCount(p.id, teams) >= 1
    requires p.custom.Some? ==> p.customValue.Some?
    ensures GetCoefficient(p, teams).Some?
  {
    var n := InvestorCount(p.id, teams);
    var q := AllPositions[k];
    assert p.linear == q.linear && p.tiers == q.tiers && p.mother == q.mother && p.custom == q.custom;
    if k == 3 || k == 4 {
      CryptoKinopoiskTiersPartition(n);
      assert Covered(p.tiers.value, n);
    } else if k == 5 {
      DjaraTiersPartition(n);
      assert Covered(p.tiers.value, n);
    } else {
      assert p.linear.Some? || p.mother.Some? || p.custom.Some?;
    }
  }
}
