/**
 * The hand evaluator: the eight pattern tests, the first-match-wins
 * priority chain of evaluate_hand, and its result record.
 */
module Scoring {

  import opened Tiles
  import opened Melds

  /** The patterns evaluate_hand can report, highest priority first, then the two fallbacks. */
  datatype Pattern =
    | ThirteenOrphans | Chinitsu | Honitsu | SevenPairs | Toitoi
    | Straight | Tanyao | Pinfu | StandardWin | NoWin | NoHand

  /** The pattern name the game displays. */
  function Name(p: Pattern): string {
    match p
    case ThirteenOrphans => "国士无双"
    case Chinitsu => "清一色"
    case Honitsu => "混一色"
    case SevenPairs => "七对子"
    case Toitoi => "对对和"
    case Straight => "一气通贯"
    case Tanyao => "断幺九"
    case Pinfu => "平和"
    case StandardWin => "和了"
    case NoWin => "未和牌"
    case NoHand => "无牌型"
  }

  /** Distinct patterns have distinct names. */
  lemma NameInjective(p: Pattern, q: Pattern)
    ensures Name(p) == Name(q) ==> p == q
  {
  }

  /** The multiplier each winning pattern carries; the fallbacks carry 1. */
  function Multiplier(p: Pattern): nat {
    match p
    case ThirteenOrphans => 13
    case Chinitsu => 8
    case Honitsu => 5
    case SevenPairs => 4
    case Toitoi => 4
    case Straight => 3
    case Tanyao => 2
    case _ => 1
  }

  /** Base score of every winning pattern. */
  const WinBase: nat := 10

  datatype HandResult = HandResult(pattern: Pattern, base: nat, multiplier: nat)

  /** HandResult::total. */
  function Total(r: HandResult): nat {
    r.base * r.multiplier
  }

  predicate IsWin(p: Pattern) {
    p != NoWin && p != NoHand
  }

  function Win(p: Pattern): HandResult {
    HandResult(p, WinBase, Multiplier(p))
  }

  // ---------------------------------------------------------------------
  // Tests on the count array

  /** Number of slots that hold at least a pair. */
  function PairSlots(c: seq<nat>): nat {
    |set i | 0 <= i < |c| && c[i] >= 2|
  }

  /** check_seven_pairs: seven slots with a pair, fourteen tiles. */
  predicate IsSevenPairs(c: seq<nat>) {
    PairSlots(c) == 7 && Sum(c) == 14
  }

  /** The thirteen slots of 1 and 9 of each numbered suit, the winds and the dragons. */
  predicate IsOrphanSlot(i: nat) {
    i == 0 || i == 8 || i == 9 || i == 17 || i == 18 || i == 26 || 27 <= i <= 33
  }

  /** The orphan slots hold exactly the terminal and honor identities. */
  lemma OrphanSlotTiles(t: TileId)
    requires Valid(t)
    ensures IsOrphanSlot(ToIndex(t)) <==> IsTerminal(t) || IsHonor(t)
  {
  }

  /** Number of orphan slots that hold at least a pair. */
  function OrphanPairs(c: seq<nat>): nat {
    |set i | 0 <= i < |c| && IsOrphanSlot(i) && c[i] >= 2|
  }

  /** Tiles in non-orphan slots from i on. */
  function NonOrphanSum(c: seq<nat>, i: nat): nat
    requires i <= |c|
    decreases |c| - i
  {
    if i == |c| then 0 else (if IsOrphanSlot(i) then 0 else c[i]) + NonOrphanSum(c, i + 1)
  }

  /** No tile lies outside the orphan slots exactly when the non-orphan sum is zero. */
  lemma {:induction false} NonOrphanSumZero(c: seq<nat>, i: nat)
    requires i <= |c|
    ensures NonOrphanSum(c, i) == 0 <==> forall j | i <= j < |c| && !IsOrphanSlot(j) :: c[j] == 0
    decreases |c| - i
  {
    if i < |c| {
      NonOrphanSumZero(c, i + 1);
    }
  }

  /** check_thirteen_orphans. */
  predicate IsThirteenOrphans(c: seq<nat>)
    requires |c| == IndexCount
  {
    && Sum(c) == 14
    && (forall i | 0 <= i < IndexCount && IsOrphanSlot(i) :: c[i] >= 1)
    && OrphanPairs(c) == 1
    && NonOrphanSum(c, 0) == 0
  }

  /** check_pinfu: a standard hand in which no slot holds three or more. */
  predicate IsPinfu(c: seq<nat>)
    requires |c| == IndexCount
  {
    IsStandard(c) && forall i | 0 <= i < IndexCount :: c[i] < 3
  }

  /** Slots s..s+8, one whole numbered suit, each hold a tile. */
  predicate StraightAt(c: seq<nat>, s: nat)
    requires s + 9 <= |c|
  {
    forall j | s <= j < s + 9 :: c[j] >= 1
  }

  /** check_straight: some numbered suit has every value 1-9. */
  predicate IsStraight(c: seq<nat>)
    requires |c| == IndexCount
  {
    StraightAt(c, 0) || StraightAt(c, 9) || StraightAt(c, 18)
  }

  predicate AllTripletsOrEmpty(c: seq<nat>) {
    forall i | 0 <= i < |c| :: c[i] == 0 || c[i] == 3
  }

  /** A pair at slot p leaves only empty slots and triplets. */
  predicate PairThenTriplets(c: seq<nat>, p: nat)
    requires |c| == IndexCount && p < IndexCount
  {
    c[p] >= 2 && AllTripletsOrEmpty(c[p := c[p] - 2])
  }

  /** check_toitoi: a standard hand that is one pair and triplets only. */
  predicate IsToitoi(c: seq<nat>)
    requires |c| == IndexCount
  {
    IsStandard(c) && exists p | 0 <= p < IndexCount :: PairThenTriplets(c, p)
  }

  // ---------------------------------------------------------------------
  // Tests on the tile list

  /** check_tanyao: every tile is a simple. */
  predicate IsTanyao(tiles: seq<TileId>) {
    forall k | 0 <= k < |tiles| :: IsSimple(tiles[k])
  }

  predicate HasHonor(tiles: seq<TileId>) {
    exists k | 0 <= k < |tiles| :: IsHonor(tiles[k])
  }

  /** The suits of the non-honor tiles, in order. */
  function NumberedSuits(tiles: seq<TileId>): seq<Suit> {
    if tiles == [] then []
    else (if IsHonor(tiles[0]) then [] else [tiles[0].suit]) + NumberedSuits(tiles[1..])
  }

  /** check_honitsu: some honor, some numbered tile, and one numbered suit only. */
  predicate IsHonitsu(tiles: seq<TileId>) {
    var suits := NumberedSuits(tiles);
    HasHonor(tiles) && |suits| > 0 && forall k | 0 <= k < |suits| :: suits[k] == suits[0]
  }

  /** check_chinitsu: nonempty, and every tile has the first tile's suit, a numbered one. */
  predicate IsChinitsu(tiles: seq<TileId>) {
    && tiles != []
    && IsNumbered(tiles[0].suit)
    && forall k | 0 <= k < |tiles| :: tiles[k].suit == tiles[0].suit
  }

  // ---------------------------------------------------------------------
  // The tile-list tests read off the count array

  /** A slot holds a tile exactly when some tile of the hand has that index. */
  lemma SlotOccupied(tiles: seq<TileId>, i: nat)
    requires AllValid(tiles) && i < IndexCount
    ensures Counts(tiles)[i] > 0 <==> exists k | 0 <= k < |tiles| :: ToIndex(tiles[k]) == i
  {
    var t := FromIndex(i);
    if Counts(tiles)[i] > 0 {
      assert t in multiset(tiles);
      var k :| 0 <= k < |tiles| && tiles[k] == t;
      assert ToIndex(tiles[k]) == i;
    }
    if k :| 0 <= k < |tiles| && ToIndex(tiles[k]) == i {
      FromIndexToIndex(tiles[k]);
      assert tiles[k] in multiset(tiles);
    }
  }

  /** The simple identities sit at positions 1-7 of the three numbered bands. */
  predicate IsSimpleSlot(i: nat) {
    1 <= i <= 7 || 10 <= i <= 16 || 19 <= i <= 25
  }

  /** Some slot in [lo, hi) holds a tile. */
  predicate AnyIn(c: seq<nat>, lo: nat, hi: nat)
    requires hi <= |c|
  {
    exists i | lo <= i < hi :: c[i] > 0
  }

  /** Every slot below hi outside the band [lo, lo + 9) is empty. */
  predicate NoneOutside(c: seq<nat>, lo: nat, hi: nat)
    requires hi <= |c|
  {
    forall i | 0 <= i < hi && !(lo <= i < lo + 9) :: c[i] == 0
  }

  /** check_tanyao on the counts: only simple slots are occupied. */
  predicate TanyaoCounts(c: seq<nat>)
    requires |c| == IndexCount
  {
    forall i | 0 <= i < IndexCount && c[i] > 0 :: IsSimpleSlot(i)
  }

  /** All tiles lie in the numbered band starting at lo, and it is not empty. */
  predicate ChinitsuBand(c: seq<nat>, lo: nat)
    requires |c| == IndexCount && lo + 9 <= IndexCount
  {
    AnyIn(c, lo, lo + 9) && NoneOutside(c, lo, IndexCount)
  }

  /** check_chinitsu on the counts. */
  predicate ChinitsuCounts(c: seq<nat>)
    requires |c| == IndexCount
  {
    ChinitsuBand(c, 0) || ChinitsuBand(c, 9) || ChinitsuBand(c, 18)
  }

  /** The numbered tiles all lie in the band starting at lo, and it is not empty. */
  predicate HonitsuBand(c: seq<nat>, lo: nat)
    requires |c| == IndexCount && lo + 9 <= 27
  {
    AnyIn(c, lo, lo + 9) && NoneOutside(c, lo, 27)
  }

  /** check_honitsu on the counts. */
  predicate HonitsuCounts(c: seq<nat>)
    requires |c| == IndexCount
  {
    AnyIn(c, 27, IndexCount) && (HonitsuBand(c, 0) || HonitsuBand(c, 9) || HonitsuBand(c, 18))
  }

  /** The first slot of the band of a numbered identity. */
  function BandStart(t: TileId): nat {
    9 * SuitRank(t.suit)
  }

  /** A numbered identity lies in its band, an honor in slots 27-33. */
  lemma SlotBand(t: TileId)
    requires Valid(t)
    ensures IsHonor(t) <==> ToIndex(t) >= 27
    ensures !IsHonor(t) ==> BandStart(t) <= ToIndex(t) < BandStart(t) + 9 && BandStart(t) + 9 <= 27
    ensures IsSimple(t) <==> IsSimpleSlot(ToIndex(t))
  {
  }

  lemma TanyaoByCounts(tiles: seq<TileId>)
    requires AllValid(tiles)
    ensures IsTanyao(tiles) <==> TanyaoCounts(Counts(tiles))
  {
    var c := Counts(tiles);
    forall i | 0 <= i < IndexCount {
      SlotOccupied(tiles, i);
    }
    forall k | 0 <= k < |tiles| {
      SlotBand(tiles[k]);
    }
    if TanyaoCounts(c) {
      forall k | 0 <= k < |tiles| ensures IsSimple(tiles[k]) {
        assert c[ToIndex(tiles[k])] > 0;
      }
    }
  }

  lemma HasHonorByCounts(tiles: seq<TileId>)
    requires AllValid(tiles)
    ensures HasHonor(tiles) <==> AnyIn(Counts(tiles), 27, IndexCount)
  {
    var c := Counts(tiles);
    forall i | 0 <= i < IndexCount {
      SlotOccupied(tiles, i);
    }
    forall k | 0 <= k < |tiles| {
      SlotBand(tiles[k]);
    }
    if HasHonor(tiles) {
      var k :| 0 <= k < |tiles| && IsHonor(tiles[k]);
      assert c[ToIndex(tiles[k])] > 0;
    }
  }

  lemma ChinitsuToCounts(tiles: seq<TileId>)
    requires AllValid(tiles) && IsChinitsu(tiles)
    ensures ChinitsuCounts(Counts(tiles))
  {
    var c := Counts(tiles);
    var lo := BandStart(tiles[0]);
    SlotBand(tiles[0]);
    SlotOccupied(tiles, ToIndex(tiles[0]));
    forall i | 0 <= i < IndexCount && !(lo <= i < lo + 9) ensures c[i] == 0 {
      if c[i] > 0 {
        SlotOccupied(tiles, i);
        var k :| 0 <= k < |tiles| && ToIndex(tiles[k]) == i;
        SlotBand(tiles[k]);
      }
    }
    assert ChinitsuBand(c, lo);
  }

  lemma ChinitsuFromCounts(tiles: seq<TileId>)
    requires AllValid(tiles) && ChinitsuCounts(Counts(tiles))
    ensures IsChinitsu(tiles)
  {
    var c := Counts(tiles);
    var lo := if ChinitsuBand(c, 0) then 0 else if ChinitsuBand(c, 9) then 9 else 18;
    assert ChinitsuBand(c, lo);
    var i :| lo <= i < lo + 9 && c[i] > 0;
    SlotOccupied(tiles, i);
    assert tiles != [];
    forall k | 0 <= k < |tiles| ensures !IsHonor(tiles[k]) && BandStart(tiles[k]) == lo {
      SlotBand(tiles[k]);
      SlotOccupied(tiles, ToIndex(tiles[k]));
    }
  }

  lemma ChinitsuByCounts(tiles: seq<TileId>)
    requires AllValid(tiles)
    ensures IsChinitsu(tiles) <==> ChinitsuCounts(Counts(tiles))
  {
    if IsChinitsu(tiles) {
      ChinitsuToCounts(tiles);
    }
    if ChinitsuCounts(Counts(tiles)) {
      ChinitsuFromCounts(tiles);
    }
  }

  /** The suits in NumberedSuits are exactly those of the non-honor tiles. */
  lemma {:induction false} NumberedSuitsMembers(tiles: seq<TileId>)
    ensures forall s :: s in NumberedSuits(tiles) <==> exists k | 0 <= k < |tiles| :: !IsHonor(tiles[k]) && tiles[k].suit == s
  {
    if tiles != [] {
      NumberedSuitsMembers(tiles[1..]);
      forall s ensures s in NumberedSuits(tiles) <==> exists k | 0 <= k < |tiles| :: !IsHonor(tiles[k]) && tiles[k].suit == s {
        if k :| 0 <= k < |tiles| && !IsHonor(tiles[k]) && tiles[k].suit == s {
          if k > 0 {
            assert tiles[1..][k - 1] == tiles[k];
          }
        }
        if s in NumberedSuits(tiles[1..]) {
          var k :| 0 <= k < |tiles[1..]| && !IsHonor(tiles[1..][k]) && tiles[1..][k].suit == s;
          assert tiles[k + 1] == tiles[1..][k];
        }
      }
    }
  }

  lemma HonitsuToCounts(tiles: seq<TileId>)
    requires AllValid(tiles) && IsHonitsu(tiles)
    ensures HonitsuCounts(Counts(tiles))
  {
    var c := Counts(tiles);
    var suits := NumberedSuits(tiles);
    HasHonorByCounts(tiles);
    NumberedSuitsMembers(tiles);
    assert suits[0] in suits;
    var j :| 0 <= j < |tiles| && !IsHonor(tiles[j]) && tiles[j].suit == suits[0];
    var lo := BandStart(tiles[j]);
    SlotBand(tiles[j]);
    SlotOccupied(tiles, ToIndex(tiles[j]));
    assert c[ToIndex(tiles[j])] > 0;
    forall k | 0 <= k < |tiles| && !IsHonor(tiles[k]) ensures tiles[k].suit == suits[0] {
      assert tiles[k].suit in suits;
      var m :| 0 <= m < |suits| && suits[m] == tiles[k].suit;
    }
    forall i | 0 <= i < 27 && !(lo <= i < lo + 9) ensures c[i] == 0 {
      SlotOccupied(tiles, i);
      forall k | 0 <= k < |tiles| ensures ToIndex(tiles[k]) != i {
        SlotBand(tiles[k]);
      }
    }
    assert HonitsuBand(c, lo);
  }

  /** When only one band of numbered slots is occupied, every numbered tile lies in it. */
  lemma InBand(tiles: seq<TileId>, lo: nat, a: nat)
    requires AllValid(tiles) && lo % 9 == 0 && lo + 9 <= 27 && NoneOutside(Counts(tiles), lo, 27)
    requires a < |tiles| && !IsHonor(tiles[a])
    ensures BandStart(tiles[a]) == lo
  {
    SlotBand(tiles[a]);
    SlotOccupied(tiles, ToIndex(tiles[a]));
    assert Counts(tiles)[ToIndex(tiles[a])] > 0;
  }

  /** An occupied numbered slot means some tile is numbered. */
  lemma SomeNumbered(tiles: seq<TileId>, lo: nat)
    requires AllValid(tiles) && lo + 9 <= 27 && AnyIn(Counts(tiles), lo, lo + 9)
    ensures |NumberedSuits(tiles)| > 0
  {
    var i :| lo <= i < lo + 9 && Counts(tiles)[i] > 0;
    SlotOccupied(tiles, i);
    var j :| 0 <= j < |tiles| && ToIndex(tiles[j]) == i;
    SlotBand(tiles[j]);
    NumberedSuitsMembers(tiles);
    assert tiles[j].suit in NumberedSuits(tiles);
  }

  lemma HonitsuFromCounts(tiles: seq<TileId>)
    requires AllValid(tiles) && HonitsuCounts(Counts(tiles))
    ensures IsHonitsu(tiles)
  {
    var c := Counts(tiles);
    var suits := NumberedSuits(tiles);
    HasHonorByCounts(tiles);
    NumberedSuitsMembers(tiles);
    var lo := if HonitsuBand(c, 0) then 0 else if HonitsuBand(c, 9) then 9 else 18;
    assert HonitsuBand(c, lo);
    SomeNumbered(tiles, lo);
    forall m | 0 <= m < |suits| ensures suits[m] == suits[0] {
      assert suits[m] in suits && suits[0] in suits;
      var a :| 0 <= a < |tiles| && !IsHonor(tiles[a]) && tiles[a].suit == suits[m];
      var b :| 0 <= b < |tiles| && !IsHonor(tiles[b]) && tiles[b].suit == suits[0];
      InBand(tiles, lo, a);
      InBand(tiles, lo, b);
    }
  }

  lemma HonitsuByCounts(tiles: seq<TileId>)
    requires AllValid(tiles)
    ensures IsHonitsu(tiles) <==> HonitsuCounts(Counts(tiles))
  {
    if IsHonitsu(tiles) {
      HonitsuToCounts(tiles);
    }
    if HonitsuCounts(Counts(tiles)) {
      HonitsuFromCounts(tiles);
    }
  }

  // ---------------------------------------------------------------------
  // evaluate_hand

  /**
   * The priority chain of evaluate_hand over a nonempty hand of `size`
   * tiles with counts c, given the outcome of each test: the first pattern
   * that matches wins.
   */
  function Rank(c: seq<nat>, size: nat, standard: bool, toitoi: bool, pinfu: bool,
                chinitsu: bool, honitsu: bool, tanyao: bool): HandResult
    requires |c| == IndexCount
  {
    if IsThirteenOrphans(c) then Win(ThirteenOrphans)
    else if standard && chinitsu then Win(Chinitsu)
    else if standard && honitsu then Win(Honitsu)
    else if IsSevenPairs(c) then Win(SevenPairs)
    else if toitoi then Win(Toitoi)
    else if standard && IsStraight(c) then Win(Straight)
    else if standard && tanyao then Win(Tanyao)
    else if pinfu then Win(Pinfu)
    else if standard then Win(StandardWin)
    else HandResult(NoWin, size, 1)
  }

  /** What evaluate_hand returns for a hand of valid tiles. */
  function Evaluate(tiles: seq<TileId>): HandResult
    requires AllValid(tiles)
  {
    if tiles == [] then HandResult(NoHand, 0, 1)
    else
      var c := Counts(tiles);
      Rank(c, |tiles|, IsStandard(c), IsToitoi(c), IsPinfu(c),
           IsChinitsu(tiles), IsHonitsu(tiles), IsTanyao(tiles))
  }

  /** The result depends on the counts alone. */
  lemma EvaluateByCounts(tiles: seq<TileId>)
    requires AllValid(tiles) && tiles != []
    ensures var c := Counts(tiles);
      Evaluate(tiles) == Rank(c, |tiles|, IsStandard(c), IsToitoi(c), IsPinfu(c),
                              ChinitsuCounts(c), HonitsuCounts(c), TanyaoCounts(c))
  {
    ChinitsuByCounts(tiles);
    HonitsuByCounts(tiles);
    TanyaoByCounts(tiles);
  }

  /** Reordering a hand does not change its evaluation. */
  lemma EvaluatePermutation(a: seq<TileId>, b: seq<TileId>)
    requires AllValid(a) && AllValid(b) && multiset(a) == multiset(b)
    ensures Evaluate(a) == Evaluate(b)
  {
    assert |a| == |multiset(a)| == |multiset(b)| == |b|;
    if a != [] {
      CountsPermutation(a, b);
      EvaluateByCounts(a);
      EvaluateByCounts(b);
    }
  }

  /** Position of a pattern in the order evaluate_hand tries them. */
  function Priority(p: Pattern): nat {
    match p
    case ThirteenOrphans => 0
    case Chinitsu => 1
    case Honitsu => 2
    case SevenPairs => 3
    case Toitoi => 4
    case Straight => 5
    case Tanyao => 6
    case Pinfu => 7
    case StandardWin => 8
    case NoWin => 9
    case NoHand => 10
  }

  /** The patterns are tried from the highest multiplier down. */
  lemma PriorityOrdersMultiplier(p: Pattern, q: Pattern)
    requires IsWin(p) && IsWin(q) && Priority(p) <= Priority(q)
    ensures Multiplier(q) <= Multiplier(p)
  {
  }

  /** Whether a pattern's own test passes, given the outcomes of the shared tests. */
  predicate Qualifies(p: Pattern, c: seq<nat>, standard: bool, toitoi: bool, pinfu: bool,
                      chinitsu: bool, honitsu: bool, tanyao: bool)
    requires |c| == IndexCount
  {
    match p
    case ThirteenOrphans => IsThirteenOrphans(c)
    case Chinitsu => standard && chinitsu
    case Honitsu => standard && honitsu
    case SevenPairs => IsSevenPairs(c)
    case Toitoi => toitoi
    case Straight => standard && IsStraight(c)
    case Tanyao => standard && tanyao
    case Pinfu => pinfu
    case StandardWin => standard
    case NoWin => false
    case NoHand => false
  }

  /** Whether a hand qualifies for a pattern on its own, regardless of the others. */
  predicate Matches(tiles: seq<TileId>, p: Pattern)
    requires AllValid(tiles)
  {
    var c := Counts(tiles);
    Qualifies(p, c, IsStandard(c), IsToitoi(c), IsPinfu(c), IsChinitsu(tiles), IsHonitsu(tiles), IsTanyao(tiles))
  }

  /** The priority chain reports the first pattern that qualifies, and the consolation result when none does. */
  lemma RankFirstMatch(c: seq<nat>, size: nat, standard: bool, toitoi: bool, pinfu: bool,
                       chinitsu: bool, honitsu: bool, tanyao: bool)
    requires |c| == IndexCount
    requires toitoi ==> standard
    requires pinfu ==> standard
    ensures var r := Rank(c, size, standard, toitoi, pinfu, chinitsu, honitsu, tanyao);
      && (IsWin(r.pattern) ==> Qualifies(r.pattern, c, standard, toitoi, pinfu, chinitsu, honitsu, tanyao))
      && (forall p :: Qualifies(p, c, standard, toitoi, pinfu, chinitsu, honitsu, tanyao) ==>
            IsWin(r.pattern) && Priority(r.pattern) <= Priority(p))
      && (r.pattern == NoWin <==> forall p :: !Qualifies(p, c, standard, toitoi, pinfu, chinitsu, honitsu, tanyao))
      && r.pattern != NoHand
  {
    var r := Rank(c, size, standard, toitoi, pinfu, chinitsu, honitsu, tanyao);
    if r.pattern != NoWin {
      assert Qualifies(r.pattern, c, standard, toitoi, pinfu, chinitsu, honitsu, tanyao);
    }
  }

  /** The priority chain yields a win at base 10, or the consolation result of base size. */
  lemma RankShape(c: seq<nat>, size: nat, standard: bool, toitoi: bool, pinfu: bool,
                  chinitsu: bool, honitsu: bool, tanyao: bool)
    requires |c| == IndexCount
    ensures var r := Rank(c, size, standard, toitoi, pinfu, chinitsu, honitsu, tanyao);
      && r.pattern != NoHand
      && (r.pattern == NoWin ==> r == HandResult(NoWin, size, 1))
      && (IsWin(r.pattern) ==> r == Win(r.pattern))
  {
  }

  /** The three fallbacks: the empty hand, the consolation result, and a win at base 10. */
  lemma EvaluateShape(tiles: seq<TileId>)
    requires AllValid(tiles)
    ensures var r := Evaluate(tiles);
      && (r.pattern == NoHand <==> tiles == [])
      && (r.pattern == NoHand ==> r.base == 0 && r.multiplier == 1 && Total(r) == 0)
      && (r.pattern == NoWin ==> r.base == |tiles| && r.multiplier == 1 && Total(r) == |tiles|)
      && (IsWin(r.pattern) ==> r.base == WinBase && r.multiplier == Multiplier(r.pattern)
                               && Total(r) == WinBase * Multiplier(r.pattern))
  {
    if tiles != [] {
      var c := Counts(tiles);
      RankShape(c, |tiles|, IsStandard(c), IsToitoi(c), IsPinfu(c),
                IsChinitsu(tiles), IsHonitsu(tiles), IsTanyao(tiles));
    }
  }

  /**
   * First match wins: a nonempty hand reports a pattern it qualifies for and
   * that no earlier pattern beats, and the consolation result only when it
   * qualifies for none.
   */
  lemma EvaluateFirstMatch(tiles: seq<TileId>)
    requires AllValid(tiles) && tiles != []
    ensures var r := Evaluate(tiles);
      && (IsWin(r.pattern) ==> Matches(tiles, r.pattern))
      && (forall p :: Matches(tiles, p) ==> IsWin(r.pattern) && Priority(r.pattern) <= Priority(p))
      && (r.pattern == NoWin <==> forall p :: !Matches(tiles, p))
  {
    var c := Counts(tiles);
    var standard, toitoi, pinfu := IsStandard(c), IsToitoi(c), IsPinfu(c);
    var chinitsu, honitsu, tanyao := IsChinitsu(tiles), IsHonitsu(tiles), IsTanyao(tiles);
    RankFirstMatch(c, |tiles|, standard, toitoi, pinfu, chinitsu, honitsu, tanyao);
    forall p ensures Matches(tiles, p) == Qualifies(p, c, standard, toitoi, pinfu, chinitsu, honitsu, tanyao) {
    }
  }

  /** The reported multiplier is the largest of all the patterns the hand qualifies for. */
  lemma EvaluateBest(tiles: seq<TileId>, p: Pattern)
    requires AllValid(tiles) && tiles != [] && Matches(tiles, p)
    ensures Multiplier(p) <= Evaluate(tiles).multiplier
  {
    EvaluateFirstMatch(tiles);
    PriorityOrdersMultiplier(Evaluate(tiles).pattern, p);
  }

  /**
   * A hand wins exactly when it is one pair and melds, seven pairs, or the
   * thirteen orphans.
   */
  lemma EvaluateWinIff(tiles: seq<TileId>)
    requires AllValid(tiles)
    ensures var c := Counts(tiles);
      IsWin(Evaluate(tiles).pattern) <==>
        tiles != [] && (PairAndMelds(c) || IsSevenPairs(c) || IsThirteenOrphans(c))
  {
    StandardCorrect(Counts(tiles));
  }

  method CheckToitoi(counts: array<nat>) returns (b: bool)
    requires counts.Length == IndexCount
    ensures b == IsToitoi(counts[..])
  {
    var standard := CheckStandard(counts);
    if !standard {
      return false;
    }
    for pairIdx := 0 to IndexCount
      invariant forall q | 0 <= q < pairIdx :: !PairThenTriplets(counts[..], q)
    {
      if counts[pairIdx] < 2 {
        continue;
      }
      var remaining := counts[..][pairIdx := counts[pairIdx] - 2];
      if AllTripletsOrEmpty(remaining) {
        assert PairThenTriplets(counts[..], pairIdx);
        return true;
      }
    }
    return false;
  }

  method CheckPinfu(counts: array<nat>) returns (b: bool)
    requires counts.Length == IndexCount
    ensures b == IsPinfu(counts[..])
  {
    var standard := CheckStandard(counts);
    if !standard {
      return false;
    }
    b := forall i | 0 <= i < IndexCount :: counts[i] < 3;
  }

  /** evaluate_hand, computing the counts and the standard test with the loop methods. */
  method EvaluateHand(tiles: seq<TileId>) returns (r: HandResult)
    requires AllValid(tiles)
    ensures r == Evaluate(tiles)
  {
    if tiles == [] {
      return HandResult(NoHand, 0, 1);
    }
    var counts := BuildCountArray(tiles);
    var standard := CheckStandard(counts);
    var toitoi := CheckToitoi(counts);
    var pinfu := CheckPinfu(counts);
    r := Rank(counts[..], |tiles|, standard, toitoi, pinfu,
              IsChinitsu(tiles), IsHonitsu(tiles), IsTanyao(tiles));
  }
}
