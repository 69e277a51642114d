/**
 * The unit tests of the hand evaluator, stated as lemmas. Each test builds
 * its hand with make_tiles from (suit, value, copies) entries, which fixes
 * the hand's count array; the lemma covers every hand with that count array,
 * in any order, and states the pattern and multiplier the test asserts.
 */
module ScoringTests {

  import opened Tiles
  import opened Melds
  import opened Scoring

  /** A 14-tile hand evaluates to whatever its count array ranks as. */
  lemma EvaluateAs(tiles: seq<TileId>, c: seq<nat>, r: HandResult)
    requires AllValid(tiles) && |tiles| == 14 && c == Counts(tiles)
    requires Rank(c, 14, IsStandard(c), IsToitoi(c), IsPinfu(c),
                  ChinitsuCounts(c), HonitsuCounts(c), TanyaoCounts(c)) == r
    ensures Evaluate(tiles) == r
  {
    EvaluateByCounts(tiles);
  }

  /** A pair at p and a meld list covering the rest make a standard hand. */
  lemma StandardWitness(c: seq<nat>, p: nat, ms: seq<Meld>)
    requires |c| == IndexCount && p < IndexCount && c[p] >= 2
    requires SplitsInto(c[p := c[p] - 2], ms)
    ensures IsStandard(c)
  {
    SearchCorrect(c[p := c[p] - 2]);
    assert PairThenMelds(c, p);
  }

  /** Four melds cover slot j as often as their individual coverings add up. */
  lemma Cover4(a: Meld, b: Meld, m: Meld, d: Meld, j: nat)
    ensures Cover([a, b, m, d], j) == Covers(a, j) + Covers(b, j) + Covers(m, j) + Covers(d, j)
  {
    assert [a, b, m, d] == [a] + [b, m, d] && [b, m, d] == [b] + [m, d] && [m, d] == [m] + [d] && [d] == [d] + [];
    CoverCons(a, [b, m, d], j);
    CoverCons(b, [m, d], j);
    CoverCons(m, [d], j);
    CoverCons(d, [], j);
  }

  /** The seven-pairs hand has no honor and spans two suits, so it is neither one-suit pattern nor the orphans. */
  lemma SevenPairsSuits(c: seq<nat>)
    requires c == [2,0,2,0,2,0,2,0,0, 0,2,0,2,0,0,0,0,0, 0,0,0,0,0,2,0,0,0, 0,0,0,0, 0,0,0]
    ensures !IsThirteenOrphans(c) && !ChinitsuCounts(c) && !HonitsuCounts(c)
  {
    assert c[27] == 0 && c[0] > 0 && c[10] > 0;
  }

  /** The seven-pairs hand has exactly seven slots of two. */
  lemma SevenPairsPairs(c: seq<nat>)
    requires c == [2,0,2,0,2,0,2,0,0, 0,2,0,2,0,0,0,0,0, 0,0,0,0,0,2,0,0,0, 0,0,0,0, 0,0,0]
    requires Sum(c) == 14
    ensures IsSevenPairs(c)
  {
    assert (set i | 0 <= i < |c| && c[i] >= 2) == {0, 2, 4, 6, 10, 12, 23};
  }

  /** The count array of 1m 1m 3m 3m 5m 5m 7m 7m 2p 2p 4p 4p 6s 6s ranks as Win(SevenPairs). */
  lemma SevenPairsRanked(c: seq<nat>)
    requires c == [2,0,2,0,2,0,2,0,0, 0,2,0,2,0,0,0,0,0, 0,0,0,0,0,2,0,0,0, 0,0,0,0, 0,0,0]
    requires Sum(c) == 14
    ensures Rank(c, 14, IsStandard(c), IsToitoi(c), IsPinfu(c),
                 ChinitsuCounts(c), HonitsuCounts(c), TanyaoCounts(c)) == Win(SevenPairs)
  {
    SevenPairsSuits(c);
    SevenPairsPairs(c);
  }

  /** 1m 1m 3m 3m 5m 5m 7m 7m 2p 2p 4p 4p 6s 6s (test_seven_pairs): 七对子, ×4. */
  lemma SevenPairsTest(tiles: seq<TileId>)
    requires AllValid(tiles) && |tiles| == 14
    requires Counts(tiles) == [2,0,2,0,2,0,2,0,0, 0,2,0,2,0,0,0,0,0, 0,0,0,0,0,2,0,0,0, 0,0,0,0, 0,0,0]
    ensures Evaluate(tiles) == HandResult(SevenPairs, 10, 4)
  {
    CountsSum(tiles);
    SevenPairsRanked(Counts(tiles));
    EvaluateAs(tiles, Counts(tiles), HandResult(SevenPairs, 10, 4));
  }

  /** The orphan hand pairs exactly one terminal or honor. */
  lemma ThirteenOrphansPair(c: seq<nat>)
    requires c == [2,0,0,0,0,0,0,0,1, 1,0,0,0,0,0,0,0,1, 1,0,0,0,0,0,0,0,1, 1,1,1,1, 1,1,1]
    ensures OrphanPairs(c) == 1
  {
    assert (set i | 0 <= i < |c| && IsOrphanSlot(i) && c[i] >= 2) == {0};
  }

  /** The orphan hand holds every terminal and honor and nothing else. */
  lemma ThirteenOrphansRest(c: seq<nat>)
    requires c == [2,0,0,0,0,0,0,0,1, 1,0,0,0,0,0,0,0,1, 1,0,0,0,0,0,0,0,1, 1,1,1,1, 1,1,1]
    ensures NonOrphanSum(c, 0) == 0
    ensures forall i | 0 <= i < IndexCount && IsOrphanSlot(i) :: c[i] >= 1
  {
    NonOrphanSumZero(c, 0);
  }

  /** The count array of 1m 1m 9m 1p 9p 1s 9s, the four winds, the three dragons ranks as Win(ThirteenOrphans). */
  lemma ThirteenOrphansRanked(c: seq<nat>)
    requires c == [2,0,0,0,0,0,0,0,1, 1,0,0,0,0,0,0,0,1, 1,0,0,0,0,0,0,0,1, 1,1,1,1, 1,1,1]
    requires Sum(c) == 14
    ensures Rank(c, 14, IsStandard(c), IsToitoi(c), IsPinfu(c),
                 ChinitsuCounts(c), HonitsuCounts(c), TanyaoCounts(c)) == Win(ThirteenOrphans)
  {
    ThirteenOrphansPair(c);
    ThirteenOrphansRest(c);
  }

  /** 1m 1m 9m 1p 9p 1s 9s, the four winds, the three dragons (test_thirteen_orphans): 国士无双, ×13. */
  lemma ThirteenOrphansTest(tiles: seq<TileId>)
    requires AllValid(tiles) && |tiles| == 14
    requires Counts(tiles) == [2,0,0,0,0,0,0,0,1, 1,0,0,0,0,0,0,0,1, 1,0,0,0,0,0,0,0,1, 1,1,1,1, 1,1,1]
    ensures Evaluate(tiles) == HandResult(ThirteenOrphans, 10, 13)
  {
    CountsSum(tiles);
    ThirteenOrphansRanked(Counts(tiles));
    EvaluateAs(tiles, Counts(tiles), HandResult(ThirteenOrphans, 10, 13));
  }

  /** A pair at slot 0 and the melds Run(0), Run(3), Run(6), Run(6). */
  lemma ChinitsuStandard(c: seq<nat>)
    requires c == [3,1,1,1,1,1,2,2,2, 0,0,0,0,0,0,0,0,0, 0,0,0,0,0,0,0,0,0, 0,0,0,0, 0,0,0]
    ensures IsStandard(c)
  {
    var ms := [Run(0), Run(3), Run(6), Run(6)];
    forall j | 0 <= j < IndexCount {
      Cover4(ms[0], ms[1], ms[2], ms[3], j);
    }
    StandardWitness(c, 0, ms);
  }

  /** The chinitsu hand lies in the characters band alone and misses the 1p orphan. */
  lemma ChinitsuSuit(c: seq<nat>)
    requires c == [3,1,1,1,1,1,2,2,2, 0,0,0,0,0,0,0,0,0, 0,0,0,0,0,0,0,0,0, 0,0,0,0, 0,0,0]
    ensures ChinitsuCounts(c) && !IsThirteenOrphans(c)
  {
    assert c[9] == 0 && c[0] > 0;
  }

  /** The count array of 1m 1m 1m 2m 3m 4m 5m 6m 7m 7m 8m 8m 9m 9m ranks as Win(Chinitsu). */
  lemma ChinitsuRanked(c: seq<nat>)
    requires c == [3,1,1,1,1,1,2,2,2, 0,0,0,0,0,0,0,0,0, 0,0,0,0,0,0,0,0,0, 0,0,0,0, 0,0,0]
    requires Sum(c) == 14
    ensures Rank(c, 14, IsStandard(c), IsToitoi(c), IsPinfu(c),
                 ChinitsuCounts(c), HonitsuCounts(c), TanyaoCounts(c)) == Win(Chinitsu)
  {
    ChinitsuSuit(c);
    ChinitsuStandard(c);
  }

  /** 1m 1m 1m 2m 3m 4m 5m 6m 7m 7m 8m 8m 9m 9m (test_chinitsu): 清一色, ×8. */
  lemma ChinitsuTest(tiles: seq<TileId>)
    requires AllValid(tiles) && |tiles| == 14
    requires Counts(tiles) == [3,1,1,1,1,1,2,2,2, 0,0,0,0,0,0,0,0,0, 0,0,0,0,0,0,0,0,0, 0,0,0,0, 0,0,0]
    ensures Evaluate(tiles) == HandResult(Chinitsu, 10, 8)
  {
    CountsSum(tiles);
    ChinitsuRanked(Counts(tiles));
    EvaluateAs(tiles, Counts(tiles), HandResult(Chinitsu, 10, 8));
  }

  /** A pair at slot 27 and the melds Triplet(0), Triplet(4), Triplet(17), Triplet(31). */
  lemma ToitoiStandard(c: seq<nat>)
    requires c == [3,0,0,0,3,0,0,0,0, 0,0,0,0,0,0,0,0,3, 0,0,0,0,0,0,0,0,0, 2,0,0,0, 3,0,0]
    ensures IsStandard(c)
  {
    var ms := [Triplet(0), Triplet(4), Triplet(17), Triplet(31)];
    forall j | 0 <= j < IndexCount {
      Cover4(ms[0], ms[1], ms[2], ms[3], j);
    }
    StandardWitness(c, 27, ms);
  }

  /** The toitoi hand is no orphan hand, spans two suits and honors, and holds five pairs. */
  lemma ToitoiShape(c: seq<nat>)
    requires c == [3,0,0,0,3,0,0,0,0, 0,0,0,0,0,0,0,0,3, 0,0,0,0,0,0,0,0,0, 2,0,0,0, 3,0,0]
    requires Sum(c) == 14
    ensures !IsThirteenOrphans(c) && !ChinitsuCounts(c) && !HonitsuCounts(c) && !IsSevenPairs(c)
  {
    assert c[8] == 0 && c[0] > 0 && c[17] > 0;
    assert (set i | 0 <= i < |c| && c[i] >= 2) == {0, 4, 17, 27, 31};
  }

  /** The count array of 1m 1m 1m 5m 5m 5m 9p 9p 9p, three of the first dragon, two of the first wind ranks as Win(Toitoi). */
  lemma ToitoiRanked(c: seq<nat>)
    requires c == [3,0,0,0,3,0,0,0,0, 0,0,0,0,0,0,0,0,3, 0,0,0,0,0,0,0,0,0, 2,0,0,0, 3,0,0]
    requires Sum(c) == 14
    ensures Rank(c, 14, IsStandard(c), IsToitoi(c), IsPinfu(c),
                 ChinitsuCounts(c), HonitsuCounts(c), TanyaoCounts(c)) == Win(Toitoi)
  {
    ToitoiShape(c);
    ToitoiStandard(c);
    assert PairThenTriplets(c, 27);
  }

  /** 1m 1m 1m 5m 5m 5m 9p 9p 9p, three of the first dragon, two of the first wind (test_toitoi): 对对和, ×4. */
  lemma ToitoiTest(tiles: seq<TileId>)
    requires AllValid(tiles) && |tiles| == 14
    requires Counts(tiles) == [3,0,0,0,3,0,0,0,0, 0,0,0,0,0,0,0,0,3, 0,0,0,0,0,0,0,0,0, 2,0,0,0, 3,0,0]
    ensures Evaluate(tiles) == HandResult(Toitoi, 10, 4)
  {
    CountsSum(tiles);
    ToitoiRanked(Counts(tiles));
    EvaluateAs(tiles, Counts(tiles), HandResult(Toitoi, 10, 4));
  }

  /** The count array of 1m 3m 5m 9m 2p 7p 1s 4s 8s, the first and third wind, the three dragons ranks as HandResult(NoWin, 14, 1). */
  lemma NoPatternRanked(c: seq<nat>)
    requires c == [1,0,1,0,1,0,0,0,1, 0,1,0,0,0,0,1,0,0, 1,0,0,1,0,0,0,1,0, 1,0,1,0, 1,1,1]
    requires Sum(c) == 14
    ensures Rank(c, 14, IsStandard(c), IsToitoi(c), IsPinfu(c),
                 ChinitsuCounts(c), HonitsuCounts(c), TanyaoCounts(c)) == HandResult(NoWin, 14, 1)
  {
    assert c[9] == 0;
    assert (set i | 0 <= i < |c| && c[i] >= 2) == {};
    assert !IsStandard(c);
  }

  /** 1m 3m 5m 9m 2p 7p 1s 4s 8s, the first and third wind, the three dragons (test_no_pattern): 未和牌, with the consolation base of 14. */
  lemma NoPatternTest(tiles: seq<TileId>)
    requires AllValid(tiles) && |tiles| == 14
    requires Counts(tiles) == [1,0,1,0,1,0,0,0,1, 0,1,0,0,0,0,1,0,0, 1,0,0,1,0,0,0,1,0, 1,0,1,0, 1,1,1]
    ensures Evaluate(tiles) == HandResult(NoWin, 14, 1)
  {
    CountsSum(tiles);
    NoPatternRanked(Counts(tiles));
    EvaluateAs(tiles, Counts(tiles), HandResult(NoWin, 14, 1));
  }

  /** A pair at slot 4 and the melds Run(1), Run(4), Run(10), Run(14). */
  lemma TanyaoStandard(c: seq<nat>)
    requires c == [0,1,1,1,3,1,1,0,0, 0,1,1,1,0,1,1,1,0, 0,0,0,0,0,0,0,0,0, 0,0,0,0, 0,0,0]
    ensures IsStandard(c)
  {
    var ms := [Run(1), Run(4), Run(10), Run(14)];
    forall j | 0 <= j < IndexCount {
      Cover4(ms[0], ms[1], ms[2], ms[3], j);
    }
    StandardWitness(c, 4, ms);
  }

  /** The tanyao hand is no orphan hand and spans two suits. */
  lemma TanyaoSuits(c: seq<nat>)
    requires c == [0,1,1,1,3,1,1,0,0, 0,1,1,1,0,1,1,1,0, 0,0,0,0,0,0,0,0,0, 0,0,0,0, 0,0,0]
    ensures !IsThirteenOrphans(c) && !ChinitsuCounts(c) && !HonitsuCounts(c)
  {
    assert c[0] == 0 && c[1] > 0 && c[10] > 0;
  }

  /** The tanyao hand holds only simples and no full suit. */
  lemma TanyaoShape(c: seq<nat>)
    requires c == [0,1,1,1,3,1,1,0,0, 0,1,1,1,0,1,1,1,0, 0,0,0,0,0,0,0,0,0, 0,0,0,0, 0,0,0]
    ensures !IsStraight(c) && TanyaoCounts(c)
  {
    assert c[0] == 0 && c[9] == 0 && c[18] == 0;
  }

  /** The tanyao hand holds a single slot with a pair, so it is no seven pairs. */
  lemma TanyaoPairs(c: seq<nat>)
    requires c == [0,1,1,1,3,1,1,0,0, 0,1,1,1,0,1,1,1,0, 0,0,0,0,0,0,0,0,0, 0,0,0,0, 0,0,0]
    ensures !IsSevenPairs(c)
  {
    assert (set i | 0 <= i < |c| && c[i] >= 2) == {4};
  }

  /** The only pair of the tanyao hand leaves runs behind, so it is no toitoi. */
  lemma TanyaoNoTriplets(c: seq<nat>)
    requires c == [0,1,1,1,3,1,1,0,0, 0,1,1,1,0,1,1,1,0, 0,0,0,0,0,0,0,0,0, 0,0,0,0, 0,0,0]
    ensures forall p | 0 <= p < IndexCount :: !PairThenTriplets(c, p)
  {
    forall p | 0 <= p < IndexCount ensures !PairThenTriplets(c, p) {
      if p == 4 {
        assert c[p := c[p] - 2][1] == 1;
      }
    }
  }

  /** The count array of 5m 5m 5m 2m 3m 4m 6m 7m 2p 3p 4p 6p 7p 8p ranks as Win(Tanyao). */
  lemma TanyaoRanked(c: seq<nat>)
    requires c == [0,1,1,1,3,1,1,0,0, 0,1,1,1,0,1,1,1,0, 0,0,0,0,0,0,0,0,0, 0,0,0,0, 0,0,0]
    requires Sum(c) == 14
    ensures Rank(c, 14, IsStandard(c), IsToitoi(c), IsPinfu(c),
                 ChinitsuCounts(c), HonitsuCounts(c), TanyaoCounts(c)) == Win(Tanyao)
  {
    TanyaoSuits(c);
    TanyaoShape(c);
    TanyaoPairs(c);
    TanyaoStandard(c);
    TanyaoNoTriplets(c);
  }

  /** 5m 5m 5m 2m 3m 4m 6m 7m 2p 3p 4p 6p 7p 8p (test_tanyao): 断幺九, ×2. */
  lemma TanyaoTest(tiles: seq<TileId>)
    requires AllValid(tiles) && |tiles| == 14
    requires Counts(tiles) == [0,1,1,1,3,1,1,0,0, 0,1,1,1,0,1,1,1,0, 0,0,0,0,0,0,0,0,0, 0,0,0,0, 0,0,0]
    ensures Evaluate(tiles) == HandResult(Tanyao, 10, 2)
  {
    CountsSum(tiles);
    TanyaoRanked(Counts(tiles));
    EvaluateAs(tiles, Counts(tiles), HandResult(Tanyao, 10, 2));
  }

  /** A pair at slot 0 and the melds Run(1), Run(4), Run(9), Run(12). */
  lemma StandardWinStandard(c: seq<nat>)
    requires c == [2,1,1,1,1,1,1,0,0, 1,1,1,1,1,1,0,0,0, 0,0,0,0,0,0,0,0,0, 0,0,0,0, 0,0,0]
    ensures IsStandard(c)
  {
    var ms := [Run(1), Run(4), Run(9), Run(12)];
    forall j | 0 <= j < IndexCount {
      Cover4(ms[0], ms[1], ms[2], ms[3], j);
    }
    StandardWitness(c, 0, ms);
  }

  /** The simple standard hand holds a terminal, no full suit and no triplet. */
  lemma StandardWinRuns(c: seq<nat>)
    requires c == [2,1,1,1,1,1,1,0,0, 1,1,1,1,1,1,0,0,0, 0,0,0,0,0,0,0,0,0, 0,0,0,0, 0,0,0]
    ensures !IsStraight(c) && !TanyaoCounts(c)
    ensures forall i | 0 <= i < IndexCount :: c[i] < 3
  {
    assert c[0] > 0 && c[8] == 0 && c[17] == 0 && c[18] == 0;
  }

  /** The simple standard hand is no orphan hand, spans two suits and holds one pair. */
  lemma StandardWinShape(c: seq<nat>)
    requires c == [2,1,1,1,1,1,1,0,0, 1,1,1,1,1,1,0,0,0, 0,0,0,0,0,0,0,0,0, 0,0,0,0, 0,0,0]
    requires Sum(c) == 14
    ensures !IsThirteenOrphans(c) && !ChinitsuCounts(c) && !HonitsuCounts(c) && !IsSevenPairs(c)
  {
    assert c[8] == 0 && c[17] == 0 && c[18] == 0 && c[0] > 0 && c[9] > 0;
    assert (set i | 0 <= i < |c| && c[i] >= 2) == {0};
  }

  /** The only pair of the simple standard hand leaves runs behind, so it is no toitoi. */
  lemma StandardWinNoTriplets(c: seq<nat>)
    requires c == [2,1,1,1,1,1,1,0,0, 1,1,1,1,1,1,0,0,0, 0,0,0,0,0,0,0,0,0, 0,0,0,0, 0,0,0]
    ensures forall p | 0 <= p < IndexCount :: !PairThenTriplets(c, p)
  {
    forall p | 0 <= p < IndexCount ensures !PairThenTriplets(c, p) {
      if p == 0 {
        assert c[p := c[p] - 2][1] == 1;
      }
    }
  }

  /** The count array of 1m 1m 2m 3m 4m 5m 6m 7m 1p 2p 3p 4p 5p 6p ranks as Win(Pinfu). */
  lemma StandardWinRanked(c: seq<nat>)
    requires c == [2,1,1,1,1,1,1,0,0, 1,1,1,1,1,1,0,0,0, 0,0,0,0,0,0,0,0,0, 0,0,0,0, 0,0,0]
    requires Sum(c) == 14
    ensures Rank(c, 14, IsStandard(c), IsToitoi(c), IsPinfu(c),
                 ChinitsuCounts(c), HonitsuCounts(c), TanyaoCounts(c)) == Win(Pinfu)
  {
    StandardWinShape(c);
    StandardWinRuns(c);
    StandardWinStandard(c);
    StandardWinNoTriplets(c);
  }

  /** 1m 1m 2m 3m 4m 5m 6m 7m 1p 2p 3p 4p 5p 6p (test_standard_win_simple): a win, here 平和 ×1. */
  lemma StandardWinTest(tiles: seq<TileId>)
    requires AllValid(tiles) && |tiles| == 14
    requires Counts(tiles) == [2,1,1,1,1,1,1,0,0, 1,1,1,1,1,1,0,0,0, 0,0,0,0,0,0,0,0,0, 0,0,0,0, 0,0,0]
    ensures Evaluate(tiles) == HandResult(Pinfu, 10, 1)
  {
    CountsSum(tiles);
    StandardWinRanked(Counts(tiles));
    EvaluateAs(tiles, Counts(tiles), HandResult(Pinfu, 10, 1));
  }
}
