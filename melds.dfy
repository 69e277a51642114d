/**
 * The 34-slot count array of a hand and the meld search over it:
 * building the counts, the backtracking search that strips triplets and
 * in-suit runs (remove_melds), and the pair-then-melds test (check_standard),
 * each proved against a declarative statement of what a meld decomposition is.
 */
module Melds {

  import opened Tiles
  import opened Wrappers

  predicate AllValid(tiles: seq<TileId>) {
    forall k | 0 <= k < |tiles| :: Valid(tiles[k])
  }

  // ---------------------------------------------------------------------
  // Count arrays

  /** The counts in slots i, i + 1, ... to the end. */
  function SumFrom(c: seq<nat>, i: nat): nat
    requires i <= |c|
    decreases |c| - i
  {
    if i == |c| then 0 else c[i] + SumFrom(c, i + 1)
  }

  /** The number of tiles a count array holds. */
  function Sum(c: seq<nat>): nat {
    SumFrom(c, 0)
  }

  predicate AllZero(c: seq<nat>) {
    forall i | 0 <= i < |c| :: c[i] == 0
  }

  lemma {:induction false} SumFromUpdate(c: seq<nat>, i: nat, k: nat, v: nat)
    requires i <= k < |c|
    ensures SumFrom(c[k := v], i) + c[k] == SumFrom(c, i) + v
    decreases |c| - i
  {
    if i < k {
      SumFromUpdate(c, i + 1, k, v);
    } else {
      SumFromSame(c, c[k := v], i + 1);
    }
  }

  /** Sequences that agree from slot i on have the same sum from i on. */
  lemma {:induction false} SumFromSame(a: seq<nat>, b: seq<nat>, i: nat)
    requires i <= |a| == |b| && forall j | i <= j < |a| :: a[j] == b[j]
    ensures SumFrom(a, i) == SumFrom(b, i)
    decreases |a| - i
  {
    if i < |a| {
      SumFromSame(a, b, i + 1);
    }
  }

  /** Changing one slot changes the sum by the difference. */
  lemma SumUpdate(c: seq<nat>, i: nat, v: nat)
    requires i < |c|
    ensures Sum(c[i := v]) + c[i] == Sum(c) + v
  {
    SumFromUpdate(c, 0, i, v);
  }

  lemma {:induction false} SumFromZero(c: seq<nat>, i: nat)
    requires i <= |c|
    ensures SumFrom(c, i) == 0 <==> forall j | i <= j < |c| :: c[j] == 0
    decreases |c| - i
  {
    if i < |c| {
      SumFromZero(c, i + 1);
    }
  }

  lemma SumZeroIff(c: seq<nat>)
    ensures Sum(c) == 0 <==> AllZero(c)
  {
    SumFromZero(c, 0);
  }

  /**
   * The count array of a hand: slot i holds how many tiles of the hand
   * have canonical index i, that is, are the identity FromIndex(i).
   */
  function Counts(tiles: seq<TileId>): (c: seq<nat>)
    requires AllValid(tiles)
    ensures |c| == IndexCount
  {
    seq(IndexCount, i requires 0 <= i < IndexCount => multiset(tiles)[FromIndex(i)])
  }

  /** Appending a tile adds one to the slot of its index and to nothing else. */
  lemma CountsSnoc(s: seq<TileId>, t: TileId)
    requires AllValid(s) && Valid(t)
    ensures AllValid(s + [t])
    ensures Counts(s + [t]) == Counts(s)[ToIndex(t) := Counts(s)[ToIndex(t)] + 1]
  {
    var a, b := Counts(s + [t]), Counts(s)[ToIndex(t) := Counts(s)[ToIndex(t)] + 1];
    forall i | 0 <= i < IndexCount ensures a[i] == b[i] {
      assert multiset(s + [t]) == multiset(s) + multiset{t};
      ToIndexInjective(t, FromIndex(i));
    }
  }

  /** The counts add up to the number of tiles. */
  lemma {:induction false} CountsSum(tiles: seq<TileId>)
    requires AllValid(tiles)
    ensures Sum(Counts(tiles)) == |tiles|
  {
    if tiles == [] {
      SumZeroIff(Counts(tiles));
    } else {
      var s, t := tiles[..|tiles| - 1], tiles[|tiles| - 1];
      assert tiles == s + [t];
      CountsSum(s);
      CountsSnoc(s, t);
      SumUpdate(Counts(s), ToIndex(t), Counts(s)[ToIndex(t)] + 1);
    }
  }

  /** The counts depend only on the multiset of tiles, not on their order. */
  lemma CountsPermutation(a: seq<TileId>, b: seq<TileId>)
    requires AllValid(a) && AllValid(b) && multiset(a) == multiset(b)
    ensures Counts(a) == Counts(b)
  {
  }

  method BuildCountArray(tiles: seq<TileId>) returns (counts: array<nat>)
    requires AllValid(tiles)
    ensures fresh(counts)
    ensures counts[..] == Counts(tiles)
  {
    counts := new nat[IndexCount](_ => 0);
    assert counts[..] == Counts([]);
    for k := 0 to |tiles|
      invariant counts.Length == IndexCount
      invariant counts[..] == Counts(tiles[..k])
    {
      assert tiles[..k + 1] == tiles[..k] + [tiles[k]];
      CountsSnoc(tiles[..k], tiles[k]);
      counts[ToIndex(tiles[k])] := counts[ToIndex(tiles[k])] + 1;
    }
    assert tiles[..|tiles|] == tiles;
  }

  // ---------------------------------------------------------------------
  // Melds, declaratively

  /** The first slot of the numbered suit containing slot i; honors have none. */
  function SuitStart(i: nat): Option<nat> {
    if i < 9 then Some(0)
    else if i < 18 then Some(9)
    else if i < 27 then Some(18)
    else None
  }

  /** A run may start at slot i: a numbered suit, at most at its seventh value. */
  predicate RunStart(i: nat) {
    SuitStart(i).Some? && i - SuitStart(i).value <= 6
  }

  /** A run never crosses a suit boundary and never includes an honor. */
  lemma RunStaysInSuit(i: nat)
    requires RunStart(i)
    ensures i + 2 < 27 && SuitStart(i + 1) == SuitStart(i) && SuitStart(i + 2) == SuitStart(i)
  {
  }

  datatype Meld = Triplet(at: nat) | Run(start: nat)

  predicate ValidMeld(m: Meld) {
    match m
    case Triplet(i) => i < IndexCount
    case Run(i) => RunStart(i)
  }

  /** How many tiles of slot j the meld uses. */
  function Covers(m: Meld, j: nat): nat {
    match m
    case Triplet(i) => if j == i then 3 else 0
    case Run(i) => if i <= j <= i + 2 then 1 else 0
  }

  /** How many tiles of slot j a list of melds uses. */
  function Cover(ms: seq<Meld>, j: nat): nat {
    if ms == [] then 0 else Covers(ms[0], j) + Cover(ms[1..], j)
  }

  /** The counts are exactly the tiles of the melds ms. */
  predicate SplitsInto(c: seq<nat>, ms: seq<Meld>) {
    && |c| == IndexCount
    && (forall k | 0 <= k < |ms| :: ValidMeld(ms[k]))
    && (forall j | 0 <= j < IndexCount :: c[j] == Cover(ms, j))
  }

  /** The counts split into triplets and in-suit runs. */
  ghost predicate MeldDecomposable(c: seq<nat>) {
    exists ms :: SplitsInto(c, ms)
  }

  // ---------------------------------------------------------------------
  // The search of remove_melds

  /** The lowest slot from `from` on with a nonzero count, or |c| if there is none. */
  function FirstNonZero(c: seq<nat>, from: nat): (f: nat)
    requires from <= |c|
    ensures from <= f <= |c|
    ensures forall j | from <= j < f :: c[j] == 0
    ensures f < |c| ==> c[f] > 0
    decreases |c| - from
  {
    if from == |c| then from
    else if c[from] > 0 then from
    else FirstNonZero(c, from + 1)
  }

  function RemoveTriplet(c: seq<nat>, i: nat): (r: seq<nat>)
    requires i < |c| && c[i] >= 3
    ensures |r| == |c| && Sum(r) + 3 == Sum(c)
  {
    SumUpdate(c, i, c[i] - 3);
    c[i := c[i] - 3]
  }

  function RemoveRun(c: seq<nat>, i: nat): (r: seq<nat>)
    requires i + 2 < |c| && c[i] >= 1 && c[i + 1] >= 1 && c[i + 2] >= 1
    ensures |r| == |c| && Sum(r) + 3 == Sum(c)
    ensures forall j | 0 <= j < |c| :: r[j] + Covers(Run(i), j) == c[j]
  {
    var c1 := c[i := c[i] - 1];
    var c2 := c1[i + 1 := c1[i + 1] - 1];
    SumUpdate(c, i, c[i] - 1);
    SumUpdate(c1, i + 1, c1[i + 1] - 1);
    SumUpdate(c2, i + 2, c2[i + 2] - 1);
    c2[i + 2 := c2[i + 2] - 1]
  }

  /**
   * What remove_melds decides: take the lowest tile still present, try to
   * use it in a triplet, and if that fails in a run with its two successors.
   */
  function CanRemoveMelds(c: seq<nat>): bool
    requires |c| == IndexCount
    decreases Sum(c)
  {
    var f := FirstNonZero(c, 0);
    if f == IndexCount then true
    else
      (c[f] >= 3 && CanRemoveMelds(RemoveTriplet(c, f)))
      || (RunStart(f) && c[f] >= 1 && c[f + 1] >= 1 && c[f + 2] >= 1 && CanRemoveMelds(RemoveRun(c, f)))
  }

  /** One step of the search, as its definition spells it out. */
  lemma SearchStep(c: seq<nat>)
    requires |c| == IndexCount
    ensures var f := FirstNonZero(c, 0);
      CanRemoveMelds(c) <==>
        || f == IndexCount
        || (c[f] >= 3 && CanRemoveMelds(RemoveTriplet(c, f)))
        || (RunStart(f) && c[f] >= 1 && c[f + 1] >= 1 && c[f + 2] >= 1 && CanRemoveMelds(RemoveRun(c, f)))
  {
  }

  /** Putting the tiles of a run back restores the counts. */
  lemma RunRestore(c: seq<nat>, i: nat)
    requires i + 2 < |c| && c[i] >= 1 && c[i + 1] >= 1 && c[i + 2] >= 1
    ensures var r := RemoveRun(c, i);
      r[i := r[i] + 1][i + 1 := r[i + 1] + 1][i + 2 := r[i + 2] + 1] == c
  {
  }

  lemma CoverCons(m: Meld, ms: seq<Meld>, j: nat)
    ensures Cover([m] + ms, j) == Covers(m, j) + Cover(ms, j)
  {
    assert ([m] + ms)[1..] == ms;
  }

  /** A successful search yields the melds it removed. */
  lemma {:induction false} SearchSound(c: seq<nat>) returns (ms: seq<Meld>)
    requires |c| == IndexCount && CanRemoveMelds(c)
    ensures SplitsInto(c, ms)
    decreases Sum(c)
  {
    var f := FirstNonZero(c, 0);
    if f == IndexCount {
      ms := [];
    } else if c[f] >= 3 && CanRemoveMelds(RemoveTriplet(c, f)) {
      var rest := SearchSound(RemoveTriplet(c, f));
      ms := [Triplet(f)] + rest;
      forall j | 0 <= j < IndexCount ensures c[j] == Cover(ms, j) {
        CoverCons(Triplet(f), rest, j);
      }
    } else {
      var rest := SearchSound(RemoveRun(c, f));
      ms := [Run(f)] + rest;
      forall j | 0 <= j < IndexCount ensures c[j] == Cover(ms, j) {
        CoverCons(Run(f), rest, j);
      }
    }
  }

  /** Some meld of the list uses a tile of slot j whenever the list uses any. */
  lemma {:induction false} CoveringMeld(ms: seq<Meld>, j: nat) returns (k: nat)
    requires Cover(ms, j) > 0
    ensures k < |ms| && Covers(ms[k], j) > 0
  {
    if Covers(ms[0], j) > 0 {
      k := 0;
    } else {
      var k' := CoveringMeld(ms[1..], j);
      k := k' + 1;
    }
  }

  /** Taking the k-th meld out of the list takes its tiles out of every slot. */
  lemma {:induction false} CoverRemove(ms: seq<Meld>, k: nat, j: nat)
    requires k < |ms|
    ensures Cover(ms, j) == Covers(ms[k], j) + Cover(ms[..k] + ms[k + 1..], j)
  {
    if k == 0 {
      assert ms[..0] + ms[1..] == ms[1..];
    } else {
      CoverRemove(ms[1..], k - 1, j);
      assert ms[..k] + ms[k + 1..] == [ms[0]] + (ms[1..][..k - 1] + ms[1..][k..]);
      CoverCons(ms[0], ms[1..][..k - 1] + ms[1..][k..], j);
    }
  }

  /** Whenever the counts split into melds, the search finds a split. */
  lemma {:induction false} SearchComplete(c: seq<nat>, ms: seq<Meld>)
    requires SplitsInto(c, ms)
    ensures CanRemoveMelds(c)
    decreases |ms|
  {
    var f := FirstNonZero(c, 0);
    if f == IndexCount {
      return;
    }
    var k := CoveringMeld(ms, f);
    var rest := ms[..k] + ms[k + 1..];
    assert forall q | 0 <= q < |rest| :: rest[q] in ms;
    forall j | 0 <= j < IndexCount
      ensures Cover(ms, j) == Covers(ms[k], j) + Cover(rest, j) {
      CoverRemove(ms, k, j);
    }
    match ms[k]
    case Triplet(i) =>
      assert i == f;
      var c' := RemoveTriplet(c, f);
      assert SplitsInto(c', rest);
      SearchComplete(c', rest);
    case Run(s) =>
      assert Cover(ms, s) == Covers(ms[k], s) + Cover(rest, s);
      assert s == f;
      assert Covers(ms[k], f + 1) == 1 && Covers(ms[k], f + 2) == 1;
      var c' := RemoveRun(c, f);
      assert SplitsInto(c', rest);
      SearchComplete(c', rest);
  }

  /** remove_melds succeeds exactly on the counts that split into triplets and in-suit runs. */
  lemma SearchCorrect(c: seq<nat>)
    requires |c| == IndexCount
    ensures CanRemoveMelds(c) <==> MeldDecomposable(c)
  {
    if CanRemoveMelds(c) {
      var ms := SearchSound(c);
    }
    if MeldDecomposable(c) {
      var ms :| SplitsInto(c, ms);
      SearchComplete(c, ms);
    }
  }

  /**
   * remove_melds on a count array: strips melds in place with backtracking.
   * On success every count is zero; on failure the array is restored.
   */
  method RemoveMelds(counts: array<nat>) returns (ok: bool)
    requires counts.Length == IndexCount
    modifies counts
    ensures ok == CanRemoveMelds(old(counts[..]))
    ensures ok ==> AllZero(counts[..])
    ensures !ok ==> counts[..] == old(counts[..])
    decreases Sum(counts[..]), 1
  {
    var first := FirstNonZero(counts[..], 0);
    if first == IndexCount {
      return true;
    }
    ok := TryTriplet(counts, first);
    if !ok {
      ok := TryRun(counts, first);
    }
    SearchStep(old(counts[..]));
  }

  /** The triplet branch of remove_melds: remove three tiles of slot `first` and recurse, undoing on failure. */
  method TryTriplet(counts: array<nat>, first: nat) returns (ok: bool)
    requires counts.Length == IndexCount && first < IndexCount
    modifies counts
    ensures ok == (old(counts[first]) >= 3 && CanRemoveMelds(RemoveTriplet(old(counts[..]), first)))
    ensures ok ==> AllZero(counts[..])
    ensures !ok ==> counts[..] == old(counts[..])
    decreases Sum(counts[..]), 0
  {
    ghost var c := counts[..];
    ok := false;
    if counts[first] >= 3 {
      counts[first] := counts[first] - 3;
      assert counts[..] == RemoveTriplet(c, first);
      ok := RemoveMelds(counts);
      if ok {
        return;
      }
      counts[first] := counts[first] + 3;
      assert counts[..] == c;
    }
  }

  /** Takes one tile off each of the slots first, first + 1 and first + 2. */
  method TakeRun(counts: array<nat>, first: nat)
    requires counts.Length == IndexCount && first + 2 < IndexCount
    requires counts[first] >= 1 && counts[first + 1] >= 1 && counts[first + 2] >= 1
    modifies counts
    ensures counts[..] == RemoveRun(old(counts[..]), first)
  {
    ghost var c := counts[..];
    counts[first] := counts[first] - 1;
    assert counts[..] == c[first := c[first] - 1];
    ghost var c1 := counts[..];
    counts[first + 1] := counts[first + 1] - 1;
    assert counts[..] == c1[first + 1 := c1[first + 1] - 1];
    ghost var c2 := counts[..];
    counts[first + 2] := counts[first + 2] - 1;
    assert counts[..] == c2[first + 2 := c2[first + 2] - 1];
  }

  /** Puts back the tiles TakeRun took off the counts c. */
  method PutRun(counts: array<nat>, first: nat, ghost c: seq<nat>)
    requires counts.Length == IndexCount && |c| == IndexCount && first + 2 < IndexCount
    requires c[first] >= 1 && c[first + 1] >= 1 && c[first + 2] >= 1
    requires counts[..] == RemoveRun(c, first)
    modifies counts
    ensures counts[..] == c
  {
    ghost var r := counts[..];
    counts[first] := counts[first] + 1;
    assert counts[..] == r[first := r[first] + 1];
    ghost var r1 := counts[..];
    counts[first + 1] := counts[first + 1] + 1;
    assert counts[..] == r1[first + 1 := r1[first + 1] + 1];
    ghost var r2 := counts[..];
    counts[first + 2] := counts[first + 2] + 1;
    assert counts[..] == r2[first + 2 := r2[first + 2] + 1];
    RunRestore(c, first);
  }

  /** The run branch of remove_melds: remove slots first..first+2 once each and recurse, undoing on failure. */
  method TryRun(counts: array<nat>, first: nat) returns (ok: bool)
    requires counts.Length == IndexCount && first < IndexCount
    modifies counts
    ensures ok == (RunStart(first) && old(counts[first]) >= 1 && old(counts[first + 1]) >= 1
                   && old(counts[first + 2]) >= 1 && CanRemoveMelds(RemoveRun(old(counts[..]), first)))
    ensures ok ==> AllZero(counts[..])
    ensures !ok ==> counts[..] == old(counts[..])
    decreases Sum(counts[..]), 0
  {
    ghost var c := counts[..];
    ok := false;
    var start := SuitStart(first);
    if start.Some? && first - start.value <= 6 {
      if counts[first] >= 1 && counts[first + 1] >= 1 && counts[first + 2] >= 1 {
        TakeRun(counts, first);
        ok := RemoveMelds(counts);
        if ok {
          return;
        }
        PutRun(counts, first, c);
      }
    }
  }

  // ---------------------------------------------------------------------
  // check_standard: one pair plus melds

  /** Removing a pair at slot p leaves counts the search can clear. */
  predicate PairThenMelds(c: seq<nat>, p: nat)
    requires |c| == IndexCount && p < IndexCount
  {
    c[p] >= 2 && CanRemoveMelds(c[p := c[p] - 2])
  }

  /** What check_standard decides. */
  predicate IsStandard(c: seq<nat>)
    requires |c| == IndexCount
  {
    exists p | 0 <= p < IndexCount :: PairThenMelds(c, p)
  }

  /** One pair plus a set of triplets and in-suit runs that uses every tile. */
  ghost predicate PairAndMelds(c: seq<nat>)
    requires |c| == IndexCount
  {
    exists p | 0 <= p < IndexCount :: c[p] >= 2 && MeldDecomposable(c[p := c[p] - 2])
  }

  /** check_standard accepts exactly the hands made of one pair and melds. */
  lemma StandardCorrect(c: seq<nat>)
    requires |c| == IndexCount
    ensures IsStandard(c) <==> PairAndMelds(c)
  {
    forall p | 0 <= p < IndexCount && c[p] >= 2
      ensures PairThenMelds(c, p) <==> MeldDecomposable(c[p := c[p] - 2])
    {
      SearchCorrect(c[p := c[p] - 2]);
    }
  }

  /** A standard hand holds two tiles more than a multiple of three. */
  lemma {:induction false} StandardSize(c: seq<nat>)
    requires |c| == IndexCount && IsStandard(c)
    ensures Sum(c) % 3 == 2
  {
    var p :| 0 <= p < IndexCount && PairThenMelds(c, p);
    var rest := c[p := c[p] - 2];
    SumUpdate(c, p, c[p] - 2);
    var ms := SearchSound(rest);
    MeldsSize(rest, ms);
  }

  /** Counts split into n melds hold 3n tiles. */
  lemma {:induction false} MeldsSize(c: seq<nat>, ms: seq<Meld>)
    requires SplitsInto(c, ms)
    ensures Sum(c) == 3 * |ms|
    decreases |ms|
  {
    if ms == [] {
      SumZeroIff(c);
    } else {
      var rest := ms[1..];
      var c' := seq(IndexCount, j requires 0 <= j < IndexCount => Cover(rest, j));
      assert SplitsInto(c', rest) by {
        forall q | 0 <= q < |rest| ensures ValidMeld(rest[q]) { assert rest[q] == ms[q + 1]; }
      }
      MeldsSize(c', rest);
      match ms[0]
      case Triplet(i) =>
        assert c == c'[i := c'[i] + 3];
        SumUpdate(c', i, c'[i] + 3);
      case Run(s) =>
        var c1 := c'[s := c'[s] + 1];
        var c2 := c1[s + 1 := c1[s + 1] + 1];
        assert c == c2[s + 2 := c2[s + 2] + 1];
        SumUpdate(c', s, c'[s] + 1);
        SumUpdate(c1, s + 1, c1[s + 1] + 1);
        SumUpdate(c2, s + 2, c2[s + 2] + 1);
    }
  }

  /** One pass of check_standard's loop: a pair at pairIdx, and melds from a copy of the rest. */
  method TryPair(counts: array<nat>, pairIdx: nat) returns (ok: bool)
    requires counts.Length == IndexCount && pairIdx < IndexCount
    ensures ok == PairThenMelds(counts[..], pairIdx)
  {
    if counts[pairIdx] < 2 {
      return false;
    }
    var remaining := new nat[IndexCount](i requires 0 <= i < IndexCount reads counts => counts[i]);
    remaining[pairIdx] := remaining[pairIdx] - 2;
    assert remaining[..] == counts[..][pairIdx := counts[pairIdx] - 2];
    ok := RemoveMelds(remaining);
  }

  method CheckStandard(counts: array<nat>) returns (b: bool)
    requires counts.Length == IndexCount
    ensures b == IsStandard(counts[..])
  {
    for pairIdx := 0 to IndexCount
      invariant forall q | 0 <= q < pairIdx :: !PairThenMelds(counts[..], q)
    {
      var ok := TryPair(counts, pairIdx);
      if ok {
        return true;
      }
    }
    return false;
  }
}
