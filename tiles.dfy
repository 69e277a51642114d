/**
 * Tile identities of the game: five suits, the canonical index of every
 * identity in [0, 34), the honor/simple/terminal classification, the
 * (suit, value) order, and the deterministic 136-tile set.
 */
module Tiles {

  datatype Suit = Man | Pin | Sou | Wind | Dragon

  /** A tile identity. Only the values 1-9 (numbered suits), 1-4 (wind) and 1-3 (dragon) occur. */
  datatype TileId = TileId(suit: Suit, value: nat)

  /** One physical tile: an identity and which of its four copies it is. */
  datatype Tile = Tile(id: TileId, copyIndex: nat)

  datatype Ordering = Less | Equal | Greater

  /** Number of distinct identities, the length of a count array. */
  const IndexCount: nat := 34

  /** Number of physical tiles in a full set. */
  const FullSetSize: nat := 136

  predicate IsNumbered(s: Suit) {
    s == Man || s == Pin || s == Sou
  }

  /** The largest value a suit has. */
  function MaxValue(s: Suit): nat {
    match s
    case Wind => 4
    case Dragon => 3
    case _ => 9
  }

  /** The identities that exist; any other value is unreachable in the game. */
  predicate Valid(t: TileId) {
    1 <= t.value <= MaxValue(t.suit)
  }

  predicate IsHonor(t: TileId) {
    t.suit == Wind || t.suit == Dragon
  }

  predicate IsSimple(t: TileId) {
    !IsHonor(t) && 2 <= t.value <= 8
  }

  predicate IsTerminal(t: TileId) {
    !IsHonor(t) && (t.value == 1 || t.value == 9)
  }

  /** Position of an identity in a 34-slot count array. */
  function ToIndex(t: TileId): (i: nat)
    requires Valid(t)
    ensures i < IndexCount
  {
    match t.suit
    case Man => t.value - 1
    case Pin => 9 + (t.value - 1)
    case Sou => 18 + (t.value - 1)
    case Wind => 27 + (t.value - 1)
    case Dragon => 31 + (t.value - 1)
  }

  /** The identity stored at a count-array position; positions from 34 on do not exist. */
  function FromIndex(i: nat): (t: TileId)
    requires i < IndexCount
    ensures Valid(t) && ToIndex(t) == i
  {
    if i <= 8 then TileId(Man, i + 1)
    else if i <= 17 then TileId(Pin, i - 8)
    else if i <= 26 then TileId(Sou, i - 17)
    else if i <= 30 then TileId(Wind, i - 26)
    else TileId(Dragon, i - 30)
  }

  lemma FromIndexToIndex(t: TileId)
    requires Valid(t)
    ensures FromIndex(ToIndex(t)) == t
  {
  }

  /** Two valid identities share an index only if they are the same identity. */
  lemma ToIndexInjective(a: TileId, b: TileId)
    requires Valid(a) && Valid(b)
    ensures ToIndex(a) == ToIndex(b) <==> a == b
  {
    FromIndexToIndex(a);
    FromIndexToIndex(b);
  }

  /** Every valid identity is exactly one of honor, simple and terminal. */
  lemma ClassificationPartition(t: TileId)
    requires Valid(t)
    ensures IsHonor(t) || IsSimple(t) || IsTerminal(t)
    ensures !(IsHonor(t) && IsSimple(t)) && !(IsHonor(t) && IsTerminal(t)) && !(IsSimple(t) && IsTerminal(t))
  {
  }

  /** The honors are exactly the positions 27-33 of the count array. */
  lemma HonorIndex(t: TileId)
    requires Valid(t)
    ensures IsHonor(t) <==> ToIndex(t) >= 27
  {
  }

  /** The numbered suits are the three 9-wide bands at 0, 9 and 18, in suit order. */
  lemma NumberedIndex(t: TileId)
    requires Valid(t) && !IsHonor(t)
    ensures ToIndex(t) / 9 == SuitRank(t.suit) && ToIndex(t) % 9 == t.value - 1
  {
  }

  // ---------------------------------------------------------------------
  // Order: suits compare Man < Pin < Sou < Wind < Dragon, then values.

  function SuitRank(s: Suit): nat {
    match s
    case Man => 0
    case Pin => 1
    case Sou => 2
    case Wind => 3
    case Dragon => 4
  }

  function CompareNat(a: nat, b: nat): Ordering {
    if a < b then Less else if a == b then Equal else Greater
  }

  /** Rust's Ordering::then: the second comparison decides only a tie. */
  function Then(first: Ordering, second: Ordering): Ordering {
    if first == Equal then second else first
  }

  function Compare(a: TileId, b: TileId): Ordering {
    Then(CompareNat(SuitRank(a.suit), SuitRank(b.suit)), CompareNat(a.value, b.value))
  }

  function Flip(o: Ordering): Ordering {
    match o
    case Less => Greater
    case Equal => Equal
    case Greater => Less
  }

  lemma CompareAntisymmetric(a: TileId, b: TileId)
    ensures Compare(b, a) == Flip(Compare(a, b))
  {
  }

  lemma CompareEqualIff(a: TileId, b: TileId)
    ensures Compare(a, b) == Equal <==> a == b
  {
  }

  lemma CompareTransitive(a: TileId, b: TileId, c: TileId)
    requires Compare(a, b) == Less && Compare(b, c) == Less
    ensures Compare(a, c) == Less
  {
  }

  /** On valid identities the order is the order of the canonical indices. */
  lemma CompareIsIndexOrder(a: TileId, b: TileId)
    requires Valid(a) && Valid(b)
    ensures Compare(a, b) == CompareNat(ToIndex(a), ToIndex(b))
  {
  }

  // ---------------------------------------------------------------------
  // The full set of 136 physical tiles.

  /** The tile at position k of the generated set: identity k/4, copy k%4. */
  function FullSet(): (s: seq<Tile>)
    ensures |s| == FullSetSize
  {
    seq(FullSetSize, k requires 0 <= k < FullSetSize => Tile(FromIndex(k / 4), k % 4))
  }

  function Ids(s: seq<Tile>): (ids: seq<TileId>)
    ensures |ids| == |s|
  {
    seq(|s|, k requires 0 <= k < |s| => s[k].id)
  }

  /** Pushes the four copies of one identity, as the inner loop of generate_full_set does. */
  method PushCopies(tiles: seq<Tile>, id: TileId) returns (r: seq<Tile>)
    requires Valid(id) && |tiles| == 4 * ToIndex(id) && tiles == FullSet()[..|tiles|]
    ensures r == FullSet()[..|tiles| + 4]
  {
    r := tiles;
    for copy := 0 to 4
      invariant r == FullSet()[..|tiles| + copy]
    {
      FromIndexToIndex(id);
      r := r + [Tile(id, copy)];
    }
  }

  method GenerateFullSet() returns (tiles: seq<Tile>)
    ensures tiles == FullSet()
    ensures |tiles| == FullSetSize
    ensures forall k :: 0 <= k < |tiles| ==> ToIndex(tiles[k].id) == k / 4 && tiles[k].copyIndex == k % 4
  {
    tiles := [];
    var suits := [Man, Pin, Sou];
    for s := 0 to 3
      invariant tiles == FullSet()[..36 * s]
    {
      for value := 1 to 10
        invariant tiles == FullSet()[..36 * s + 4 * (value - 1)]
      {
        tiles := PushCopies(tiles, TileId(suits[s], value));
      }
    }
    for value := 1 to 5
      invariant tiles == FullSet()[..108 + 4 * (value - 1)]
    {
      tiles := PushCopies(tiles, TileId(Wind, value));
    }
    for value := 1 to 4
      invariant tiles == FullSet()[..124 + 4 * (value - 1)]
    {
      tiles := PushCopies(tiles, TileId(Dragon, value));
    }
  }

  /** Every valid identity occurs exactly four times in the full set. */
  lemma FullSetIdentityCount(t: TileId)
    requires Valid(t)
    ensures multiset(Ids(FullSet()))[t] == 4
  {
    var ids := Ids(FullSet());
    var i := ToIndex(t);
    var lo, hi := 4 * i, 4 * i + 4;
    assert ids == ids[..lo] + ids[lo..hi] + ids[hi..];
    forall k | 0 <= k < |ids| && k / 4 != i
      ensures ids[k] != t
    {
      assert ToIndex(ids[k]) == k / 4;
    }
    assert t !in ids[..lo];
    assert t !in ids[hi..];
    FromIndexToIndex(t);
    assert ids[lo..hi] == [t, t, t, t];
  }

  /** A physical tile is in the full set exactly when it is a valid identity with copy index 0-3. */
  lemma FullSetMembers(t: Tile)
    ensures t in FullSet() <==> Valid(t.id) && t.copyIndex < 4
  {
    if Valid(t.id) && t.copyIndex < 4 {
      var k := 4 * ToIndex(t.id) + t.copyIndex;
      FromIndexToIndex(t.id);
      assert FullSet()[k] == t;
    }
  }

  /** No physical tile occurs twice in the full set. */
  lemma FullSetDistinct(j: nat, k: nat)
    requires j < k < FullSetSize
    ensures FullSet()[j] != FullSet()[k]
  {
  }
}
