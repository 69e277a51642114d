/**
 * The three handle sequences of the table (wall, hand, board) and what play
 * and discard do to them, on values: which hand tiles move, the order in
 * which replacements come off the end of the wall, and what is conserved.
 */
module Piles {

  /** An entity of the game world; only its identity matters here. */
  type Handle = nat

  /** The elements of s that are in keep, in their order in s (an iterator filter). */
  function Filter(s: seq<Handle>, keep: set<Handle>): (r: seq<Handle>)
    ensures |r| <= |s|
  {
    if s == [] then []
    else Filter(s[..|s| - 1], keep) + (if s[|s| - 1] in keep then [s[|s| - 1]] else [])
  }

  /** The elements of s that are not in drop, in their order in s (Vec::retain). */
  function Reject(s: seq<Handle>, drop: set<Handle>): (r: seq<Handle>)
    ensures |r| <= |s|
  {
    if s == [] then []
    else Reject(s[..|s| - 1], drop) + (if s[|s| - 1] in drop then [] else [s[|s| - 1]])
  }

  /** A handle is kept exactly when it is in s and in keep. */
  lemma {:induction false} FilterMembers(s: seq<Handle>, keep: set<Handle>)
    ensures forall x :: x in Filter(s, keep) <==> x in s && x in keep
  {
    if s != [] {
      FilterMembers(s[..|s| - 1], keep);
      assert s == s[..|s| - 1] + [s[|s| - 1]];
    }
  }

  /** A handle is retained exactly when it is in s and not in drop. */
  lemma {:induction false} RejectMembers(s: seq<Handle>, drop: set<Handle>)
    ensures forall x :: x in Reject(s, drop) <==> x in s && x !in drop
  {
    if s != [] {
      RejectMembers(s[..|s| - 1], drop);
      assert s == s[..|s| - 1] + [s[|s| - 1]];
    }
  }

  function Elems(s: seq<Handle>): set<Handle> {
    set x | x in s
  }

  /** Every handle of s kept or dropped, never both and never lost. */
  lemma {:induction false} FilterRejectSplit(s: seq<Handle>, keep: set<Handle>)
    ensures multiset(Filter(s, keep)) + multiset(Reject(s, keep)) == multiset(s)
  {
    if s != [] {
      var init, last := s[..|s| - 1], s[|s| - 1];
      FilterRejectSplit(init, keep);
      assert s == init + [last];
    }
  }

  /** Retaining all but x after dropping a set drops the set and x. */
  lemma {:induction false} RejectAgain(s: seq<Handle>, drop: set<Handle>, x: Handle)
    ensures Reject(Reject(s, drop), {x}) == Reject(s, drop + {x})
  {
    if s != [] {
      var init, last := s[..|s| - 1], s[|s| - 1];
      RejectAgain(init, drop, x);
      var r := Reject(init, drop);
      var tail: seq<Handle> := if last in drop + {x} then [] else [last];
      assert Reject(s, drop + {x}) == Reject(init, drop + {x}) + tail;
      if last in drop {
        assert Reject(s, drop) == r;
      } else {
        var rl := r + [last];
        assert Reject(s, drop) == rl;
        assert rl[..|rl| - 1] == r && rl[|rl| - 1] == last;
        assert Reject(rl, {x}) == Reject(r, {x}) + tail;
      }
    }
  }

  /** Hiding the moved handles one at a time: the step from the first i to the first i + 1. */
  lemma RejectStep(s: seq<Handle>, moved: seq<Handle>, i: nat)
    requires i < |moved|
    ensures Elems(moved[..i + 1]) == Elems(moved[..i]) + {moved[i]}
    ensures Reject(Reject(s, Elems(moved[..i])), {moved[i]}) == Reject(s, Elems(moved[..i + 1]))
  {
    assert moved[..i + 1] == moved[..i] + [moved[i]];
    RejectAgain(s, Elems(moved[..i]), moved[i]);
  }

  /** Retaining with nothing to drop keeps everything. */
  lemma {:induction false} RejectNothing(s: seq<Handle>)
    ensures Reject(s, {}) == s
  {
    if s != [] {
      RejectNothing(s[..|s| - 1]);
    }
  }

  /** Only the members of s matter to what s retains. */
  lemma {:induction false} RejectCongruent(s: seq<Handle>, a: set<Handle>, b: set<Handle>)
    requires forall x | x in s :: x in a <==> x in b
    ensures Reject(s, a) == Reject(s, b)
  {
    if s != [] {
      RejectCongruent(s[..|s| - 1], a, b);
    }
  }

  /** Retaining all but the selected handles found in s is retaining all but the selected ones. */
  lemma RejectFiltered(s: seq<Handle>, selected: set<Handle>)
    ensures Reject(s, Elems(Filter(s, selected))) == Reject(s, selected)
  {
    FilterMembers(s, selected);
    RejectCongruent(s, Elems(Filter(s, selected)), selected);
  }

  /** The first n handles popped off the end of w, in pop order. */
  function Drawn(w: seq<Handle>, n: nat): (r: seq<Handle>)
    requires n <= |w|
    ensures |r| == n
  {
    if n == 0 then [] else Drawn(w, n - 1) + [w[|w| - n]]
  }

  /** The i-th handle drawn is the i-th from the end of the wall. */
  lemma {:induction false} DrawnAt(w: seq<Handle>, n: nat)
    requires n <= |w|
    ensures forall i | 0 <= i < n :: Drawn(w, n)[i] == w[|w| - 1 - i]
  {
    if n > 0 {
      DrawnAt(w, n - 1);
    }
  }

  /** A prefix one longer holds one more handle. */
  lemma PrefixSnoc(w: seq<Handle>, k: nat)
    requires k < |w|
    ensures multiset(w[..k + 1]) == multiset(w[..k]) + multiset{w[k]}
  {
    assert w[..k + 1] == w[..k] + [w[k]];
  }

  /** Popping n handles splits the wall into what is left and what was drawn. */
  lemma {:induction false} DrawnSplit(w: seq<Handle>, n: nat)
    requires n <= |w|
    ensures multiset(w[..|w| - n]) + multiset(Drawn(w, n)) == multiset(w)
  {
    if n == 0 {
      assert w[..|w| - n] == w && Drawn(w, n) == [];
    } else {
      var k := |w| - n;
      DrawnSplit(w, n - 1);
      PrefixSnoc(w, k);
      calc {
        multiset(w[..k]) + multiset(Drawn(w, n));
        multiset(w[..k]) + (multiset(Drawn(w, n - 1)) + multiset{w[k]});
        (multiset(w[..k]) + multiset{w[k]}) + multiset(Drawn(w, n - 1));
        { assert w[..k + 1] == w[..|w| - (n - 1)]; }
        multiset(w[..|w| - (n - 1)]) + multiset(Drawn(w, n - 1));
      }
    }
  }

  /** The component of one handle, if it carries one. */
  function At<T>(h: Handle, m: map<Handle, T>): (r: seq<T>)
    ensures |r| <= 1
  {
    if h in m then [m[h]] else []
  }

  /** The components of the handles that carry one, in their order (a query over the handles). */
  function Present<T>(hs: seq<Handle>, m: map<Handle, T>): (r: seq<T>)
    ensures |r| <= |hs|
  {
    if hs == [] then [] else Present(hs[..|hs| - 1], m) + At(hs[|hs| - 1], m)
  }

  /** The components of a concatenation are those of its parts. */
  lemma {:induction false} PresentAppend<T>(a: seq<Handle>, b: seq<Handle>, m: map<Handle, T>)
    ensures Present(a + b, m) == Present(a, m) + Present(b, m)
    decreases |b|
  {
    if b == [] {
      assert a + b == a;
    } else {
      var init, last := b[..|b| - 1], b[|b| - 1];
      var ab := a + b;
      assert ab[..|ab| - 1] == a + init && ab[|ab| - 1] == last;
      assert Present(ab, m) == Present(a + init, m) + At(last, m);
      assert Present(b, m) == Present(init, m) + At(last, m);
      PresentAppend(a, init, m);
    }
  }

  /** Taking x off the end of a and out of position j of b keeps two permutations permutations. */
  lemma RemoveMatched(a: seq<Handle>, b: seq<Handle>, j: nat)
    requires multiset(a) == multiset(b) && a != [] && j < |b| && b[j] == a[|a| - 1]
    ensures multiset(a[..|a| - 1]) == multiset(b[..j] + b[j + 1..])
  {
    var x, u, v := b[j], b[..j], b[j + 1..];
    var p, q := multiset(a[..|a| - 1]), multiset(u + v);
    assert a == a[..|a| - 1] + [x];
    assert multiset(a) == p + multiset{x};
    assert multiset(b) == q + multiset{x} by {
      assert b == u + [x] + v;
      assert b == (u + v)[..|u|] + [x] + (u + v)[|u|..];
    }
    assert forall y :: p[y] == (p + multiset{x})[y] - multiset{x}[y];
    assert forall y :: q[y] == (q + multiset{x})[y] - multiset{x}[y];
  }

  /** The components of b, split around position j. */
  lemma PresentAround<T>(b: seq<Handle>, j: nat, m: map<Handle, T>)
    requires j < |b|
    ensures multiset(Present(b, m)) == multiset(Present(b[..j] + b[j + 1..], m)) + multiset(At(b[j], m))
  {
    var u, x, v := b[..j], b[j], b[j + 1..];
    assert b == (u + [x]) + v;
    PresentAppend(u + [x], v, m);
    PresentAppend(u, [x], m);
    PresentAppend(u, v, m);
    assert [x][..0] == [];
    var pu, pv, px := Present(u, m), Present(v, m), At(x, m);
    assert Present(b, m) == pu + px + pv;
    assert Present(u + v, m) == pu + pv;
  }

  /** Reordering the handles reorders their components and nothing more. */
  lemma {:induction false} PresentPermutation<T>(a: seq<Handle>, b: seq<Handle>, m: map<Handle, T>)
    requires multiset(a) == multiset(b)
    ensures multiset(Present(a, m)) == multiset(Present(b, m))
    decreases |a|
  {
    if a == [] {
      assert |b| == |multiset(b)| == 0;
    } else {
      var init, x := a[..|a| - 1], a[|a| - 1];
      assert x in multiset(b) by {
        assert a == init + [x];
      }
      var j :| 0 <= j < |b| && b[j] == x;
      RemoveMatched(a, b, j);
      PresentPermutation(init, b[..j] + b[j + 1..], m);
      PresentAround(b, j, m);
    }
  }

  /** When every handle carries a component, they are the handles' components, in order. */
  lemma {:induction false} PresentAll<T>(hs: seq<Handle>, m: map<Handle, T>)
    requires forall i | 0 <= i < |hs| :: hs[i] in m
    ensures |Present(hs, m)| == |hs|
    ensures forall i | 0 <= i < |hs| :: Present(hs, m)[i] == m[hs[i]]
  {
    if hs != [] {
      var init := hs[..|hs| - 1];
      assert forall i | 0 <= i < |init| :: init[i] == hs[i];
      PresentAll(init, m);
    }
  }

  /** No handle occurs twice. */
  ghost predicate Distinct(s: seq<Handle>) {
    forall x :: multiset(s)[x] <= 1
  }

  function Min(a: nat, b: nat): nat {
    if a <= b then a else b
  }

  /** u32::saturating_sub(1): one less, but never below zero. */
  function SaturatingDec(n: nat): (r: nat)
    ensures n > 0 ==> r + 1 == n
    ensures n == 0 ==> r == 0
  {
    if n == 0 then 0 else n - 1
  }

  datatype Layout = Layout(wall: seq<Handle>, hand: seq<Handle>, board: seq<Handle>)

  /** Every handle on the table. */
  function All(p: Layout): seq<Handle> {
    p.wall + p.hand + p.board
  }

  /** The hand tiles a play or discard acts on: the selected ones, in hand order. */
  function Moved(p: Layout, selected: set<Handle>): seq<Handle> {
    Filter(p.hand, selected)
  }

  /** How many replacements come off the wall: one per moved tile while the wall lasts. */
  function Draws(p: Layout, selected: set<Handle>): nat {
    Min(|Moved(p, selected)|, |p.wall|)
  }

  /** The piles after a play that passed its guards. */
  function Play(p: Layout, selected: set<Handle>): Layout {
    var n := Draws(p, selected);
    Layout(p.wall[..|p.wall| - n], Reject(p.hand, selected) + Drawn(p.wall, n), p.board + Moved(p, selected))
  }

  /** The piles after a discard that passed its guards. */
  function Discard(p: Layout, selected: set<Handle>): Layout {
    var n := Draws(p, selected);
    Layout(p.wall[..|p.wall| - n], Reject(p.hand, selected) + Drawn(p.wall, n), p.board)
  }

  /**
   * A layout q whose wall and hand are the parts of p's wall and hand, and
   * whose board is p's board with or without the moved tiles, holds the same
   * handles as p, or the same less the moved ones.
   */
  lemma Regroup(p: Layout, q: Layout, left: seq<Handle>, drawn: seq<Handle>, kept: seq<Handle>, moved: seq<Handle>)
    requires multiset(left) + multiset(drawn) == multiset(p.wall)
    requires multiset(moved) + multiset(kept) == multiset(p.hand)
    requires q.wall == left && q.hand == kept + drawn
    ensures q.board == p.board + moved ==> multiset(All(q)) == multiset(All(p))
    ensures q.board == p.board ==> multiset(All(q)) + multiset(moved) == multiset(All(p))
  {
  }

  /** A play moves handles between the piles and creates or loses none. */
  lemma PlayConserves(p: Layout, selected: set<Handle>)
    ensures multiset(All(Play(p, selected))) == multiset(All(p))
  {
    var n := Draws(p, selected);
    FilterRejectSplit(p.hand, selected);
    DrawnSplit(p.wall, n);
    Regroup(p, Play(p, selected), p.wall[..|p.wall| - n], Drawn(p.wall, n), Reject(p.hand, selected), Moved(p, selected));
  }

  /** A discard takes exactly the moved handles off the table. */
  lemma DiscardRemoves(p: Layout, selected: set<Handle>)
    ensures multiset(All(Discard(p, selected))) + multiset(Moved(p, selected)) == multiset(All(p))
  {
    var n := Draws(p, selected);
    FilterRejectSplit(p.hand, selected);
    DrawnSplit(p.wall, n);
    Regroup(p, Discard(p, selected), p.wall[..|p.wall| - n], Drawn(p.wall, n), Reject(p.hand, selected), Moved(p, selected));
  }

  /**
   * Taking the moved tiles out of the hand onto the board and then drawing
   * as many replacements as the wall allows is a play, and conserves the handles.
   */
  lemma PlayOutcome(p: Layout, selected: set<Handle>, q: Layout)
    requires var m := Moved(p, selected); var n := Min(|m|, |p.wall|);
      q == Layout(p.wall[..|p.wall| - n], Reject(p.hand, Elems(m)) + Drawn(p.wall, n), p.board + m)
    ensures q == Play(p, selected) && multiset(All(q)) == multiset(All(p))
  {
    RejectFiltered(p.hand, selected);
    PlayConserves(p, selected);
  }

  /** The same for a discard, which takes the moved tiles off the table. */
  lemma DiscardOutcome(p: Layout, selected: set<Handle>, q: Layout)
    requires var m := Moved(p, selected); var n := Min(|m|, |p.wall|);
      q == Layout(p.wall[..|p.wall| - n], Reject(p.hand, Elems(m)) + Drawn(p.wall, n), p.board)
    ensures q == Discard(p, selected) && multiset(All(q)) <= multiset(All(p))
  {
    RejectFiltered(p.hand, selected);
    assert q == Discard(p, selected);
    DiscardRemoves(p, selected);
    assert multiset(All(q)) <= multiset(All(q)) + multiset(Moved(p, selected));
  }

  /** Removing occurrences keeps a sequence free of duplicates. */
  lemma DistinctSub(a: seq<Handle>, b: seq<Handle>)
    requires Distinct(b) && multiset(a) <= multiset(b)
    ensures Distinct(a)
  {
    forall x ensures multiset(a)[x] <= 1 {
      assert multiset(a)[x] <= multiset(b)[x];
    }
  }

  /** Neither step can put a handle in two places at once. */
  lemma StepsKeepDistinct(p: Layout, selected: set<Handle>)
    requires Distinct(All(p))
    ensures Distinct(All(Play(p, selected))) && Distinct(All(Discard(p, selected)))
  {
    PlayConserves(p, selected);
    DiscardRemoves(p, selected);
    DistinctSub(All(Play(p, selected)), All(p));
    DistinctSub(All(Discard(p, selected)), All(p));
  }

  /**
   * A play adds the k moved tiles to the board, takes n = min(k, |wall|) off
   * the wall, and leaves the hand k - n shorter: as long as the wall lasts
   * the hand keeps its size.
   */
  lemma PlaySizes(p: Layout, selected: set<Handle>)
    ensures var q, k, n := Play(p, selected), |Moved(p, selected)|, Draws(p, selected);
      && |q.board| == |p.board| + k
      && |q.wall| == |p.wall| - n
      && |q.hand| + k == |p.hand| + n
      && (k <= |p.wall| ==> |q.hand| == |p.hand|)
  {
    FilterRejectSplit(p.hand, selected);
    assert |multiset(p.hand)| == |multiset(Moved(p, selected))| + |multiset(Reject(p.hand, selected))|;
  }

  /**
   * Where each handle ends up after a play: the board gains exactly the
   * selected hand tiles, the hand keeps exactly its unselected tiles plus the
   * drawn ones, and the wall only loses handles.
   */
  lemma PlayMembers(p: Layout, selected: set<Handle>, x: Handle)
    requires Distinct(All(p))
    ensures var q := Play(p, selected);
      && (x in q.board <==> x in p.board || (x in p.hand && x in selected))
      && (x in q.hand <==> (x in p.hand && x !in selected) || x in Drawn(p.wall, Draws(p, selected)))
      && (x in q.wall ==> x in p.wall)
      && (x in p.hand && x in selected ==> x !in q.hand)
  {
    var n := Draws(p, selected);
    DrawnSplit(p.wall, n);
    FilterMembers(p.hand, selected);
    RejectMembers(p.hand, selected);
    if x in Drawn(p.wall, n) {
      assert x in p.wall by {
        assert x in multiset(Drawn(p.wall, n));
        assert x in multiset(p.wall);
      }
      assert multiset(All(p))[x] == multiset(p.wall)[x] + multiset(p.hand)[x] + multiset(p.board)[x];
      assert x !in p.hand;
    }
    if x in p.wall[..|p.wall| - n] {
      assert x in multiset(p.wall[..|p.wall| - n]);
    }
  }

  /** The phase check: scoring starts once the board holds 14 tiles or no play is left. */
  predicate ShouldScore(boardSize: nat, playsRemaining: nat) {
    boardSize >= 14 || playsRemaining == 0
  }

  /** A play from a board of 13 with more than one tile selected overshoots 14: the board is not capped. */
  lemma PlayOverfills(p: Layout, selected: set<Handle>)
    requires |p.board| == 13 && |Moved(p, selected)| >= 2
    ensures |Play(p, selected).board| > 14 && ShouldScore(|Play(p, selected).board|, 1)
  {
  }
}
