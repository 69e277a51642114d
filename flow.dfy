/**
 * The table during play: the wall, hand and board handle sequences, the
 * selection and hidden markers, and the Tile component of every spawned
 * entity, with the play, discard, phase, scoring, round-result, spawn and
 * cleanup steps that update them.
 */
module Flow {

  import opened Tiles
  import opened Melds
  import opened Scoring
  import opened Rounds
  import opened Piles

  /** The sub-states of a game in progress. */
  datatype PlayPhase = Selecting | Scoring | RoundResult

  datatype AppState = Menu | Playing | GameOver

  /** The increasing run of count handles from base on. */
  function Fresh(base: Handle, count: nat): (r: seq<Handle>)
    ensures |r| == count
  {
    seq(count, k requires 0 <= k < count => base + k)
  }

  /** The handles of a fresh run are distinct. */
  lemma {:induction false} FreshDistinct(base: Handle, count: nat)
    ensures Distinct(Fresh(base, count))
  {
    if count > 0 {
      FreshDistinct(base, count - 1);
      var r, h := Fresh(base, count - 1), base + count - 1;
      assert Fresh(base, count) == r + [h];
      assert h !in r;
      forall x ensures multiset(r + [h])[x] <= 1 {
        assert multiset(r + [h])[x] == multiset(r)[x] + multiset([h])[x];
      }
    }
  }

  /** The identities of the handles that carry a Tile component, in order (a filter_map). */
  function PresentIds(hs: seq<Handle>, tiles: map<Handle, Tile>): (ids: seq<TileId>)
    ensures |ids| <= |hs|
  {
    if hs == [] then []
    else PresentIds(hs[..|hs| - 1], tiles) + (if hs[|hs| - 1] in tiles then [tiles[hs[|hs| - 1]].id] else [])
  }

  /**
   * When every handle carries a Tile, nothing is skipped and the identities
   * are those of the handles, in order; valid tiles give valid identities.
   */
  lemma {:induction false} PresentIdsFacts(hs: seq<Handle>, tiles: map<Handle, Tile>)
    ensures (forall h | h in hs :: h in tiles) ==>
      |PresentIds(hs, tiles)| == |hs| && forall i | 0 <= i < |hs| :: PresentIds(hs, tiles)[i] == tiles[hs[i]].id
    ensures (forall h | h in tiles :: Tiles.Valid(tiles[h].id)) ==> AllValid(PresentIds(hs, tiles))
  {
    if hs != [] {
      var init := hs[..|hs| - 1];
      assert forall h | h in init :: h in hs;
      PresentIdsFacts(init, tiles);
    }
  }

  /**
   * What SpawnTiles leaves behind, read back through the Tile components:
   * wall and hand together hold the shuffled set rearranged, so a
   * permutation of the full set, however many tiles were dealt.
   */
  lemma SpawnedPermutation(m: map<Handle, Tile>, base: Handle, ts: seq<Tile>, n: nat, wall: seq<Handle>, hand: seq<Handle>)
    requires forall h | h in m :: h < base
    requires n <= |ts|
    requires wall == Fresh(base, |ts|)[..|ts| - n] && hand == Drawn(Fresh(base, |ts|), n)
    ensures multiset(Present(wall + hand, AddTiles(m, base, ts))) == multiset(ts)
    ensures multiset(ts) == multiset(FullSet()) ==>
      multiset(Present(wall + hand, AddTiles(m, base, ts))) == multiset(FullSet())
  {
    var spawned, r := Fresh(base, |ts|), AddTiles(m, base, ts);
    SpawnedInOrder(m, base, ts);
    DealtSplit(spawned, n, wall, hand);
    PresentPermutation(wall + hand, spawned, r);
  }

  /** Reading a fresh run back gives the tiles in the order they were spawned. */
  lemma SpawnedInOrder(m: map<Handle, Tile>, base: Handle, ts: seq<Tile>)
    requires forall h | h in m :: h < base
    ensures Present(Fresh(base, |ts|), AddTiles(m, base, ts)) == ts
  {
    var spawned, r := Fresh(base, |ts|), AddTiles(m, base, ts);
    AddTilesFacts(m, base, ts);
    forall k | 0 <= k < |ts|
      ensures spawned[k] in r && r[spawned[k]] == ts[k]
    {
      assert spawned[k] == base + k;
    }
    PresentAll(spawned, r);
    assert Present(spawned, r) == ts;
  }

  /** Wall and hand after the deal hold the spawned handles, rearranged. */
  lemma DealtSplit(spawned: seq<Handle>, n: nat, wall: seq<Handle>, hand: seq<Handle>)
    requires n <= |spawned|
    requires wall == spawned[..|spawned| - n] && hand == Drawn(spawned, n)
    ensures multiset(wall + hand) == multiset(spawned)
  {
    DrawnSplit(spawned, n);
  }

  /** spawn_tiles reads the hand size from GameState and uses 8 when there is none. */
  function HandSize(game: GameState?): nat
    reads game
  {
    if game == null then 8 else game.handSize
  }

  /** The Tile components after spawning ts[k] as entity base + k, for each k. */
  function AddTiles(m: map<Handle, Tile>, base: Handle, ts: seq<Tile>): map<Handle, Tile>
    decreases |ts|
  {
    if ts == [] then m
    else AddTiles(m, base, ts[..|ts| - 1])[base + |ts| - 1 := ts[|ts| - 1]]
  }

  /** Spawning adds exactly the new handles, each with its tile, and keeps the old entities as they were. */
  lemma {:induction false} AddTilesFacts(m: map<Handle, Tile>, base: Handle, ts: seq<Tile>)
    requires forall h | h in m :: h < base
    ensures forall h :: h in AddTiles(m, base, ts) <==> h in m || base <= h < base + |ts|
    ensures forall h | h in m :: AddTiles(m, base, ts)[h] == m[h]
    ensures forall k | 0 <= k < |ts| :: AddTiles(m, base, ts)[base + k] == ts[k]
    decreases |ts|
  {
    if ts != [] {
      var init := ts[..|ts| - 1];
      AddTilesFacts(m, base, init);
      assert forall k | 0 <= k < |init| :: init[k] == ts[k];
    }
  }

  /** Spawning a shuffled full set onto valid entities leaves every entity a valid tile below the next handle. */
  lemma SpawnedValid(m: map<Handle, Tile>, base: Handle, ts: seq<Tile>)
    requires forall h | h in m :: h < base && Tiles.Valid(m[h].id)
    requires multiset(ts) == multiset(FullSet())
    ensures forall h | h in AddTiles(m, base, ts) :: h < base + |ts| && Tiles.Valid(AddTiles(m, base, ts)[h].id)
  {
    AddTilesFacts(m, base, ts);
    var r := AddTiles(m, base, ts);
    forall h | h in r ensures h < base + |ts| && Tiles.Valid(r[h].id) {
      if h !in m {
        var t := ts[h - base];
        assert r[h] == t;
        assert t in multiset(FullSet()) by {
          assert t in multiset(ts);
        }
        FullSetMembers(t);
      }
    }
  }

  /** After spawning a full set and dealing n of it, the table is free of duplicates and of unknown entities. */
  lemma DealValid(m: map<Handle, Tile>, base: Handle, ts: seq<Tile>, n: nat, p: Layout)
    requires forall h | h in m :: h < base && Tiles.Valid(m[h].id)
    requires multiset(ts) == multiset(FullSet()) && n <= |ts|
    requires p == Layout(Fresh(base, |ts|)[..|ts| - n], Drawn(Fresh(base, |ts|), n), [])
    ensures Distinct(All(p))
    ensures forall h | h in All(p) :: h in AddTiles(m, base, ts)
    ensures forall h | h in AddTiles(m, base, ts) :: h < base + |ts| && Tiles.Valid(AddTiles(m, base, ts)[h].id)
  {
    var spawned := Fresh(base, |ts|);
    var all := All(p);
    SpawnedValid(m, base, ts);
    FreshDistinct(base, |ts|);
    DrawnSplit(spawned, n);
    assert all == spawned[..|ts| - n] + Drawn(spawned, n);
    AddTilesFacts(m, base, ts);
    forall h | h in all ensures h in AddTiles(m, base, ts) {
      assert h in multiset(all);
      assert h in spawned;
      var k :| 0 <= k < |spawned| && spawned[k] == h;
    }
    DistinctSub(all, spawned);
  }

  class Table {
    var wall: seq<Handle>
    var hand: seq<Handle>
    var board: seq<Handle>
    /** Entities carrying TileSelected. */
    var selected: set<Handle>
    /** Entities hidden by a discard or a passed round (spawning also hides every tile; that hide is not tracked here). */
    var discarded: set<Handle>
    /** The Tile component of every spawned entity. */
    var tileOf: map<Handle, Tile>
    /** Every entity spawned so far has a smaller handle. */
    var nextHandle: Handle
    var phase: PlayPhase
    var app: AppState

    function Contents(): Layout
      reads this
    {
      Layout(wall, hand, board)
    }

    /** No entity is in two places, and every one on the table is a spawned, valid tile. */
    ghost predicate Valid()
      reads this
    {
      && Distinct(All(Contents()))
      && (forall h | h in All(Contents()) :: h in tileOf)
      && (forall h | h in tileOf :: h < nextHandle && Tiles.Valid(tileOf[h].id))
    }

    /** The empty table of a new world. */
    constructor ()
      ensures Valid()
      ensures Contents() == Layout([], [], []) && selected == {} && discarded == {}
      ensures tileOf == map[] && nextHandle == 0 && phase == Selecting && app == Menu
    {
      wall, hand, board := [], [], [];
      selected, discarded := {}, {};
      tileOf, nextHandle := map[], 0;
      phase, app := Selecting, Menu;
    }

    /** A state with the same total multiset of handles, and no more tiles, is valid too. */
    lemma ValidFrom(before: Layout)
      requires Distinct(All(before)) && forall h | h in All(before) :: h in tileOf
      requires forall h | h in tileOf :: h < nextHandle && Tiles.Valid(tileOf[h].id)
      requires multiset(All(Contents())) <= multiset(All(before))
      ensures Valid()
    {
      DistinctSub(All(Contents()), All(before));
      forall h | h in All(Contents()) ensures h in tileOf {
        assert h in multiset(All(Contents()));
      }
    }

    /** The selected hand tiles, in hand order. */
    method SelectedInHand() returns (r: seq<Handle>)
      ensures r == Moved(Contents(), selected)
    {
      r := [];
      for i := 0 to |hand|
        invariant r == Filter(hand[..i], selected)
      {
        assert hand[..i + 1][..i] == hand[..i];
        if hand[i] in selected {
          r := r + [hand[i]];
        }
      }
      assert hand[..|hand|] == hand;
    }

    /** Pops up to k handles off the end of the wall onto the end of the hand. */
    method DrawFromWall(k: nat)
      modifies this
      ensures var n := Min(k, |old(wall)|);
        wall == old(wall)[..|old(wall)| - n] && hand == old(hand) + Drawn(old(wall), n)
      ensures board == old(board) && selected == old(selected) && discarded == old(discarded)
      ensures tileOf == old(tileOf) && nextHandle == old(nextHandle)
      ensures phase == old(phase) && app == old(app)
    {
      var w, h := wall, hand;
      var drawCount := Min(k, |w|);
      for j := 0 to drawCount
        invariant w == wall[..|wall| - j] && h == hand + Drawn(wall, j)
      {
        if |w| > 0 {
          var e := w[|w| - 1];
          w := w[..|w| - 1];
          h := h + [e];
        }
      }
      wall, hand := w, h;
    }

    /**
     * Takes the played tiles out of the hand one at a time (removing every
     * occurrence, as Vec::retain does) and onto the end of the board,
     * clearing their selection.
     */
    method MoveToBoard(moved: seq<Handle>)
      modifies this
      ensures hand == Reject(old(hand), Elems(moved)) && board == old(board) + moved
      ensures selected == old(selected) - Elems(moved)
      ensures wall == old(wall) && discarded == old(discarded)
      ensures tileOf == old(tileOf) && nextHandle == old(nextHandle)
      ensures phase == old(phase) && app == old(app)
    {
      var h, b, sel := hand, board, selected;
      RejectNothing(hand);
      assert Elems(moved[..0]) == {};
      for i := 0 to |moved|
        invariant h == Reject(old(hand), Elems(moved[..i])) && b == old(board) + moved[..i]
        invariant sel == old(selected) - Elems(moved[..i])
        invariant unchanged(this)
      {
        var e := moved[i];
        RejectStep(old(hand), moved, i);
        h := Reject(h, {e});
        b := b + [e];
        sel := sel - {e};
      }
      assert moved[..|moved|] == moved;
      hand, board, selected := h, b, sel;
    }

    /**
     * Takes the discarded tiles out of the hand one at a time (removing every
     * occurrence) and hides them, clearing their selection.
     */
    method HideFromHand(moved: seq<Handle>)
      modifies this
      ensures hand == Reject(old(hand), Elems(moved)) && discarded == old(discarded) + Elems(moved)
      ensures selected == old(selected) - Elems(moved)
      ensures wall == old(wall) && board == old(board)
      ensures tileOf == old(tileOf) && nextHandle == old(nextHandle)
      ensures phase == old(phase) && app == old(app)
    {
      var h, d, sel := hand, discarded, selected;
      RejectNothing(hand);
      assert Elems(moved[..0]) == {};
      for i := 0 to |moved|
        invariant h == Reject(old(hand), Elems(moved[..i])) && d == old(discarded) + Elems(moved[..i])
        invariant sel == old(selected) - Elems(moved[..i])
        invariant unchanged(this)
      {
        var e := moved[i];
        RejectStep(old(hand), moved, i);
        h := Reject(h, {e});
        d := d + {e};
        sel := sel - {e};
      }
      assert moved[..|moved|] == moved;
      hand, discarded, selected := h, d, sel;
    }

    /** The piles and markers after the selected hand tiles are played. */
    method ApplyPlay(moved: seq<Handle>)
      requires Valid() && moved == Moved(Contents(), selected)
      modifies this
      ensures Valid()
      ensures Contents() == Play(old(Contents()), old(selected))
      ensures selected == old(selected) - Elems(moved)
      ensures discarded == old(discarded) && tileOf == old(tileOf) && nextHandle == old(nextHandle)
      ensures phase == old(phase) && app == old(app)
    {
      ghost var p, s := Contents(), selected;
      MoveToBoard(moved);
      DrawFromWall(|moved|);
      PlayOutcome(p, s, Contents());
      ValidFrom(p);
    }

    /** The piles and markers after the selected hand tiles are discarded. */
    method ApplyDiscard(moved: seq<Handle>)
      requires Valid() && moved == Moved(Contents(), selected)
      modifies this
      ensures Valid()
      ensures Contents() == Discard(old(Contents()), old(selected))
      ensures selected == old(selected) - Elems(moved)
      ensures discarded == old(discarded) + Elems(moved)
      ensures tileOf == old(tileOf) && nextHandle == old(nextHandle)
      ensures phase == old(phase) && app == old(app)
    {
      ghost var p, s := Contents(), selected;
      HideFromHand(moved);
      DrawFromWall(|moved|);
      DiscardOutcome(p, s, Contents());
      ValidFrom(p);
    }

    /** on_play_tiles. */
    method PlayTiles(game: GameState)
      requires Valid()
      modifies this, game
      ensures Valid()
      ensures var p, s := old(Contents()), old(selected);
        if old(game.playsRemaining) == 0 || Moved(p, s) == [] then
          Contents() == p && selected == s && game.Snap() == old(game.Snap())
        else
          && Contents() == Play(p, s)
          && selected == s - Elems(Moved(p, s))
          && game.Snap() == old(game.Snap()).(playsRemaining := old(game.playsRemaining) - 1)
      ensures discarded == old(discarded) && tileOf == old(tileOf) && nextHandle == old(nextHandle)
      ensures phase == old(phase) && app == old(app)
    {
      if game.playsRemaining == 0 {
        return;
      }
      var selectedInHand := SelectedInHand();
      if |selectedInHand| == 0 {
        return;
      }
      ApplyPlay(selectedInHand);
      game.playsRemaining := SaturatingDec(game.playsRemaining);
    }

    /** on_discard_tiles. */
    method DiscardTiles(game: GameState)
      requires Valid()
      modifies this, game
      ensures Valid()
      ensures var p, s := old(Contents()), old(selected);
        if old(game.discardsRemaining) == 0 || Moved(p, s) == [] then
          Contents() == p && selected == s && discarded == old(discarded)
          && game.Snap() == old(game.Snap())
        else
          && Contents() == Discard(p, s)
          && selected == s - Elems(Moved(p, s))
          && discarded == old(discarded) + Elems(Moved(p, s))
          && game.Snap() == old(game.Snap()).(discardsRemaining := old(game.discardsRemaining) - 1)
      ensures tileOf == old(tileOf) && nextHandle == old(nextHandle)
      ensures phase == old(phase) && app == old(app)
    {
      if game.discardsRemaining == 0 {
        return;
      }
      var selectedInHand := SelectedInHand();
      if |selectedInHand| == 0 {
        return;
      }
      ApplyDiscard(selectedInHand);
      game.discardsRemaining := SaturatingDec(game.discardsRemaining);
    }

    /** check_phase_transition: a full board or an exhausted play budget starts scoring. */
    method CheckPhaseTransition(game: GameState)
      requires phase == PlayPhase.Selecting && app == Playing
      modifies this
      ensures phase == (if ShouldScore(|board|, game.playsRemaining) then PlayPhase.Scoring else PlayPhase.Selecting)
      ensures Contents() == old(Contents()) && selected == old(selected) && discarded == old(discarded)
      ensures tileOf == old(tileOf) && nextHandle == old(nextHandle) && app == old(app)
    {
      if |board| >= 14 || game.playsRemaining == 0 {
        phase := PlayPhase.Scoring;
      }
    }

    /** The identities on the board, read off the Tile components. */
    method BoardIds() returns (ids: seq<TileId>)
      ensures ids == PresentIds(board, tileOf)
    {
      ids := [];
      for i := 0 to |board|
        invariant ids == PresentIds(board[..i], tileOf)
      {
        assert board[..i + 1][..i] == board[..i];
        if board[i] in tileOf {
          ids := ids + [tileOf[board[i]].id];
        }
      }
      assert board[..|board|] == board;
    }

    /**
     * calculate_score: evaluates the board, records base and multiplier, adds
     * the total to the score and reports whether the target is reached.
     */
    method CalculateScore(game: GameState) returns (r: HandResult, passed: bool)
      requires Valid()
      modifies game
      ensures AllValid(PresentIds(board, tileOf)) && r == Evaluate(PresentIds(board, tileOf))
      ensures game.Snap() == old(game.Snap()).(baseAnte := r.base, multiplier := r.multiplier,
                                               currentScore := old(game.currentScore) + Total(r))
      ensures passed <==> game.currentScore >= game.targetScore
    {
      var ids := BoardIds();
      PresentIdsFacts(board, tileOf);
      r := EvaluateHand(ids);
      game.baseAnte := r.base;
      game.multiplier := r.multiplier;
      game.currentScore := game.currentScore + Total(r);
      passed := game.currentScore >= game.targetScore;
    }

    /** Hides the board tiles, empties the board and goes back to selecting. */
    method ClearBoard()
      requires Valid()
      modifies this
      ensures Valid()
      ensures Contents() == old(Contents()).(board := []) && discarded == old(discarded) + Elems(old(board))
      ensures phase == Selecting && app == old(app)
      ensures selected == old(selected) && tileOf == old(tileOf) && nextHandle == old(nextHandle)
    {
      ghost var p := Contents();
      discarded := discarded + Elems(board);
      board := [];
      phase := Selecting;
      ValidFrom(p);
    }

    /**
     * evaluate_round_result: a passed round moves to the next sub-round with
     * fresh budgets, hides and clears the board and returns to selecting; a
     * failed one ends the game and leaves GameState alone.
     */
    method EvaluateRoundResult(game: GameState) returns (passed: bool)
      requires Valid()
      modifies this, game
      ensures Valid()
      ensures passed <==> old(game.currentScore) >= old(game.targetScore)
      ensures passed ==>
        && game.Snap() == Reset(Advance(old(game.Snap())))
        && Contents() == old(Contents()).(board := [])
        && discarded == old(discarded) + Elems(old(board))
        && phase == Selecting && app == old(app)
      ensures !passed ==>
        && game.Snap() == old(game.Snap())
        && Contents() == old(Contents()) && discarded == old(discarded)
        && phase == old(phase) && app == GameOver
      ensures selected == old(selected) && tileOf == old(tileOf) && nextHandle == old(nextHandle)
    {
      passed := game.currentScore >= game.targetScore;
      if passed {
        var _ := game.AdvanceSubRound();
        game.ResetForSubRound();
        ClearBoard();
      } else {
        app := GameOver;
      }
    }

    /** Spawns one entity per tile onto the end of the empty wall. */
    method FillWall(shuffled: seq<Tile>)
      requires wall == [] && hand == [] && board == []
      modifies this
      ensures wall == Fresh(old(nextHandle), |shuffled|) && hand == [] && board == []
      ensures nextHandle == old(nextHandle) + |shuffled|
      ensures tileOf == AddTiles(old(tileOf), old(nextHandle), shuffled)
      ensures selected == old(selected) && discarded == old(discarded)
      ensures phase == old(phase) && app == old(app)
    {
      ghost var base := nextHandle;
      for k := 0 to |shuffled|
        invariant wall == Fresh(base, k) && hand == [] && board == []
        invariant nextHandle == base + k
        invariant tileOf == AddTiles(old(tileOf), base, shuffled[..k])
        invariant selected == old(selected) && discarded == old(discarded)
        invariant phase == old(phase) && app == old(app)
      {
        var entity := nextHandle;
        nextHandle := nextHandle + 1;
        tileOf := tileOf[entity := shuffled[k]];
        wall := wall + [entity];
        assert shuffled[..k + 1][..k] == shuffled[..k];
        assert wall == Fresh(base, k + 1);
      }
      assert shuffled[..|shuffled|] == shuffled;
    }

    /**
     * spawn_tiles: empties the three sequences, spawns one entity per tile of
     * the shuffled full set onto the wall, then deals the hand off the end of
     * the wall.
     */
    method SpawnTiles(game: GameState?, shuffled: seq<Tile>)
      requires Valid()
      requires multiset(shuffled) == multiset(FullSet())
      modifies this
      ensures Valid()
      ensures var spawned, n := Fresh(old(nextHandle), FullSetSize), Min(HandSize(game), FullSetSize);
        && wall == spawned[..FullSetSize - n]
        && hand == Drawn(spawned, n)
        && board == []
      ensures nextHandle == old(nextHandle) + FullSetSize
      ensures tileOf == AddTiles(old(tileOf), old(nextHandle), shuffled)
      ensures selected == old(selected) && discarded == old(discarded)
      ensures phase == old(phase) && app == old(app)
    {
      var handSize := HandSize(game);
      assert |shuffled| == FullSetSize by {
        assert |multiset(shuffled)| == |multiset(FullSet())|;
      }
      wall, hand, board := [], [], [];
      ghost var base := nextHandle;
      FillWall(shuffled);
      DrawFromWall(handSize);
      DealValid(old(tileOf), base, shuffled, Min(handSize, FullSetSize), Contents());
    }

    /** cleanup_tiles: despawns every tile entity and empties the three sequences. */
    method CleanupTiles()
      modifies this
      ensures Valid()
      ensures Contents() == Layout([], [], []) && tileOf == map[]
      ensures selected == {} && discarded == {}
      ensures nextHandle == old(nextHandle) && phase == old(phase) && app == old(app)
    {
      tileOf := map[];
      selected, discarded := {}, {};
      wall, hand, board := [], [], [];
    }
  }
}
