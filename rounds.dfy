/**
 * Round state: the three-step blind cycle, the level it drives, and the
 * GameState record whose budgets and target are reset between rounds.
 */
module Rounds {

  import opened Wrappers

  /** The three sub-rounds of a level, in play order. */
  datatype SubRound = SmallBlind | BigBlind | Boss

  /** Per-level target factor of a sub-round. */
  function TargetMultiplier(s: SubRound): nat {
    match s
    case SmallBlind => 100
    case BigBlind => 200
    case Boss => 400
  }

  /** The following sub-round of the same level; the Boss is the last one. */
  function Next(s: SubRound): Option<SubRound> {
    match s
    case SmallBlind => Some(BigBlind)
    case BigBlind => Some(Boss)
    case Boss => None
  }

  /** Only the Boss ends a level. */
  lemma NextNoneIff(s: SubRound)
    ensures Next(s).None? <==> s == Boss
  {
  }

  /** Each sub-round of a level asks for twice the factor of the one before. */
  lemma NextDoublesTarget(s: SubRound)
    requires Next(s).Some?
    ensures TargetMultiplier(Next(s).value) == 2 * TargetMultiplier(s)
  {
  }

  /** The values of GameState's fields at one moment. */
  datatype Snapshot = Snapshot(
    level: nat,
    subRound: SubRound,
    playsRemaining: nat,
    discardsRemaining: nat,
    targetScore: nat,
    currentScore: nat,
    baseAnte: nat,
    multiplier: nat,
    handSize: nat)

  /** Budget of plays and of discards at the start of every sub-round. */
  const RoundBudget: nat := 4

  /** GameState::default. */
  function DefaultState(): Snapshot {
    Snapshot(1, SmallBlind, RoundBudget, RoundBudget, 100, 0, 10, 1, 14)
  }

  /** reset_for_sub_round: full budgets, no score yet, and the target of the current sub-round. */
  function Reset(g: Snapshot): Snapshot {
    g.(playsRemaining := RoundBudget, discardsRemaining := RoundBudget, currentScore := 0,
       multiplier := 1, targetScore := TargetMultiplier(g.subRound) * g.level)
  }

  /** advance_sub_round: the next sub-round, or the next level after the Boss. */
  function Advance(g: Snapshot): Snapshot {
    match Next(g.subRound)
    case Some(next) => g.(subRound := next)
    case None => g.(level := g.level + 1, subRound := SmallBlind)
  }

  /** The target matches the sub-round and level. */
  predicate TargetCurrent(g: Snapshot) {
    g.targetScore == TargetMultiplier(g.subRound) * g.level
  }

  /** The default state is the state of a freshly reset first small blind. */
  lemma DefaultIsReset()
    ensures Reset(DefaultState()) == DefaultState()
    ensures TargetCurrent(DefaultState())
  {
  }

  /**
   * A reset gives full budgets, a zero score, multiplier 1 and the current
   * target, and keeps the level, the sub-round, the base and the hand size.
   */
  lemma ResetFacts(g: Snapshot)
    ensures var r := Reset(g);
      && r.playsRemaining == RoundBudget && r.discardsRemaining == RoundBudget
      && r.currentScore == 0 && r.multiplier == 1 && TargetCurrent(r)
      && r.level == g.level && r.subRound == g.subRound
      && r.baseAnte == g.baseAnte && r.handSize == g.handSize
  {
  }

  /** Resetting twice is resetting once. */
  lemma ResetIdempotent(g: Snapshot)
    ensures Reset(Reset(g)) == Reset(g)
  {
  }

  /**
   * Advancing moves only the sub-round and the level; the level grows by one
   * on the Boss step and stays put otherwise.
   */
  lemma AdvanceFacts(g: Snapshot)
    ensures var a := Advance(g);
      && a.level == (if g.subRound == Boss then g.level + 1 else g.level)
      && a.level >= g.level
      && (a.subRound == SmallBlind <==> g.subRound == Boss)
      && a.(level := g.level, subRound := g.subRound) == g
  {
  }

  /** Three advances come back to the same sub-round one level higher, with nothing else changed. */
  lemma AdvanceThrice(g: Snapshot)
    ensures Advance(Advance(Advance(g))) == g.(level := g.level + 1)
  {
  }

  /** From a small blind, three passed rounds lead to the next level's small blind with target 100 per level. */
  lemma NextLevelTarget(g: Snapshot)
    requires g.subRound == SmallBlind
    ensures var r := Reset(Advance(Advance(Advance(g))));
      r.subRound == SmallBlind && r.level == g.level + 1 && r.targetScore == 100 * (g.level + 1)
  {
    AdvanceThrice(g);
  }

  /** Advancing and then resetting, as a passed round does, leaves the target current. */
  lemma AdvanceResetCurrent(g: Snapshot)
    ensures TargetCurrent(Reset(Advance(g)))
  {
  }

  /** The GameState resource, whose fields the game updates in place. */
  class GameState {
    var level: nat
    var subRound: SubRound
    var playsRemaining: nat
    var discardsRemaining: nat
    var targetScore: nat
    var currentScore: nat
    var baseAnte: nat
    var multiplier: nat
    var handSize: nat

    function Snap(): Snapshot
      reads this
    {
      Snapshot(level, subRound, playsRemaining, discardsRemaining, targetScore,
               currentScore, baseAnte, multiplier, handSize)
    }

    /** GameState::default. */
    constructor ()
      ensures Snap() == DefaultState()
    {
      level, subRound := 1, SmallBlind;
      playsRemaining, discardsRemaining := RoundBudget, RoundBudget;
      targetScore, currentScore := 100, 0;
      baseAnte, multiplier := 10, 1;
      handSize := 14;
    }

    /** Overwrites every field with its default. */
    method ResetForNewGame()
      modifies this
      ensures Snap() == DefaultState()
    {
      level, subRound := 1, SmallBlind;
      playsRemaining, discardsRemaining := RoundBudget, RoundBudget;
      targetScore, currentScore := 100, 0;
      baseAnte, multiplier := 10, 1;
      handSize := 14;
    }

    method ResetForSubRound()
      modifies this
      ensures Snap() == Reset(old(Snap()))
    {
      playsRemaining := RoundBudget;
      discardsRemaining := RoundBudget;
      currentScore := 0;
      multiplier := 1;
      targetScore := TargetMultiplier(subRound) * level;
    }

    /** Always reports that it advanced. */
    method AdvanceSubRound() returns (advanced: bool)
      modifies this
      ensures advanced
      ensures Snap() == Advance(old(Snap()))
    {
      var next := Next(subRound);
      if next.Some? {
        subRound := next.value;
        advanced := true;
      } else {
        level := level + 1;
        subRound := SmallBlind;
        advanced := true;
      }
    }
  }
}
