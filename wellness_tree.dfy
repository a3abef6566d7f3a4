/**
 * components/WellnessTree.tsx: the streak picks one of six growth stages of the
 * tree, each with its own caption.
 */
module WellnessTree {

  datatype Tier = Sprout | Sapling | SmallTree | GrowingTree | FlourishingTree | MajesticTree

  /** The position of a tier in the growth order. */
  function Rank(t: Tier): nat
  {
    match t
    case Sprout => 0
    case Sapling => 1
    case SmallTree => 2
    case GrowingTree => 3
    case FlourishingTree => 4
    case MajesticTree => 5
  }

  /** The smallest streak that shows a tier; Sprout is shown for every streak up to 1. */
  function LowestStreak(t: Tier): int
  {
    match t
    case Sprout => 1
    case Sapling => 2
    case SmallTree => 5
    case GrowingTree => 10
    case FlourishingTree => 20
    case MajesticTree => 30
  }

  /** The if/else chain of the component. */
  function TierOf(streak: int): (t: Tier)
    ensures t == Sprout || LowestStreak(t) <= streak
    ensures forall u :: Rank(t) < Rank(u) ==> streak < LowestStreak(u)
  {
    if streak <= 1 then Sprout
    else if streak <= 4 then Sapling
    else if streak <= 9 then SmallTree
    else if streak <= 19 then GrowingTree
    else if streak <= 29 then FlourishingTree
    else MajesticTree
  }

  function Description(t: Tier): string
  {
    match t
    case Sprout => "A new journey begins."
    case Sapling => "Your consistency is taking root."
    case SmallTree => "Growing stronger every day."
    case GrowingTree => "Your dedication is branching out."
    case FlourishingTree => "In full bloom with your commitment."
    case MajesticTree => "A testament to your self-care."
  }

  /** What the component shows for a streak: the tier and its caption. */
  function TreeView(streak: int): (r: (Tier, string))
    ensures r.1 == Description(r.0) && r.0 == TierOf(streak)
  {
    var t := TierOf(streak);
    (t, Description(t))
  }

  /**
   * A streak shows tier t exactly when it reaches t's lowest streak (Sprout has
   * no lower bound) and stays below the lowest streak of the next tier.
   */
  lemma {:induction false} TierBoundaries(streak: int, t: Tier)
    ensures TierOf(streak) == t <==>
      (t == Sprout || LowestStreak(t) <= streak) &&
      (forall u :: Rank(u) == Rank(t) + 1 ==> streak < LowestStreak(u))
  {
    var s := TierOf(streak);
    if s != t {
      if Rank(s) < Rank(t) {
        assert streak < LowestStreak(t);
      } else {
        var next := match t
          case Sprout => Sapling
          case Sapling => SmallTree
          case SmallTree => GrowingTree
          case GrowingTree => FlourishingTree
          case FlourishingTree => MajesticTree
          case MajesticTree => MajesticTree;
        assert Rank(next) == Rank(t) + 1 && LowestStreak(next) <= LowestStreak(s);
      }
    } else {
      forall u | Rank(u) == Rank(t) + 1 ensures streak < LowestStreak(u) {
        assert Rank(s) < Rank(u);
      }
    }
  }

  /** A longer streak never shows an earlier tier. */
  lemma {:induction false} TierMonotone(a: int, b: int)
    requires a <= b
    ensures Rank(TierOf(a)) <= Rank(TierOf(b))
  {
    var ta, tb := TierOf(a), TierOf(b);
    assert tb == Sprout || LowestStreak(tb) <= b;
  }

  /** Different tiers carry different captions, so the caption identifies the tier. */
  lemma DescriptionsDistinct(t: Tier, u: Tier)
    requires t != u
    ensures Description(t) != Description(u)
  {
  }

  /** The streak of a fresh document, and any streak of 1, shows a sprout. */
  lemma NoStreakIsSprout(streak: int)
    requires streak <= 1
    ensures TreeView(streak) == (Sprout, "A new journey begins.")
  {
  }
}
