/**
 * screens/Tools.tsx: the breathing animation (phase index, countdown and circle
 * scale, advanced by its interval and timeout callbacks) and the play button of
 * an audio item, which drives the soundscape player of the provider.
 */
module Tools {
  import opened Types
  import opened UserContext

  /** The circle's target scale: 1 (`Full`) or 0.5 (`Half`). */
  datatype Scale = Full | Half

  /** Inhale grows the circle, exhale shrinks it, a hold keeps the previous scale. */
  function ScaleFor(name: PhaseName, previous: Scale): (s: Scale)
    ensures name == Inhale ==> s == Full
    ensures name == Exhale ==> s == Half
    ensures name == Hold ==> s == previous
  {
    match name
    case Inhale => Full
    case Exhale => Half
    case Hold => previous
  }

  /** The phase after `i` in a pattern of `n` phases. */
  function NextPhase(i: nat, n: nat): (j: nat)
    requires n > 0
    ensures j < n
    ensures i < n - 1 ==> j == i + 1
    ensures i == n - 1 ==> j == 0
  {
    SuccessorMod(i, n);
    (i + 1) % n
  }

  /** The remainder of a successor: itself below `n`, zero at `n`. */
  lemma SuccessorMod(i: nat, n: nat)
    requires n > 0
    ensures i + 1 < n ==> (i + 1) % n == i + 1
    ensures i + 1 == n ==> (i + 1) % n == 0
  {
  }

  /** The phase reached from `i` after `k` timeouts. */
  function PhaseAfter(i: nat, k: nat, n: nat): (j: nat)
    requires i < n
    ensures j < n
  {
    if k == 0 then i else NextPhase(PhaseAfter(i, k - 1, n), n)
  }

  /** Timeouts compose: `a` of them and then `b` more are `a + b` of them. */
  lemma {:induction false} PhaseAfterAdd(i: nat, a: nat, b: nat, n: nat)
    requires i < n
    ensures PhaseAfter(i, a + b, n) == PhaseAfter(PhaseAfter(i, a, n), b, n)
  {
    if b > 0 {
      PhaseAfterAdd(i, a, b - 1, n);
    }
  }

  /** Before the end of the pattern each timeout moves one phase on. */
  lemma {:induction false} PhaseAfterSteps(i: nat, k: nat, n: nat)
    requires i + k < n
    ensures PhaseAfter(i, k, n) == i + k
  {
    if k > 0 {
      PhaseAfterSteps(i, k - 1, n);
    }
  }

  /** From any phase, `n - i` timeouts reach the first phase. */
  lemma PhaseAfterWraps(i: nat, n: nat)
    requires i < n
    ensures PhaseAfter(i, n - i, n) == 0
  {
    PhaseAfterSteps(i, n - i - 1, n);
  }

  /** The cycle: from any phase, one timeout per phase comes back to it. */
  lemma PhaseCycle(i: nat, n: nat)
    requires i < n
    ensures PhaseAfter(i, n, n) == i
  {
    PhaseAfterWraps(i, n);
    PhaseAfterAdd(i, n - i, i, n);
    PhaseAfterSteps(0, i, n);
  }

  /** Every phase `j` is reached from any phase `i` within `n - 1` timeouts. */
  lemma PhaseReached(i: nat, n: nat, j: nat)
    requires i < n && j < n
    ensures j >= i ==> PhaseAfter(i, j - i, n) == j
    ensures j < i ==> PhaseAfter(i, n - i + j, n) == j
  {
    if j >= i {
      PhaseAfterSteps(i, j - i, n);
    } else {
      PhaseAfterWraps(i, n);
      PhaseAfterAdd(i, n - i, j, n);
      PhaseAfterSteps(0, j, n);
    }
  }

  /** The countdown's interval step: one less, but never below 1. */
  function CountDown(c: int): (r: int)
    ensures c > 1 ==> r == c - 1
    ensures c <= 1 ==> r == 1
  {
    if c > 1 then c - 1 else 1
  }

  /** The countdown after `t` ticks. */
  function CountAfter(c: int, t: nat): int
  {
    if t == 0 then c else CountDown(CountAfter(c, t - 1))
  }

  /** From a duration `d >= 1`, `t` ticks leave `d - t`, or 1 once that would reach 1. */
  lemma {:induction false} CountAfterClosedForm(d: int, t: nat)
    requires d >= 1
    ensures CountAfter(d, t) == if d - t >= 1 then d - t else 1
  {
    if t > 0 {
      CountAfterClosedForm(d, t - 1);
    }
  }

  /**
   * The scale while phase `i` shows, for a pattern that starts from scale 0.5:
   * that of the nearest phase at or before `i` that is not a hold.
   */
  function ScaleDuring(pattern: seq<BreathPhase>, i: nat): Scale
    requires i < |pattern|
  {
    ScaleFor(pattern[i].name, if i == 0 then Half else ScaleDuring(pattern, i - 1))
  }

  class BreathingAnimation {
    const pattern: seq<BreathPhase>
    var phaseIndex: nat
    var counter: int
    var scale: Scale

    /**
     * The phase index stays in the pattern; when the pattern does not start with
     * a hold, the scale is a function of the current phase alone.
     */
    ghost predicate Valid()
      reads this
    {
      && 0 < |pattern| && phaseIndex < |pattern|
      && (pattern[0].name != Hold ==> scale == ScaleDuring(pattern, phaseIndex))
    }

    /** Mounting with scale 0.5 on the first phase, followed by the phase effect's first run. */
    constructor (exercise: BreathingExercise)
      requires |exercise.pattern| > 0
      ensures Valid() && pattern == exercise.pattern && phaseIndex == 0
      ensures counter == pattern[0].duration && scale == ScaleFor(pattern[0].name, Half)
    {
      pattern := exercise.pattern;
      phaseIndex := 0;
      counter := exercise.pattern[0].duration;
      scale := Half;
      new;
      EnterPhase();
    }

    /** The phase effect's body: reset the countdown and set the scale of the phase. */
    method EnterPhase()
      requires 0 < |pattern| && phaseIndex < |pattern|
      requires pattern[0].name != Hold && phaseIndex > 0 ==> scale == ScaleDuring(pattern, phaseIndex - 1)
      modifies this`counter, this`scale
      ensures Valid()
      ensures counter == pattern[phaseIndex].duration
      ensures scale == ScaleFor(pattern[phaseIndex].name, old(scale))
    {
      var phase := pattern[phaseIndex];
      counter := phase.duration;
      if phase.name == Inhale {
        scale := Full;
      } else if phase.name == Exhale {
        scale := Half;
      }
    }

    /** The one-second interval callback. */
    method Tick()
      requires Valid()
      modifies this`counter
      ensures Valid() && counter == CountDown(old(counter))
    {
      counter := if counter > 1 then counter - 1 else 1;
    }

    /**
     * The phase timeout: move to the next phase.  The effect runs again only
     * when the index changed, which it does for every pattern of two or more
     * phases.
     */
    method PhaseTimeout()
      requires Valid()
      modifies this`phaseIndex, this`counter, this`scale
      ensures Valid() && phaseIndex == NextPhase(old(phaseIndex), |pattern|)
      ensures |pattern| > 1 ==> counter == pattern[phaseIndex].duration
      ensures |pattern| > 1 ==> scale == ScaleFor(pattern[phaseIndex].name, old(scale))
      ensures |pattern| == 1 ==> counter == old(counter) && scale == old(scale)
    {
      var next := NextPhase(phaseIndex, |pattern|);
      if next != phaseIndex {
        phaseIndex := next;
        EnterPhase();
      }
    }
  }

  /** Box breathing: the circle is full while inhaling and holding, half while exhaling and holding. */
  lemma BoxBreathingScales()
    ensures BREATHING_EXERCISES[0].id == "box"
    ensures forall i :: 0 <= i < 4 ==>
      ScaleDuring(BREATHING_EXERCISES[0].pattern, i) == if i < 2 then Full else Half
  {
    var p := BREATHING_EXERCISES[0].pattern;
    assert ScaleDuring(p, 0) == Full;
    assert ScaleDuring(p, 1) == Full;
    assert ScaleDuring(p, 2) == Half;
    assert ScaleDuring(p, 3) == Half;
  }

  // ---------------------------------------------------------------- audio items

  predicate IsActive(active: Option<Soundscape>, item: Soundscape)
  {
    active.Some? && active.value.id == item.id
  }

  /** The item is the active soundscape and playback is on. */
  predicate IsPlaying(active: Option<Soundscape>, playing: bool, item: Soundscape)
  {
    IsActive(active, item) && playing
  }

  /** The item's play button: pause or resume the active item, otherwise start this one. */
  method HandlePlay(p: UserProvider, item: Soundscape)
    requires p.Valid()
    modifies p`activeSoundscape, p`isSoundscapePlaying
    ensures p.Valid()
    ensures old(IsActive(p.activeSoundscape, item)) ==>
      p.activeSoundscape == old(p.activeSoundscape) && p.isSoundscapePlaying == !old(p.isSoundscapePlaying)
    ensures !old(IsActive(p.activeSoundscape, item)) ==>
      p.activeSoundscape == Some(item) && IsPlaying(p.activeSoundscape, p.isSoundscapePlaying, item)
  {
    if IsActive(p.activeSoundscape, item) {
      p.ToggleSoundscape();
    } else {
      p.PlaySoundscape(item);
    }
  }
}
