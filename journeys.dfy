/**
 * screens/Journeys.tsx: the flags and button of each journey card, and the
 * progress panel of the active journey.
 */
module Journeys {
  import opened Types
  import opened Text
  import opened GeminiService
  import opened UserDocument

  predicate IsCompleted(d: UserData, id: string)
  {
    id in d.completedJourneys
  }

  predicate IsActive(d: UserData, id: string)
  {
    d.activeJourney.Some? && d.activeJourney.value.journeyId == id
  }

  /** A card is locked while a different journey is active. */
  predicate IsLocked(d: UserData, id: string)
  {
    d.activeJourney.Some? && !IsActive(d, id)
  }

  datatype Badge = CompletedBadge | InProgressBadge | StartButton(enabled: bool)

  /** What a journey card shows: completed before in-progress before the Start button. */
  function BadgeOf(d: UserData, id: string): (b: Badge)
    ensures b == CompletedBadge <==> IsCompleted(d, id)
    ensures b == InProgressBadge <==> !IsCompleted(d, id) && IsActive(d, id)
    ensures b.StartButton? <==> !IsCompleted(d, id) && !IsActive(d, id)
    ensures b.StartButton? ==> (b.enabled <==> d.activeJourney.None?)
  {
    if IsCompleted(d, id) then CompletedBadge
    else if IsActive(d, id) then InProgressBadge
    else StartButton(!IsLocked(d, id))
  }

  /** Nothing is locked without an active journey, and the active journey itself is never locked. */
  lemma LockedFlags(d: UserData, id: string)
    ensures d.activeJourney.None? ==> !IsLocked(d, id)
    ensures IsActive(d, id) ==> !IsLocked(d, id)
    ensures IsLocked(d, id) <==> d.activeJourney.Some? && d.activeJourney.value.journeyId != id
  {
  }

  /** Starting a journey makes it the active one and locks the cards of every other journey. */
  lemma StartLocksOthers(d: UserData, id: string, other: string)
    requires other != id
    ensures IsActive(StartJourney(d, id), id) && IsLocked(StartJourney(d, id), other)
    ensures !IsCompleted(d, other) ==> BadgeOf(StartJourney(d, id), other) == StartButton(false)
  {
  }

  /** Finishing the last step turns the card into the completed badge and unlocks every card. */
  lemma {:induction false} FinishedJourneyShowsCompleted(d: UserData, j: Journey)
    requires FindJourney(JOURNEYS, j.id) == Some(j)
    ensures var r := StepTimes(StartJourney(d, j.id), |j.steps|);
      BadgeOf(r, j.id) == CompletedBadge && forall other :: !IsLocked(r, other)
  {
    JourneyCompletes(d, j);
  }

  /**
   * `Math.round(currentStep / steps.length * 100)`: the integer nearest to the
   * exact percentage, halves rounded up.
   */
  function ProgressPercent(step: int, n: int): (r: int)
    requires n > 0
    ensures 2 * n * r <= 200 * step + n < 2 * n * (r + 1)
  {
    (200 * step + n) / (2 * n)
  }

  /** The share starts at 0 and stays at or below 100 while a step remains. */
  lemma {:induction false} ProgressPercentBounds(step: int, n: int)
    requires n > 0 && 0 <= step < n
    ensures step == 0 ==> ProgressPercent(step, n) == 0
    ensures 0 <= ProgressPercent(step, n) <= 100
  {
    var r := ProgressPercent(step, n);
    assert 200 * step + n < 2 * n * 101;
    ScaleLess(r, 101, 2 * n);
    ScaleLess(-1, r, 2 * n);
  }

  lemma ScaleLess(x: int, y: int, c: int)
    requires c > 0 && c * x < c * y
    ensures x < y
  {
  }

  /** The width of the progress bar, in percent. */
  function BarWidth(step: int, n: int): (w: real)
    requires n > 0 && 0 <= step <= n
    ensures 0.0 <= w <= 100.0
    ensures w * (n as real) == (step as real) * 100.0
  {
    (step as real) / (n as real) * 100.0
  }

  /** `Step ${currentStep + 1} of ${steps.length}`: four words separated by single spaces. */
  function StepLabel(step: nat, n: nat): string
  {
    Join(["Step", NatToString(step + 1), "of", NatToString(n)], " ")
  }

  lemma NoSpaceInNumeral(n: nat)
    ensures ' ' !in NatToString(n)
  {
    var s := NatToString(n);
    assert forall i :: 0 <= i < |s| ==> IsDigit(s[i]);
  }

  /** The label reads back as the word Step, the one-based step number, the word of and the step count. */
  lemma {:induction false} StepLabelReadsBack(step: nat, n: nat)
    ensures Split(StepLabel(step, n), ' ') == ["Step", NatToString(step + 1), "of", NatToString(n)]
    ensures ParseNat(NatToString(step + 1)) == step + 1 && ParseNat(NatToString(n)) == n
  {
    var words := ["Step", NatToString(step + 1), "of", NatToString(n)];
    NoSpaceInNumeral(step + 1);
    NoSpaceInNumeral(n);
    JoinSplits(words, ' ');
    ParseNatToString(step + 1);
    ParseNatToString(n);
  }

  /** The button of the step panel: its caption and the route it opens. */
  function StepAction(t: StepType): (r: (string, string))
    ensures r.1 == "/journal" <==> t == JournalStep
    ensures r.1 == "/tools" <==> t == MeditationStep || t == BreathingStep
    ensures r.0 == (if t == JournalStep then "Go to Journal" else "Go to Tools")
  {
    match t
    case JournalStep => ("Go to Journal", "/journal")
    case MeditationStep => ("Go to Tools", "/tools")
    case BreathingStep => ("Go to Tools", "/tools")
  }

  /**
   * The action of the active journey's current step; on a consistent document
   * the step index is always inside the journey.
   */
  function CurrentStepAction(d: UserData): (r: Option<(string, string)>)
    requires Consistent(d)
    ensures r.Some? <==> d.activeJourney.Some? && FindJourney(JOURNEYS, d.activeJourney.value.journeyId).Some?
    ensures r.Some? ==>
      r.value == StepAction(FindJourney(JOURNEYS, d.activeJourney.value.journeyId).value.steps[d.activeJourney.value.currentStep].stepType)
  {
    if d.activeJourney.None? then None
    else
      match FindJourney(JOURNEYS, d.activeJourney.value.journeyId)
      case None => None
      case Some(j) => Some(StepAction(j.steps[d.activeJourney.value.currentStep].stepType))
  }

  /** In the gratitude journey, steps 3 and 6 send the user to the tools and every other step to the journal. */
  lemma GratitudeJourneyRoutes(k: int)
    requires 0 <= k < 7
    ensures StepAction(JOURNEYS[0].steps[k].stepType).1 == if k == 2 || k == 5 then "/tools" else "/journal"
  {
  }
}
