/**
 * components/CheckInModal.tsx: the five-step check-in wizard (mood, energy,
 * sleep, gratitude, summary) and its rating buttons.
 */
module CheckInModal {
  import opened Types
  import opened UserContext

  /** `steps.length`: Mood, Energy, Sleep, Gratitude, Summary. */
  const STEP_COUNT := 5
  const LAST_STEP := STEP_COUNT - 1
  /** Every rating selector has five buttons. */
  const LABEL_COUNT := 5
  const DEFAULT_RATING := 3

  datatype SlideDirection = Forward | Backward

  datatype RatingField = MoodRating | EnergyRating | SleepRating

  /** The value the button at `index` sets: the top button is the best rating. */
  function RatingValue(index: int): (v: int)
    requires 0 <= index < LABEL_COUNT
    ensures 1 <= v <= LABEL_COUNT
    ensures v + index == LABEL_COUNT
  {
    LABEL_COUNT - index
  }

  /** Whether the button at `index` is drawn as selected for `value`. */
  predicate Highlighted(value: int, index: int)
  {
    value == LABEL_COUNT - index
  }

  /**
   * A rating in 1..5 highlights exactly one of the five buttons, the one that
   * sets it; a value outside 1..5 highlights none.
   */
  lemma {:induction false} ExactlyOneHighlighted(value: int)
    ensures 1 <= value <= LABEL_COUNT ==>
      Highlighted(value, LABEL_COUNT - value) && RatingValue(LABEL_COUNT - value) == value &&
      forall i :: 0 <= i < LABEL_COUNT && Highlighted(value, i) ==> i == LABEL_COUNT - value
    ensures !(1 <= value <= LABEL_COUNT) ==> forall i :: 0 <= i < LABEL_COUNT ==> !Highlighted(value, i)
  {
    if 1 <= value <= LABEL_COUNT {
      assert RatingValue(LABEL_COUNT - value) == value;
    }
  }

  /** The width of the progress bar, `currentStep / (steps.length - 1) * 100` percent. */
  function ProgressWidth(step: int): (w: int)
    requires 0 <= step <= LAST_STEP
    ensures w * LAST_STEP == step * 100
    ensures step == 0 ==> w == 0
    ensures step == LAST_STEP ==> w == 100
  {
    step * 100 / LAST_STEP
  }

  class CheckInWizard {
    var currentStep: int
    var direction: SlideDirection
    var mood: int
    var energy: int
    var sleep: int
    var gratitude: seq<string>

    /** The step stays on the wizard, every rating is one a button can set, and there are three gratitude lines. */
    ghost predicate Valid()
      reads this
    {
      0 <= currentStep <= LAST_STEP &&
      1 <= mood <= LABEL_COUNT && 1 <= energy <= LABEL_COUNT && 1 <= sleep <= LABEL_COUNT &&
      |gratitude| == 3
    }

    ghost predicate IsInitial()
      reads this
    {
      currentStep == 0 && mood == DEFAULT_RATING && energy == DEFAULT_RATING && sleep == DEFAULT_RATING &&
      gratitude == ["", "", ""]
    }

    constructor ()
      ensures Valid() && IsInitial() && direction == Forward
    {
      currentStep := 0;
      direction := Forward;
      mood, energy, sleep := DEFAULT_RATING, DEFAULT_RATING, DEFAULT_RATING;
      gratitude := ["", "", ""];
    }

    /** Next: one step forward, except on the summary. */
    method HandleNext()
      requires Valid()
      modifies this`currentStep, this`direction
      ensures Valid()
      ensures currentStep == if old(currentStep) < LAST_STEP then old(currentStep) + 1 else old(currentStep)
      ensures old(currentStep) < LAST_STEP ==> direction == Forward
      ensures old(currentStep) == LAST_STEP ==> direction == old(direction)
    {
      if currentStep < STEP_COUNT - 1 {
        direction := Forward;
        currentStep := currentStep + 1;
      }
    }

    /** Back: one step back, except on the first step. */
    method HandleBack()
      requires Valid()
      modifies this`currentStep, this`direction
      ensures Valid()
      ensures currentStep == if old(currentStep) > 0 then old(currentStep) - 1 else old(currentStep)
      ensures old(currentStep) > 0 ==> direction == Backward
      ensures old(currentStep) == 0 ==> direction == old(direction)
    {
      if currentStep > 0 {
        direction := Backward;
        currentStep := currentStep - 1;
      }
    }

    /** A click on the button at `index` of one of the three selectors. */
    method SelectRating(field: RatingField, index: int)
      requires Valid() && 0 <= index < LABEL_COUNT
      modifies this`mood, this`energy, this`sleep
      ensures Valid()
      ensures mood == (if field == MoodRating then RatingValue(index) else old(mood))
      ensures energy == (if field == EnergyRating then RatingValue(index) else old(energy))
      ensures sleep == (if field == SleepRating then RatingValue(index) else old(sleep))
    {
      var v := RatingValue(index);
      match field
      case MoodRating => mood := v;
      case EnergyRating => energy := v;
      case SleepRating => sleep := v;
    }

    /** Edits one gratitude line on a copy of the three and stores the copy. */
    method HandleGratitudeChange(index: int, value: string)
      requires Valid() && 0 <= index < 3
      modifies this`gratitude
      ensures Valid()
      ensures gratitude == old(gratitude)[index := value]
    {
      var g := gratitude;
      var copy := new string[3](k requires 0 <= k < |g| => g[k]);
      copy[index] := value;
      gratitude := copy[..];
    }

    method ResetState()
      modifies this`currentStep, this`mood, this`energy, this`sleep, this`gratitude
      ensures Valid() && IsInitial()
    {
      currentStep := 0;
      mood, energy, sleep := DEFAULT_RATING, DEFAULT_RATING, DEFAULT_RATING;
      gratitude := ["", "", ""];
    }

    /** What Complete submits: exactly the current answers. */
    function Answers(): (a: CheckInInput)
      reads this
      ensures a.mood == mood && a.energy == energy && a.sleep == sleep && a.gratitude == gratitude
    {
      CheckInInput(mood, energy, sleep, gratitude)
    }

    /** Closing the wizard closes the provider's modal and resets the answers. */
    method HandleClose(p: UserProvider)
      requires Valid() && p.Valid()
      modifies this`currentStep, this`mood, this`energy, this`sleep, this`gratitude, p
      ensures Valid() && IsInitial() && p.Valid()
      ensures !p.isCheckInModalOpen && p.userData == old(p.userData)
      ensures p.activeSoundscape == old(p.activeSoundscape) && p.isSoundscapePlaying == old(p.isSoundscapePlaying)
    {
      p.CloseCheckInModal();
      ResetState();
    }

    /**
     * Complete, offered only on the summary step: records the current answers
     * with the provider, then closes and resets the wizard.
     */
    method HandleComplete(p: UserProvider, today: Day)
      requires Valid() && p.Valid() && currentStep == LAST_STEP
      modifies this`currentStep, this`mood, this`energy, this`sleep, this`gratitude, p
      ensures Valid() && IsInitial() && p.Valid() && !p.isCheckInModalOpen
      ensures p.userData == UserDocument.CompleteCheckIn(old(p.userData), old(Answers()), today)
      ensures p.activeSoundscape == old(p.activeSoundscape) && p.isSoundscapePlaying == old(p.isSoundscapePlaying)
    {
      p.CompleteCheckIn(Answers(), today);
      HandleClose(p);
    }
  }
}
