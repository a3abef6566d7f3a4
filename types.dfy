/**
 * Record shapes of the wellness app (types.ts) and the fixed catalogs it ships
 * with (constants.ts).  Calendar dates are integer day numbers: two date strings
 * are equal exactly when their day numbers are equal, and "yesterday" is the day
 * number minus one.
 */
module Types {

  datatype Option<T> = None | Some(value: T)

  /** A calendar day, standing for a `YYYY-MM-DD` date string. */
  type Day = int

  /** One daily check-in: three 1..5 ratings and three gratitude lines. */
  datatype CheckIn = CheckIn(date: Day, mood: int, energy: int, sleep: int, gratitude: seq<string>)

  /** What the check-in wizard submits; `completeCheckIn` adds the date. */
  datatype CheckInInput = CheckInInput(mood: int, energy: int, sleep: int, gratitude: seq<string>)

  /**
   * A journal entry.  The optional flags of the record are always written by the
   * code that creates and updates entries, so they are plain booleans here
   * (`isLoadingReflection` absent reads as false).
   */
  datatype JournalEntry = JournalEntry(
    id: string,
    date: Day,
    content: string,
    reflection: Option<string>,
    isLoadingReflection: bool,
    synced: bool,
    needsReflection: bool)

  datatype Role = User | Model

  datatype Message = Message(role: Role, text: string)

  /** A finished guided session; start and end are millisecond timestamps. */
  datatype Session = Session(
    id: string,
    startDate: int,
    endDate: int,
    title: string,
    summary: string,
    conversation: seq<Message>)

  datatype StepType = JournalStep | MeditationStep | BreathingStep

  datatype JourneyStep = JourneyStep(id: string, stepType: StepType, targetId: Option<string>)

  datatype Journey = Journey(id: string, title: string, steps: seq<JourneyStep>, achievementId: string)

  datatype ActiveJourney = ActiveJourney(journeyId: string, currentStep: int)

  /** The four dashboard panels: 'stats' | 'tree' | 'journey' | 'insight'. */
  datatype DashboardComponent = Stats | Tree | JourneyPanel | InsightPanel

  /** The single persisted user document. */
  datatype UserData = UserData(
    lastCheckIn: Option<Day>,
    streak: int,
    points: int,
    journal: seq<JournalEntry>,
    sessions: seq<Session>,
    checkIns: seq<CheckIn>,
    activeJourney: Option<ActiveJourney>,
    completedJourneys: seq<string>,
    unlockedAchievements: seq<string>,
    insights: seq<string>,
    lastInsightDate: Option<Day>,
    dashboardLayout: seq<DashboardComponent>)

  /** A soundscape or a meditation track; the player only compares ids. */
  datatype Soundscape = Soundscape(id: string, title: string, file: string)

  datatype PhaseName = Inhale | Hold | Exhale

  datatype BreathPhase = BreathPhase(name: PhaseName, duration: int)

  datatype BreathingExercise = BreathingExercise(id: string, title: string, pattern: seq<BreathPhase>)

  /** The journey catalog: one seven-day journey. */
  const JOURNEYS: seq<Journey> := [
    Journey("gratitude_7_day", "7-Day Gratitude Challenge", [
      JourneyStep("d1", JournalStep, None),
      JourneyStep("d2", JournalStep, None),
      JourneyStep("d3", MeditationStep, Some("gratitude")),
      JourneyStep("d4", JournalStep, None),
      JourneyStep("d5", JournalStep, None),
      JourneyStep("d6", BreathingStep, Some("box")),
      JourneyStep("d7", JournalStep, None)
    ], "gratitude_journey_comp")
  ]

  /** Ids of the achievement catalog. */
  const ACHIEVEMENT_IDS: seq<string> := ["gratitude_journey_comp", "first_entry", "10_entries", "7_day_streak"]

  /** The breathing catalog: box breathing and 4-7-8 breathing. */
  const BREATHING_EXERCISES: seq<BreathingExercise> := [
    BreathingExercise("box", "Box Breathing",
      [BreathPhase(Inhale, 4), BreathPhase(Hold, 4), BreathPhase(Exhale, 4), BreathPhase(Hold, 4)]),
    BreathingExercise("478", "4-7-8 Breathing",
      [BreathPhase(Inhale, 4), BreathPhase(Hold, 7), BreathPhase(Exhale, 8)])
  ]

  /** `xs.slice(0, n)` for a non-negative `n`. */
  function Take<T>(xs: seq<T>, n: nat): (r: seq<T>)
    ensures |r| == if n < |xs| then n else |xs|
    ensures r <= xs
  {
    if n < |xs| then xs[..n] else xs
  }

  /** Concatenation regroups freely. */
  lemma AppendAssoc<T>(a: seq<T>, b: seq<T>, c: seq<T>)
    ensures a + b + c == a + (b + c)
  {
  }
}
