/**
 * The `prev => next` updaters of context/UserContext.tsx, as functions over the
 * user document.  An updater that schedules another one (the achievement unlock
 * inside a check-in or a journey step) is modelled as the outer update followed
 * by the inner one, which is the order in which the queued updaters run.
 */
module UserDocument {
  import opened Types
  import opened GeminiService

  const FIRST_ENTRY := "first_entry"
  const TEN_ENTRIES := "10_entries"
  const SEVEN_DAY_STREAK := "7_day_streak"
  const ACHIEVEMENT_BONUS := 50
  const CHECK_IN_POINTS := 10
  const JOURNEY_BONUS := 100

  const DEFAULT_LAYOUT: seq<DashboardComponent> := [Stats, Tree, JourneyPanel, InsightPanel]

  /** The document the provider starts from when nothing is stored. */
  function DefaultUserData(): (d: UserData)
    ensures Consistent(d)
    ensures d.lastCheckIn.None? && d.streak == 0 && d.points == 0 && d.activeJourney.None?
    ensures d.journal == [] && d.checkIns == [] && d.unlockedAchievements == [] && d.insights == []
  {
    UserData(None, 0, 0, [], [], [], None, [], [], [], None, DEFAULT_LAYOUT)
  }

  predicate NoDuplicates<T(==)>(xs: seq<T>)
  {
    forall i, j :: 0 <= i < j < |xs| ==> xs[i] != xs[j]
  }

  /** The first journey of `catalog` with that id, as `Array.prototype.find` returns it. */
  function FindJourney(catalog: seq<Journey>, id: string): (r: Option<Journey>)
    ensures r.Some? ==> r.value in catalog && r.value.id == id
    ensures r.None? <==> forall k :: 0 <= k < |catalog| ==> catalog[k].id != id
    ensures r.Some? ==> exists k :: 0 <= k < |catalog| && catalog[k] == r.value && forall m :: 0 <= m < k ==> catalog[m].id != id
  {
    if |catalog| == 0 then None
    else if catalog[0].id == id then Some(catalog[0])
    else
      var r := FindJourney(catalog[1..], id);
      assert forall k :: 1 <= k < |catalog| ==> catalog[k] == catalog[1..][k - 1];
      r
  }

  /** The only journey of the catalog is known under its id and has seven steps. */
  lemma KnownJourneys(id: string)
    ensures FindJourney(JOURNEYS, id).Some? ==> FindJourney(JOURNEYS, id).value == JOURNEYS[0]
    ensures |JOURNEYS[0].steps| == 7
  {
  }

  predicate ActiveInRange(a: Option<ActiveJourney>)
  {
    match a
    case None => true
    case Some(aj) =>
      aj.currentStep >= 0 &&
      (FindJourney(JOURNEYS, aj.journeyId).Some? ==> aj.currentStep < |FindJourney(JOURNEYS, aj.journeyId).value.steps|)
  }

  /**
   * What every updater keeps: points and streak are non-negative, there is a
   * streak exactly when there has been a check-in, an active journey of the
   * catalog points at one of its steps, no achievement is unlocked twice, and
   * at most five insights are kept.
   */
  predicate Consistent(d: UserData)
  {
    d.points >= 0 && d.streak >= 0 &&
    (d.lastCheckIn.None? <==> d.streak == 0) &&
    ActiveInRange(d.activeJourney) &&
    NoDuplicates(d.unlockedAchievements) &&
    |d.insights| <= 5
  }

  // ------------------------------------------------------------- achievements

  /** `unlockAchievement`: idempotent, +50 points for a new achievement. */
  function UnlockAchievement(d: UserData, id: string): (r: UserData)
    ensures id in r.unlockedAchievements
    ensures d.unlockedAchievements <= r.unlockedAchievements
    ensures id in d.unlockedAchievements ==> r == d
    ensures id !in d.unlockedAchievements ==>
      r.unlockedAchievements == d.unlockedAchievements + [id] && r.points == d.points + ACHIEVEMENT_BONUS
    ensures r == d.(unlockedAchievements := r.unlockedAchievements, points := r.points)
  {
    if id in d.unlockedAchievements then d
    else d.(unlockedAchievements := d.unlockedAchievements + [id], points := d.points + ACHIEVEMENT_BONUS)
  }

  lemma {:induction false} UnlockIdempotent(d: UserData, id: string)
    ensures UnlockAchievement(UnlockAchievement(d, id), id) == UnlockAchievement(d, id)
  {
    var once := UnlockAchievement(d, id);
    assert id in once.unlockedAchievements;
  }

  lemma UnlockKeepsConsistent(d: UserData, id: string)
    requires Consistent(d)
    ensures Consistent(UnlockAchievement(d, id))
  {
    var r := UnlockAchievement(d, id);
    if id !in d.unlockedAchievements {
      var u := r.unlockedAchievements;
      forall i, j | 0 <= i < j < |u| ensures u[i] != u[j] {
        if j == |u| - 1 {
          assert u[i] in d.unlockedAchievements;
        }
      }
    }
  }

  // ----------------------------------------------------------------- check-in

  /**
   * The streak after a check-in on `today`: continued after a check-in
   * yesterday, kept after one today, restarted at 1 otherwise.
   */
  function NextStreak(last: Option<Day>, today: Day, streak: int): (r: int)
    ensures last == Some(today - 1) ==> r == streak + 1
    ensures last == Some(today) ==> r == streak
    ensures last != Some(today - 1) && last != Some(today) ==> r == 1
  {
    if last.Some? && last.value == today - 1 then streak + 1
    else if last.None? || last.value != today then 1
    else streak
  }

  function NewCheckIn(input: CheckInInput, today: Day): CheckIn
  {
    CheckIn(today, input.mood, input.energy, input.sleep, input.gratitude)
  }

  /** Whether a check-in on `today` earns the seven-day achievement. */
  predicate EarnsStreakAchievement(d: UserData, today: Day)
  {
    NextStreak(d.lastCheckIn, today, d.streak) >= 7 && SEVEN_DAY_STREAK !in d.unlockedAchievements
  }

  /**
   * `completeCheckIn`: there is no same-day rejection, so every call records a
   * check-in and earns its 10 points.
   */
  function CompleteCheckIn(d: UserData, input: CheckInInput, today: Day): (r: UserData)
    ensures r.lastCheckIn == Some(today)
    ensures r.streak == NextStreak(d.lastCheckIn, today, d.streak)
    ensures r.checkIns == [NewCheckIn(input, today)] + d.checkIns
    ensures r.points == d.points + CHECK_IN_POINTS + (if EarnsStreakAchievement(d, today) then ACHIEVEMENT_BONUS else 0)
    ensures r.unlockedAchievements ==
      d.unlockedAchievements + (if EarnsStreakAchievement(d, today) then [SEVEN_DAY_STREAK] else [])
    ensures r == d.(lastCheckIn := r.lastCheckIn, streak := r.streak, points := r.points,
                    checkIns := r.checkIns, unlockedAchievements := r.unlockedAchievements)
  {
    var streak := NextStreak(d.lastCheckIn, today, d.streak);
    var next := d.(lastCheckIn := Some(today), streak := streak, points := d.points + CHECK_IN_POINTS,
                   checkIns := [NewCheckIn(input, today)] + d.checkIns);
    if streak >= 7 && SEVEN_DAY_STREAK !in d.unlockedAchievements then UnlockAchievement(next, SEVEN_DAY_STREAK)
    else next
  }

  lemma CheckInKeepsConsistent(d: UserData, input: CheckInInput, today: Day)
    requires Consistent(d)
    ensures Consistent(CompleteCheckIn(d, input, today))
  {
    var streak := NextStreak(d.lastCheckIn, today, d.streak);
    var next := d.(lastCheckIn := Some(today), streak := streak, points := d.points + CHECK_IN_POINTS,
                   checkIns := [NewCheckIn(input, today)] + d.checkIns);
    assert Consistent(next);
    UnlockKeepsConsistent(next, SEVEN_DAY_STREAK);
  }

  /** Check-ins on the consecutive days `first`, `first + 1`, … with the given answers. */
  function CheckInRun(d: UserData, inputs: seq<CheckInInput>, first: Day): UserData
    decreases |inputs|
  {
    if |inputs| == 0 then d
    else CompleteCheckIn(CheckInRun(d, inputs[..|inputs| - 1], first), inputs[|inputs| - 1], first + |inputs| - 1)
  }

  /**
   * The document after `n` check-ins on consecutive days ending on `last`,
   * starting from the default one: a streak of `n`, 10 points each, and the
   * seven-day achievement with its 50 points once `n` reaches 7.
   */
  predicate RunShape(r: UserData, n: nat, last: Day)
  {
    && r.streak == n && r.lastCheckIn == Some(last) && |r.checkIns| == n
    && r.points == CHECK_IN_POINTS * n + (if n >= 7 then ACHIEVEMENT_BONUS else 0)
    && r.unlockedAchievements == (if n >= 7 then [SEVEN_DAY_STREAK] else [])
  }

  lemma RunShapeStep(r: UserData, n: nat, last: Day, input: CheckInInput)
    requires n >= 1 && RunShape(r, n, last)
    ensures RunShape(CompleteCheckIn(r, input, last + 1), n + 1, last + 1)
  {
    assert NextStreak(r.lastCheckIn, last + 1, r.streak) == n + 1;
    assert EarnsStreakAchievement(r, last + 1) <==> n == 6;
  }

  /** From the default document, n check-ins on n consecutive days give the run's shape. */
  lemma ConsecutiveCheckIns(inputs: seq<CheckInInput>, first: Day)
    requires |inputs| > 0
    ensures RunShape(CheckInRun(DefaultUserData(), inputs, first), |inputs|, first + |inputs| - 1)
  {
    RunFromBlank(DefaultUserData(), inputs, first);
  }

  /** A document with no check-ins, streak, points or achievements yet. */
  predicate Blank(d: UserData)
  {
    d.lastCheckIn.None? && d.streak == 0 && d.points == 0 && d.checkIns == [] && d.unlockedAchievements == []
  }

  lemma {:induction false} RunFromBlank(d: UserData, inputs: seq<CheckInInput>, first: Day)
    requires Blank(d) && |inputs| > 0
    ensures RunShape(CheckInRun(d, inputs, first), |inputs|, first + |inputs| - 1)
    decreases |inputs|
  {
    var n := |inputs|;
    var init := inputs[..n - 1];
    var prev := CheckInRun(d, init, first);
    assert CheckInRun(d, inputs, first) == CompleteCheckIn(prev, inputs[n - 1], first + n - 1);
    if n > 1 {
      assert |init| == n - 1;
      RunFromBlank(d, init, first);
      RunShapeStep(prev, n - 1, first + n - 2, inputs[n - 1]);
    } else {
      assert prev == d;
      assert !EarnsStreakAchievement(d, first);
    }
  }

  /** A second check-in on the same day keeps the streak but still adds a check-in and 10 points. */
  lemma {:induction false} SameDayRepeat(d: UserData, a: CheckInInput, b: CheckInInput, today: Day)
    requires Consistent(d)
    ensures var once := CompleteCheckIn(d, a, today);
      var twice := CompleteCheckIn(once, b, today);
      twice.streak == once.streak && twice.points == once.points + CHECK_IN_POINTS &&
      twice.checkIns == [NewCheckIn(b, today), NewCheckIn(a, today)] + d.checkIns
  {
    var once := CompleteCheckIn(d, a, today);
    assert once.lastCheckIn == Some(today);
    CheckInKeepsConsistent(d, a, today);
    assert !EarnsStreakAchievement(once, today);
  }

  // ------------------------------------------------------------------ journal

  /** The entry `addJournalEntry` creates: online entries are synced and await a reflection. */
  function NewEntry(id: string, now: Day, content: string, online: bool): JournalEntry
  {
    JournalEntry(id, now, content, None, false, online, online)
  }

  /** `journal.map(e => e.id === updated.id ? updated : e)`. */
  function ReplaceById(journal: seq<JournalEntry>, updated: JournalEntry): (r: seq<JournalEntry>)
    ensures |r| == |journal|
    ensures forall i :: 0 <= i < |journal| ==> r[i] == if journal[i].id == updated.id then updated else journal[i]
  {
    if |journal| == 0 then []
    else [if journal[0].id == updated.id then updated else journal[0]] + ReplaceById(journal[1..], updated)
  }

  /** `updateJournalEntry`: only the journal changes. */
  function UpdateJournalEntry(d: UserData, updated: JournalEntry): (r: UserData)
    ensures r == d.(journal := ReplaceById(d.journal, updated))
  {
    d.(journal := ReplaceById(d.journal, updated))
  }

  lemma {:induction false} ReplaceByIdKeepsIds(journal: seq<JournalEntry>, updated: JournalEntry)
    ensures forall i :: 0 <= i < |journal| ==> ReplaceById(journal, updated)[i].id == journal[i].id || journal[i].id == updated.id
    ensures forall i :: 0 <= i < |journal| ==> journal[i].id == updated.id ==> ReplaceById(journal, updated)[i] == updated
  {
  }

  /** Replacing twice with the same entry is replacing once. */
  lemma {:induction false} ReplaceByIdIdempotent(journal: seq<JournalEntry>, updated: JournalEntry)
    ensures ReplaceById(ReplaceById(journal, updated), updated) == ReplaceById(journal, updated)
  {
    var once := ReplaceById(journal, updated);
    var twice := ReplaceById(once, updated);
    forall i | 0 <= i < |journal| ensures twice[i] == once[i] {
    }
  }

  /** `addSession`: the new session goes first. */
  function AddSession(d: UserData, s: Session): (r: UserData)
    ensures r.sessions == [s] + d.sessions && r == d.(sessions := r.sessions)
  {
    d.(sessions := [s] + d.sessions)
  }

  function UpdateDashboardLayout(d: UserData, layout: seq<DashboardComponent>): (r: UserData)
    ensures r.dashboardLayout == layout && r == d.(dashboardLayout := layout)
  {
    d.(dashboardLayout := layout)
  }

  // ----------------------------------------------------------------- journeys

  /** `startJourney`: there is no guard, any active journey is replaced. */
  function StartJourney(d: UserData, id: string): (r: UserData)
    ensures r.activeJourney == Some(ActiveJourney(id, 0)) && r == d.(activeJourney := r.activeJourney)
  {
    d.(activeJourney := Some(ActiveJourney(id, 0)))
  }

  /** `completeJourneyStep`. */
  function CompleteJourneyStep(d: UserData): (r: UserData)
    ensures d.activeJourney.None? ==> r == d
    ensures d.activeJourney.Some? && FindJourney(JOURNEYS, d.activeJourney.value.journeyId).None? ==> r == d
    ensures d.activeJourney.Some? && FindJourney(JOURNEYS, d.activeJourney.value.journeyId).Some? ==>
      var aj := d.activeJourney.value;
      var j := FindJourney(JOURNEYS, aj.journeyId).value;
      if aj.currentStep + 1 < |j.steps| then
        r == d.(activeJourney := Some(ActiveJourney(aj.journeyId, aj.currentStep + 1)))
      else
        r.activeJourney.None? && r.completedJourneys == d.completedJourneys + [j.id] &&
        r.points == d.points + JOURNEY_BONUS + (if j.achievementId in d.unlockedAchievements then 0 else ACHIEVEMENT_BONUS) &&
        r == UnlockAchievement(d.(activeJourney := None, completedJourneys := r.completedJourneys,
                                  points := d.points + JOURNEY_BONUS), j.achievementId)
    ensures r.journal == d.journal && r.checkIns == d.checkIns && r.streak == d.streak
  {
    match d.activeJourney
    case None => d
    case Some(aj) =>
      match FindJourney(JOURNEYS, aj.journeyId)
      case None => d
      case Some(j) =>
        var nextStep := aj.currentStep + 1;
        if nextStep >= |j.steps| then
          UnlockAchievement(d.(activeJourney := None, completedJourneys := d.completedJourneys + [j.id],
                               points := d.points + JOURNEY_BONUS), j.achievementId)
        else
          d.(activeJourney := Some(aj.(currentStep := nextStep)))
  }

  lemma JourneyKeepsConsistent(d: UserData, id: string)
    requires Consistent(d)
    ensures Consistent(StartJourney(d, id))
    ensures Consistent(CompleteJourneyStep(d))
  {
    KnownJourneys(id);
    if d.activeJourney.Some? {
      var aj := d.activeJourney.value;
      KnownJourneys(aj.journeyId);
      var found := FindJourney(JOURNEYS, aj.journeyId);
      if found.Some? && aj.currentStep + 1 >= |found.value.steps| {
        var j := found.value;
        UnlockKeepsConsistent(d.(activeJourney := None, completedJourneys := d.completedJourneys + [j.id],
                                 points := d.points + JOURNEY_BONUS), j.achievementId);
      }
    }
  }

  /** `k` calls of `completeJourneyStep`. */
  function StepTimes(d: UserData, k: nat): UserData
  {
    if k == 0 then d else CompleteJourneyStep(StepTimes(d, k - 1))
  }

  /** Before the last step, each call advances the active journey by one step and changes nothing else. */
  lemma {:induction false} JourneyAdvances(d: UserData, j: Journey, k: nat)
    requires d.activeJourney.Some? && FindJourney(JOURNEYS, d.activeJourney.value.journeyId) == Some(j)
    requires d.activeJourney.value.currentStep + k < |j.steps|
    ensures StepTimes(d, k) == d.(activeJourney := Some(ActiveJourney(d.activeJourney.value.journeyId,
                                                                     d.activeJourney.value.currentStep + k)))
  {
    if k > 0 {
      JourneyAdvances(d, j, k - 1);
    }
  }

  /**
   * A journey of n steps, started afresh, is still active on step k after k < n
   * calls and is completed by exactly the n-th call: the active journey is
   * cleared, its id is appended, 100 points are added and its achievement is
   * unlocked.
   */
  lemma {:induction false} JourneyCompletes(d: UserData, j: Journey)
    requires FindJourney(JOURNEYS, j.id) == Some(j)
    ensures forall k: nat :: k < |j.steps| ==> StepTimes(StartJourney(d, j.id), k).activeJourney == Some(ActiveJourney(j.id, k))
    ensures var r := StepTimes(StartJourney(d, j.id), |j.steps|);
      r.activeJourney.None? && r.completedJourneys == d.completedJourneys + [j.id] &&
      r.points == d.points + JOURNEY_BONUS + (if j.achievementId in d.unlockedAchievements then 0 else ACHIEVEMENT_BONUS) &&
      j.achievementId in r.unlockedAchievements && r.journal == d.journal
  {
    var s := StartJourney(d, j.id);
    KnownJourneys(j.id);
    forall k: nat | k < |j.steps| ensures StepTimes(s, k).activeJourney == Some(ActiveJourney(j.id, k)) {
      JourneyAdvances(s, j, k);
    }
    var n := |j.steps|;
    JourneyAdvances(s, j, n - 1);
    var last := StepTimes(s, n - 1);
    assert last == s.(activeJourney := Some(ActiveJourney(j.id, n - 1)));
    assert StepTimes(s, n) == CompleteJourneyStep(last);
  }

  // ------------------------------------------------------------- journal entry

  /** Whether adding an entry to this document newly unlocks the first-entry achievement. */
  predicate UnlocksFirstEntry(d: UserData)
  {
    |d.journal| == 0 && FIRST_ENTRY !in d.unlockedAchievements
  }

  /** Whether adding an entry to this document newly unlocks the ten-entries achievement. */
  predicate UnlocksTenEntries(d: UserData)
  {
    |d.journal| == 9 && TEN_ENTRIES !in d.unlockedAchievements
  }

  /**
   * The first part of `addJournalEntry`: the first-entry and ten-entries unlocks
   * are decided on the journal as it was, then the entry is prepended.  Each new
   * unlock earns 50 points; nothing else changes.
   */
  function RecordEntry(d: UserData, id: string, now: Day, content: string, online: bool): (r: UserData)
    ensures r.journal == [NewEntry(id, now, content, online)] + d.journal
    ensures r.points == d.points + (if UnlocksFirstEntry(d) then ACHIEVEMENT_BONUS else 0)
                                 + (if UnlocksTenEntries(d) then ACHIEVEMENT_BONUS else 0)
    ensures r.unlockedAchievements == d.unlockedAchievements + (if UnlocksFirstEntry(d) then [FIRST_ENTRY] else [])
                                                             + (if UnlocksTenEntries(d) then [TEN_ENTRIES] else [])
    ensures r == d.(journal := r.journal, points := r.points, unlockedAchievements := r.unlockedAchievements)
  {
    var d1 := if |d.journal| == 0 then UnlockAchievement(d, FIRST_ENTRY) else d;
    var d2 := if |d.journal| == 9 then UnlockAchievement(d1, TEN_ENTRIES) else d1;
    assert d1.journal == d.journal;
    d2.(journal := [NewEntry(id, now, content, online)] + d2.journal)
  }

  /**
   * `addJournalEntry`: the entry is recorded, then a journey step is completed
   * when the entry belongs to one.
   */
  function AddJournalEntry(d: UserData, id: string, now: Day, content: string, online: bool, journeyStep: bool): (r: UserData)
    ensures !journeyStep ==> r == RecordEntry(d, id, now, content, online)
    ensures journeyStep ==> r == CompleteJourneyStep(RecordEntry(d, id, now, content, online))
    ensures r.journal == [NewEntry(id, now, content, online)] + d.journal
    ensures r.checkIns == d.checkIns && r.streak == d.streak && r.lastCheckIn == d.lastCheckIn
  {
    var recorded := RecordEntry(d, id, now, content, online);
    if journeyStep then CompleteJourneyStep(recorded) else recorded
  }

  /** The first and the tenth entry unlock their achievements, with or without a journey step. */
  lemma EntryMilestones(d: UserData, id: string, now: Day, content: string, online: bool, journeyStep: bool)
    ensures var r := AddJournalEntry(d, id, now, content, online, journeyStep);
      (|d.journal| == 0 ==> FIRST_ENTRY in r.unlockedAchievements) &&
      (|d.journal| == 9 ==> TEN_ENTRIES in r.unlockedAchievements) &&
      (|d.journal| != 0 && |d.journal| != 9 && !journeyStep ==> r == d.(journal := r.journal))
  {
    var recorded := RecordEntry(d, id, now, content, online);
    assert FIRST_ENTRY in d.unlockedAchievements ==> FIRST_ENTRY in recorded.unlockedAchievements;
    assert TEN_ENTRIES in d.unlockedAchievements ==> TEN_ENTRIES in recorded.unlockedAchievements;
    if journeyStep {
      JourneyStepKeepsAchievements(recorded);
    }
  }

  /** Completing a journey step never removes an achievement. */
  lemma JourneyStepKeepsAchievements(d: UserData)
    ensures d.unlockedAchievements <= CompleteJourneyStep(d).unlockedAchievements
  {
  }

  lemma AddJournalEntryKeepsConsistent(d: UserData, id: string, now: Day, content: string, online: bool, journeyStep: bool)
    requires Consistent(d)
    ensures Consistent(AddJournalEntry(d, id, now, content, online, journeyStep))
  {
    var d1 := if |d.journal| == 0 then UnlockAchievement(d, FIRST_ENTRY) else d;
    UnlockKeepsConsistent(d, FIRST_ENTRY);
    var d2 := if |d.journal| == 9 then UnlockAchievement(d1, TEN_ENTRIES) else d1;
    UnlockKeepsConsistent(d1, TEN_ENTRIES);
    var d3 := d2.(journal := [NewEntry(id, now, content, online)] + d2.journal);
    assert d3 == RecordEntry(d, id, now, content, online);
    JourneyKeepsConsistent(d3, "");
  }


  // ------------------------------------------------------------------ syncing

  /** The filter of `processSyncQueue`: unsynced, or still waiting for a reflection. */
  predicate IsQueued(e: JournalEntry)
  {
    !e.synced || e.needsReflection
  }

  /** The entries the sync loop visits, in journal order. */
  function SyncQueue(journal: seq<JournalEntry>): (r: seq<JournalEntry>)
    ensures |r| <= |journal|
    ensures forall e :: e in r <==> e in journal && IsQueued(e)
  {
    if |journal| == 0 then []
    else (if IsQueued(journal[0]) then [journal[0]] else []) + SyncQueue(journal[1..])
  }

  /** The entry as the second update of a loop step writes it. */
  function Reflected(e: JournalEntry, generate: string -> Option<string>): (r: JournalEntry)
    ensures r.id == e.id && r.content == e.content && r.date == e.date
    ensures r.synced && !r.needsReflection && !r.isLoadingReflection && r.reflection.Some?
    ensures r.reflection.value == GetJournalReflection(e.content, generate)
  {
    e.(reflection := Some(GetJournalReflection(e.content, generate)), isLoadingReflection := false,
       needsReflection := false, synced := true)
  }

  /** One pass of the loop body: entries that need no reflection are skipped. */
  function SyncStep(journal: seq<JournalEntry>, e: JournalEntry, generate: string -> Option<string>): (r: seq<JournalEntry>)
    ensures !e.needsReflection ==> r == journal
    ensures e.needsReflection ==> r == ReplaceById(journal, Reflected(e, generate))
  {
    if e.needsReflection then
      var loading := ReplaceById(journal, e.(isLoadingReflection := true));
      ReplaceByIdsCollapse(journal, e.(isLoadingReflection := true), Reflected(e, generate));
      ReplaceById(loading, Reflected(e, generate))
    else journal
  }

  lemma ReplaceByIdsCollapse(journal: seq<JournalEntry>, a: JournalEntry, b: JournalEntry)
    requires a.id == b.id
    ensures ReplaceById(ReplaceById(journal, a), b) == ReplaceById(journal, b)
  {
    var once := ReplaceById(journal, a);
    var twice := ReplaceById(once, b);
    forall i | 0 <= i < |journal| ensures twice[i] == ReplaceById(journal, b)[i] {
    }
  }

  /** The loop over the first entries of `queue`, applied to the journal. */
  function SyncAll(journal: seq<JournalEntry>, queue: seq<JournalEntry>, generate: string -> Option<string>): (r: seq<JournalEntry>)
    ensures |r| == |journal|
    decreases |queue|
  {
    if |queue| == 0 then journal
    else SyncStep(SyncAll(journal, queue[..|queue| - 1], generate), queue[|queue| - 1], generate)
  }

  /** What `processSyncQueue` leaves. */
  function Synced(journal: seq<JournalEntry>, generate: string -> Option<string>): (r: seq<JournalEntry>)
    ensures |r| == |journal|
  {
    SyncAll(journal, SyncQueue(journal), generate)
  }

  predicate UniqueIds(journal: seq<JournalEntry>)
  {
    forall i, j :: 0 <= i < j < |journal| ==> journal[i].id != journal[j].id
  }

  /** The independent description of a synced entry. */
  function SyncedEntry(e: JournalEntry, generate: string -> Option<string>): JournalEntry
  {
    if e.needsReflection then Reflected(e, generate) else e
  }

  lemma {:induction false} SyncAllPointwise(journal: seq<JournalEntry>, queue: seq<JournalEntry>, generate: string -> Option<string>)
    requires UniqueIds(journal)
    requires forall e :: e in queue ==> e in journal
    ensures |SyncAll(journal, queue, generate)| == |journal|
    ensures forall i :: 0 <= i < |journal| ==>
      SyncAll(journal, queue, generate)[i] ==
        if journal[i] in queue && journal[i].needsReflection then Reflected(journal[i], generate) else journal[i]
    decreases |queue|
  {
    if |queue| > 0 {
      var init := queue[..|queue| - 1];
      var e := queue[|queue| - 1];
      assert forall x :: x in init ==> x in queue;
      SyncAllPointwise(journal, init, generate);
      assert queue == init + [e];
      SyncStepPointwise(journal, SyncAll(journal, init, generate), init, e, generate);
    }
  }

  /** One more entry of the queue: the pointwise description extends to it. */
  lemma SyncStepPointwise(journal: seq<JournalEntry>, before: seq<JournalEntry>, init: seq<JournalEntry>,
                          e: JournalEntry, generate: string -> Option<string>)
    requires UniqueIds(journal) && e in journal && |before| == |journal|
    requires forall i :: 0 <= i < |journal| ==>
      before[i] == if journal[i] in init && journal[i].needsReflection then Reflected(journal[i], generate) else journal[i]
    ensures forall i :: 0 <= i < |journal| ==>
      SyncStep(before, e, generate)[i] ==
        if journal[i] in init + [e] && journal[i].needsReflection then Reflected(journal[i], generate) else journal[i]
  {
    assert forall x :: x in init + [e] <==> x in init || x == e;
    if e.needsReflection {
      var k :| 0 <= k < |journal| && journal[k] == e;
      forall i | 0 <= i < |journal|
        ensures ReplaceById(before, Reflected(e, generate))[i] ==
          if journal[i] in init + [e] && journal[i].needsReflection then Reflected(journal[i], generate) else journal[i]
      {
        if i != k {
          assert journal[i].id != e.id;
        }
      }
    }
  }


  /**
   * With unique ids, the sync loop turns every entry that needs a reflection
   * into its reflected form and leaves every other entry as it was.
   */
  lemma {:induction false} SyncedClosedForm(journal: seq<JournalEntry>, generate: string -> Option<string>)
    requires UniqueIds(journal)
    ensures |Synced(journal, generate)| == |journal|
    ensures forall i :: 0 <= i < |journal| ==> Synced(journal, generate)[i] == SyncedEntry(journal[i], generate)
  {
    var q := SyncQueue(journal);
    SyncAllPointwise(journal, q, generate);
  }

  /** After a sync no entry waits for a reflection, and every processed entry is synced and not loading. */
  lemma {:induction false} SyncConverges(journal: seq<JournalEntry>, generate: string -> Option<string>)
    requires UniqueIds(journal)
    ensures forall i :: 0 <= i < |journal| ==> !Synced(journal, generate)[i].needsReflection
    ensures forall i :: 0 <= i < |journal| && journal[i].needsReflection ==>
      var e := Synced(journal, generate)[i];
      e.synced && !e.isLoadingReflection && e.reflection.Some?
  {
    SyncedClosedForm(journal, generate);
  }

  /** A second sync changes nothing when the remote call behaves the same way. */
  lemma {:induction false} SyncIdempotent(journal: seq<JournalEntry>, generate: string -> Option<string>)
    requires UniqueIds(journal)
    ensures Synced(Synced(journal, generate), generate) == Synced(journal, generate)
  {
    var once := Synced(journal, generate);
    SyncedClosedForm(journal, generate);
    assert UniqueIds(once) by {
      forall i, j | 0 <= i < j < |once| ensures once[i].id != once[j].id {
        assert once[i].id == journal[i].id && once[j].id == journal[j].id;
      }
    }
    SyncedClosedForm(once, generate);
  }

  /**
   * An entry written offline (unsynced, no reflection requested) is selected by
   * the filter on every sync but never processed, so it stays pending.
   */
  lemma {:induction false} OfflineEntryStaysPending(journal: seq<JournalEntry>, generate: string -> Option<string>, i: int)
    requires UniqueIds(journal)
    requires 0 <= i < |journal| && !journal[i].synced && !journal[i].needsReflection
    ensures journal[i] in SyncQueue(journal)
    ensures Synced(journal, generate)[i] == journal[i]
    ensures Synced(journal, generate)[i] in SyncQueue(Synced(journal, generate))
  {
    SyncedClosedForm(journal, generate);
  }

  /** When every remote call fails, processed entries carry the fixed fallback and still count as synced. */
  lemma {:induction false} SyncDuringOutage(journal: seq<JournalEntry>, generate: string -> Option<string>, i: int)
    requires UniqueIds(journal)
    requires forall t :: generate(t).None?
    requires 0 <= i < |journal| && journal[i].needsReflection
    ensures Synced(journal, generate)[i].reflection == Some(REFLECTION_FALLBACK)
    ensures Synced(journal, generate)[i].synced
  {
    SyncedClosedForm(journal, generate);
  }

  // ----------------------------------------------------------------- insights

  /** The effect runs when no insight was made today and there are more than three check-ins. */
  predicate InsightDue(d: UserData, today: Day)
  {
    d.lastInsightDate != Some(today) && |d.checkIns| > 3
  }

  /** The updater of the insight effect: the new insight goes before at most four older ones. */
  function RecordInsight(d: UserData, insight: string, today: Day): (r: UserData)
    ensures |r.insights| <= 5 && |r.insights| == if |d.insights| < 4 then |d.insights| + 1 else 5
    ensures r.insights[0] == insight && r.insights[1..] <= d.insights
    ensures r.lastInsightDate == Some(today)
    ensures r == d.(insights := r.insights, lastInsightDate := r.lastInsightDate)
  {
    d.(insights := [insight] + Take(d.insights, 4), lastInsightDate := Some(today))
  }

  /** The daily-insight effect, on the 14 newest check-ins and the 5 newest entries. */
  function RunDailyInsight(d: UserData, today: Day, generate: InsightData -> Option<string>): (r: UserData)
    ensures !InsightDue(d, today) ==> r == d
    ensures InsightDue(d, today) ==> r == RecordInsight(d, GetAIInsight(Take(d.checkIns, 14), Take(d.journal, 5), generate), today)
  {
    if InsightDue(d, today) then
      RecordInsight(d, GetAIInsight(Take(d.checkIns, 14), Take(d.journal, 5), generate), today)
    else d
  }

  /** The insight runs at most once a day: a second run on the same day changes nothing. */
  lemma {:induction false} InsightOncePerDay(d: UserData, today: Day, generate: InsightData -> Option<string>)
    ensures var once := RunDailyInsight(d, today, generate);
      !InsightDue(once, today) && RunDailyInsight(once, today, generate) == once
  {
    var once := RunDailyInsight(d, today, generate);
    assert once.lastInsightDate == Some(today) || once == d;
  }

  lemma InsightKeepsConsistent(d: UserData, today: Day, generate: InsightData -> Option<string>)
    requires Consistent(d)
    ensures Consistent(RunDailyInsight(d, today, generate))
  {
  }
}
