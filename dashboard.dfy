/**
 * screens/Dashboard.tsx: the layout editor of the customise dialog, the
 * check-in reminder, the greeting and the panels shown in layout order.
 */
module Dashboard {
  import opened Types
  import opened UserDocument

  datatype Direction = Up | Down

  /** The neighbour a move swaps with. */
  function Target(index: int, dir: Direction): int
  {
    if dir == Up then index - 1 else index + 1
  }

  /** The layout with the cells at `i` and `j` exchanged. */
  function Swapped<T>(s: seq<T>, i: int, j: int): (r: seq<T>)
    requires 0 <= i < |s| && 0 <= j < |s|
    ensures |r| == |s| && r[i] == s[j] && r[j] == s[i]
    ensures forall k :: 0 <= k < |s| && k != i && k != j ==> r[k] == s[k]
  {
    s[i := s[j]][j := s[i]]
  }

  /** The layout `move` hands to `onLayoutChange` when the neighbour exists. */
  function Moved(layout: seq<DashboardComponent>, index: int, dir: Direction): seq<DashboardComponent>
    requires 0 <= index < |layout| && 0 <= Target(index, dir) < |layout|
  {
    Swapped(layout, index, Target(index, dir))
  }

  /**
   * `CustomizeModal.move`: copies the layout, swaps the cell with its neighbour
   * in place and reports the copy; a move past either end reports nothing.
   */
  method Move(layout: seq<DashboardComponent>, index: int, dir: Direction) returns (r: Option<seq<DashboardComponent>>)
    requires 0 <= index < |layout|
    ensures r.None? <==> Target(index, dir) < 0 || Target(index, dir) >= |layout|
    ensures r.Some? ==> r.value == Moved(layout, index, dir)
  {
    var newLayout := new DashboardComponent[|layout|](k requires 0 <= k < |layout| => layout[k]);
    var target := if dir == Up then index - 1 else index + 1;
    if target < 0 || target >= newLayout.Length {
      return None;
    }
    assert newLayout[..] == layout;
    newLayout[index], newLayout[target] := newLayout[target], newLayout[index];
    assert newLayout[..] == Swapped(layout, index, target);
    return Some(newLayout[..]);
  }

  /** A move rearranges the panels: the same panels, each as often as before. */
  lemma {:induction false} MovedIsPermutation(layout: seq<DashboardComponent>, index: int, dir: Direction)
    requires 0 <= index < |layout| && 0 <= Target(index, dir) < |layout|
    ensures multiset(Moved(layout, index, dir)) == multiset(layout)
  {
    var j := Target(index, dir);
    var once := layout[index := layout[j]];
    assert multiset(once) == multiset(layout) - multiset{layout[index]} + multiset{layout[j]};
    assert multiset(once[j := layout[index]]) == multiset(once) - multiset{once[j]} + multiset{layout[index]};
  }

  /** Moving a panel down and then moving it back up restores the layout. */
  lemma {:induction false} DownThenUpRestores(layout: seq<DashboardComponent>, i: int)
    requires 0 <= i && i + 1 < |layout|
    ensures Moved(Moved(layout, i, Down), i + 1, Up) == layout
  {
    var once := Moved(layout, i, Down);
    var twice := Moved(once, i + 1, Up);
    assert forall k :: 0 <= k < |layout| ==> twice[k] == layout[k];
  }

  /** `userData.lastCheckIn === today`: the reminder is shown when this is false. */
  predicate HasCheckedInToday(d: UserData, today: Day)
  {
    d.lastCheckIn == Some(today)
  }

  /** The reminder disappears once the day's check-in is made, and a fresh document shows it. */
  lemma CheckInHidesReminder(d: UserData, input: CheckInInput, today: Day)
    ensures HasCheckedInToday(CompleteCheckIn(d, input, today), today)
    ensures !HasCheckedInToday(DefaultUserData(), today)
    ensures !HasCheckedInToday(CompleteCheckIn(d, input, today), today + 1)
  {
  }

  /** The greeting for the local hour 0..23. */
  function Greeting(hour: int): (r: string)
    requires 0 <= hour < 24
    ensures r == "Good Morning" <==> hour < 12
    ensures r == "Good Afternoon" <==> 12 <= hour < 18
    ensures r == "Good Evening" <==> 18 <= hour
  {
    if hour < 12 then "Good Morning" else if hour < 18 then "Good Afternoon" else "Good Evening"
  }

  /** The journey the dashboard shows: the catalog entry of the active journey, if any. */
  function ActiveJourneyData(d: UserData): (r: Option<Journey>)
    ensures r.Some? ==> d.activeJourney.Some? && r == FindJourney(JOURNEYS, d.activeJourney.value.journeyId)
    ensures d.activeJourney.Some? ==> r == FindJourney(JOURNEYS, d.activeJourney.value.journeyId)
    ensures d.activeJourney.None? ==> r.None?
  {
    if d.activeJourney.Some? then FindJourney(JOURNEYS, d.activeJourney.value.journeyId) else None
  }

  /** Whether a panel renders anything; the stats and the tree always do. */
  predicate Renders(d: UserData, c: DashboardComponent)
  {
    match c
    case Stats => true
    case Tree => true
    case JourneyPanel => ActiveJourneyData(d).Some?
    case InsightPanel => |d.insights| > 0
  }

  /** `dashboardLayout.map(key => components[key]).filter(Boolean)`, by panel. */
  function VisiblePanels(d: UserData, layout: seq<DashboardComponent>): (r: seq<DashboardComponent>)
    ensures |r| <= |layout|
    ensures forall c :: c in r <==> c in layout && Renders(d, c)
    ensures (forall k :: 0 <= k < |layout| ==> Renders(d, layout[k])) ==> r == layout
  {
    if |layout| == 0 then []
    else (if Renders(d, layout[0]) then [layout[0]] else []) + VisiblePanels(d, layout[1..])
  }

  /** Filtering keeps the layout order: the panels of a prefix come first. */
  lemma {:induction false} VisiblePanelsInOrder(d: UserData, a: seq<DashboardComponent>, b: seq<DashboardComponent>)
    ensures VisiblePanels(d, a + b) == VisiblePanels(d, a) + VisiblePanels(d, b)
    decreases |a|
  {
    if |a| > 0 {
      assert (a + b)[1..] == a[1..] + b;
      VisiblePanelsInOrder(d, a[1..], b);
    } else {
      assert a + b == b;
    }
  }

  /** The journey panel renders exactly when the active journey is one of the catalog's. */
  lemma JourneyPanelShown(d: UserData)
    ensures Renders(d, JourneyPanel) <==> d.activeJourney.Some? && d.activeJourney.value.journeyId == JOURNEYS[0].id
  {
    if d.activeJourney.Some? {
      KnownJourneys(d.activeJourney.value.journeyId);
    }
  }

  /** On a consistent document the journey panel's "step k of n" line names an existing step. */
  lemma JourneyPanelStepExists(d: UserData)
    requires Consistent(d) && Renders(d, JourneyPanel)
    ensures 0 <= d.activeJourney.value.currentStep < |ActiveJourneyData(d).value.steps|
  {
  }
}
