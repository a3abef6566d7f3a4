/**
 * The provider of context/UserContext.tsx: the user document plus the check-in
 * modal flag and the soundscape player, changed by the commands it exposes.
 * Clock readings (`today`, `now`), `navigator.onLine` and the remote calls are
 * parameters of the commands.
 */
module UserContext {
  import opened Types
  import opened GeminiService
  import opened UserDocument

  class UserProvider {
    var userData: UserData
    var isCheckInModalOpen: bool
    var activeSoundscape: Option<Soundscape>
    var isSoundscapePlaying: bool

    /** The document is consistent, and the player only plays a chosen soundscape. */
    ghost predicate Valid()
      reads this
    {
      Consistent(userData) && (isSoundscapePlaying ==> activeSoundscape.Some?)
    }

    constructor ()
      ensures Valid()
      ensures userData == DefaultUserData()
      ensures !isCheckInModalOpen && activeSoundscape.None? && !isSoundscapePlaying
    {
      userData := DefaultUserData();
      isCheckInModalOpen := false;
      activeSoundscape := None;
      isSoundscapePlaying := false;
    }

    method OpenCheckInModal()
      requires Valid()
      modifies this
      ensures Valid() && isCheckInModalOpen
      ensures userData == old(userData) && activeSoundscape == old(activeSoundscape)
      ensures isSoundscapePlaying == old(isSoundscapePlaying)
    {
      isCheckInModalOpen := true;
    }

    method CloseCheckInModal()
      requires Valid()
      modifies this
      ensures Valid() && !isCheckInModalOpen
      ensures userData == old(userData) && activeSoundscape == old(activeSoundscape)
      ensures isSoundscapePlaying == old(isSoundscapePlaying)
    {
      isCheckInModalOpen := false;
    }

    method UnlockAchievement(id: string)
      requires Valid()
      modifies this`userData
      ensures Valid() && userData == UserDocument.UnlockAchievement(old(userData), id)
    {
      UnlockKeepsConsistent(userData, id);
      userData := UserDocument.UnlockAchievement(userData, id);
    }

    /** `addJournalEntry`; `id` and `now` stand for the clock, `online` for `navigator.onLine`. */
    method AddJournalEntry(id: string, now: Day, content: string, online: bool, journeyStep: bool)
      requires Valid()
      modifies this`userData
      ensures Valid() && userData == UserDocument.AddJournalEntry(old(userData), id, now, content, online, journeyStep)
    {
      AddJournalEntryKeepsConsistent(userData, id, now, content, online, journeyStep);
      userData := UserDocument.AddJournalEntry(userData, id, now, content, online, journeyStep);
    }

    method UpdateJournalEntry(updated: JournalEntry)
      requires Valid()
      modifies this`userData
      ensures Valid() && userData == UserDocument.UpdateJournalEntry(old(userData), updated)
    {
      userData := UserDocument.UpdateJournalEntry(userData, updated);
    }

    method AddSession(s: Session)
      requires Valid()
      modifies this`userData
      ensures Valid() && userData == UserDocument.AddSession(old(userData), s)
    {
      userData := UserDocument.AddSession(userData, s);
    }

    /** `completeCheckIn`: records the check-in and closes the modal. */
    method CompleteCheckIn(input: CheckInInput, today: Day)
      requires Valid()
      modifies this
      ensures Valid() && userData == UserDocument.CompleteCheckIn(old(userData), input, today)
      ensures !isCheckInModalOpen
      ensures activeSoundscape == old(activeSoundscape) && isSoundscapePlaying == old(isSoundscapePlaying)
    {
      CheckInKeepsConsistent(userData, input, today);
      userData := UserDocument.CompleteCheckIn(userData, input, today);
      isCheckInModalOpen := false;
    }

    /**
     * `processSyncQueue`: the entries selected when the call starts are visited
     * in order; each one that needs a reflection is first marked as loading and
     * then replaced by its reflected form.
     */
    method ProcessSyncQueue(generate: string -> Option<string>)
      requires Valid()
      modifies this`userData
      ensures Valid()
      ensures userData == old(userData).(journal := Synced(old(userData).journal, generate))
    {
      var queue := SyncQueue(userData.journal);
      if |queue| == 0 {
        return;
      }
      ghost var start := userData.journal;
      for i := 0 to |queue|
        invariant Valid()
        invariant userData == old(userData).(journal := SyncAll(start, queue[..i], generate))
      {
        assert queue[..i + 1][..i] == queue[..i];
        SyncEntry(queue[i], generate);
      }
      assert queue[..|queue|] == queue;
    }

    /** One pass of the `processSyncQueue` loop, on the entry taken from the queue. */
    method SyncEntry(entry: JournalEntry, generate: string -> Option<string>)
      requires Valid()
      modifies this`userData
      ensures Valid()
      ensures userData == old(userData).(journal := SyncStep(old(userData).journal, entry, generate))
    {
      if entry.needsReflection {
        ghost var journal := userData.journal;
        userData := UserDocument.UpdateJournalEntry(userData, entry.(isLoadingReflection := true));
        var reflection := GetJournalReflection(entry.content, generate);
        userData := UserDocument.UpdateJournalEntry(userData,
          entry.(reflection := Some(reflection), isLoadingReflection := false, needsReflection := false, synced := true));
        ReplaceByIdsCollapse(journal, entry.(isLoadingReflection := true), Reflected(entry, generate));
      }
    }

    /** `startJourney`: no guard against an already active journey. */
    method StartJourney(id: string)
      requires Valid()
      modifies this`userData
      ensures Valid() && userData == UserDocument.StartJourney(old(userData), id)
    {
      JourneyKeepsConsistent(userData, id);
      userData := UserDocument.StartJourney(userData, id);
    }

    method CompleteJourneyStep()
      requires Valid()
      modifies this`userData
      ensures Valid() && userData == UserDocument.CompleteJourneyStep(old(userData))
    {
      JourneyKeepsConsistent(userData, "");
      userData := UserDocument.CompleteJourneyStep(userData);
    }

    method PlaySoundscape(scape: Soundscape)
      requires Valid()
      modifies this`activeSoundscape, this`isSoundscapePlaying
      ensures Valid() && activeSoundscape == Some(scape) && isSoundscapePlaying
    {
      activeSoundscape := Some(scape);
      isSoundscapePlaying := true;
    }

    /** Flips playback when a soundscape is chosen; does nothing otherwise. */
    method ToggleSoundscape()
      requires Valid()
      modifies this`isSoundscapePlaying
      ensures Valid()
      ensures isSoundscapePlaying == if activeSoundscape.Some? then !old(isSoundscapePlaying) else old(isSoundscapePlaying)
    {
      if activeSoundscape.Some? {
        isSoundscapePlaying := !isSoundscapePlaying;
      }
    }

    method StopSoundscape()
      requires Valid()
      modifies this`activeSoundscape, this`isSoundscapePlaying
      ensures Valid() && activeSoundscape.None? && !isSoundscapePlaying
    {
      isSoundscapePlaying := false;
      activeSoundscape := None;
    }

    method UpdateDashboardLayout(layout: seq<DashboardComponent>)
      requires Valid()
      modifies this`userData
      ensures Valid() && userData == UserDocument.UpdateDashboardLayout(old(userData), layout)
    {
      userData := UserDocument.UpdateDashboardLayout(userData, layout);
    }

    /** The daily-insight effect, run when the provider sees the document on `today`. */
    method RunDailyInsight(today: Day, generate: InsightData -> Option<string>)
      requires Valid()
      modifies this`userData
      ensures Valid() && userData == UserDocument.RunDailyInsight(old(userData), today, generate)
      ensures !InsightDue(userData, today)
    {
      InsightKeepsConsistent(userData, today, generate);
      InsightOncePerDay(userData, today, generate);
      userData := UserDocument.RunDailyInsight(userData, today, generate);
    }
  }
}
