/**
 * screens/Journal.tsx: grouping of the entries under date headings, the entry
 * status icon, and the handlers that save an entry, ask for a reflection and
 * ask for a prompt.
 */
module Journal {
  import opened Types
  import opened Text
  import opened GeminiService
  import opened UserDocument
  import opened UserContext

  /** Today's day number and the locale's "month year" heading for a day. */
  datatype Calendar = Calendar(today: Day, monthLabel: Day -> string)

  /** The heading an entry is grouped under. */
  function KeyOf(date: Day, cal: Calendar): (k: string)
    ensures date == cal.today ==> k == "Today"
    ensures date == cal.today - 1 ==> k == "Yesterday"
    ensures date != cal.today && date != cal.today - 1 ==> k == cal.monthLabel(date)
  {
    if date == cal.today then "Today"
    else if date == cal.today - 1 then "Yesterday"
    else cal.monthLabel(date)
  }

  /** The entries with heading `k`, in input order. */
  function Members(entries: seq<JournalEntry>, k: string, cal: Calendar): (r: seq<JournalEntry>)
    ensures |r| <= |entries|
    decreases |entries|
  {
    if |entries| == 0 then []
    else
      var init := entries[..|entries| - 1];
      var e := entries[|entries| - 1];
      Members(init, k, cal) + (if KeyOf(e.date, cal) == k then [e] else [])
  }

  /** A group holds entries of the journal, each under the group's own heading. */
  lemma {:induction false} MembersBelong(entries: seq<JournalEntry>, k: string, cal: Calendar)
    ensures forall e :: e in Members(entries, k, cal) ==> e in entries && KeyOf(e.date, cal) == k
    decreases |entries|
  {
    if |entries| > 0 {
      var init := entries[..|entries| - 1];
      MembersBelong(init, k, cal);
      assert forall e :: e in init ==> e in entries;
    }
  }

  /** The headings in the order in which they first occur. */
  function KeysInOrder(entries: seq<JournalEntry>, cal: Calendar): (r: seq<string>)
    ensures NoDuplicates(r)
    ensures forall k :: k in r <==> exists i :: 0 <= i < |entries| && KeyOf(entries[i].date, cal) == k
    decreases |entries|
  {
    if |entries| == 0 then []
    else
      var init := entries[..|entries| - 1];
      var k := KeyOf(entries[|entries| - 1].date, cal);
      var before := KeysInOrder(init, cal);
      assert forall i :: 0 <= i < |init| ==> init[i] == entries[i];
      if k in before then before else before + [k]
  }

  /**
   * Heading `keys[m]` first occurs at entry `i`: every earlier entry has one of
   * the headings listed before it.
   */
  predicate FirstSeenAt(entries: seq<JournalEntry>, cal: Calendar, keys: seq<string>, m: int, i: int)
    requires 0 <= m < |keys|
  {
    0 <= i < |entries| && KeyOf(entries[i].date, cal) == keys[m] &&
    forall j :: 0 <= j < i ==> KeyOf(entries[j].date, cal) in keys[..m]
  }

  /** Heading `keys[m]` occurs somewhere, first after the headings listed before it. */
  ghost predicate SeenAfterEarlier(entries: seq<JournalEntry>, cal: Calendar, keys: seq<string>, m: int)
    requires 0 <= m < |keys|
  {
    exists i :: FirstSeenAt(entries, cal, keys, m, i)
  }

  /** The headings are listed in the order in which they first occur. */
  lemma {:induction false} KeysInFirstSeenOrder(entries: seq<JournalEntry>, cal: Calendar)
    ensures forall m :: 0 <= m < |KeysInOrder(entries, cal)| ==>
      SeenAfterEarlier(entries, cal, KeysInOrder(entries, cal), m)
    decreases |entries|
  {
    if |entries| > 0 {
      var init := entries[..|entries| - 1];
      var k := KeyOf(entries[|entries| - 1].date, cal);
      var before := KeysInOrder(init, cal);
      var r := KeysInOrder(entries, cal);
      KeysInFirstSeenOrder(init, cal);
      assert forall m :: 0 <= m < |before| ==> SeenAfterEarlier(init, cal, before, m);
      assert r == if k in before then before else before + [k];
      forall m | 0 <= m < |r| ensures SeenAfterEarlier(entries, cal, r, m) {
        if m < |before| {
          assert SeenAfterEarlier(init, cal, before, m);
          var i :| FirstSeenAt(init, cal, before, m, i);
          assert r[..m] == before[..m];
          assert forall j :: 0 <= j <= i ==> entries[j] == init[j];
          assert FirstSeenAt(entries, cal, r, m, i);
        } else {
          var i := |entries| - 1;
          assert r[..m] == before;
          forall j | 0 <= j < i ensures KeyOf(entries[j].date, cal) in r[..m] {
            assert init[j] == entries[j];
          }
          assert FirstSeenAt(entries, cal, r, m, i);
        }
      }
    }
  }

  /**
   * `groupEntriesByDate`: one pass over the entries, creating a group the first
   * time a heading occurs and pushing every entry onto its group.  `order`
   * records the insertion order of the headings, which is the order in which
   * the screen lists them.
   */
  method GroupEntriesByDate(entries: seq<JournalEntry>, cal: Calendar)
    returns (groups: map<string, seq<JournalEntry>>, order: seq<string>)
    ensures order == KeysInOrder(entries, cal)
    ensures forall k :: k in groups <==> k in order
    ensures forall k :: k in groups ==> groups[k] == Members(entries, k, cal)
  {
    groups := map[];
    order := [];
    for i := 0 to |entries|
      invariant order == KeysInOrder(entries[..i], cal)
      invariant forall k :: k in groups <==> k in order
      invariant forall k :: k in groups ==> groups[k] == Members(entries[..i], k, cal)
    {
      var e := entries[i];
      var key := KeyOf(e.date, cal);
      assert entries[..i + 1][..i] == entries[..i];
      if key !in groups {
        groups := groups[key := []];
        order := order + [key];
        MembersOfAbsentKey(entries[..i], key, cal);
      }
      groups := groups[key := groups[key] + [e]];
    }
    assert entries[..|entries|] == entries;
  }

  lemma {:induction false} MembersOfAbsentKey(entries: seq<JournalEntry>, k: string, cal: Calendar)
    requires k !in KeysInOrder(entries, cal)
    ensures Members(entries, k, cal) == []
    decreases |entries|
  {
    if |entries| > 0 {
      var init := entries[..|entries| - 1];
      assert forall i :: 0 <= i < |init| ==> init[i] == entries[i];
      assert KeyOf(entries[|entries| - 1].date, cal) != k;
      MembersOfAbsentKey(init, k, cal);
    }
  }

  /** Groups are filled by appending: the entries of a prefix come first, in order. */
  lemma {:induction false} MembersAppend(a: seq<JournalEntry>, b: seq<JournalEntry>, k: string, cal: Calendar)
    ensures Members(a + b, k, cal) == Members(a, k, cal) + Members(b, k, cal)
    decreases |b|
  {
    if |b| == 0 {
      assert a + b == a;
    } else {
      var init := b[..|b| - 1];
      assert (a + b)[..|a + b| - 1] == a + init;
      assert (a + b)[|a + b| - 1] == b[|b| - 1];
      MembersAppend(a, init, k, cal);
      AppendAssoc(Members(a, k, cal), Members(init, k, cal),
        if KeyOf(b[|b| - 1].date, cal) == k then [b[|b| - 1]] else []);
    }
  }

  /** The groups listed one after another, in heading order. */
  function Flatten(entries: seq<JournalEntry>, keys: seq<string>, cal: Calendar): seq<JournalEntry>
  {
    if |keys| == 0 then [] else Members(entries, keys[0], cal) + Flatten(entries, keys[1..], cal)
  }

  lemma {:induction false} FlattenAppendKey(entries: seq<JournalEntry>, keys: seq<string>, k: string, cal: Calendar)
    ensures Flatten(entries, keys + [k], cal) == Flatten(entries, keys, cal) + Members(entries, k, cal)
    decreases |keys|
  {
    if |keys| > 0 {
      assert (keys + [k])[1..] == keys[1..] + [k];
      FlattenAppendKey(entries, keys[1..], k, cal);
    }
  }

  lemma {:induction false} FlattenStep(entries: seq<JournalEntry>, e: JournalEntry, keys: seq<string>, cal: Calendar)
    requires NoDuplicates(keys)
    ensures multiset(Flatten(entries + [e], keys, cal)) ==
      multiset(Flatten(entries, keys, cal)) + (if KeyOf(e.date, cal) in keys then multiset{e} else multiset{})
    decreases |keys|
  {
    if |keys| > 0 {
      var s := entries + [e];
      var k, k0, rest := KeyOf(e.date, cal), keys[0], keys[1..];
      assert NoDuplicates(rest);
      FlattenStep(entries, e, rest, cal);
      MembersSnoc(entries, e, k0, cal);
      var a, b, b0 := Members(entries, k0, cal), Flatten(s, rest, cal), Flatten(entries, rest, cal);
      assert Flatten(entries, keys, cal) == a + b0;
      var m := if k in rest then multiset{e} else multiset{};
      if k == k0 {
        assert k !in rest;
        assert Flatten(s, keys, cal) == (a + [e]) + b;
        GroupGains(a, [e], b, b0, m);
      } else {
        assert k in keys <==> k in rest;
        assert Flatten(s, keys, cal) == a + [] + b;
        GroupGains(a, [], b, b0, m);
      }
    }
  }

  /** Multiset bookkeeping for one group of `Flatten`: what the later groups gain is added. */
  lemma GroupGains(a: seq<JournalEntry>, x: seq<JournalEntry>, b: seq<JournalEntry>, b0: seq<JournalEntry>,
                   m: multiset<JournalEntry>)
    requires multiset(b) == multiset(b0) + m
    ensures multiset(a + x + b) == multiset(a + b0) + multiset(x) + m
  {
  }

  lemma MembersSnoc(entries: seq<JournalEntry>, e: JournalEntry, k: string, cal: Calendar)
    ensures Members(entries + [e], k, cal) == Members(entries, k, cal) + (if KeyOf(e.date, cal) == k then [e] else [])
  {
    var s := entries + [e];
    assert s[..|s| - 1] == entries;
  }

  /** Every entry lands in exactly one group: the groups together are a permutation of the journal. */
  lemma {:induction false} GroupsPartition(entries: seq<JournalEntry>, cal: Calendar)
    ensures multiset(Flatten(entries, KeysInOrder(entries, cal), cal)) == multiset(entries)
    decreases |entries|
  {
    if |entries| > 0 {
      var init := entries[..|entries| - 1];
      var e := entries[|entries| - 1];
      assert entries == init + [e];
      var k := KeyOf(e.date, cal);
      var before := KeysInOrder(init, cal);
      GroupsPartition(init, cal);
      FlattenStep(init, e, before, cal);
      assert multiset(entries) == multiset(init) + multiset{e};
      if k !in before {
        NewKeyGroup(init, e, cal);
        assert multiset(Flatten(entries, before, cal)) == multiset(init);
      } else {
        assert KeysInOrder(entries, cal) == before;
      }
    }
  }

  /** An entry under a new heading opens a group of its own at the end. */
  lemma NewKeyGroup(init: seq<JournalEntry>, e: JournalEntry, cal: Calendar)
    requires KeyOf(e.date, cal) !in KeysInOrder(init, cal)
    ensures var entries, before := init + [e], KeysInOrder(init, cal);
      Flatten(entries, KeysInOrder(entries, cal), cal) == Flatten(entries, before, cal) + [e]
  {
    var entries := init + [e];
    var k := KeyOf(e.date, cal);
    var before := KeysInOrder(init, cal);
    assert entries[..|entries| - 1] == init;
    assert KeysInOrder(entries, cal) == before + [k];
    FlattenAppendKey(entries, before, k, cal);
    MembersOfAbsentKey(init, k, cal);
    assert Members(entries, k, cal) == Members(init, k, cal) + [e];
  }

  /** An entry is found under its own heading only. */
  lemma {:induction false} EntryInItsGroup(entries: seq<JournalEntry>, i: int, cal: Calendar)
    requires 0 <= i < |entries|
    ensures entries[i] in Members(entries, KeyOf(entries[i].date, cal), cal)
    ensures forall k :: k != KeyOf(entries[i].date, cal) ==> entries[i] !in Members(entries, k, cal)
    decreases |entries|
  {
    var init := entries[..|entries| - 1];
    var key := KeyOf(entries[i].date, cal);
    if i < |entries| - 1 {
      assert init[i] == entries[i];
      EntryInItsGroup(init, i, cal);
    }
    forall k | k != key
      ensures entries[i] !in Members(entries, k, cal)
    {
      MembersBelong(entries, k, cal);
    }
  }

  // ------------------------------------------------------------- entry status

  datatype Status = Loading | Pending | SyncedWithReflection | NoStatus

  /** `entry.reflection` as JavaScript tests it: present and not the empty string. */
  predicate HasReflection(e: JournalEntry)
  {
    e.reflection.Some? && e.reflection.value != ""
  }

  /** `EntryStatus`: loading before pending before synced-with-reflection. */
  function StatusOf(e: JournalEntry): (s: Status)
    ensures s == Loading <==> e.isLoadingReflection
    ensures s == Pending <==> !e.isLoadingReflection && IsQueued(e)
    ensures s == SyncedWithReflection <==> !e.isLoadingReflection && !IsQueued(e) && HasReflection(e)
    ensures s == NoStatus <==> !e.isLoadingReflection && !IsQueued(e) && !HasReflection(e)
  {
    if e.isLoadingReflection then Loading
    else if !e.synced || e.needsReflection then Pending
    else if e.synced && HasReflection(e) then SyncedWithReflection
    else NoStatus
  }

  /**
   * A fresh entry shows the pending icon whether it was written online or not:
   * online it still waits for its reflection.
   */
  lemma NewEntryIsPending(id: string, now: Day, content: string, online: bool)
    ensures StatusOf(NewEntry(id, now, content, online)) == Pending
  {
  }

  /** An entry the sync loop processed shows synced-with-reflection, unless the reply was empty. */
  lemma {:induction false} SyncedEntryStatus(e: JournalEntry, generate: string -> Option<string>)
    ensures GetJournalReflection(e.content, generate) != "" ==> StatusOf(Reflected(e, generate)) == SyncedWithReflection
    ensures GetJournalReflection(e.content, generate) == "" ==> StatusOf(Reflected(e, generate)) == NoStatus
  {
    var r := Reflected(e, generate);
    assert !r.isLoadingReflection && !IsQueued(r);
  }

  // ------------------------------------------------------------------ handlers

  /** The prompt button is enabled only with a check-in to build the prompt from. */
  predicate PromptEnabled(isPromptLoading: bool, d: UserData)
  {
    !isPromptLoading && |d.checkIns| > 0
  }

  /** The request a reflection asks for while offline: the entry is queued for the next sync. */
  function OfflineRequest(entry: JournalEntry): (r: JournalEntry)
    ensures r.id == entry.id && r.needsReflection && !r.synced && IsQueued(r)
  {
    entry.(needsReflection := true, synced := false)
  }

  /** A reflection asked for offline is delivered by the next sync that runs with unique ids. */
  lemma {:induction false} OfflineRequestServedBySync(journal: seq<JournalEntry>, entry: JournalEntry, i: int, generate: string -> Option<string>)
    requires UniqueIds(journal) && 0 <= i < |journal| && journal[i].id == entry.id
    ensures var queued := ReplaceById(journal, OfflineRequest(entry));
      UniqueIds(queued) && Synced(queued, generate)[i] == Reflected(OfflineRequest(entry), generate)
  {
    var queued := ReplaceById(journal, OfflineRequest(entry));
    assert forall j :: 0 <= j < |journal| ==> queued[j].id == journal[j].id;
    SyncedClosedForm(queued, generate);
  }

  class JournalScreen {
    var newEntryContent: string
    var isPromptLoading: bool

    constructor ()
      ensures newEntryContent == "" && !isPromptLoading
    {
      newEntryContent := "";
      isPromptLoading := false;
    }

    /** Save Entry: blank text is ignored; otherwise the entry is added and the box cleared. */
    method HandleAddEntry(p: UserProvider, id: string, now: Day, online: bool)
      requires p.Valid()
      modifies this`newEntryContent, p`userData
      ensures p.Valid()
      ensures IsBlank(old(newEntryContent)) ==> p.userData == old(p.userData) && newEntryContent == old(newEntryContent)
      ensures !IsBlank(old(newEntryContent)) ==>
        p.userData == AddJournalEntry(old(p.userData), id, now, old(newEntryContent), online, false) && newEntryContent == ""
    {
      if Trim(newEntryContent) == "" {
        return;
      }
      p.AddJournalEntry(id, now, newEntryContent, online, false);
      newEntryContent := "";
    }

    /**
     * Get Reflection: offline, the entry is only queued; online, it is marked as
     * loading and then replaced by its reflected form.
     */
    method HandleGetReflection(p: UserProvider, entry: JournalEntry, online: bool, generate: string -> Option<string>)
      requires p.Valid()
      modifies p`userData
      ensures p.Valid()
      ensures !online ==> p.userData == old(p.userData).(journal := ReplaceById(old(p.userData).journal, OfflineRequest(entry)))
      ensures online ==> p.userData == old(p.userData).(journal := ReplaceById(old(p.userData).journal, Reflected(entry, generate)))
    {
      if !online {
        p.UpdateJournalEntry(entry.(needsReflection := true, synced := false));
        return;
      }
      ReplaceByIdsCollapse(p.userData.journal, entry.(isLoadingReflection := true), Reflected(entry, generate));
      p.UpdateJournalEntry(entry.(isLoadingReflection := true));
      var reflection := GetJournalReflection(entry.content, generate);
      p.UpdateJournalEntry(entry.(reflection := Some(reflection), isLoadingReflection := false,
                                  needsReflection := false, synced := true));
    }

    /** Need a spark?: only reachable while the button is enabled; the prompt becomes the draft. */
    method HandleGetPrompt(p: UserProvider, generate: (int, int) -> Option<string>)
      requires PromptEnabled(isPromptLoading, p.userData)
      modifies this
      ensures newEntryContent == GetJournalPrompt(p.userData.checkIns, generate) && !isPromptLoading
    {
      isPromptLoading := true;
      var prompt := GetJournalPrompt(p.userData.checkIns, generate);
      newEntryContent := prompt;
      isPromptLoading := false;
    }
  }
}
