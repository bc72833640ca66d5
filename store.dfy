/**
 * The client store facade created by `createClientStore`: cached tags and
 * tabs backed by localStorage, the `lastSync` watermark kept in
 * localStorage, and the pending-event queue and local views in the client
 * database.
 *
 * The store owns three localStorage items, `tags`, `tabs` and `lastSync`,
 * and touches no other; the model keeps those three, each `None` until it is
 * first set. The store writes its tags and tabs as JSON and reads them back
 * with `JSON.parse`; the model keeps the decoded lists.
 */
module Store {
  import opened Keys
  import opened JsValues
  import opened JsNumbers
  import opened MessageLog
  import opened Idb

  datatype LocalStorage = LocalStorage(
    storedTags: Option<seq<Tag>>,
    storedTabs: Option<seq<int>>,
    lastSync: Option<string>)

  const DefaultTags: seq<Tag> := [
    Tag(1, "To do", "#881337"),
    Tag(2, "Read", "#713f12"),
    Tag(3, "Work", "#4c1d95"),
    Tag(4, "Remember", "#1e3a8a"),
    Tag(5, "Buy", "#14532d")
  ]

  const DefaultTabs: seq<int> := [0, 1, 2, 3, 4]

  /** `localStorage.getItem("lastSync")`, with a missing item read as `"null"` as `parseInt` sees it. */
  function StoredText(local: LocalStorage): string
  {
    if local.lastSync.Some? then local.lastSync.value else "null"
  }

  /**
   * What `getLastSync` finds: `parseInt` of the stored text (of `"null"` when
   * nothing is stored) when that is a non-zero number; `None` when it is NaN
   * or zero, the cases in which `getLastSync` resets the watermark.
   */
  function StoredWatermark(local: LocalStorage): (w: Option<int>)
    ensures w.Some? ==> w.value != 0
  {
    var parsed := ParseInt(StoredText(local));
    if parsed.Some? && parsed.value != 0 then parsed else None
  }

  /** The text `finishSync` stores: the timestamp when it is truthy, the current time otherwise. */
  function SyncText(timestamp: Option<int>, now: int): string
  {
    if timestamp.Some? && timestamp.value != 0 then IntToString(timestamp.value) else IntToString(now)
  }

  /**
   * After `finishSync(timestamp)`, `getLastSync` reads back the timestamp when
   * it is truthy, and otherwise the current time (unless that is zero).
   */
  lemma FinishSyncThenRead(local: LocalStorage, timestamp: Option<int>, now: int)
    ensures
      var w := StoredWatermark(local.(lastSync := Some(SyncText(timestamp, now))));
      if timestamp.Some? && timestamp.value != 0 then w == Some(timestamp.value)
      else if now != 0 then w == Some(now)
      else w == None
  {
    if timestamp.Some? && timestamp.value != 0 {
      ParseIntOfIntToString(timestamp.value);
    } else {
      ParseIntOfIntToString(now);
    }
  }

  /** The `"0"` that `getLastSync` writes reads as no watermark: the next call returns 0 again. */
  lemma ResetWatermarkReadsZero(local: LocalStorage)
    ensures StoredWatermark(local.(lastSync := Some("0"))) == None
  {
    ParseIntOfIntToString(0);
    assert IntToString(0) == "0";
  }

  /** Deleting an id from the pending store removes exactly the events with that id. */
  lemma DeleteRemovesThatId(pending: PendingStore, id: string)
    ensures forall x :: x in (pending - {id}).Values <==> x in pending.Values && x.id != id
  {
    forall x | x in pending.Values && x.id != id
      ensures x in (pending - {id}).Values
    {
      var k :| k in pending && pending[k] == x;
      assert k != id && (pending - {id})[k] == x;
    }
  }

  /** The ids of a list of events. */
  function IdsOf(events: seq<Event>): set<string>
  {
    set e | e in events :: e.id
  }

  class ClientStore {
    var localStorage: LocalStorage
    var tags: Option<seq<Tag>>
    var tabs: Option<seq<int>>
    const db: ClientDb

    /** A new store over the persisted localStorage and database; nothing is cached yet. */
    constructor (localStorage: LocalStorage, db: ClientDb)
      ensures this.localStorage == localStorage && this.db == db
      ensures tags == None && tabs == None
    {
      this.localStorage := localStorage;
      this.db := db;
      tags := None;
      tabs := None;
    }

    /** `setTags`: writes the tags to localStorage and to the cache. */
    method SetTags(updated: seq<Tag>)
      modifies this
      ensures localStorage == old(localStorage).(storedTags := Some(updated))
      ensures tags == Some(updated) && tabs == old(tabs)
    {
      localStorage := localStorage.(storedTags := Some(updated));
      tags := Some(updated);
    }

    /**
     * `getTags`: the cached tags; on the first call, the stored tags, or when
     * none are stored the default tags, which are then written.
     */
    method GetTags() returns (r: seq<Tag>)
      modifies this
      ensures old(tags).Some? ==> r == old(tags).value && localStorage == old(localStorage)
      ensures old(tags).None? && old(localStorage).storedTags.Some? ==>
        r == old(localStorage).storedTags.value && localStorage == old(localStorage)
      ensures old(tags).None? && old(localStorage).storedTags.None? ==>
        r == DefaultTags && localStorage == old(localStorage).(storedTags := Some(DefaultTags))
      ensures tags == Some(r) && tabs == old(tabs)
    {
      if tags.None? {
        if localStorage.storedTags.None? {
          SetTags(DefaultTags);
        } else {
          tags := localStorage.storedTags;
        }
      }
      r := tags.value;
    }

    /** `setTabs`: writes the tabs to localStorage and to the cache. */
    method SetTabs(updated: seq<int>)
      modifies this
      ensures localStorage == old(localStorage).(storedTabs := Some(updated))
      ensures tabs == Some(updated) && tags == old(tags)
    {
      localStorage := localStorage.(storedTabs := Some(updated));
      tabs := Some(updated);
    }

    /**
     * `getTabs`: the cached tabs; on the first call, the stored tabs, or when
     * none are stored the default tabs, which are then written.
     */
    method GetTabs() returns (r: seq<int>)
      modifies this
      ensures old(tabs).Some? ==> r == old(tabs).value && localStorage == old(localStorage)
      ensures old(tabs).None? && old(localStorage).storedTabs.Some? ==>
        r == old(localStorage).storedTabs.value && localStorage == old(localStorage)
      ensures old(tabs).None? && old(localStorage).storedTabs.None? ==>
        r == DefaultTabs && localStorage == old(localStorage).(storedTabs := Some(DefaultTabs))
      ensures tabs == Some(r) && tags == old(tags)
    {
      if tabs.None? {
        if localStorage.storedTabs.None? {
          SetTabs(DefaultTabs);
        } else {
          tabs := localStorage.storedTabs;
        }
      }
      r := tabs.value;
    }

    /**
     * `getLastSync`: the stored watermark when it parses to a non-zero
     * number; otherwise `"0"` is written and 0 returned.
     */
    method GetLastSync() returns (w: int)
      modifies this
      ensures StoredWatermark(old(localStorage)).Some? ==>
        w == StoredWatermark(old(localStorage)).value && localStorage == old(localStorage)
      ensures StoredWatermark(old(localStorage)).None? ==>
        w == 0 && localStorage == old(localStorage).(lastSync := Some("0"))
      ensures tags == old(tags) && tabs == old(tabs)
    {
      var lastSync := StoredWatermark(localStorage);
      if lastSync.None? {
        localStorage := localStorage.(lastSync := Some("0"));
        w := 0;
      } else {
        w := lastSync.value;
      }
    }

    /** `finishSync(timestamp)`: stores the timestamp when it is truthy, the current time otherwise. */
    method FinishSync(timestamp: Option<int>, now: int)
      modifies this
      ensures localStorage == old(localStorage).(lastSync := Some(SyncText(timestamp, now)))
      ensures tags == old(tags) && tabs == old(tabs)
    {
      localStorage := localStorage.(lastSync := Some(SyncText(timestamp, now)));
    }

    /** `getUnsyncedEvents`: the pending events in key order. */
    method GetUnsyncedEvents() returns (events: seq<Event>)
      ensures |events| == |db.pending|
      ensures forall e :: e in events <==> e in db.pending.Values
      ensures forall i, j :: 0 <= i < j < |events| ==> StrLess(events[i].id, events[j].id)
    {
      events := db.SelectUnsyncedEvents();
    }

    /**
     * `syncEventsInClientDb`: applies the events to the local views; an empty
     * list changes nothing.
     */
    method SyncEventsInClientDb(events: seq<Event>) returns (failedAt: Option<nat>)
      modifies db
      ensures db.messages == Replay(old(db.messages), events).messages
      ensures failedAt == Replay(old(db.messages), events).failedAt
      ensures events == [] ==> db.messages == old(db.messages) && failedAt == None
      ensures db.notes == old(db.notes) && db.pending == old(db.pending)
    {
      if |events| == 0 {
        return None;
      }
      failedAt := db.ApplyChatEvents(events);
    }

    /**
     * `sendEvent`: queues the event under its id, replacing any pending
     * event with that id, then applies it to the local views. The event
     * stays queued even when applying it throws.
     */
    method SendEvent(e: Event) returns (failedAt: Option<nat>)
      modifies db
      ensures db.pending == old(db.pending)[e.id := e]
      ensures db.messages == Replay(old(db.messages), [e]).messages
      ensures failedAt == Replay(old(db.messages), [e]).failedAt
      ensures db.notes == old(db.notes)
    {
      db.InsertUnsyncedChatEvent(e);
      failedAt := SyncEventsInClientDb([e]);
    }

    /**
     * `finishSendingEvents`: deletes the acknowledged events' ids from the
     * queue, one at a time; every other pending event stays.
     */
    method FinishSendingEvents(events: seq<Event>)
      modifies db
      ensures db.pending == old(db.pending) - IdsOf(events)
      ensures db.messages == old(db.messages) && db.notes == old(db.notes)
    {
      for i := 0 to |events|
        invariant db.pending == old(db.pending) - IdsOf(events[..i])
        invariant db.messages == old(db.messages) && db.notes == old(db.notes)
      {
        assert IdsOf(events[..i + 1]) == IdsOf(events[..i]) + {events[i].id} by {
          assert events[..i + 1] == events[..i] + [events[i]];
        }
        db.DeleteUnsyncedEvent(events[i].id);
      }
      assert events[..|events|] == events;
    }

    /** `getLastMessages(count)`: the newest `count` indexed messages, oldest first. */
    method GetLastMessages(count: int) returns (ms: seq<Record>)
      ensures |ms| == if count <= 0 then 0 else if count < |IndexEntries(db.messages)| then count else |IndexEntries(db.messages)|
      ensures NewestAscending(db.messages, ms)
    {
      ms := db.SelectMessages(count);
    }

    /** `getNote(id)`: the stored note, or a blank one dated `now`. */
    method GetNote(id: Key, now: int) returns (n: Note)
      ensures n.id == id
      ensures id in db.notes ==> n == db.notes[id]
      ensures id !in db.notes ==>
        n.text == "" && n.lastEdit == now && n.unsynced == 0 && n.isSyncing == None && n.lastSync == None
    {
      n := db.SelectNote(id, now);
    }
  }

  /**
   * Tags and tabs set in one session are what the getters return at once,
   * from the cache, and what the first getters of the next session return: a
   * store created afresh over the same localStorage reads them back.
   */
  method SettingsSurviveReload(s: ClientStore, newTags: seq<Tag>, newTabs: seq<int>)
    returns (sameTags: seq<Tag>, sameTabs: seq<int>, nextTags: seq<Tag>, nextTabs: seq<int>)
    modifies s
    ensures sameTags == newTags && sameTabs == newTabs
    ensures nextTags == newTags && nextTabs == newTabs
  {
    s.SetTags(newTags);
    s.SetTabs(newTabs);
    sameTags := s.GetTags();
    sameTabs := s.GetTabs();
    var next := new ClientStore(s.localStorage, s.db);
    nextTags := next.GetTags();
    nextTabs := next.GetTabs();
  }

  /**
   * An event sent is listed as pending until the server acknowledges it;
   * once acknowledged no pending event has its id, and the messages keep
   * what sending it did to them.
   */
  method SendThenAcknowledge(s: ClientStore, e: Event)
    returns (listed: seq<Event>, after: seq<Event>)
    modifies s.db
    ensures e in listed
    ensures forall x :: x in after ==> x.id != e.id
    ensures forall x :: x in after <==> x in listed && x.id != e.id
    ensures s.db.messages == Replay(old(s.db.messages), [e]).messages
  {
    var failedAt := s.SendEvent(e);
    listed := s.GetUnsyncedEvents();
    ghost var queued := s.db.pending;
    s.FinishSendingEvents([e]);
    assert IdsOf([e]) == {e.id};
    DeleteRemovesThatId(queued, e.id);
    after := s.GetUnsyncedEvents();
  }
}
