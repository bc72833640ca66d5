/**
 * The client's IndexedDB database: the `messages`, `notes` and pending-event
 * object stores, and the operations that read and write them.
 *
 * Each object store is a map from key to record, typed so that every record
 * sits under its own `id`. The schema creates the pending store as
 * `unsyncedEvents` while the operations use `unsyncedChatEvents`; the model
 * has a single pending store.
 */
module Idb {
  import opened Ordering
  import opened Keys
  import opened JsValues
  import opened MessageLog

  /**
   * A note record. A note written by `startUpdateNote` has `isSyncing`; one
   * that has been synced has `lastSync`; `None` is a property that is absent
   * or `undefined`.
   */
  datatype Note = Note(
    id: Key,
    text: string,
    lastEdit: int,
    unsynced: int,
    isSyncing: Option<int>,
    lastSync: Option<int>)

  type NoteStore = s: map<Key, Note> | forall k :: k in s ==> s[k].id == k witness map[]

  type PendingStore = s: map<string, Event> | forall id :: id in s ==> s[id].id == id witness map[]

  // ---------------------------------------------------------------------------
  // The `sentAt` index of the messages store

  /** A record is in the `sentAt` index when its `sentAt` is a valid key. */
  predicate Indexed(r: Record)
  {
    AsKey(Field(r, "sentAt")).Some?
  }

  /** A stored record's entry in the index: its `sentAt` key and its primary key. */
  function EntryOf(r: Record): (Key, Key)
    requires Indexed(r) && KeyOf(r).Some?
  {
    (AsKey(Field(r, "sentAt")).value, KeyOf(r).value)
  }

  function IndexEntries(store: MessageStore): set<(Key, Key)>
  {
    set k | k in store && Indexed(store[k]) :: EntryOf(store[k])
  }

  /** The entries of the `sentAt` index in ascending order. */
  function SentAtOrder(store: MessageStore): (order: seq<(Key, Key)>)
    ensures |order| == |IndexEntries(store)|
    ensures forall x :: x in order <==> x in IndexEntries(store)
    ensures Sorted(order, EntryLess)
  {
    EntryLessIsStrictTotal();
    SortSet(IndexEntries(store), EntryLess)
  }

  /** The keys of the pending store in ascending order, as `getAll` lists them. */
  function PendingOrder(pending: PendingStore): (ids: seq<string>)
    ensures |ids| == |pending|
    ensures forall id :: id in ids <==> id in pending
    ensures Sorted(ids, StrLess)
  {
    StrLessIsStrictTotal();
    SortSet(pending.Keys, StrLess)
  }

  /** Every entry of the index belongs to a stored record whose entry it is. */
  lemma IndexEntryStored(store: MessageStore, x: (Key, Key))
    requires x in IndexEntries(store)
    ensures x.1 in store && Indexed(store[x.1]) && EntryOf(store[x.1]) == x
  {
  }

  /**
   * The last `c` entries of the index order are the newest: every indexed
   * record outside them has an entry below all of theirs.
   */
  lemma NewestSuffix(store: MessageStore, c: nat, k: Key)
    requires c <= |SentAtOrder(store)|
    requires k in store && Indexed(store[k])
    requires forall j :: |SentAtOrder(store)| - c <= j < |SentAtOrder(store)| ==> SentAtOrder(store)[j].1 != k
    ensures forall j :: |SentAtOrder(store)| - c <= j < |SentAtOrder(store)| ==>
      EntryLess(EntryOf(store[k]), SentAtOrder(store)[j])
  {
    var order := SentAtOrder(store);
    var x := EntryOf(store[k]);
    assert x in IndexEntries(store);
    var p :| 0 <= p < |order| && order[p] == x;
    assert p < |order| - c;
  }

  /** The records of the index entries from position `i` on, in that order. */
  ghost predicate RecordsFrom(store: MessageStore, i: nat, ms: seq<Record>)
  {
    && i <= |IndexKeys(store)|
    && |ms| == |IndexKeys(store)| - i
    && forall j :: 0 <= j < |ms| ==> ms[j] == store[IndexKeys(store)[i + j]]
  }

  /** Each of those records is stored, is indexed, and has the entry at its position. */
  lemma RecordsFromEntries(store: MessageStore, i: nat, ms: seq<Record>)
    requires RecordsFrom(store, i, ms)
    ensures |SentAtOrder(store)| == |IndexKeys(store)|
    ensures forall j :: 0 <= j < |ms| ==>
      && ms[j] in store.Values && Indexed(ms[j]) && KeyOf(ms[j]).Some?
      && EntryOf(ms[j]) == SentAtOrder(store)[i + j]
  {
    IndexKeysAre(store);
    var order := SentAtOrder(store);
    forall j | 0 <= j < |ms|
      ensures ms[j] in store.Values && Indexed(ms[j]) && KeyOf(ms[j]).Some? && EntryOf(ms[j]) == order[i + j]
    {
      IndexEntryStored(store, order[i + j]);
    }
  }

  /** Those records come in ascending index order. */
  lemma RecordsFromAscending(store: MessageStore, i: nat, ms: seq<Record>)
    requires RecordsFrom(store, i, ms)
    ensures forall j :: 0 <= j < |ms| ==> Indexed(ms[j]) && KeyOf(ms[j]).Some?
    ensures forall a, b :: 0 <= a < b < |ms| ==> EntryLess(EntryOf(ms[a]), EntryOf(ms[b]))
  {
    RecordsFromEntries(store, i, ms);
    var order := SentAtOrder(store);
    forall a, b | 0 <= a < b < |ms|
      ensures EntryLess(EntryOf(ms[a]), EntryOf(ms[b]))
    {
      assert EntryLess(order[i + a], order[i + b]);
    }
  }

  /** Every indexed record that is not among them has an entry below all of theirs. */
  lemma RecordsFromNewest(store: MessageStore, i: nat, ms: seq<Record>)
    requires RecordsFrom(store, i, ms)
    ensures forall j :: 0 <= j < |ms| ==> Indexed(ms[j]) && KeyOf(ms[j]).Some?
    ensures forall k :: k in store && Indexed(store[k]) && store[k] !in ms ==>
      forall j :: 0 <= j < |ms| ==> EntryLess(EntryOf(store[k]), EntryOf(ms[j]))
  {
    RecordsFromEntries(store, i, ms);
    IndexKeysAre(store);
    var order := SentAtOrder(store);
    forall k | k in store && Indexed(store[k]) && store[k] !in ms
      ensures forall j :: 0 <= j < |ms| ==> EntryLess(EntryOf(store[k]), EntryOf(ms[j]))
    {
      forall j | i <= j < |order|
        ensures order[j].1 != k
      {
        var t := j - i;
        assert ms[t] in ms;
      }
      NewestSuffix(store, |ms|, k);
    }
  }

  /**
   * `ms` is a run of the newest indexed messages of `store`: each is stored
   * and indexed, they are in strictly ascending order of `(sentAt, key)`,
   * and every indexed message not among them has a smaller entry than each
   * of them.
   */
  ghost predicate NewestAscending(store: MessageStore, ms: seq<Record>)
  {
    && (forall j :: 0 <= j < |ms| ==> ms[j] in store.Values && Indexed(ms[j]) && KeyOf(ms[j]).Some?)
    && (forall a, b :: 0 <= a < b < |ms| ==> EntryLess(EntryOf(ms[a]), EntryOf(ms[b])))
    && (forall k :: k in store && Indexed(store[k]) && store[k] !in ms ==>
          forall j :: 0 <= j < |ms| ==> EntryLess(EntryOf(store[k]), EntryOf(ms[j])))
  }

  /**
   * The records of the index entries from position `i` to the end are the
   * newest indexed records, in ascending index order.
   */
  lemma NewestOfIndex(store: MessageStore, i: nat, ms: seq<Record>)
    requires RecordsFrom(store, i, ms)
    ensures NewestAscending(store, ms)
  {
    RecordsFromEntries(store, i, ms);
    RecordsFromAscending(store, i, ms);
    RecordsFromNewest(store, i, ms);
  }

  /** Every entry of the index order belongs to a stored record. */
  lemma IndexKeysStored(store: MessageStore)
    ensures forall j :: 0 <= j < |SentAtOrder(store)| ==> SentAtOrder(store)[j].1 in store
  {
    var order := SentAtOrder(store);
    forall j | 0 <= j < |order|
      ensures order[j].1 in store
    {
      IndexEntryStored(store, order[j]);
    }
  }

  /** The primary keys of a list of index entries, in list order. */
  function SecondKeys(order: seq<(Key, Key)>): seq<Key>
  {
    if order == [] then [] else [order[0].1] + SecondKeys(order[1..])
  }

  lemma {:induction false} SecondKeysAre(order: seq<(Key, Key)>)
    ensures |SecondKeys(order)| == |order|
    ensures forall j :: 0 <= j < |order| ==> SecondKeys(order)[j] == order[j].1
  {
    if order != [] {
      SecondKeysAre(order[1..]);
    }
  }

  /** The primary keys of the `sentAt` index in index order: the order the cursor visits records. */
  function IndexKeys(store: MessageStore): (keys: seq<Key>)
    ensures forall j :: 0 <= j < |keys| ==> keys[j] in store
  {
    IndexKeysStored(store);
    SecondKeysAre(SentAtOrder(store));
    SecondKeys(SentAtOrder(store))
  }

  /**
   * The records of the last `min(count, n)` of the `n` index keys, in index
   * order, are the newest indexed records, ascending.
   */
  lemma SelectedNewest(store: MessageStore, keys: seq<Key>, count: int, ms: seq<Record>)
    requires keys == IndexKeys(store)
    requires |ms| == if count <= 0 then 0 else if count < |keys| then count else |keys|
    requires forall j :: 0 <= j < |ms| ==> keys[|keys| - |ms| + j] in store && ms[j] == store[keys[|keys| - |ms| + j]]
    ensures |ms| == if count <= 0 then 0 else if count < |IndexEntries(store)| then count else |IndexEntries(store)|
    ensures NewestAscending(store, ms)
  {
    KeysSuffixRecords(store, keys, ms);
    NewestOfIndex(store, |keys| - |ms|, ms);
  }

  /** `IndexKeys` lists the primary key of each index entry, in index order. */
  lemma IndexKeysAre(store: MessageStore)
    ensures |IndexKeys(store)| == |SentAtOrder(store)| == |IndexEntries(store)|
    ensures forall j :: 0 <= j < |IndexKeys(store)| ==> IndexKeys(store)[j] == SentAtOrder(store)[j].1
  {
    SecondKeysAre(SentAtOrder(store));
  }

  /** The records of the last index keys are the records of the index entries from that position on. */
  lemma KeysSuffixRecords(store: MessageStore, keys: seq<Key>, ms: seq<Record>)
    requires keys == IndexKeys(store) && |ms| <= |keys|
    requires forall j :: 0 <= j < |ms| ==> keys[|keys| - |ms| + j] in store && ms[j] == store[keys[|keys| - |ms| + j]]
    ensures |keys| == |IndexEntries(store)|
    ensures RecordsFrom(store, |keys| - |ms|, ms)
  {
    IndexKeysAre(store);
  }

  /** The events of the pending store listed by its ordered keys: each event once, in id order. */
  lemma ListedInKeyOrder(pending: PendingStore, events: seq<Event>)
    requires |events| == |PendingOrder(pending)|
    requires forall i :: 0 <= i < |events| ==>
      PendingOrder(pending)[i] in pending && events[i] == pending[PendingOrder(pending)[i]]
    ensures forall e :: e in events <==> e in pending.Values
    ensures forall i, j :: 0 <= i < j < |events| ==> StrLess(events[i].id, events[j].id)
  {
    var ids := PendingOrder(pending);
    forall e | e in pending.Values
      ensures e in events
    {
      var id :| id in pending && pending[id] == e;
      var i :| 0 <= i < |ids| && ids[i] == id;
      assert events[i] == e;
    }
    forall i, j | 0 <= i < j < |events|
      ensures StrLess(events[i].id, events[j].id)
    {
      assert StrLess(ids[i], ids[j]);
    }
  }

  class ClientDb {
    var messages: MessageStore
    var notes: NoteStore
    var pending: PendingStore

    constructor (messages: MessageStore, notes: NoteStore, pending: PendingStore)
      ensures this.messages == messages && this.notes == notes && this.pending == pending
    {
      this.messages := messages;
      this.notes := notes;
      this.pending := pending;
    }

    /** `db.put("messages", r)`; `ok` is false when the put throws. */
    method PutMessage(r: Record) returns (ok: bool)
      modifies this
      ensures ok == Put(old(messages), r).Some?
      ensures messages == if ok then Put(old(messages), r).value else old(messages)
      ensures notes == old(notes) && pending == old(pending)
    {
      var k := KeyOf(r);
      ok := k.Some?;
      if ok {
        messages := messages[k.value := r];
      }
    }

    /** `updateMessage`: get, spread the patch, put; `ok` is false when the put throws. */
    method UpdateMessage(id: Key, patch: Record) returns (ok: bool)
      modifies this
      ensures ok == Merge(old(messages), id, patch).Some?
      ensures messages == if ok then Merge(old(messages), id, patch).value else old(messages)
      ensures notes == old(notes) && pending == old(pending)
    {
      var message := if id in messages then messages[id] else map[];
      message := message + patch;
      ok := PutMessage(message);
    }

    /** One iteration of `applyChatEvents`' loop; `ok` is false when it throws. */
    method ApplyEvent(e: Event) returns (ok: bool)
      modifies this
      ensures ok == Step(old(messages), e).Some?
      ensures messages == if ok then Step(old(messages), e).value else old(messages)
      ensures notes == old(notes) && pending == old(pending)
    {
      ok := true;
      match e.eventType {
        case PostMsg =>
          if e.data.ObjectPayload? {
            ok := PutMessage(PostRecord(e, e.data.fields));
          } else {
            ok := false;
          }
        case EditMsg =>
          match e.data {
            case NoPayload =>
              ok := false;
            case NullPayload =>
              ok := UpdateMessage(StrKey(e.id), map[]);
            case ObjectPayload(patch) =>
              ok := UpdateMessage(StrKey(e.id), patch);
          }
        case CheckMsg =>
          ok := UpdateMessage(StrKey(e.id), map["checked" := Bool(true)]);
        case UncheckMsg =>
          ok := UpdateMessage(StrKey(e.id), map["checked" := Bool(false)]);
        case DeleteMsg =>
          messages := messages - {StrKey(e.id)};
        case _ =>
      }
    }

    /**
     * `applyChatEvents`: the messages become the replay of `events` over
     * them; `failedAt` is the position of the event that threw, if any, and
     * the events before it stay applied.
     */
    method ApplyChatEvents(events: seq<Event>) returns (failedAt: Option<nat>)
      modifies this
      ensures messages == Replay(old(messages), events).messages
      ensures failedAt == Replay(old(messages), events).failedAt
      ensures notes == old(notes) && pending == old(pending)
    {
      var i := 0;
      while i < |events|
        invariant 0 <= i <= |events|
        invariant Replay(old(messages), events) == Shift(Replay(messages, events[i..]), i)
        invariant notes == old(notes) && pending == old(pending)
      {
        assert events[i..][0] == events[i] && events[i..][1..] == events[i + 1..];
        var ok := ApplyEvent(events[i]);
        if !ok {
          failedAt := Some(i);
          return;
        }
        i := i + 1;
      }
      failedAt := None;
    }

    /**
     * The cursor walk of `selectMessages`: from the last of `keys` backwards,
     * each record is put in front of those already taken, until `count` are
     * taken or the keys run out. The result is the records of the last
     * `count` keys (all of them when there are fewer), in key-list order.
     */
    method WalkBackwards(keys: seq<Key>, count: int) returns (ms: seq<Record>)
      requires forall j :: 0 <= j < |keys| ==> keys[j] in messages
      ensures |ms| == if count <= 0 then 0 else if count < |keys| then count else |keys|
      ensures forall j :: 0 <= j < |ms| ==> ms[j] == messages[keys[|keys| - |ms| + j]]
    {
      ms := [];
      var i := |keys|;
      while i > 0 && count > |ms|
        invariant 0 <= i <= |keys|
        invariant |ms| == |keys| - i
        invariant |ms| == 0 || |ms| <= count
        invariant forall j :: 0 <= j < |ms| ==> ms[j] == messages[keys[i + j]]
      {
        ghost var taken := ms;
        ms := [messages[keys[i - 1]]] + ms;
        i := i - 1;
        assert forall j :: 1 <= j < |ms| ==> ms[j] == taken[j - 1];
      }
    }

    /**
     * `selectMessages(count)`: the newest `count` messages of the `sentAt`
     * index (all of them when there are fewer), in ascending order of
     * `sentAt` and then key. Records whose `sentAt` is not a valid key are
     * not in the index and never returned.
     */
    method SelectMessages(count: int) returns (ms: seq<Record>)
      ensures |ms| == if count <= 0 then 0 else if count < |IndexEntries(messages)| then count else |IndexEntries(messages)|
      ensures NewestAscending(messages, ms)
    {
      var store := messages;
      var keys := IndexKeys(store);
      ms := WalkBackwards(keys, count);
      SelectedNewest(store, keys, count, ms);
    }

    /** `selectNote`: the stored note, or a blank one dated `now` that is not written. */
    method SelectNote(id: Key, now: int) returns (n: Note)
      ensures n.id == id
      ensures id in notes ==> n == notes[id]
      ensures id !in notes ==>
        n.text == "" && n.lastEdit == now && n.unsynced == 0 && n.isSyncing == None && n.lastSync == None
    {
      if id in notes {
        n := notes[id];
      } else {
        n := Note(id, "", now, 0, None, None);
      }
    }

    /**
     * `startUpdateNote`: the note (stored or blank) gets the new text, is
     * dated `now` and is marked syncing and unsynced; it is written back.
     */
    method StartUpdateNote(id: Key, text: string, now: int) returns (n: Note)
      modifies this
      ensures n.id == id && n.text == text && n.lastEdit == now
      ensures n.isSyncing == Some(1) && n.unsynced == 1
      ensures n.lastSync == if id in old(notes) then old(notes)[id].lastSync else None
      ensures notes == old(notes)[id := n]
      ensures messages == old(messages) && pending == old(pending)
    {
      n := SelectNote(id, now);
      n := n.(text := text, lastEdit := now, isSyncing := Some(1), unsynced := 1);
      notes := notes[id := n];
    }

    /**
     * `finishUpdateNote`: the note (stored or blank) is no longer syncing; it
     * stays unsynced after an error and otherwise is synced as of `now`. Its
     * text and date are kept.
     */
    method FinishUpdateNote(id: Key, error: bool, now: int) returns (n: Note)
      modifies this
      ensures n.id == id
      ensures n.isSyncing == Some(0)
      ensures n.unsynced == if error then 1 else 0
      ensures n.lastSync == if !error then Some(now) else if id in old(notes) then old(notes)[id].lastSync else None
      ensures id in old(notes) ==> n.text == old(notes)[id].text && n.lastEdit == old(notes)[id].lastEdit
      ensures id !in old(notes) ==> n.text == "" && n.lastEdit == now
      ensures notes == old(notes)[id := n]
      ensures messages == old(messages) && pending == old(pending)
    {
      n := SelectNote(id, now);
      n := n.(isSyncing := Some(0), unsynced := if error then 1 else 0,
              lastSync := if error then n.lastSync else Some(now));
      notes := notes[id := n];
    }

    /**
     * `selectUnsyncedEvents`: every pending event exactly once, in key order.
     * The note-derived events it builds are discarded, so none are returned.
     */
    method SelectUnsyncedEvents() returns (events: seq<Event>)
      ensures |events| == |pending|
      ensures forall e :: e in events <==> e in pending.Values
      ensures forall i, j :: 0 <= i < j < |events| ==> StrLess(events[i].id, events[j].id)
    {
      var store := pending;
      var ids := PendingOrder(store);
      events := seq(|ids|, i requires 0 <= i < |ids| => store[ids[i]]);
      ListedInKeyOrder(store, events);
    }

    /** `insertUnsyncedChatEvent`: a put keyed by the event's id, replacing any event with that id. */
    method InsertUnsyncedChatEvent(e: Event)
      modifies this
      ensures pending == old(pending)[e.id := e]
      ensures messages == old(messages) && notes == old(notes)
    {
      pending := pending[e.id := e];
    }

    /** The pending store's delete by id; an absent id changes nothing. */
    method DeleteUnsyncedEvent(id: string)
      modifies this
      ensures pending == old(pending) - {id}
      ensures messages == old(messages) && notes == old(notes)
    {
      pending := pending - {id};
    }
  }
}
