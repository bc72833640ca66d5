/**
 * What `applyChatEvents` does to the `messages` object store, as functions.
 *
 * The store is a map from key to record whose keyPath is `id`: every record
 * sits under the key its own `id` property denotes. Events are applied one at
 * a time, in list order: `postMsg` puts a fresh record, `editMsg`, `checkMsg`
 * and `uncheckMsg` read the record, spread a patch over it and put the result,
 * `deleteMsg` deletes, and any other type (including `editNote`) does nothing.
 * A put whose record has no valid `id` throws, which ends the whole replay;
 * the events before it stay applied.
 */
module MessageLog {
  import opened Keys
  import opened JsValues

  datatype EventType =
    | EditNote
    | PostMsg
    | EditMsg
    | CheckMsg
    | UncheckMsg
    | DeleteMsg
    | Unrecognised(name: OtherTypeName)

  /** A `type` the reducer's switch does not name; each of the six it knows has its own constructor above. */
  type OtherTypeName = name: string
    | name !in {"editNote", "postMsg", "editMsg", "checkMsg", "uncheckMsg", "deleteMsg"}
    witness ""

  /**
   * The event's `data` text as `JSON.parse` sees it. `NoPayload`: the text is
   * missing or empty, so parsing it throws. `NullPayload`: the text is `null`
   * or "null", which parses to `null` and spreads as no properties.
   * `ObjectPayload`: the text of an object, decoded to its properties.
   */
  datatype Payload =
    | NoPayload
    | NullPayload
    | ObjectPayload(fields: Record)

  /**
   * An event as the client queues and replays it. The reducer keys messages
   * by the event's `id` and takes the posting time from its `sentAt`
   * property, `Undefined` when the event has none; `itemId` and `emittedAt`
   * are carried but not read. `data` is the payload after parsing.
   */
  datatype Event = Event(
    id: string,
    itemId: string,
    emittedAt: int,
    eventType: EventType,
    data: Payload,
    sentAt: Value)

  /** Every record sits under the key its `id` property denotes (the store's keyPath). */
  predicate KeyedById(store: map<Key, Record>)
  {
    forall k :: k in store ==> AsKey(Field(store[k], "id")) == Some(k)
  }

  type MessageStore = s: map<Key, Record> | KeyedById(s) witness map[]

  /** `t` agrees with `s` on every key other than `k`. */
  ghost predicate SameExcept(s: map<Key, Record>, t: map<Key, Record>, k: Key)
  {
    forall j :: j != k ==> (j in s <==> j in t) && (j in s ==> s[j] == t[j])
  }

  /** The key a record is put under, when its `id` is a valid key. */
  function KeyOf(r: Record): Option<Key>
  {
    AsKey(Field(r, "id"))
  }

  /** `db.put("messages", r)`: stores `r` under its own `id`, or throws when `r` has no valid `id`. */
  function Put(store: MessageStore, r: Record): (result: Option<MessageStore>)
    ensures result.Some? <==> KeyOf(r).Some?
    ensures result.Some? ==>
      var k := KeyOf(r).value;
      k in result.value && result.value[k] == r && SameExcept(store, result.value, k)
  {
    match KeyOf(r)
    case None => None
    case Some(k) => Some(store[k := r])
  }

  /** The record `postMsg` puts: the event's `id` and `sentAt` and the payload's `text`, `tag` and `checked`. */
  function PostRecord(e: Event, d: Record): Record
  {
    map["id" := Str(e.id), "sentAt" := e.sentAt,
        "text" := Field(d, "text"), "tag" := Field(d, "tag"), "checked" := Field(d, "checked")]
  }

  /**
   * `updateMessage`: read the record under `id` (nothing when there is none),
   * spread `patch` over it and put the result. The merged record keeps every
   * property of the old one that `patch` does not name; it is put under its
   * own `id`, which is `id` itself unless `patch` renames it, and the put
   * throws when neither the old record nor `patch` supplies a valid `id`.
   */
  function Merge(store: MessageStore, id: Key, patch: Record): (result: Option<MessageStore>)
    ensures result.Some? <==> (if "id" in patch then AsKey(patch["id"]).Some? else id in store)
    ensures result.Some? ==>
      var k := if "id" in patch then AsKey(patch["id"]).value else id;
      && k in result.value
      && SameExcept(store, result.value, k)
      && (forall f :: f in result.value[k] <==> f in patch || (id in store && f in store[id]))
      && (forall f :: f in patch ==> result.value[k][f] == patch[f])
      && (forall f :: f !in patch && id in store && f in store[id] ==> result.value[k][f] == store[id][f])
  {
    var base := if id in store then store[id] else map[];
    Put(store, base + patch)
  }

  /** One iteration of the reducer's loop: the new store, or `None` when the iteration throws. */
  function Step(store: MessageStore, e: Event): (result: Option<MessageStore>)
  {
    match e.eventType
    case PostMsg =>
      // `data.text` throws unless the payload is an object
      if e.data.ObjectPayload? then Put(store, PostRecord(e, e.data.fields)) else None
    case EditMsg =>
      // parsing a missing payload throws; a `null` one spreads as nothing
      if e.data.NoPayload? then None
      else Merge(store, StrKey(e.id), if e.data.ObjectPayload? then e.data.fields else map[])
    case CheckMsg => Merge(store, StrKey(e.id), map["checked" := Bool(true)])
    case UncheckMsg => Merge(store, StrKey(e.id), map["checked" := Bool(false)])
    case DeleteMsg => Some(store - {StrKey(e.id)})
    case _ => Some(store)
  }

  /** The outcome of replaying a list of events: the store, and the position of the event that threw, if any. */
  datatype Applied = Applied(messages: MessageStore, failedAt: Option<nat>)

  /** Moves a failure position `n` places later, for a replay that started `n` events into the list. */
  function Shift(r: Applied, n: nat): Applied
  {
    Applied(r.messages, if r.failedAt.Some? then Some(r.failedAt.value + n) else None)
  }

  /** `applyChatEvents`: apply the events in order, stopping at the first one that throws. */
  function Replay(store: MessageStore, events: seq<Event>): (r: Applied)
    ensures r.failedAt.Some? ==> r.failedAt.value < |events|
    ensures r.failedAt == Some(0) ==> r.messages == store
    decreases |events|
  {
    if events == [] then Applied(store, None)
    else
      match Step(store, events[0])
      case None => Applied(store, Some(0))
      case Some(next) => Shift(Replay(next, events[1..]), 1)
  }

  // ---------------------------------------------------------------------------
  // What each event type does

  /**
   * `postMsg` with an object payload stores exactly the five fields under the
   * event's id, replacing any earlier record there; every other message is
   * unchanged. With a missing or `null` payload it throws.
   */
  lemma PostMsgPuts(store: MessageStore, e: Event)
    requires e.eventType == PostMsg
    ensures Step(store, e).Some? <==> e.data.ObjectPayload?
    ensures e.data.ObjectPayload? ==>
      var s := Step(store, e).value;
      var r := s[StrKey(e.id)];
      && StrKey(e.id) in s
      && r.Keys == {"id", "sentAt", "text", "tag", "checked"}
      && r["id"] == Str(e.id) && r["sentAt"] == e.sentAt
      && r["text"] == Field(e.data.fields, "text")
      && r["tag"] == Field(e.data.fields, "tag")
      && r["checked"] == Field(e.data.fields, "checked")
      && SameExcept(store, s, StrKey(e.id))
  {
  }

  /**
   * `editMsg` on a stored message overwrites exactly the properties its
   * payload names and keeps the others; unless the payload moves the record
   * to another `id` (that case is `Merge`'s), the message stays under its key
   * and every other message is unchanged.
   */
  lemma EditMsgMerges(store: MessageStore, e: Event)
    requires e.eventType == EditMsg && e.data.ObjectPayload?
    requires "id" !in e.data.fields || e.data.fields["id"] == Str(e.id)
    requires StrKey(e.id) in store
    ensures Step(store, e).Some?
    ensures
      var k := StrKey(e.id);
      var s := Step(store, e).value;
      var patch := e.data.fields;
      && k in s
      && SameExcept(store, s, k)
      && (forall f :: f in s[k] <==> f in patch || f in store[k])
      && (forall f :: f in s[k] ==> s[k][f] == if f in patch then patch[f] else store[k][f])
  {
  }

  /**
   * `editMsg` with a `null` payload puts the stored message back unchanged;
   * on a message that is not stored, the merged record has no `id` and the
   * put throws.
   */
  lemma EditMsgNullPayloadKeeps(store: MessageStore, e: Event)
    requires e.eventType == EditMsg && e.data == NullPayload
    ensures Step(store, e).Some? <==> StrKey(e.id) in store
    ensures Step(store, e).Some? ==> Step(store, e).value == store
  {
    var k := StrKey(e.id);
    assert Step(store, e) == Merge(store, k, map[]);
    if k in store {
      assert store[k] + map[] == store[k];
      assert store[k := store[k]] == store;
    }
  }

  /**
   * `checkMsg` and `uncheckMsg` set `checked` to true or false and keep every
   * other property of that message and every other message. On a message that
   * is not stored, the merged record has no `id` and the put throws.
   */
  lemma CheckMsgSetsChecked(store: MessageStore, e: Event)
    requires e.eventType == CheckMsg || e.eventType == UncheckMsg
    ensures Step(store, e).Some? <==> StrKey(e.id) in store
    ensures StrKey(e.id) in store ==>
      var k := StrKey(e.id);
      var s := Step(store, e).value;
      && k in s
      && SameExcept(store, s, k)
      && s[k].Keys == store[k].Keys + {"checked"}
      && s[k]["checked"] == Bool(e.eventType == CheckMsg)
      && (forall f :: f in store[k] && f != "checked" ==> s[k][f] == store[k][f])
  {
    var k := StrKey(e.id);
    var patch := map["checked" := Bool(e.eventType == CheckMsg)];
    assert Step(store, e) == Merge(store, k, patch);
    if k in store {
      var s := Merge(store, k, patch).value;
      assert s[k].Keys == store[k].Keys + {"checked"};
    }
  }

  /** `deleteMsg` removes exactly the message under the event's id; an absent id changes nothing. */
  lemma DeleteMsgRemoves(store: MessageStore, e: Event)
    requires e.eventType == DeleteMsg
    ensures Step(store, e).Some?
    ensures Step(store, e).value.Keys == store.Keys - {StrKey(e.id)}
    ensures SameExcept(store, Step(store, e).value, StrKey(e.id))
    ensures StrKey(e.id) !in store ==> Step(store, e).value == store
  {
  }

  /** `editNote` and unrecognised types leave the messages as they are. */
  lemma OtherTypesIgnored(store: MessageStore, e: Event)
    requires e.eventType == EditNote || e.eventType.Unrecognised?
    ensures Step(store, e) == Some(store)
  {
  }

  // ---------------------------------------------------------------------------
  // Replaying lists of events

  /** Replaying `a + b` replays `a`, then, unless `a` threw, replays `b` from where `a` left the store. */
  lemma {:induction false} ReplayAppend(store: MessageStore, a: seq<Event>, b: seq<Event>)
    ensures Replay(store, a + b) ==
      var ra := Replay(store, a);
      if ra.failedAt.Some? then ra else Shift(Replay(ra.messages, b), |a|)
    decreases |a|
  {
    if a == [] {
      assert a + b == b;
      assert Shift(Replay(store, b), 0) == Replay(store, b);
    } else {
      assert (a + b)[0] == a[0];
      assert (a + b)[1..] == a[1..] + b;
      match Step(store, a[0])
      case None =>
      case Some(next) =>
        ReplayAppend(next, a[1..], b);
    }
  }

  /**
   * When the replay stops at event `i`, the store is what the events before
   * `i` made of it, and event `i` throws on that store.
   */
  lemma {:induction false} ReplayStopsAtFailure(store: MessageStore, events: seq<Event>)
    requires Replay(store, events).failedAt.Some?
    ensures
      var i := Replay(store, events).failedAt.value;
      && i < |events|
      && Replay(store, events[..i]) == Applied(Replay(store, events).messages, None)
      && Step(Replay(store, events).messages, events[i]).None?
    decreases |events|
  {
    match Step(store, events[0])
    case None =>
    case Some(next) =>
      ReplayStopsAtFailure(next, events[1..]);
      var i := Replay(store, events).failedAt.value;
      assert events[..i][1..] == events[1..][..i - 1];
  }

  /** Applying an event to the store it produced changes nothing: put, merge and delete are idempotent. */
  lemma StepIdempotent(store: MessageStore, e: Event)
    requires Step(store, e).Some?
    ensures Step(Step(store, e).value, e) == Step(store, e)
  {
    var s := Step(store, e).value;
    match e.eventType
    case PostMsg =>
      assert s[StrKey(e.id) := PostRecord(e, e.data.fields)] == s;
    case DeleteMsg =>
      assert s - {StrKey(e.id)} == s;
    case EditMsg =>
      MergeIdempotent(store, StrKey(e.id), if e.data.ObjectPayload? then e.data.fields else map[]);
    case CheckMsg =>
      MergeIdempotent(store, StrKey(e.id), map["checked" := Bool(true)]);
    case UncheckMsg =>
      MergeIdempotent(store, StrKey(e.id), map["checked" := Bool(false)]);
    case _ =>
  }

  lemma MergeIdempotent(store: MessageStore, id: Key, patch: Record)
    requires Merge(store, id, patch).Some?
    ensures Merge(Merge(store, id, patch).value, id, patch) == Merge(store, id, patch)
  {
    var base := if id in store then store[id] else map[];
    var merged := base + patch;
    var k := KeyOf(merged).value;
    var s := store[k := merged];
    assert Merge(store, id, patch) == Some(s);
    var base' := if id in s then s[id] else map[];
    if k == id {
      assert base' == merged;
      assert merged + patch == merged;
    } else {
      assert base' == base;
    }
    assert s[k := merged] == s;
  }

  /** Replaying an event twice leaves the messages as replaying it once. */
  lemma ReplayTwice(store: MessageStore, e: Event)
    ensures Replay(store, [e, e]).messages == Replay(store, [e]).messages
  {
    ReplayAppend(store, [e], [e]);
    assert [e] + [e] == [e, e];
    if Step(store, e).Some? {
      StepIdempotent(store, e);
      assert [e][1..] == [];
    }
  }

  // ---------------------------------------------------------------------------
  // Two worked replays

  /** A message posted and then deleted is absent afterwards. */
  lemma PostThenDeleteRemoves(store: MessageStore, post: Event, del: Event)
    requires post.eventType == PostMsg && post.data.ObjectPayload?
    requires del.eventType == DeleteMsg && del.id == post.id
    ensures Replay(store, [post, del]).failedAt == None
    ensures StrKey(post.id) !in Replay(store, [post, del]).messages
  {
    assert [post, del][1..] == [del];
    assert [del][1..] == [];
    var s := Step(store, post).value;
    DeleteMsgRemoves(s, del);
    assert Replay(s, [del]) == Applied(Step(s, del).value, None);
    assert Replay(store, [post, del]) == Shift(Replay(s, [del]), 1);
  }

  /** A message posted and then checked is stored with `checked` true. */
  lemma PostThenCheckIsChecked(store: MessageStore, post: Event, check: Event)
    requires post.eventType == PostMsg && post.data.ObjectPayload?
    requires check.eventType == CheckMsg && check.id == post.id
    ensures Replay(store, [post, check]).failedAt == None
    ensures StrKey(post.id) in Replay(store, [post, check]).messages
    ensures Field(Replay(store, [post, check]).messages[StrKey(post.id)], "checked") == Bool(true)
  {
    assert [post, check][1..] == [check];
    assert [check][1..] == [];
    PostMsgPuts(store, post);
    var s := Step(store, post).value;
    CheckMsgSetsChecked(s, check);
    assert Replay(s, [check]) == Applied(Step(s, check).value, None);
    assert Replay(store, [post, check]) == Shift(Replay(s, [check]), 1);
  }
}
