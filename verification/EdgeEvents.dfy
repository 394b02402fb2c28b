// The event record shared by the edge worker and the importer, and the
// deterministic identity given to Telegram updates.
module EdgeEvents {
  import opened Prelude
  import opened Json
  import opened Decimal

  const EDGE_EVENT_SCHEMA_VERSION := "edge-event.v1"

  datatype EdgeEvent = EdgeEvent(
    schemaVersion: string,
    eventId: string,
    eventType: string,
    aggregateKey: string,
    sequence: int,
    occurredAt: string,
    payload: Value)

  predicate Valid(event: EdgeEvent) {
    && event.schemaVersion == EDGE_EVENT_SCHEMA_VERSION
    && 0 < |event.eventId| <= 200
    && 0 < |event.eventType| <= 100
    && 0 < |event.aggregateKey| <= 200
    && event.sequence >= 0
    && event.occurredAt != ""
    && event.payload.Object?
  }

  // What the edge worker compares when an event id arrives again: everything
  // except the arrival time.
  predicate SameDelivery(a: EdgeEvent, b: EdgeEvent) {
    a == b.(occurredAt := a.occurredAt)
  }

  function ChatOf(payload: Value, field: string): Option<int> {
    AsI64(Get(Get(Get(Some(payload), field), "chat"), "id"))
  }

  function TelegramChatId(payload: Value): Option<int> {
    if ChatOf(payload, "message").Some? then ChatOf(payload, "message")
    else if ChatOf(payload, "edited_message").Some? then ChatOf(payload, "edited_message")
    else if ChatOf(payload, "channel_post").Some? then ChatOf(payload, "channel_post")
    else if ChatOf(payload, "edited_channel_post").Some? then ChatOf(payload, "edited_channel_post")
    else AsI64(Get(Get(Get(Get(Some(payload), "callback_query"), "message"), "chat"), "id"))
  }

  function TelegramUpdateId(payload: Value): (id: Option<nat>) {
    var id := AsI64(Get(Some(payload), "update_id"));
    if id.Some? && id.value >= 0 then Some(id.value) else None
  }

  function TelegramEdgeEvent(payload: Value, occurredAt: string): Result<EdgeEvent, string> {
    match TelegramUpdateId(payload)
    case None => Err("Telegram update_id must be a non-negative integer")
    case Some(updateId) =>
      var aggregateKey := match TelegramChatId(payload)
        case Some(chat) => "telegram-chat:" + PrintInt(chat)
        case None => "telegram-update:" + PrintInt(updateId);
      var event := EdgeEvent(EDGE_EVENT_SCHEMA_VERSION, "telegram:" + PrintInt(updateId),
                             "telegram.update", aggregateKey, updateId, occurredAt, payload);
      if Valid(event) then Ok(event) else Err("edge event contains invalid required values")
  }

  lemma FourMore(k: nat)
    ensures Pow10(k + 4) == 10_000 * Pow10(k) && Pow10(0) == 1 && Pow10(k + 4) == 10 * Pow10(k + 3)
  {
    assert Pow10(k + 1) == 10 * Pow10(k) && Pow10(k + 2) == 10 * Pow10(k + 1) && Pow10(k + 3) == 10 * Pow10(k + 2);
  }

  lemma I64PrintLength(n: int)
    requires I64_MIN <= n <= I64_MAX
    ensures 0 < |PrintInt(n)| <= 20
  {
    hide Pow10;
    FourMore(0);
    FourMore(4);
    FourMore(8);
    FourMore(12);
    FourMore(16);
    assert Pow10(20) > 10 * 0x8000_0000_0000_0000;
    PrintLength(if n < 0 then -n else n, 19);
  }

  // A webhook body is turned into an event exactly when it carries a
  // non-negative update id and the clock gave a time; the event is then valid.
  lemma {:induction false} TelegramEventAccepted(payload: Value, occurredAt: string)
    ensures TelegramEdgeEvent(payload, occurredAt).Ok?
            <==> TelegramUpdateId(payload).Some? && occurredAt != ""
    ensures TelegramEdgeEvent(payload, occurredAt).Ok?
            ==> Valid(TelegramEdgeEvent(payload, occurredAt).value)
  {
    var id := TelegramUpdateId(payload);
    if id.Some? {
      I64PrintLength(id.value);
      var chat := TelegramChatId(payload);
      if chat.Some? { I64PrintLength(chat.value); }
    }
  }

  // An event just within the limits is valid, and one beyond any of them is not.
  lemma {:induction false} LimitsAre(event: EdgeEvent)
    requires event.schemaVersion == "edge-event.v1" && event.eventId != "" && event.eventType != ""
    requires event.aggregateKey != "" && event.occurredAt != "" && event.payload.Object?
    ensures |event.eventId| <= 200 && |event.eventType| <= 100 && |event.aggregateKey| <= 200 && event.sequence >= 0
            ==> Valid(event)
    ensures |event.eventId| > 200 || |event.eventType| > 100 || |event.aggregateKey| > 200 || event.sequence < 0
            ==> !Valid(event)
  {
  }

  // ---- What the event holds -----------------------------------------------

  // The value under `outer`, then `inner`, and so on, of an object.
  ghost predicate Holds(value: Value, keys: seq<string>, leaf: Value)
    decreases |keys|
  {
    if keys == [] then value == leaf
    else value.Object? && Lookup(value.members, keys[0]).Some?
         && Holds(Lookup(value.members, keys[0]).value, keys[1..], leaf)
  }

  // The five places where a body can carry the chat, the first one wins.
  const PLACES: seq<seq<string>> := [
    ["message", "chat", "id"], ["edited_message", "chat", "id"], ["channel_post", "chat", "id"],
    ["edited_channel_post", "chat", "id"], ["callback_query", "message", "chat", "id"]]

  ghost predicate ChatThere(payload: Value, k: nat, chat: int)
    requires k < |PLACES|
  {
    Holds(payload, PLACES[k], Number(chat)) && I64_MIN <= chat <= I64_MAX
  }

  // No earlier place holds a chat.
  ghost predicate FirstThere(payload: Value, k: nat, chat: int)
    requires k < |PLACES|
  {
    ChatThere(payload, k, chat) && forall j, c :: 0 <= j < k ==> !ChatThere(payload, j, c)
  }

  ghost predicate ChatIs(payload: Value, chat: int) {
    exists k :: 0 <= k < |PLACES| && FirstThere(payload, k, chat)
  }

  function Walk(value: Option<Value>, keys: seq<string>): Option<Value>
    decreases |keys|
  {
    if keys == [] then value else Walk(Get(value, keys[0]), keys[1..])
  }

  lemma {:induction false} WalkHolds(value: Value, keys: seq<string>, leaf: Value)
    ensures Walk(Some(value), keys) == Some(leaf) <==> Holds(value, keys, leaf)
    decreases |keys|
  {
    if keys != [] {
      if value.Object? && Lookup(value.members, keys[0]).Some? {
        WalkHolds(Lookup(value.members, keys[0]).value, keys[1..], leaf);
      } else {
        WalkNone(keys[1..]);
      }
    }
  }

  lemma {:induction false} WalkNone(keys: seq<string>)
    ensures Walk(None, keys) == None
    decreases |keys|
  {
    if keys != [] { WalkNone(keys[1..]); }
  }

  lemma WalkThree(value: Option<Value>, a: string, b: string, c: string)
    ensures Walk(value, [a, b, c]) == Get(Get(Get(value, a), b), c)
  {
    assert [a, b, c][1..] == [b, c] && [b, c][1..] == [c] && [c][1..] == [];
    hide Get;
    assert Walk(value, [a, b, c]) == Walk(Get(value, a), [b, c]);
    assert Walk(Get(value, a), [b, c]) == Walk(Get(Get(value, a), b), [c]);
    assert Walk(Get(Get(value, a), b), [c]) == Walk(Get(Get(Get(value, a), b), c), []);
  }

  lemma WalkFour(value: Option<Value>, a: string, b: string, c: string, d: string)
    ensures Walk(value, [a, b, c, d]) == Get(Get(Get(Get(value, a), b), c), d)
  {
    assert [a, b, c, d][1..] == [b, c, d];
    WalkThree(Get(value, a), b, c, d);
  }

  // What each place gives.
  function ChatAt(payload: Value, k: nat): Option<int>
    requires k < |PLACES|
  {
    AsI64(Walk(Some(payload), PLACES[k]))
  }

  lemma ChatAtThere(payload: Value, k: nat, chat: int)
    requires k < |PLACES|
    ensures ChatAt(payload, k) == Some(chat) <==> ChatThere(payload, k, chat)
  {
    hide Walk, Holds;
    WalkHolds(payload, PLACES[k], Number(chat));
    var at := Walk(Some(payload), PLACES[k]);
    if at.Some? && at.value.Number? { WalkHolds(payload, PLACES[k], at.value); }
  }

  lemma ChatInOrder(payload: Value)
    ensures TelegramChatId(payload) ==
      if ChatAt(payload, 0).Some? then ChatAt(payload, 0)
      else if ChatAt(payload, 1).Some? then ChatAt(payload, 1)
      else if ChatAt(payload, 2).Some? then ChatAt(payload, 2)
      else if ChatAt(payload, 3).Some? then ChatAt(payload, 3)
      else ChatAt(payload, 4)
  {
    hide Walk, Get, AsI64;
    WalkThree(Some(payload), "message", "chat", "id");
    WalkThree(Some(payload), "edited_message", "chat", "id");
    WalkThree(Some(payload), "channel_post", "chat", "id");
    WalkThree(Some(payload), "edited_channel_post", "chat", "id");
    WalkFour(Some(payload), "callback_query", "message", "chat", "id");
  }

  // The chat of a body is the number in the first of the places that holds one.
  lemma {:induction false} TelegramChatIs(payload: Value, chat: int)
    ensures TelegramChatId(payload) == Some(chat) <==> ChatIs(payload, chat)
  {
    hide ChatAt, ChatThere, TelegramChatId;
    ChatInOrder(payload);
    forall k, c | 0 <= k < |PLACES| ensures ChatAt(payload, k) == Some(c) <==> ChatThere(payload, k, c) {
      ChatAtThere(payload, k, c);
    }
    forall k, c | 0 <= k < |PLACES|
      ensures FirstThere(payload, k, c) <==>
        ChatAt(payload, k) == Some(c) && forall j :: 0 <= j < k ==> ChatAt(payload, j).None?
    {
      forall j | 0 <= j < k ensures ChatAt(payload, j).None? <==> forall d :: !ChatThere(payload, j, d) {
        assert ChatAt(payload, j).Some? ==> ChatThere(payload, j, ChatAt(payload, j).GetOr(0));
      }
    }
    hide FirstThere;
    if TelegramChatId(payload) == Some(chat) {
      var k := if ChatAt(payload, 0).Some? then 0 else if ChatAt(payload, 1).Some? then 1
               else if ChatAt(payload, 2).Some? then 2 else if ChatAt(payload, 3).Some? then 3 else 4;
      assert FirstThere(payload, k, chat);
    }
  }

  // The sequence is the update id, the id and the aggregate name it and the chat.
  lemma {:induction false} TelegramEventIs(payload: Value, occurredAt: string, chat: int)
    requires TelegramEdgeEvent(payload, occurredAt).Ok?
    ensures var event := TelegramEdgeEvent(payload, occurredAt).value;
      && Holds(payload, ["update_id"], Number(event.sequence)) && 0 <= event.sequence <= I64_MAX
      && event.eventId == "telegram:" + PrintInt(event.sequence)
      && event.payload == payload && event.occurredAt == occurredAt
      && event.eventType == "telegram.update" && event.schemaVersion == "edge-event.v1"
      && (ChatIs(payload, chat) ==> event.aggregateKey == "telegram-chat:" + PrintInt(chat))
      && ((forall c :: !ChatIs(payload, c)) ==> event.aggregateKey == "telegram-update:" + PrintInt(event.sequence))
  {
    hide ChatIs, TelegramChatId, PrintInt, Holds;
    TelegramChatIs(payload, chat);
    if TelegramChatId(payload).Some? { TelegramChatIs(payload, TelegramChatId(payload).value); }
    UpdateIdHeld(payload);
  }

  lemma UpdateIdHeld(payload: Value)
    requires TelegramUpdateId(payload).Some?
    ensures Holds(payload, ["update_id"], Number(TelegramUpdateId(payload).value))
    ensures TelegramUpdateId(payload).value <= I64_MAX
  {
    WalkHolds(payload, ["update_id"], Number(TelegramUpdateId(payload).value));
    assert ["update_id"][1..] == [];
  }

  // Two bodies with a chat share their aggregate exactly when it is the same chat;
  // one without shares it exactly with bodies of the same update that have none.
  lemma {:induction false} SameAggregateIff(p: Value, q: Value, t: string, u: string)
    requires TelegramEdgeEvent(p, t).Ok? && TelegramEdgeEvent(q, u).Ok?
    ensures var a, b := TelegramEdgeEvent(p, t).value, TelegramEdgeEvent(q, u).value;
      a.aggregateKey == b.aggregateKey <==>
        || (exists chat :: ChatIs(p, chat) && ChatIs(q, chat))
        || ((forall chat :: !ChatIs(p, chat) && !ChatIs(q, chat)) && a.sequence == b.sequence)
  {
    hide ChatIs, TelegramChatId, PrintInt;
    var a, b := TelegramEdgeEvent(p, t).value, TelegramEdgeEvent(q, u).value;
    forall c ensures TelegramChatId(p) == Some(c) <==> ChatIs(p, c) { TelegramChatIs(p, c); }
    forall c ensures TelegramChatId(q) == Some(c) <==> ChatIs(q, c) { TelegramChatIs(q, c); }
    var c, d := TelegramChatId(p).GetOr(0), TelegramChatId(q).GetOr(0);
    Tagged("telegram-chat:", c, d);
    Tagged("telegram-update:", a.sequence, b.sequence);
    assert ("telegram-chat:" + PrintInt(c))[9] == 'c' && ("telegram-chat:" + PrintInt(d))[9] == 'c';
    assert ("telegram-update:" + PrintInt(a.sequence))[9] == 'u';
    assert ("telegram-update:" + PrintInt(b.sequence))[9] == 'u';
  }

  lemma Tagged(tag: string, m: int, n: int)
    ensures tag + PrintInt(m) == tag + PrintInt(n) <==> m == n
  {
    if tag + PrintInt(m) == tag + PrintInt(n) {
      assert (tag + PrintInt(m))[|tag|..] == PrintInt(m) && (tag + PrintInt(n))[|tag|..] == PrintInt(n);
      PrintInjective(m, n);
    }
  }

  // Identity is a function of the update alone: a redelivered body gives the
  // same event up to its arrival time, and two bodies share an event id only
  // if they carry the same update id.
  lemma {:induction false} TelegramIdentity(p: Value, q: Value, t: string, u: string)
    requires TelegramEdgeEvent(p, t).Ok? && TelegramEdgeEvent(q, u).Ok?
    ensures TelegramEdgeEvent(p, t).value.eventId == TelegramEdgeEvent(q, u).value.eventId
            <==> TelegramUpdateId(p) == TelegramUpdateId(q)
    ensures SameDelivery(TelegramEdgeEvent(p, t).value, TelegramEdgeEvent(q, u).value) <==> p == q
  {
    var a, b := TelegramEdgeEvent(p, t).value, TelegramEdgeEvent(q, u).value;
    if a.eventId == b.eventId {
      assert a.eventId[|"telegram:"|..] == PrintInt(TelegramUpdateId(p).value);
      assert b.eventId[|"telegram:"|..] == PrintInt(TelegramUpdateId(q).value);
      PrintInjective(TelegramUpdateId(p).value, TelegramUpdateId(q).value);
    }
  }
}
