// The edge worker's `edge_events` table: the atomic SQL statements as functions
// on table values, and the three request handlers as methods that update the
// table statement by statement. Each handler is specified here without
// interference; RelayProtocol interleaves the same statements.
module EdgeTable {
  import opened Prelude
  import opened EdgeEvents

  const MAX_PULL_BATCH: nat := 100
  const MAX_LEASE_SECONDS: nat := 300
  const RETENTION_SECONDS: nat := 30 * 86_400

  datatype RowState = Pending | Publishing | Acknowledged

  datatype Row = Row(
    event: EdgeEvent,
    createdAt: nat,
    state: RowState,
    leaseOwner: Option<string>,
    leaseExpiresAt: Option<nat>,
    attempts: nat,
    acknowledgedAt: Option<nat>)

  type Table = map<string, Row>

  // ---- Statements ---------------------------------------------------------

  function FreshRow(event: EdgeEvent, now: nat): Row {
    Row(event, now, Pending, None, None, 0, None)
  }

  function InsertOrIgnore(t: Table, event: EdgeEvent, now: nat): Table {
    if event.eventId in t then t else t[event.eventId := FreshRow(event, now)]
  }

  // The condition shared by the candidate SELECT and the leasing UPDATE. A NULL
  // expiry compares as unknown, hence false.
  predicate Leasable(row: Row, now: nat) {
    || row.state.Pending?
    || (row.state.Publishing? && row.leaseExpiresAt.Some? && row.leaseExpiresAt.value <= now)
  }

  predicate CanLease(t: Table, id: string, now: nat) {
    id in t && Leasable(t[id], now)
  }

  function Lease(t: Table, id: string, owner: string, seconds: nat, now: nat): Table {
    if CanLease(t, id, now) then
      t[id := t[id].(state := Publishing, leaseOwner := Some(owner),
                     leaseExpiresAt := Some(now + seconds), attempts := t[id].attempts + 1)]
    else t
  }

  predicate CanAck(t: Table, id: string, owner: string) {
    id in t && t[id].state.Publishing? && t[id].leaseOwner == Some(owner)
  }

  function Ack(t: Table, id: string, owner: string, now: nat): Table {
    if CanAck(t, id, owner) then
      t[id := t[id].(state := Acknowledged, acknowledgedAt := Some(now),
                     leaseOwner := None, leaseExpiresAt := None)]
    else t
  }

  predicate IsAcked(t: Table, id: string) {
    id in t && t[id].state.Acknowledged?
  }

  predicate PastRetention(row: Row, now: nat) {
    && row.state.Acknowledged? && row.acknowledgedAt.Some?
    && row.acknowledgedAt.value + RETENTION_SECONDS < now
  }

  // A set of rows the retention DELETE may remove: at most 100, all past retention.
  ghost predicate Removable(t: Table, ids: set<string>, now: nat) {
    && |ids| <= 100
    && ids <= t.Keys
    && forall id :: id in ids ==> PastRetention(t[id], now)
  }

  predicate Before(a: Row, b: Row) {
    a.event.sequence < b.event.sequence
    || (a.event.sequence == b.event.sequence && a.createdAt <= b.createdAt)
  }

  // A possible answer of the candidate SELECT: distinct leasable rows in
  // (sequence, created_at) order, and no leasable row left out while the limit
  // is not reached or in favour of a later one.
  ghost predicate IsCandidateList(t: Table, limit: nat, now: nat, ids: seq<string>) {
    && |ids| <= limit
    && (forall i :: 0 <= i < |ids| ==> CanLease(t, ids[i], now))
    && (forall i, j :: 0 <= i < j < |ids| ==> ids[i] != ids[j] && Before(t[ids[i]], t[ids[j]]))
    && (forall id :: CanLease(t, id, now) && id !in ids ==>
          |ids| == limit && forall i :: 0 <= i < |ids| ==> Before(t[ids[i]], t[id]))
  }

  // A row is listed only if it is pending or its lease has run out, and every such
  // row is listed while there is room.
  lemma {:induction false} CandidatesAre(t: Table, limit: nat, now: nat, ids: seq<string>, id: string)
    requires IsCandidateList(t, limit, now, ids)
    ensures id in ids ==>
      && id in t
      && (t[id].state == Pending
          || (t[id].state == Publishing && t[id].leaseExpiresAt.Some? && t[id].leaseExpiresAt.value <= now))
    ensures id in t && t[id].state == Pending && |ids| < limit ==> id in ids
    ensures (id in t && t[id].state == Publishing && t[id].leaseExpiresAt.Some? && t[id].leaseExpiresAt.value <= now
             && |ids| < limit) ==> id in ids
  {
    hide Before;
    if id in ids {
      var i :| 0 <= i < |ids| && ids[i] == id;
      assert CanLease(t, ids[i], now);
    }
  }

  // The list is in the order of sequence, then of arrival, and what it leaves out
  // comes no earlier.
  lemma {:induction false} CandidatesOrdered(t: Table, limit: nat, now: nat, ids: seq<string>)
    requires IsCandidateList(t, limit, now, ids)
    ensures forall i, j :: 0 <= i < j < |ids| ==>
      ids[i] in t && ids[j] in t && t[ids[i]].event.sequence <= t[ids[j]].event.sequence
    ensures forall i, j :: 0 <= i < j < |ids| && t[ids[i]].event.sequence == t[ids[j]].event.sequence ==>
      t[ids[i]].createdAt <= t[ids[j]].createdAt
    ensures forall i, id :: 0 <= i < |ids| && id in t && id !in ids && t[id].state == Pending ==>
      t[ids[i]].event.sequence <= t[id].event.sequence
  {
  }

  // Retention never stands in the way of a candidate.
  lemma {:induction false} CandidatesWithout(t: Table, removed: set<string>, limit: nat, now: nat, ids: seq<string>)
    requires Removable(t, removed, now) && IsCandidateList(t - removed, limit, now, ids)
    ensures IsCandidateList(t, limit, now, ids)
  {
    hide Before;
    forall id ensures CanLease(t, id, now) == CanLease(t - removed, id, now) {
    }
  }

  // A first version is stored as it came, unleased and never tried.
  lemma {:induction false} InsertedIs(t: Table, event: EdgeEvent, now: nat)
    requires event.eventId !in t
    ensures var u := InsertOrIgnore(t, event, now);
      && u.Keys == t.Keys + {event.eventId} && (forall id :: id in t ==> u[id] == t[id])
      && u[event.eventId] == Row(event, now, Pending, None, None, 0, None)
  {
  }

  // Retention deletes only rows acknowledged more than thirty days ago.
  lemma {:induction false} RemovedIsOld(t: Table, removed: set<string>, now: nat, id: string)
    requires Removable(t, removed, now) && id in removed
    ensures id in t && t[id].state == Acknowledged
    ensures t[id].acknowledgedAt.Some? && t[id].acknowledgedAt.value + 30 * 24 * 60 * 60 < now
    ensures |removed| <= 100
  {
  }

  // An acknowledgement settles a row exactly when it is leased to the owner,
  // whether or not the lease has run out.
  lemma {:induction false} AckIs(t: Table, id: string, owner: string, now: nat)
    requires id in t
    ensures var u := Ack(t, id, owner, now);
      && u.Keys == t.Keys && (forall o :: o in t && o != id ==> u[o] == t[o])
      && u[id] == if t[id].state == Publishing && t[id].leaseOwner == Some(owner)
                  then Row(t[id].event, t[id].createdAt, Acknowledged, None, None, t[id].attempts, Some(now))
                  else t[id]
  {
  }

  function Clamp(value: nat, low: nat, high: nat): nat {
    if value < low then low else if value > high then high else value
  }

  predicate ValidOwner(owner: string) {
    && 0 < |owner| <= 100
    && forall i :: 0 <= i < |owner| ==>
         'a' <= owner[i] <= 'z' || 'A' <= owner[i] <= 'Z' || '0' <= owner[i] <= '9'
         || owner[i] == '-' || owner[i] == '_'
  }

  // An owner is valid exactly with one to a hundred letters, digits, underscores
  // and hyphens.
  lemma {:induction false} OwnerIs(owner: string)
    ensures ValidOwner(owner) <==>
      && owner != "" && |owner| < 101
      && forall c :: c in owner ==> c in {'_', '-'} || '0' <= c <= '9' || 'a' <= c <= 'z' || 'A' <= c <= 'Z'
  {
    assert forall i :: 0 <= i < |owner| ==> owner[i] in owner;
  }

  // ---- Whole handlers without interference --------------------------------

  function LeaseAll(t: Table, ids: seq<string>, owner: string, seconds: nat, now: nat): Table {
    if ids == [] then t
    else Lease(LeaseAll(t, ids[..|ids| - 1], owner, seconds, now), ids[|ids| - 1], owner, seconds, now)
  }

  lemma {:induction false} LeaseAllAt(t: Table, ids: seq<string>, owner: string, seconds: nat, now: nat, id: string)
    requires forall i :: 0 <= i < |ids| ==> CanLease(t, ids[i], now)
    requires forall i, j :: 0 <= i < j < |ids| ==> ids[i] != ids[j]
    ensures LeaseAll(t, ids, owner, seconds, now).Keys == t.Keys
    ensures id in t ==>
      LeaseAll(t, ids, owner, seconds, now)[id] ==
      if id in ids then t[id].(state := Publishing, leaseOwner := Some(owner),
                               leaseExpiresAt := Some(now + seconds), attempts := t[id].attempts + 1)
      else t[id]
  {
    if ids != [] {
      var rest, last := ids[..|ids| - 1], ids[|ids| - 1];
      assert ids == rest + [last];
      LeaseAllAt(t, rest, owner, seconds, now, id);
      LeaseAllAt(t, rest, owner, seconds, now, last);
    }
  }

  function AckAll(t: Table, ids: seq<string>, owner: string, now: nat): Table {
    if ids == [] then t
    else Ack(AckAll(t, ids[..|ids| - 1], owner, now), ids[|ids| - 1], owner, now)
  }

  lemma {:induction false} AckAllAt(t: Table, ids: seq<string>, owner: string, now: nat, id: string)
    ensures AckAll(t, ids, owner, now).Keys == t.Keys
    ensures id in t ==>
      AckAll(t, ids, owner, now)[id] ==
      if id in ids && CanAck(t, id, owner)
      then t[id].(state := Acknowledged, acknowledgedAt := Some(now),
                  leaseOwner := None, leaseExpiresAt := None)
      else t[id]
  {
    if ids != [] {
      var rest, last := ids[..|ids| - 1], ids[|ids| - 1];
      assert ids == rest + [last];
      AckAllAt(t, rest, owner, now, id);
      AckAllAt(t, rest, owner, now, last);
    }
  }

  // Index of the first candidate whose stored event fails validation.
  ghost function FirstInvalid(t: Table, ids: seq<string>): (k: nat)
    requires forall i :: 0 <= i < |ids| ==> ids[i] in t
    ensures k <= |ids|
    ensures forall i :: 0 <= i < k ==> Valid(t[ids[i]].event)
    ensures k < |ids| ==> !Valid(t[ids[k]].event)
  {
    if ids == [] || !Valid(t[ids[0]].event) then 0 else 1 + FirstInvalid(t, ids[1..])
  }

  // The stored events of `ids`, in order.
  ghost function EventsOf(t: Table, ids: seq<string>): (events: seq<EdgeEvent>)
    requires forall i :: 0 <= i < |ids| ==> ids[i] in t
    ensures |events| == |ids|
    ensures forall i :: 0 <= i < |ids| ==> events[i] == t[ids[i]].event
  {
    if ids == [] then [] else EventsOf(t, ids[..|ids| - 1]) + [t[ids[|ids| - 1]].event]
  }

  lemma NothingLeased(t: Table, owner: string, seconds: nat, now: nat)
    ensures LeaseAll(t, [], owner, seconds, now) == t && EventsOf(t, []) == []
  {
  }

  // The lease loop's next step.
  lemma {:induction false} LeaseOneMore(t: Table, ids: seq<string>, i: nat, owner: string, seconds: nat, now: nat)
    requires forall k :: 0 <= k < |ids| ==> ids[k] in t && CanLease(t, ids[k], now)
    requires forall j, k :: 0 <= j < k < |ids| ==> ids[j] != ids[k]
    requires i < |ids|
    ensures var before := LeaseAll(t, ids[..i], owner, seconds, now);
      && CanLease(before, ids[i], now) && ids[i] in before && before[ids[i]].event == t[ids[i]].event
      && LeaseAll(t, ids[..i + 1], owner, seconds, now) == Lease(before, ids[i], owner, seconds, now)
    ensures EventsOf(t, ids[..i + 1]) == EventsOf(t, ids[..i]) + [t[ids[i]].event]
  {
    hide Lease;
    LeaseAllAt(t, ids[..i], owner, seconds, now, ids[i]);
    assert ids[..i + 1][..i] == ids[..i] && ids[..i + 1][i] == ids[i];
  }

  // How many positions of `ids` name an acknowledged row.
  function Count(t: Table, ids: seq<string>): nat {
    if ids == [] then 0
    else Count(t, ids[..|ids| - 1]) + (if IsAcked(t, ids[|ids| - 1]) then 1 else 0)
  }

  lemma {:induction false} CountIsAll(t: Table, ids: seq<string>)
    ensures Count(t, ids) <= |ids|
    ensures Count(t, ids) == |ids| <==> forall i :: 0 <= i < |ids| ==> IsAcked(t, ids[i])
  {
    if ids != [] { CountIsAll(t, ids[..|ids| - 1]); }
  }

  lemma {:induction false} CountFrame(t: Table, u: Table, ids: seq<string>)
    requires forall i :: 0 <= i < |ids| ==> IsAcked(t, ids[i]) == IsAcked(u, ids[i])
    ensures Count(t, ids) == Count(u, ids)
  {
    if ids != [] { CountFrame(t, u, ids[..|ids| - 1]); }
  }

  ghost predicate SoundTable(t: Table) {
    forall id :: id in t ==> Valid(t[id].event) && t[id].event.eventId == id
  }

  lemma {:induction false} LeaseAllSound(t: Table, ids: seq<string>, owner: string, seconds: nat, now: nat)
    ensures SoundTable(t) ==> SoundTable(LeaseAll(t, ids, owner, seconds, now))
  {
    if ids != [] { LeaseAllSound(t, ids[..|ids| - 1], owner, seconds, now); }
  }

  // A pull followed by its owner's acknowledgement settles every event pulled,
  // even after the leases expired, and leaves the other rows as they were.
  lemma {:induction false} PullThenAck(t: Table, ids: seq<string>, owner: string, seconds: nat, now: nat, later: nat)
    requires forall i :: 0 <= i < |ids| ==> CanLease(t, ids[i], now)
    requires forall i, j :: 0 <= i < j < |ids| ==> ids[i] != ids[j]
    ensures var u := AckAll(LeaseAll(t, ids, owner, seconds, now), ids, owner, later);
      && Count(u, ids) == |ids|
      && (forall id :: id in t && id !in ids ==> id in u && u[id] == t[id])
  {
    var leased := LeaseAll(t, ids, owner, seconds, now);
    var u := AckAll(leased, ids, owner, later);
    forall id | id in t
      ensures id in u && (id in ids ==> IsAcked(u, id)) && (id !in ids ==> u[id] == t[id])
    {
      LeaseAllAt(t, ids, owner, seconds, now, id);
      AckAllAt(leased, ids, owner, later, id);
    }
    CountIsAll(u, ids);
  }

  predicate GoodId(id: string) {
    0 < |id| <= 200
  }

  class EdgeWorker {
    var rows: Table

    constructor ()
      ensures rows == map[]
    {
      rows := map[];
    }

    // Every stored event passed validation at its webhook and sits under its own id.
    ghost predicate Sound()
      reads this
    {
      SoundTable(rows)
    }

    // Keeps the first version of an event; a repeat is accepted exactly when it
    // differs at most in its arrival time.
    method PersistEvent(event: EdgeEvent, now: nat) returns (r: Result<(), string>)
      requires Sound() && Valid(event)
      modifies this
      ensures Sound()
      ensures rows == InsertOrIgnore(old(rows), event, now)
      ensures r.Ok? <==> event.eventId !in old(rows)
                         || SameDelivery(old(rows)[event.eventId].event, event)
    {
      if event.eventId in rows {
        if !SameDelivery(rows[event.eventId].event, event) {
          return Err("event ID conflict");
        }
      } else {
        rows := rows[event.eventId := FreshRow(event, now)];
      }
      return Ok(());
    }

    // `removed` and `candidates` are the database's answers to the retention
    // DELETE and the candidate SELECT. A stored event that fails validation
    // makes the whole pull fail after its row, and those before it, were leased.
    method PullEvents(owner: string, requestedLimit: nat, requestedLease: nat, now: nat,
                      removed: set<string>, candidates: seq<string>)
      returns (r: Result<seq<EdgeEvent>, string>)
      requires ValidOwner(owner) ==> Removable(rows, removed, now)
      requires ValidOwner(owner) ==>
        IsCandidateList(rows - removed, Clamp(requestedLimit, 1, MAX_PULL_BATCH), now, candidates)
      modifies this
      ensures !ValidOwner(owner) ==> r.Err? && rows == old(rows)
      ensures ValidOwner(owner) ==>
        var base := old(rows) - removed;
        var lease := Clamp(requestedLease, 1, MAX_LEASE_SECONDS);
        var valid := FirstInvalid(base, candidates);
        && (r.Ok? <==> valid == |candidates|)
        && (r.Ok? ==> rows == LeaseAll(base, candidates, owner, lease, now)
                      && r.value == EventsOf(base, candidates))
        && (r.Err? ==> rows == LeaseAll(base, candidates[..valid + 1], owner, lease, now))
      ensures old(Sound()) ==> Sound() && (ValidOwner(owner) ==> r.Ok?)
    {
      if !ValidOwner(owner) {
        return Err("invalid owner");
      }
      var lease := Clamp(requestedLease, 1, MAX_LEASE_SECONDS);
      rows := rows - removed;
      ghost var base := rows;
      var events, valid := LeaseCandidates(owner, lease, now, candidates);
      LeaseAllSound(base, candidates, owner, lease, now);
      r := if valid then Ok(events) else Err("edge event contains invalid required values");
    }

    method LeaseCandidates(owner: string, lease: nat, now: nat, candidates: seq<string>)
      returns (events: seq<EdgeEvent>, valid: bool)
      requires forall i :: 0 <= i < |candidates| ==> CanLease(rows, candidates[i], now)
      requires forall i, j :: 0 <= i < j < |candidates| ==> candidates[i] != candidates[j]
      modifies this
      ensures forall i :: 0 <= i < |candidates| ==> candidates[i] in old(rows)
      ensures valid <==> FirstInvalid(old(rows), candidates) == |candidates|
      ensures valid ==> rows == LeaseAll(old(rows), candidates, owner, lease, now)
                        && events == EventsOf(old(rows), candidates)
      ensures !valid ==>
        rows == LeaseAll(old(rows), candidates[..FirstInvalid(old(rows), candidates) + 1], owner, lease, now)
    {
      ghost var base := rows;
      ghost var limit := FirstInvalid(base, candidates);
      hide Lease, CanLease, LeaseAll, EventsOf, FirstInvalid, Valid;
      events, valid := [], true;
      NothingLeased(base, owner, lease, now);
      assert candidates[..0] == [];
      for i := 0 to |candidates|
        invariant limit >= i
        invariant rows == LeaseAll(base, candidates[..i], owner, lease, now)
        invariant events == EventsOf(base, candidates[..i])
      {
        var id := candidates[i];
        LeaseOneMore(base, candidates, i, owner, lease, now);
        if CanLease(rows, id, now) {
          var event := rows[id].event;
          rows := Lease(rows, id, owner, lease, now);
          if !Valid(event) {
            valid := false;
            return;
          }
          events := events + [event];
        }
      }
      assert candidates[..|candidates|] == candidates;
    }

    // The count is compared by the caller with the number of ids it sent.
    method AcknowledgeEvents(owner: string, ids: seq<string>, now: nat) returns (r: Result<nat, string>)
      modifies this
      ensures !ValidOwner(owner) || |ids| == 0 || |ids| > MAX_PULL_BATCH ==> r.Err? && rows == old(rows)
      ensures r.Ok? <==>
        ValidOwner(owner) && 0 < |ids| <= MAX_PULL_BATCH && forall i :: 0 <= i < |ids| ==> GoodId(ids[i])
      ensures r.Err? && ValidOwner(owner) && 0 < |ids| <= MAX_PULL_BATCH ==>
        exists k :: 0 <= k < |ids| && rows == AckAll(old(rows), ids[..k], owner, now)
          && !GoodId(ids[k]) && forall i :: 0 <= i < k ==> GoodId(ids[i])
      ensures r.Ok? ==> rows == AckAll(old(rows), ids, owner, now)
      ensures r.Ok? ==> r.value == Count(rows, ids)
      ensures r.Ok? ==> (r.value == |ids| <==> forall i :: 0 <= i < |ids| ==> IsAcked(rows, ids[i]))
    {
      if !ValidOwner(owner) || |ids| == 0 || |ids| > MAX_PULL_BATCH {
        assert ids[..0] == [];
        return Err("invalid acknowledgement");
      }
      var acknowledged := 0;
      for i := 0 to |ids|
        invariant rows == AckAll(old(rows), ids[..i], owner, now)
        invariant acknowledged == Count(rows, ids[..i])
        invariant forall j :: 0 <= j < i ==> GoodId(ids[j])
      {
        var id := ids[i];
        assert ids[..i + 1][..i] == ids[..i];
        if |id| == 0 || |id| > 200 {
          assert !GoodId(ids[i]);
          return Err("invalid event ID");
        }
        ghost var before := rows;
        if CanAck(rows, id, owner) {
          rows := Ack(rows, id, owner, now);
          acknowledged := acknowledged + 1;
        } else if IsAcked(rows, id) {
          acknowledged := acknowledged + 1;
        }
        AckAllAt(old(rows), ids[..i], owner, now, id);
        CountFrame(before, rows, ids[..i]);
      }
      assert ids[..|ids|] == ids;
      CountIsAll(rows, ids);
      r := Ok(acknowledged);
    }
  }
}
