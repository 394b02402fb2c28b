// What every run of the relay keeps, whatever is lost or interleaved.
module RelaySafety {
  import opened Prelude
  import opened EdgeEvents
  import opened EdgeTable
  import opened EdgeInbox
  import opened RelayProtocol

  // ---- The invariant, one predicate for each concern -----------------------

  predicate WellFormedRow(row: Row, now: nat) {
    match row.state
    case Pending => row.leaseExpiresAt.None?
    case Publishing => row.leaseOwner.Some? && row.leaseExpiresAt.Some?
    case Acknowledged => row.acknowledgedAt.Some? && row.acknowledgedAt.value <= now
  }

  ghost predicate RowsOk(t: Table, now: nat) {
    forall id :: id in t ==>
      t[id].event.eventId == id && Valid(t[id].event) && WellFormedRow(t[id], now)
  }

  ghost predicate Known(versions: Inbox, events: seq<EdgeEvent>) {
    forall i :: 0 <= i < |events| ==> Valid(events[i]) && events[i].eventId in versions
  }

  ghost predicate PullsOk(pulls: map<nat, Pull>, versions: Inbox) {
    forall p :: p in pulls ==>
      && Known(versions, pulls[p].candidates) && Known(versions, pulls[p].granted)
      && 1 <= pulls[p].lease <= MAX_LEASE_SECONDS
  }

  ghost predicate BatchesOk(batches: map<nat, Batch>, versions: Inbox, imported: set<string>) {
    forall b :: b in batches ==>
      && Known(versions, batches[b].events)
      && (batches[b].imported ==> forall i :: 0 <= i < |batches[b].events| ==>
            batches[b].events[i].eventId in imported)
  }

  // No loss: an id the edge ever stored is still there unacknowledged, or a
  // batch with it has committed; what is acknowledged has been imported.
  ghost predicate NothingLost(t: Table, versions: Inbox, imported: set<string>, acked: set<string>) {
    && t.Keys <= versions.Keys
    && (forall id :: id in versions ==> id in imported || (id in t && !t[id].state.Acknowledged?))
    && (forall id :: IsAcked(t, id) ==> id in acked)
    && acked <= imported
  }

  // Every id of an acknowledgement request was imported, and its count keeps up
  // with its position only while every id before that position is acknowledged.
  ghost predicate AcksOk(acks: map<nat, AckRequest>, imported: set<string>, acked: set<string>) {
    forall k :: k in acks ==>
      && (forall i :: 0 <= i < |acks[k].ids| ==> acks[k].ids[i] in imported)
      && acks[k].count <= acks[k].next <= |acks[k].ids|
      && (acks[k].count == acks[k].next ==>
            forall i :: 0 <= i < acks[k].next ==> acks[k].ids[i] in acked)
  }

  // When the row of `id` can next be leased, no earlier than any of its leases ends.
  function FreeAfter(t: Table, id: string, now: nat): nat {
    if id !in t || t[id].state.Pending? then now
    else if t[id].state.Publishing? then t[id].leaseExpiresAt.GetOr(now)
    else t[id].acknowledgedAt.GetOr(now) + MAX_LEASE_SECONDS
  }

  ghost predicate LeasesOk(grants: seq<Grant>, t: Table, now: nat) {
    forall i :: 0 <= i < |grants| ==>
      && grants[i].from <= now && grants[i].until <= grants[i].from + MAX_LEASE_SECONDS
      && grants[i].until <= FreeAfter(t, grants[i].id, now)
  }

  // No two leases of one event overlap.
  ghost predicate Exclusive(grants: seq<Grant>) {
    forall i, j :: 0 <= i < j < |grants| && grants[i].id == grants[j].id ==>
      grants[i].until <= grants[j].from
  }

  function CountGrants(grants: seq<Grant>, id: string): nat {
    if grants == [] then 0
    else CountGrants(grants[..|grants| - 1], id) + (if grants[|grants| - 1].id == id then 1 else 0)
  }

  function Attempts(t: Table, id: string): nat {
    if id in t then t[id].attempts else 0
  }

  ghost predicate AttemptsOk(grants: seq<Grant>, t: Table, retired: map<string, nat>) {
    forall id :: CountGrants(grants, id) == RetiredAttempts(retired, id) + Attempts(t, id)
  }

  ghost predicate InboxConserved(inbox: Inbox, inserted: multiset<string>, purged: multiset<string>) {
    inserted == purged + multiset(inbox.Keys)
  }

  ghost predicate Inv(s: System) {
    && RowsOk(s.table, s.now)
    && PullsOk(s.pulls, s.versions)
    && BatchesOk(s.batches, s.versions, s.imported)
    && NothingLost(s.table, s.versions, s.imported, s.acked)
    && AcksOk(s.acks, s.imported, s.acked)
    && LeasesOk(s.grants, s.table, s.now)
    && Exclusive(s.grants)
    && AttemptsOk(s.grants, s.table, s.retired)
    && InboxConserved(s.inbox, s.inserted, s.purged)
  }

  // ---- Each action keeps it -----------------------------------------------

  lemma PersistKeepsRows(t: Table, event: EdgeEvent, now: nat)
    requires RowsOk(t, now) && Valid(event)
    ensures RowsOk(InsertOrIgnore(t, event, now), now)
  {
  }

  lemma PersistKeepsGrants(grants: seq<Grant>, t: Table, retired: map<string, nat>, event: EdgeEvent, now: nat)
    requires LeasesOk(grants, t, now) && AttemptsOk(grants, t, retired)
    ensures LeasesOk(grants, InsertOrIgnore(t, event, now), now)
    ensures AttemptsOk(grants, InsertOrIgnore(t, event, now), retired)
  {
  }

  lemma PersistLosesNothing(s: System, event: EdgeEvent)
    requires NothingLost(s.table, s.versions, s.imported, s.acked)
    ensures var s' := DoPersist(s, event); NothingLost(s'.table, s'.versions, s.imported, s.acked)
  {
  }

  // More stored versions and more imported ids keep what is in flight in order.
  lemma InFlightGrows(pulls: map<nat, Pull>, batches: map<nat, Batch>, versions: Inbox, versions': Inbox,
                      imported: set<string>, imported': set<string>)
    requires PullsOk(pulls, versions) && BatchesOk(batches, versions, imported)
    requires versions.Keys <= versions'.Keys && imported <= imported'
    ensures PullsOk(pulls, versions') && BatchesOk(batches, versions', imported')
  {
  }

  lemma KeepPersist(s: System, event: EdgeEvent)
    requires Inv(s) && Valid(event)
    ensures Inv(DoPersist(s, event))
  {
    PersistKeepsRows(s.table, event, s.now);
    PersistKeepsGrants(s.grants, s.table, s.retired, event, s.now);
    PersistLosesNothing(s, event);
    InFlightGrows(s.pulls, s.batches, s.versions, DoPersist(s, event).versions, s.imported, s.imported);
  }

  lemma RemovalKeepsLeases(grants: seq<Grant>, t: Table, removed: set<string>, now: nat)
    requires LeasesOk(grants, t, now) && Removable(t, removed, now)
    ensures LeasesOk(grants, t - removed, now)
  {
  }

  lemma RemovalLosesNothing(s: System, removed: set<string>)
    requires RowsOk(s.table, s.now) && NothingLost(s.table, s.versions, s.imported, s.acked)
    requires Removable(s.table, removed, s.now)
    ensures RowsOk(s.table - removed, s.now)
    ensures NothingLost(s.table - removed, s.versions, s.imported, s.acked)
  {
  }

  lemma RemovalKeepsAttempts(s: System, removed: set<string>)
    requires AttemptsOk(s.grants, s.table, s.retired) && Removable(s.table, removed, s.now)
    ensures AttemptsOk(s.grants, s.table - removed, DoEdgeRetention(s, removed).retired)
  {
  }

  lemma KeepEdgeRetention(s: System, removed: set<string>)
    requires Inv(s) && Removable(s.table, removed, s.now)
    ensures Inv(DoEdgeRetention(s, removed))
  {
    RemovalKeepsLeases(s.grants, s.table, removed, s.now);
    RemovalLosesNothing(s, removed);
    RemovalKeepsAttempts(s, removed);
  }

  lemma KeepInboxRetention(s: System, removed: set<string>)
    requires Inv(s) && removed <= s.inbox.Keys
    ensures Inv(DoInboxRetention(s, removed))
  {
  }

  lemma KeepSelect(s: System, p: nat, owner: string, lease: nat, ids: seq<string>)
    requires Inv(s) && 1 <= lease <= MAX_LEASE_SECONDS
    requires forall i :: 0 <= i < |ids| ==> ids[i] in s.table
    ensures Inv(DoSelect(s, p, owner, lease, ids))
  {
  }

  lemma LeaseKeepsRows(s: System, id: string, owner: string, seconds: nat)
    requires RowsOk(s.table, s.now) && NothingLost(s.table, s.versions, s.imported, s.acked)
    ensures var t := Lease(s.table, id, owner, seconds, s.now);
      RowsOk(t, s.now) && NothingLost(t, s.versions, s.imported, s.acked)
  {
  }

  lemma LeaseKeepsGrants(s: System, id: string, owner: string, seconds: nat)
    requires LeasesOk(s.grants, s.table, s.now) && Exclusive(s.grants)
    requires CanLease(s.table, id, s.now) && 1 <= seconds <= MAX_LEASE_SECONDS
    ensures var grants := s.grants + [Grant(id, s.now, s.now + seconds)];
      LeasesOk(grants, Lease(s.table, id, owner, seconds, s.now), s.now) && Exclusive(grants)
  {
  }

  lemma LeaseKeepsAttempts(s: System, id: string, owner: string, seconds: nat)
    requires AttemptsOk(s.grants, s.table, s.retired) && CanLease(s.table, id, s.now)
    ensures AttemptsOk(s.grants + [Grant(id, s.now, s.now + seconds)],
                       Lease(s.table, id, owner, seconds, s.now), s.retired)
  {
  }

  lemma GrantKeepsPulls(pulls: map<nat, Pull>, p: nat, versions: Inbox, granted: bool)
    requires PullsOk(pulls, versions) && p in pulls && pulls[p].candidates != []
    ensures var rest := pulls[p].(candidates := pulls[p].candidates[1..]);
      var done := if granted then rest.(granted := pulls[p].granted + [pulls[p].candidates[0]]) else rest;
      PullsOk(pulls[p := done], versions)
  {
  }

  lemma KeepGranted(s: System, p: nat)
    requires Inv(s) && p in s.pulls && s.pulls[p].candidates != []
    requires CanLease(s.table, s.pulls[p].candidates[0].eventId, s.now)
    ensures Inv(DoGrant(s, p))
  {
    hide RowsOk, BatchesOk, NothingLost, LeasesOk, Exclusive, AttemptsOk, InboxConserved, AcksOk;
    var pull := s.pulls[p];
    var id := pull.candidates[0].eventId;
    var s' := DoGrant(s, p);
    assert RowsOk(s'.table, s.now) && NothingLost(s'.table, s.versions, s.imported, s.acked) by {
      LeaseKeepsRows(s, id, pull.owner, pull.lease);
    }
    assert LeasesOk(s'.grants, s'.table, s.now) && Exclusive(s'.grants) by {
      LeaseKeepsGrants(s, id, pull.owner, pull.lease);
    }
    assert AttemptsOk(s'.grants, s'.table, s.retired) by {
      LeaseKeepsAttempts(s, id, pull.owner, pull.lease);
    }
    assert PullsOk(s'.pulls, s.versions) by {
      GrantKeepsPulls(s.pulls, p, s.versions, true);
    }
  }

  lemma KeepGrant(s: System, p: nat)
    requires Inv(s) && p in s.pulls && s.pulls[p].candidates != []
    ensures Inv(DoGrant(s, p))
  {
    if CanLease(s.table, s.pulls[p].candidates[0].eventId, s.now) {
      KeepGranted(s, p);
    } else {
      GrantKeepsPulls(s.pulls, p, s.versions, false);
    }
  }

  lemma KeepReply(s: System, p: nat, b: nat)
    requires Inv(s) && p in s.pulls
    ensures Inv(DoReply(s, p, b))
  {
  }

  lemma AcksGrow(acks: map<nat, AckRequest>, imported: set<string>, imported': set<string>, acked: set<string>)
    requires AcksOk(acks, imported, acked) && imported <= imported'
    ensures AcksOk(acks, imported', acked)
  {
  }

  lemma ImportKeepsBatches(batches: map<nat, Batch>, b: nat, versions: Inbox, imported: set<string>)
    requires BatchesOk(batches, versions, imported) && b in batches
    ensures BatchesOk(batches[b := batches[b].(imported := true)], versions,
                      imported + (set id | id in IdsOf(batches[b].events)))
  {
  }

  lemma KeepImport(s: System, b: nat)
    requires Inv(s) && b in s.batches
    ensures Inv(DoImport(s, b))
  {
    hide ImportBatch, RowsOk, PullsOk, BatchesOk, NothingLost, AcksOk, LeasesOk, Exclusive, AttemptsOk;
    var events := s.batches[b].events;
    match ImportBatch(s.inbox, events)
    case None =>
      BatchEnds(s.batches, b, s.versions, s.imported);
    case Some(_) =>
      ImportInserts(s.inbox, events);
      ImportKeepsBatches(s.batches, b, s.versions, s.imported);
      AcksGrow(s.acks, s.imported, DoImport(s, b).imported, s.acked);
      LessIsLost(s.table, s.versions, s.imported, DoImport(s, b).imported, s.acked);
  }

  lemma BatchEnds(batches: map<nat, Batch>, b: nat, versions: Inbox, imported: set<string>)
    requires BatchesOk(batches, versions, imported)
    ensures BatchesOk(batches - {b}, versions, imported)
  {
  }

  lemma LessIsLost(t: Table, versions: Inbox, imported: set<string>, imported': set<string>, acked: set<string>)
    requires NothingLost(t, versions, imported, acked) && imported <= imported'
    ensures NothingLost(t, versions, imported', acked)
  {
  }

  lemma KeepSendAck(s: System, b: nat, k: nat)
    requires Inv(s) && b in s.batches && s.batches[b].imported
    ensures Inv(DoSendAck(s, b, k))
  {
  }

  lemma AckKeepsRows(s: System, id: string, owner: string)
    requires RowsOk(s.table, s.now) && NothingLost(s.table, s.versions, s.imported, s.acked)
    requires id in s.imported
    ensures var t := Ack(s.table, id, owner, s.now);
      RowsOk(t, s.now) && NothingLost(t, s.versions, s.imported, s.acked + {id})
  {
  }

  lemma AckKeepsLeases(s: System, id: string, owner: string)
    requires LeasesOk(s.grants, s.table, s.now) && AttemptsOk(s.grants, s.table, s.retired)
    ensures LeasesOk(s.grants, Ack(s.table, id, owner, s.now), s.now)
    ensures AttemptsOk(s.grants, Ack(s.table, id, owner, s.now), s.retired)
  {
  }

  lemma AckKeepsCounts(acks: map<nat, AckRequest>, k: nat, imported: set<string>,
                       acked: set<string>, acked': set<string>, settled: bool)
    requires AcksOk(acks, imported, acked) && acked <= acked'
    requires k in acks && acks[k].next < |acks[k].ids|
    requires settled ==> acks[k].ids[acks[k].next] in acked'
    ensures var step := acks[k].(next := acks[k].next + 1);
      AcksOk(acks[k := if settled then step.(count := acks[k].count + 1) else step], imported, acked')
  {
  }

  lemma KeepAcked(s: System, k: nat)
    requires Inv(s) && k in s.acks && s.acks[k].next < |s.acks[k].ids|
    requires CanAck(s.table, s.acks[k].ids[s.acks[k].next], s.acks[k].owner)
    ensures Inv(DoAck(s, k))
  {
    var request := s.acks[k];
    var id := request.ids[request.next];
    AckKeepsRows(s, id, request.owner);
    AckKeepsLeases(s, id, request.owner);
    AckKeepsCounts(s.acks, k, s.imported, s.acked, s.acked + {id}, true);
  }

  lemma KeepAck(s: System, k: nat)
    requires Inv(s) && k in s.acks && s.acks[k].next < |s.acks[k].ids|
    ensures Inv(DoAck(s, k))
  {
    hide RowsOk, PullsOk, BatchesOk, LeasesOk, Exclusive, AttemptsOk, InboxConserved, AcksOk;
    var id := s.acks[k].ids[s.acks[k].next];
    if CanAck(s.table, id, s.acks[k].owner) {
      KeepAcked(s, k);
    } else if IsAcked(s.table, id) {
      AckKeepsCounts(s.acks, k, s.imported, s.acked, s.acked, true);
    } else {
      AckKeepsCounts(s.acks, k, s.imported, s.acked, s.acked, false);
    }
  }

  lemma WorldStep(s: System, a: WorldAction)
    requires Inv(s) && WorldEnabled(s, a)
    ensures Inv(ApplyWorld(s, a))
  {
    match a
    case Tick(_) =>
    case Persist(event) => KeepPersist(s, event);
    case EdgeRetention(removed) => KeepEdgeRetention(s, removed);
    case InboxRetention(removed) => KeepInboxRetention(s, removed);
  }

  lemma PullStep(s: System, p: nat, a: PullAction)
    requires Inv(s) && PullEnabled(s, p, a)
    ensures Inv(ApplyPull(s, p, a))
  {
    match a
    case Select(owner, lease, limit, ids) => KeepSelect(s, p, owner, lease, ids);
    case GrantNext => KeepGrant(s, p);
    case PullReply(b) => KeepReply(s, p, b);
    case LosePull =>
  }

  lemma ReconcileStep(s: System, a: ReconcileAction)
    requires Inv(s) && ReconcileEnabled(s, a)
    ensures Inv(ApplyReconcile(s, a))
  {
    match a
    case Import(b) => KeepImport(s, b);
    case SendAck(b, k) => KeepSendAck(s, b, k);
    case AckNext(k) => KeepAck(s, k);
    case LoseBatch(_) =>
    case LoseAck(_) =>
  }

  lemma {:induction false} Step(s: System, a: Action)
    requires Inv(s) && Enabled(s, a)
    ensures Inv(Apply(s, a))
  {
    match a
    case World(event) => WorldStep(s, event);
    case Pulling(p, step) => PullStep(s, p, step);
    case Reconciling(work) => ReconcileStep(s, work);
  }

  // ---- Over whole runs ----------------------------------------------------

  lemma {:induction false} Invariant(run: seq<Action>)
    requires Possible(run)
    ensures Inv(After(run))
  {
    if run != [] {
      Invariant(run[..|run| - 1]);
      Step(After(run[..|run| - 1]), run[|run| - 1]);
    }
  }
}
