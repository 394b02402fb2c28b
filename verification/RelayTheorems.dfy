// The relay's promises, stated over runs.
module RelayTheorems {
  import opened Prelude
  import opened EdgeEvents
  import opened EdgeTable
  import opened EdgeInbox
  import opened RelayProtocol
  import opened RelaySafety

  function Init<T>(s: seq<T>): seq<T>
    requires s != []
  {
    s[..|s| - 1]
  }

  lemma {:induction false} Extend(run: seq<Action>, a: Action)
    requires Possible(run) && Enabled(After(run), a)
    ensures Possible(run + [a]) && After(run + [a]) == Apply(After(run), a)
  {
    assert Init(run + [a]) == run;
  }

  // ---- What happened in a run ---------------------------------------------

  ghost predicate StoresId(a: Action, id: string) {
    a.World? && a.event.Persist? && a.event.event.eventId == id
  }

  // A webhook delivered an event with this id.
  ghost predicate Delivered(run: seq<Action>, id: string) {
    exists k :: 0 <= k < |run| && StoresId(run[k], id)
  }

  // The action commits a batch holding this id.
  ghost predicate Commits(s: System, a: Action, id: string) {
    && a.Reconciling? && a.work.Import? && a.work.batch in s.batches
    && ImportBatch(s.inbox, s.batches[a.work.batch].events).Some?
    && id in IdsOf(s.batches[a.work.batch].events)
  }

  ghost predicate Committed(run: seq<Action>, id: string)
    requires Possible(run)
  {
    run != [] && (Committed(Init(run), id) || Commits(After(Init(run)), run[|run| - 1], id))
  }

  // At some point of the run the row of this id was acknowledged.
  ghost predicate WasAcked(run: seq<Action>, id: string)
    requires Possible(run)
  {
    IsAcked(After(run).table, id) || (run != [] && WasAcked(Init(run), id))
  }

  lemma WorldEffects(s: System, a: WorldAction, id: string)
    requires WorldEnabled(s, a)
    ensures var s' := ApplyWorld(s, a);
      && s'.imported == s.imported && s'.acked == s.acked
      && (s.table.Keys <= s.versions.Keys ==>
            (id in s'.versions <==> id in s.versions || StoresId(World(a), id)))
  {
  }

  lemma {:induction false} GrantEffects(s: System, p: nat)
    requires p in s.pulls && s.pulls[p].candidates != []
    ensures var s' := DoGrant(s, p);
      s'.versions == s.versions && s'.imported == s.imported && s'.acked == s.acked
  {
    hide CanLease, Lease;
    if CanLease(s.table, s.pulls[p].candidates[0].eventId, s.now) {
    } else {
    }
  }

  lemma PullEffects(s: System, p: nat, a: PullAction)
    requires PullEnabled(s, p, a)
    ensures var s' := ApplyPull(s, p, a);
      s'.versions == s.versions && s'.imported == s.imported && s'.acked == s.acked
  {
    hide DoGrant, IsCandidateList, EventsOf, ValidOwner;
    match a
    case Select(owner, lease, limit, ids) =>
    case GrantNext => GrantEffects(s, p);
    case PullReply(b) =>
    case LosePull =>
  }

  lemma ImportEffects(s: System, b: nat, id: string)
    requires b in s.batches
    ensures var s' := DoImport(s, b);
      && s'.versions == s.versions && s'.acked == s.acked && s'.table == s.table && s'.grants == s.grants
      && (id in s'.imported <==> id in s.imported || Commits(s, Reconciling(Import(b)), id))
  {
    match ImportBatch(s.inbox, s.batches[b].events)
    case None =>
    case Some(_) =>
  }

  lemma {:induction false} AckEffects(s: System, k: nat, id: string)
    requires k in s.acks && s.acks[k].next < |s.acks[k].ids|
    ensures DoAck(s, k).versions == s.versions && DoAck(s, k).imported == s.imported && DoAck(s, k).grants == s.grants
    ensures s.acked <= DoAck(s, k).acked && DoAck(s, k).table.Keys == s.table.Keys
    ensures id in DoAck(s, k).acked ==> id in s.acked || IsAcked(DoAck(s, k).table, id)
    ensures !IsAcked(s.table, id) && IsAcked(DoAck(s, k).table, id) ==>
      s.acks[k].ids[s.acks[k].next] == id && CanAck(s.table, id, s.acks[k].owner)
    ensures IsAcked(s.table, id) ==> id in DoAck(s, k).table && DoAck(s, k).table[id] == s.table[id]
  {
    hide CanAck, Ack, IsAcked;
    var request := s.acks[k];
    AckChanges(s.table, request.ids[request.next], request.owner, s.now, id);
    if CanAck(s.table, request.ids[request.next], request.owner) {
    } else if IsAcked(s.table, request.ids[request.next]) {
    } else {
    }
  }

  lemma {:induction false} AckChanges(t: Table, next: string, owner: string, now: nat, id: string)
    ensures var u := Ack(t, next, owner, now);
      && u.Keys == t.Keys && (CanAck(t, next, owner) ==> IsAcked(u, next))
      && (!IsAcked(t, id) && IsAcked(u, id) ==> next == id && CanAck(t, id, owner))
      && (IsAcked(t, id) ==> id in t && id in u && u[id] == t[id])
  {
    if CanAck(t, next, owner) { assert !IsAcked(t, next); }
  }

  lemma ReconcileEffects(s: System, a: ReconcileAction, id: string)
    requires ReconcileEnabled(s, a)
    ensures var s' := ApplyReconcile(s, a);
      && s'.versions == s.versions
      && (id in s'.imported <==> id in s.imported || Commits(s, Reconciling(a), id))
      && (id in s'.acked ==> id in s.acked || IsAcked(s'.table, id))
      && s.acked <= s'.acked
  {
    hide DoImport, DoAck;
    match a
    case Import(b) => ImportEffects(s, b, id);
    case SendAck(b, k) =>
    case AckNext(k) => AckEffects(s, k, id);
    case LoseBatch(b) =>
    case LoseAck(k) =>
  }

  lemma HistoryStep(s: System, a: Action, id: string)
    requires Enabled(s, a) && s.table.Keys <= s.versions.Keys
    ensures id in Apply(s, a).versions <==> id in s.versions || StoresId(a, id)
    ensures id in Apply(s, a).imported <==> id in s.imported || Commits(s, a, id)
    ensures id in Apply(s, a).acked ==> id in s.acked || IsAcked(Apply(s, a).table, id)
    ensures s.acked <= Apply(s, a).acked
  {
    match a
    case World(event) => WorldEffects(s, event, id);
    case Pulling(p, step) => PullEffects(s, p, step);
    case Reconciling(work) => ReconcileEffects(s, work, id);
  }

  lemma DeliveredStep(run: seq<Action>, id: string)
    requires run != []
    ensures Delivered(run, id) <==> Delivered(Init(run), id) || StoresId(run[|run| - 1], id)
  {
  }

  lemma {:induction false} HistoryOfIds(run: seq<Action>, id: string)
    requires Possible(run)
    ensures id in After(run).versions <==> Delivered(run, id)
    ensures id in After(run).imported <==> Committed(run, id)
    ensures id in After(run).acked <==> WasAcked(run, id)
  {
    Invariant(run);
    if run != [] {
      var s, a := After(Init(run)), run[|run| - 1];
      HistoryOfIds(Init(run), id);
      Invariant(Init(run));
      DeliveredStep(run, id);
      HistoryStep(s, a, id);
    }
  }

  // ---- No loss ------------------------------------------------------------

  // An event a webhook delivered is still held unacknowledged by the edge, or a
  // batch with it was committed; a row is acknowledged only after such a commit.
  lemma {:induction false} NoLoss(run: seq<Action>, id: string)
    requires Possible(run)
    ensures Delivered(run, id) ==>
      Committed(run, id) || (id in After(run).table && !IsAcked(After(run).table, id))
    ensures IsAcked(After(run).table, id) ==> Committed(run, id)
  {
    Invariant(run);
    HistoryOfIds(run, id);
  }

  // The reconciler treats an acknowledgement as successful when the reply
  // counts as many events as it sent: then every one of them was acknowledged.
  lemma {:induction false} AckSuccess(run: seq<Action>, k: nat, id: string)
    requires Possible(run) && k in After(run).acks
    requires After(run).acks[k].next == |After(run).acks[k].ids|
    requires After(run).acks[k].count == |After(run).acks[k].ids|
    requires id in After(run).acks[k].ids
    ensures WasAcked(run, id) && Committed(run, id)
  {
    Invariant(run);
    HistoryOfIds(run, id);
  }

  // ---- Row states ---------------------------------------------------------

  lemma WorldKeepsAcked(s: System, a: WorldAction, id: string)
    requires WorldEnabled(s, a)
    ensures IsAcked(ApplyWorld(s, a).table, id) ==> IsAcked(s.table, id)
    ensures IsAcked(s.table, id) ==>
      || (id in ApplyWorld(s, a).table && ApplyWorld(s, a).table[id] == s.table[id])
      || (a.EdgeRetention? && PastRetention(s.table[id], s.now))
  {
  }

  lemma PullKeepsAcked(s: System, p: nat, a: PullAction, id: string)
    requires PullEnabled(s, p, a)
    ensures IsAcked(ApplyPull(s, p, a).table, id) <==> IsAcked(s.table, id)
    ensures IsAcked(s.table, id) ==> ApplyPull(s, p, a).table[id] == s.table[id]
  {
    match a
    case Select(owner, lease, limit, ids) =>
    case GrantNext =>
    case PullReply(b) =>
    case LosePull =>
  }

  lemma ReconcileKeepsAcked(s: System, a: ReconcileAction, id: string)
    requires ReconcileEnabled(s, a)
    ensures !IsAcked(s.table, id) && IsAcked(ApplyReconcile(s, a).table, id) ==>
      && a.AckNext?
      && s.acks[a.ack].ids[s.acks[a.ack].next] == id
      && CanAck(s.table, id, s.acks[a.ack].owner)
    ensures IsAcked(s.table, id) ==>
      id in ApplyReconcile(s, a).table && ApplyReconcile(s, a).table[id] == s.table[id]
  {
    hide DoImport, DoAck, CanAck;
    match a
    case Import(b) => ImportEffects(s, b, id);
    case SendAck(b, k) =>
    case AckNext(k) => AckEffects(s, k, id);
    case LoseBatch(b) =>
    case LoseAck(k) =>
  }

  // Only the lease owner's acknowledgement ends a lease with `acknowledged`,
  // and from then on the row changes no more until retention deletes it.
  lemma {:induction false} AcknowledgedOnlyByOwner(s: System, a: Action, id: string)
    requires Enabled(s, a)
    ensures !IsAcked(s.table, id) && IsAcked(Apply(s, a).table, id) ==>
      && a.Reconciling? && a.work.AckNext?
      && s.acks[a.work.ack].ids[s.acks[a.work.ack].next] == id
      && CanAck(s.table, id, s.acks[a.work.ack].owner)
    ensures IsAcked(s.table, id) ==>
      || (id in Apply(s, a).table && Apply(s, a).table[id] == s.table[id])
      || (a.World? && a.event.EdgeRetention? && PastRetention(s.table[id], s.now))
  {
    match a
    case World(event) => WorldKeepsAcked(s, event, id);
    case Pulling(p, step) => PullKeepsAcked(s, p, step, id);
    case Reconciling(work) => ReconcileKeepsAcked(s, work, id);
  }

  // ---- Lease exclusivity --------------------------------------------------

  lemma {:induction false} PossiblePrefix(run: seq<Action>, n: nat)
    requires Possible(run) && n <= |run|
    ensures Possible(run[..n])
  {
    if n < |run| {
      assert run[..n] == Init(run)[..n];
      PossiblePrefix(Init(run), n);
    } else {
      assert run[..n] == run;
    }
  }

  ghost function At(run: seq<Action>, n: nat): System
    requires Possible(run) && n <= |run|
  {
    PossiblePrefix(run, n);
    After(run[..n])
  }

  lemma AtStep(run: seq<Action>, n: nat)
    requires Possible(run) && n < |run|
    ensures Enabled(At(run, n), run[n]) && At(run, n + 1) == Apply(At(run, n), run[n])
  {
    PossiblePrefix(run, n + 1);
    assert Init(run[..n + 1]) == run[..n];
  }

  // Step n of the run is a leasing UPDATE of this id that changed its row.
  ghost predicate GrantsAt(run: seq<Action>, n: nat, id: string)
    requires Possible(run) && n < |run|
  {
    var s := At(run, n);
    && run[n].Pulling? && run[n].step.GrantNext?
    && run[n].pull in s.pulls && s.pulls[run[n].pull].candidates != []
    && s.pulls[run[n].pull].candidates[0].eventId == id
    && CanLease(s.table, id, s.now)
  }

  lemma GrantsGrow(s: System, a: Action)
    requires Enabled(s, a)
    ensures s.grants <= Apply(s, a).grants
  {
    hide PullEnabled, ApplyPull, ReconcileEnabled, ApplyReconcile;
    match a
    case World(event) => WorldGrants(s, event);
    case Pulling(p, step) => PullGrants(s, p, step);
    case Reconciling(work) => ReconcileGrants(s, work);
  }

  lemma WorldGrants(s: System, a: WorldAction)
    requires WorldEnabled(s, a)
    ensures ApplyWorld(s, a).grants == s.grants
  {
    match a
    case Tick(_) =>
    case Persist(_) =>
    case EdgeRetention(_) =>
    case InboxRetention(_) =>
  }

  lemma PullGrants(s: System, p: nat, a: PullAction)
    requires PullEnabled(s, p, a)
    ensures s.grants <= ApplyPull(s, p, a).grants
  {
    match a
    case Select(owner, lease, limit, ids) =>
    case GrantNext =>
    case PullReply(b) =>
    case LosePull =>
  }

  lemma ReconcileGrants(s: System, a: ReconcileAction)
    requires ReconcileEnabled(s, a)
    ensures ApplyReconcile(s, a).grants == s.grants
  {
    hide DoImport, DoAck;
    match a
    case Import(b) => ImportEffects(s, b, "");
    case SendAck(b, k) =>
    case AckNext(k) => AckEffects(s, k, "");
    case LoseBatch(b) =>
    case LoseAck(k) =>
  }

  lemma {:induction false} GrantsPrefix(run: seq<Action>, m: nat, n: nat)
    requires Possible(run) && m <= n <= |run|
    ensures At(run, m).grants <= At(run, n).grants
    decreases n - m
  {
    if m < n {
      AtStep(run, m);
      GrantsGrow(At(run, m), run[m]);
      GrantsPrefix(run, m + 1, n);
    }
  }

  // The lease that a pull's next grant gives at step n.
  ghost function LeaseAt(run: seq<Action>, n: nat): Grant
    requires Possible(run) && n < |run| && run[n].Pulling?
    requires run[n].pull in At(run, n).pulls && At(run, n).pulls[run[n].pull].candidates != []
  {
    var s := At(run, n);
    var pull := s.pulls[run[n].pull];
    Grant(pull.candidates[0].eventId, s.now, s.now + pull.lease)
  }

  lemma GrantRecorded(run: seq<Action>, n: nat, id: string)
    requires Possible(run) && n < |run| && GrantsAt(run, n, id)
    ensures LeaseAt(run, n).id == id
    ensures At(run, n + 1).grants == At(run, n).grants + [LeaseAt(run, n)]
  {
    hide At, DoGrant, CanLease, Possible, IsCandidateList;
    AtStep(run, n);
    GrantAdds(At(run, n), run[n].pull);
  }

  lemma GrantAdds(s: System, p: nat)
    requires p in s.pulls && s.pulls[p].candidates != []
    requires CanLease(s.table, s.pulls[p].candidates[0].eventId, s.now)
    ensures DoGrant(s, p).grants
            == s.grants + [Grant(s.pulls[p].candidates[0].eventId, s.now, s.now + s.pulls[p].lease)]
  {
  }

  lemma RunsExclusive(run: seq<Action>, n: nat)
    requires Possible(run) && n <= |run|
    ensures Exclusive(At(run, n).grants)
  {
    PossiblePrefix(run, n);
    Invariant(run[..n]);
  }

  lemma {:induction false} GrantRemembered(run: seq<Action>, m: nat, n: nat, id: string)
    requires Possible(run) && m < n <= |run| && GrantsAt(run, m, id)
    ensures At(run, m).grants + [LeaseAt(run, m)] <= At(run, n).grants
    ensures LeaseAt(run, m).id == id
  {
    hide At, LeaseAt, GrantsAt, Possible;
    GrantRecorded(run, m, id);
    GrantsPrefix(run, m + 1, n);
  }

  lemma GrantExclusive(run: seq<Action>, n: nat, id: string)
    requires Possible(run) && n < |run| && GrantsAt(run, n, id)
    ensures Exclusive(At(run, n).grants + [LeaseAt(run, n)])
    ensures LeaseAt(run, n).id == id
  {
    RunsExclusive(run, n + 1);
    var grants := At(run, n + 1).grants;
    assert grants == At(run, n).grants + [LeaseAt(run, n)] by { GrantRecorded(run, n, id); }
    assert LeaseAt(run, n).id == id by { GrantRecorded(run, n, id); }
  }

  lemma ExclusivePair(before: seq<Grant>, first: Grant, middle: seq<Grant>, second: Grant)
    requires before + [first] <= middle && Exclusive(middle + [second])
    requires first.id == second.id
    ensures first.until <= second.from
  {
    var grants := middle + [second];
    assert middle[|before|] == (before + [first])[|before|];
    assert grants[|before|] == first && grants[|middle|] == second;
  }

  // However pulls interleave, and even if several read the same candidates, the
  // same event is granted again only after the earlier lease has run out.
  lemma {:induction false} LeaseExclusive(run: seq<Action>, m: nat, n: nat, id: string)
    requires Possible(run) && m < n < |run|
    requires GrantsAt(run, m, id) && GrantsAt(run, n, id)
    ensures LeaseAt(run, m).until <= LeaseAt(run, n).from
  {
    GrantRemembered(run, m, n, id);
    GrantExclusive(run, n, id);
    ExclusivePair(At(run, m).grants, LeaseAt(run, m), At(run, n).grants, LeaseAt(run, n));
  }

  // `attempts` counts the grants of the row's event, less those of earlier rows
  // under the same id that retention has deleted.
  lemma {:induction false} AttemptsCountGrants(run: seq<Action>, id: string)
    requires Possible(run) && id in After(run).table
    ensures var s := After(run);
      s.table[id].attempts + RetiredAttempts(s.retired, id) == CountGrants(s.grants, id)
  {
    Invariant(run);
    var s := After(run);
    assert CountGrants(s.grants, id) == RetiredAttempts(s.retired, id) + Attempts(s.table, id);
  }

  // ---- At most one import -------------------------------------------------

  // Insertions of an id exceed its deletions from the inbox by at most one, and
  // by exactly one while its row is there.
  lemma {:induction false} ImportedAtMostOnce(run: seq<Action>, id: string)
    requires Possible(run)
    ensures var s := After(run);
      s.inserted[id] == s.purged[id] + (if id in s.inbox then 1 else 0)
  {
    Invariant(run);
    assert multiset(After(run).inbox.Keys)[id] == if id in After(run).inbox then 1 else 0;
  }

  // ---- Agreement ----------------------------------------------------------

  // The webhook does not store a second version of an event under an id whose
  // first row retention has already deleted.
  predicate KeepsVersion(s: System, a: Action) {
    a.World? && a.event.Persist? && a.event.event.eventId in s.versions
      && a.event.event.eventId !in s.table ==>
    a.event.event == s.versions[a.event.event.eventId]
  }

  ghost predicate Faithful(run: seq<Action>)
    requires Possible(run)
  {
    forall n :: 0 <= n < |run| ==> KeepsVersion(At(run, n), run[n])
  }

  ghost predicate Carries(versions: Inbox, events: seq<EdgeEvent>) {
    forall i :: 0 <= i < |events| ==>
      Valid(events[i]) && events[i].eventId in versions && versions[events[i].eventId] == events[i]
  }

  ghost predicate TableAgrees(t: Table, versions: Inbox) {
    forall id :: id in t ==>
      t[id].event.eventId == id && Valid(t[id].event) && id in versions && t[id].event == versions[id]
  }

  ghost predicate InboxAgrees(inbox: Inbox, versions: Inbox) {
    forall id :: id in inbox ==> id in versions && versions[id] == inbox[id]
  }

  ghost predicate PullsAgree(pulls: map<nat, Pull>, versions: Inbox) {
    forall p :: p in pulls ==> Carries(versions, pulls[p].candidates) && Carries(versions, pulls[p].granted)
  }

  ghost predicate BatchesAgree(batches: map<nat, Batch>, versions: Inbox) {
    forall b :: b in batches ==> Carries(versions, batches[b].events)
  }

  // One table of versions explains every copy of every event.
  ghost predicate Agree(s: System) {
    && TableAgrees(s.table, s.versions)
    && InboxAgrees(s.inbox, s.versions)
    && PullsAgree(s.pulls, s.versions)
    && BatchesAgree(s.batches, s.versions)
  }

  lemma AgreePersist(s: System, event: EdgeEvent)
    requires Agree(s) && Valid(event) && KeepsVersion(s, World(Persist(event)))
    ensures Agree(DoPersist(s, event))
    ensures InboxAgrees(s.versions, DoPersist(s, event).versions)
  {
    hide PullsAgree, BatchesAgree, Valid;
    var versions := DoPersist(s, event).versions;
    assert InboxAgrees(s.versions, versions);
    Carried(s.pulls, s.batches, s.versions, versions);
  }

  lemma {:induction false} Carried(pulls: map<nat, Pull>, batches: map<nat, Batch>, versions: Inbox, wider: Inbox)
    requires InboxAgrees(versions, wider) && PullsAgree(pulls, versions) && BatchesAgree(batches, versions)
    ensures PullsAgree(pulls, wider) && BatchesAgree(batches, wider)
  {
  }

  lemma AgreeWorld(s: System, a: WorldAction)
    requires Agree(s) && WorldEnabled(s, a) && KeepsVersion(s, World(a))
    ensures Agree(ApplyWorld(s, a))
    ensures InboxAgrees(s.versions, ApplyWorld(s, a).versions)
  {
    match a
    case Tick(_) =>
    case Persist(event) => AgreePersist(s, event);
    case EdgeRetention(removed) =>
    case InboxRetention(removed) =>
  }

  lemma StatementsAgree(t: Table, versions: Inbox, id: string, owner: string, seconds: nat, now: nat)
    requires TableAgrees(t, versions)
    ensures TableAgrees(Lease(t, id, owner, seconds, now), versions)
    ensures TableAgrees(Ack(t, id, owner, now), versions)
  {
  }

  lemma CarriesNext(pulls: map<nat, Pull>, p: nat, versions: Inbox, granted: bool)
    requires PullsAgree(pulls, versions) && p in pulls && pulls[p].candidates != []
    ensures var rest := pulls[p].(candidates := pulls[p].candidates[1..]);
      var done := if granted then rest.(granted := pulls[p].granted + [pulls[p].candidates[0]]) else rest;
      PullsAgree(pulls[p := done], versions)
  {
  }

  lemma AgreeGrant(s: System, p: nat)
    requires Agree(s) && p in s.pulls && s.pulls[p].candidates != []
    ensures Agree(DoGrant(s, p))
  {
    var pull := s.pulls[p];
    StatementsAgree(s.table, s.versions, pull.candidates[0].eventId, pull.owner, pull.lease, s.now);
    CarriesNext(s.pulls, p, s.versions, true);
    CarriesNext(s.pulls, p, s.versions, false);
    var id := pull.candidates[0].eventId;
    if CanLease(s.table, id, s.now) {
    } else {
    }
  }

  lemma AgreePull(s: System, p: nat, a: PullAction)
    requires Agree(s) && PullEnabled(s, p, a)
    ensures Agree(ApplyPull(s, p, a))
  {
    match a
    case Select(owner, lease, limit, ids) => assert Carries(s.versions, EventsOf(s.table, ids));
    case GrantNext => AgreeGrant(s, p);
    case PullReply(b) =>
    case LosePull =>
  }

  // A batch carrying known versions always commits.
  lemma AgreeImport(s: System, b: nat)
    requires Agree(s) && b in s.batches
    ensures ImportBatch(s.inbox, s.batches[b].events).Some?
    ensures Agree(DoImport(s, b))
  {
    ImportAgreeing(s.inbox, s.batches[b].events, s.versions);
  }

  lemma AgreeAck(s: System, k: nat)
    requires Agree(s) && k in s.acks && s.acks[k].next < |s.acks[k].ids|
    ensures Agree(DoAck(s, k))
  {
    var id := s.acks[k].ids[s.acks[k].next];
    StatementsAgree(s.table, s.versions, id, s.acks[k].owner, 0, s.now);
    if CanAck(s.table, id, s.acks[k].owner) {
    } else if IsAcked(s.table, id) {
    } else {
    }
  }

  lemma AgreeReconcile(s: System, a: ReconcileAction)
    requires Agree(s) && ReconcileEnabled(s, a)
    ensures Agree(ApplyReconcile(s, a))
  {
    match a
    case Import(b) => AgreeImport(s, b);
    case SendAck(b, k) =>
    case AckNext(k) => AgreeAck(s, k);
    case LoseBatch(b) =>
    case LoseAck(k) =>
  }

  lemma AgreeStep(s: System, a: Action)
    requires Agree(s) && Enabled(s, a) && KeepsVersion(s, a)
    ensures Agree(Apply(s, a)) && InboxAgrees(s.versions, Apply(s, a).versions)
  {
    match a
    case World(event) => AgreeWorld(s, event);
    case Pulling(p, step) => AgreePull(s, p, step); PullEffects(s, p, step);
    case Reconciling(work) => AgreeReconcile(s, work); ReconcileEffects(s, work, "");
  }

  lemma {:induction false} FaithfulAgree(run: seq<Action>, n: nat)
    requires Possible(run) && Faithful(run) && n <= |run|
    ensures Agree(At(run, n))
  {
    if n > 0 {
      FaithfulAgree(run, n - 1);
      AtStep(run, n - 1);
      AgreeStep(At(run, n - 1), run[n - 1]);
    }
  }

  lemma {:induction false} VersionsFixed(run: seq<Action>, m: nat, n: nat)
    requires Possible(run) && Faithful(run) && m <= n <= |run|
    ensures InboxAgrees(At(run, m).versions, At(run, n).versions)
    decreases n - m
  {
    if m < n {
      FaithfulAgree(run, m);
      AtStep(run, m);
      AgreeStep(At(run, m), run[m]);
      VersionsFixed(run, m + 1, n);
    }
  }

  // While no second version is stored, the content of an event never changes:
  // once stored at the edge as `first`, every later edge row and every inbox
  // row under its id is `first`, and no import is ever rejected.
  lemma {:induction false} Agreement(run: seq<Action>, m: nat, n: nat, id: string, b: nat)
    requires Possible(run) && Faithful(run) && m <= n <= |run|
    requires id in At(run, m).table
    ensures var first := At(run, m).table[id].event;
      && (id in At(run, n).table ==> At(run, n).table[id].event == first)
      && (id in At(run, n).inbox ==> At(run, n).inbox[id] == first)
    ensures b in At(run, n).batches ==>
      ImportBatch(At(run, n).inbox, At(run, n).batches[b].events).Some?
  {
    FaithfulAgree(run, m);
    FaithfulAgree(run, n);
    VersionsFixed(run, m, n);
    if b in At(run, n).batches { AgreeImport(At(run, n), b); }
  }

  lemma KeysWorld(s: System, a: WorldAction)
    requires WorldEnabled(s, a) && !a.EdgeRetention? && s.versions.Keys == s.table.Keys
    ensures ApplyWorld(s, a).versions.Keys == ApplyWorld(s, a).table.Keys
  {
  }

  lemma KeysPull(s: System, p: nat, a: PullAction)
    requires PullEnabled(s, p, a)
    ensures ApplyPull(s, p, a).table.Keys == s.table.Keys
  {
    match a
    case Select(owner, lease, limit, ids) =>
    case GrantNext =>
    case PullReply(b) =>
    case LosePull =>
  }

  lemma KeysReconcile(s: System, a: ReconcileAction)
    requires ReconcileEnabled(s, a)
    ensures ApplyReconcile(s, a).table.Keys == s.table.Keys
  {
    hide DoImport, DoAck;
    match a
    case Import(b) => ImportEffects(s, b, "");
    case SendAck(b, k) =>
    case AckNext(k) => AckEffects(s, k, "");
    case LoseBatch(b) =>
    case LoseAck(k) =>
  }

  lemma KeysStep(s: System, a: Action)
    requires Enabled(s, a) && s.versions.Keys == s.table.Keys
    requires !(a.World? && a.event.EdgeRetention?)
    ensures Apply(s, a).versions.Keys == Apply(s, a).table.Keys
  {
    match a
    case World(event) => KeysWorld(s, event);
    case Pulling(p, step) => PullEffects(s, p, step); KeysPull(s, p, step);
    case Reconciling(work) => ReconcileEffects(s, work, ""); KeysReconcile(s, work);
  }

  ghost predicate NoEdgeRetention(run: seq<Action>) {
    forall i :: 0 <= i < |run| ==> !(run[i].World? && run[i].event.EdgeRetention?)
  }

  lemma {:induction false} UnretainedKeys(run: seq<Action>, n: nat)
    requires Possible(run) && n <= |run| && NoEdgeRetention(run)
    ensures At(run, n).versions.Keys == At(run, n).table.Keys
  {
    if n > 0 {
      UnretainedKeys(run, n - 1);
      AtStep(run, n - 1);
      KeysStep(At(run, n - 1), run[n - 1]);
    }
  }

  // Runs in which the edge deletes no row never store a second version.
  lemma {:induction false} UnretainedFaithful(run: seq<Action>)
    requires Possible(run) && NoEdgeRetention(run)
    ensures Faithful(run)
  {
    forall n | 0 <= n < |run| ensures KeepsVersion(At(run, n), run[n]) {
      UnretainedKeys(run, n);
    }
  }
}
