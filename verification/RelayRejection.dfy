// Exactly when an import is rejected, in every reachable state: when the inbox
// holds another version of an event of the batch.
module RelayRejection {
  import opened Prelude
  import opened EdgeEvents
  import opened EdgeTable
  import opened EdgeInbox
  import opened RelayProtocol
  import opened RelaySafety

  ghost predicate DistinctIds(events: seq<EdgeEvent>) {
    forall i, j :: 0 <= i < j < |events| ==> events[i].eventId != events[j].eventId
  }

  // No pull and no batch holds an id twice.
  ghost predicate PullsOnce(pulls: map<nat, Pull>) {
    forall p :: p in pulls ==> DistinctIds(pulls[p].granted + pulls[p].candidates)
  }

  ghost predicate BatchesOnce(batches: map<nat, Batch>) {
    forall b :: b in batches ==> DistinctIds(batches[b].events)
  }

  lemma PutPull(pulls: map<nat, Pull>, p: nat, pull: Pull)
    requires PullsOnce(pulls) && DistinctIds(pull.granted + pull.candidates)
    ensures PullsOnce(pulls[p := pull]) && PullsOnce(pulls - {p})
  {
    hide DistinctIds;
  }

  lemma PutBatch(batches: map<nat, Batch>, b: nat, batch: Batch)
    requires BatchesOnce(batches) && DistinctIds(batch.events)
    ensures BatchesOnce(batches[b := batch]) && BatchesOnce(batches - {b})
  {
    hide DistinctIds;
  }

  lemma SelectDistinct(t: Table, ids: seq<string>, now: nat)
    requires RowsOk(t, now) && forall i :: 0 <= i < |ids| ==> ids[i] in t
    requires forall i, j :: 0 <= i < j < |ids| ==> ids[i] != ids[j]
    ensures DistinctIds([] + EventsOf(t, ids))
  {
    hide EventsOf, Valid, WellFormedRow;
    var events := EventsOf(t, ids);
    assert [] + events == events;
    forall i | 0 <= i < |ids| ensures events[i].eventId == ids[i] {
      assert t[ids[i]].event.eventId == ids[i];
    }
    hide RowsOk;
  }

  lemma GrantDistinct(pull: Pull)
    requires pull.candidates != [] && DistinctIds(pull.granted + pull.candidates)
    ensures DistinctIds((pull.granted + [pull.candidates[0]]) + pull.candidates[1..])
    ensures DistinctIds(pull.granted + pull.candidates[1..])
  {
    var g, c := pull.granted, pull.candidates;
    assert (g + [c[0]]) + c[1..] == g + c;
    var all, rest := g + c, g + c[1..];
    assert forall i :: 0 <= i < |rest| ==> rest[i] == all[if i < |g| then i else i + 1];
  }

  lemma SelectKeeps(s: System, p: nat, owner: string, lease: nat, limit: nat, ids: seq<string>)
    requires RowsOk(s.table, s.now) && PullsOnce(s.pulls) && IsCandidateList(s.table, limit, s.now, ids)
    ensures forall i :: 0 <= i < |ids| ==> ids[i] in s.table
    ensures PullsOnce(DoSelect(s, p, owner, lease, ids).pulls)
  {
    hide DistinctIds, RowsOk, IsCandidateList, PullsOnce, EventsOf;
    CandidatesDistinct(s.table, limit, s.now, ids);
    PutPull(s.pulls, p, Pull(owner, lease, EventsOf(s.table, ids), []));
  }

  lemma GrantKeeps(s: System, p: nat)
    requires PullsOnce(s.pulls) && p in s.pulls && s.pulls[p].candidates != []
    ensures PullsOnce(DoGrant(s, p).pulls) && DoGrant(s, p).batches == s.batches
  {
    var pull := s.pulls[p];
    assert DistinctIds(pull.granted + pull.candidates);
    hide DistinctIds, PullsOnce, Lease, CanLease;
    GrantDistinct(pull);
    var rest := pull.(candidates := pull.candidates[1..]);
    PutPull(s.pulls, p, rest);
    PutPull(s.pulls, p, rest.(granted := pull.granted + [pull.candidates[0]]));
  }

  lemma ReplyKeeps(s: System, p: nat, b: nat)
    requires PullsOnce(s.pulls) && BatchesOnce(s.batches) && p in s.pulls && s.pulls[p].candidates == []
    ensures PullsOnce(DoReply(s, p, b).pulls) && BatchesOnce(DoReply(s, p, b).batches)
  {
    var pull := s.pulls[p];
    assert pull.granted + [] == pull.granted;
    assert DistinctIds(pull.granted + pull.candidates);
    hide DistinctIds, PullsOnce, BatchesOnce;
    PutPull(s.pulls, p, pull);
    PutBatch(s.batches, b, Batch(pull.owner, pull.granted, false));
  }

  lemma PullKeeps(s: System, p: nat, a: PullAction)
    requires PullEnabled(s, p, a) && RowsOk(s.table, s.now) && PullsOnce(s.pulls) && BatchesOnce(s.batches)
    ensures PullsOnce(ApplyPull(s, p, a).pulls) && BatchesOnce(ApplyPull(s, p, a).batches)
  {
    hide RowsOk, IsCandidateList, ValidOwner, PullsOnce, BatchesOnce, DoSelect, DoGrant, DoReply;
    match a
    case Select(owner, lease, limit, ids) =>
      SelectKeeps(s, p, owner, lease, limit, ids);
      SelectFrame(s, p, owner, lease, ids);
    case GrantNext => GrantKeeps(s, p);
    case PullReply(b) => ReplyKeeps(s, p, b);
    case LosePull => DropPull(s.pulls, p);
  }

  lemma SelectFrame(s: System, p: nat, owner: string, lease: nat, ids: seq<string>)
    requires forall i :: 0 <= i < |ids| ==> ids[i] in s.table
    ensures DoSelect(s, p, owner, lease, ids).batches == s.batches
  {
  }

  lemma DropPull(pulls: map<nat, Pull>, p: nat)
    requires PullsOnce(pulls)
    ensures PullsOnce(pulls - {p})
  {
    hide DistinctIds;
  }

  lemma CandidatesDistinct(t: Table, limit: nat, now: nat, ids: seq<string>)
    requires RowsOk(t, now) && IsCandidateList(t, limit, now, ids)
    ensures forall i :: 0 <= i < |ids| ==> ids[i] in t
    ensures DistinctIds([] + EventsOf(t, ids))
  {
    hide EventsOf, DistinctIds, RowsOk;
    SelectDistinct(t, ids, now);
  }

  lemma ImportKeeps(s: System, b: nat)
    requires BatchesOnce(s.batches) && b in s.batches
    ensures BatchesOnce(DoImport(s, b).batches) && DoImport(s, b).pulls == s.pulls
  {
    var batch := s.batches[b];
    assert DistinctIds(batch.events);
    hide DistinctIds, BatchesOnce, ImportBatch, IdsOf;
    PutBatch(s.batches, b, batch);
    PutBatch(s.batches, b, batch.(imported := true));
    match ImportBatch(s.inbox, batch.events)
    case None =>
    case Some(_) =>
  }

  lemma ReconcileKeeps(s: System, a: ReconcileAction)
    requires ReconcileEnabled(s, a) && PullsOnce(s.pulls) && BatchesOnce(s.batches)
    ensures PullsOnce(ApplyReconcile(s, a).pulls) && BatchesOnce(ApplyReconcile(s, a).batches)
  {
    hide PullsOnce, BatchesOnce, DoImport, DoSendAck, DoAck;
    match a
    case Import(b) => ImportKeeps(s, b);
    case SendAck(b, k) => SendFrame(s, b, k);
    case AckNext(k) => AckFrame(s, k);
    case LoseBatch(b) => DropBatch(s.batches, b);
    case LoseAck(k) =>
  }

  lemma SendFrame(s: System, b: nat, k: nat)
    requires b in s.batches
    ensures DoSendAck(s, b, k).pulls == s.pulls && DoSendAck(s, b, k).batches == s.batches
  {
  }

  lemma AckFrame(s: System, k: nat)
    requires k in s.acks && s.acks[k].next < |s.acks[k].ids|
    ensures DoAck(s, k).pulls == s.pulls && DoAck(s, k).batches == s.batches
  {
    hide Ack, CanAck, IsAcked;
    var request := s.acks[k];
    var id := request.ids[request.next];
    if CanAck(s.table, id, request.owner) {
    } else if IsAcked(s.table, id) {
    } else {
    }
  }

  lemma DropBatch(batches: map<nat, Batch>, b: nat)
    requires BatchesOnce(batches)
    ensures BatchesOnce(batches - {b})
  {
    hide DistinctIds;
  }

  lemma {:induction false} RunsOncePerBatch(run: seq<Action>)
    requires Possible(run)
    ensures PullsOnce(After(run).pulls) && BatchesOnce(After(run).batches)
  {
    hide PullsOnce, BatchesOnce, Inv, ApplyWorld, ApplyPull, ApplyReconcile,
         WorldEnabled, PullEnabled, ReconcileEnabled;
    if run != [] {
      var front, a := run[..|run| - 1], run[|run| - 1];
      RunsOncePerBatch(front);
      Invariant(front);
      assert RowsOk(After(front).table, After(front).now) by { RowsOf(After(front)); }
      match a
      case World(event) => WorldKeeps(After(front), event);
      case Pulling(p, step) => PullKeeps(After(front), p, step);
      case Reconciling(work) => ReconcileKeeps(After(front), work);
    } else {
      NothingInFlight();
    }
  }

  lemma NothingInFlight()
    ensures PullsOnce(INITIAL.pulls) && BatchesOnce(INITIAL.batches)
  {
  }

  lemma RowsOf(s: System)
    requires Inv(s)
    ensures RowsOk(s.table, s.now)
  {
  }

  lemma WorldKeeps(s: System, a: WorldAction)
    requires WorldEnabled(s, a)
    ensures ApplyWorld(s, a).pulls == s.pulls && ApplyWorld(s, a).batches == s.batches
  {
    hide Removable, InsertOrIgnore, RetiredAttempts, Valid;
    match a
    case Tick(_) =>
    case Persist(_) =>
    case EdgeRetention(_) =>
    case InboxRetention(_) =>
  }

  ghost predicate OtherVersion(inbox: Inbox, events: seq<EdgeEvent>) {
    exists i :: 0 <= i < |events| && events[i].eventId in inbox && inbox[events[i].eventId] != events[i]
  }

  // In every reachable state, importing a batch that is on its way is rejected
  // exactly when the inbox holds another version of one of its events.
  lemma {:induction false} RejectedIff(run: seq<Action>, b: nat)
    requires Possible(run) && b in After(run).batches
    ensures ImportBatch(After(run).inbox, After(run).batches[b].events).None? <==>
      OtherVersion(After(run).inbox, After(run).batches[b].events)
  {
    hide After, Possible;
    var s := After(run);
    var events := s.batches[b].events;
    Invariant(run);
    RunsOncePerBatch(run);
    KnownValid(s, b);
    ImportCommitsIff(s.inbox, events);
    hide Inv;
    forall i | 0 <= i < |events|
      ensures Fits(s.inbox, events, i) <==>
        (events[i].eventId in s.inbox ==> s.inbox[events[i].eventId] == events[i])
    {
    }
  }

  // An event whose arrival time is no timestamp, or differs from the stored row
  // of its id in more than the text of the arrival time.
  ghost predicate Unacceptable(clock: Clock, inbox: Inbox, events: seq<EdgeEvent>) {
    exists i :: 0 <= i < |events|
      && (clock(events[i].occurredAt).None?
          || (events[i].eventId in inbox && !SameRow(clock, inbox[events[i].eventId], events[i])))
  }

  // The same with arrival times compared as instants.
  lemma {:induction false} TimedRejectedIff(clock: Clock, run: seq<Action>, b: nat)
    requires Possible(run) && b in After(run).batches
    ensures ImportTimed(clock, After(run).inbox, After(run).batches[b].events).None? <==>
      Unacceptable(clock, After(run).inbox, After(run).batches[b].events)
  {
    hide After, Possible, ImportTimed, SameRow, Valid;
    var s := After(run);
    var events := s.batches[b].events;
    Invariant(run);
    RunsOncePerBatch(run);
    KnownValid(s, b);
    TimedCommitsIff(clock, s.inbox, events);
    hide Inv;
    assert DistinctIds(events);
    forall i | 0 <= i < |events|
      ensures FitsTimed(clock, s.inbox, events, i) <==>
        && clock(events[i].occurredAt).Some?
        && (events[i].eventId in s.inbox ==> SameRow(clock, s.inbox[events[i].eventId], events[i]))
    {
    }
  }

  // A rejected import changes nothing but that its reconciler's batch is gone.
  lemma {:induction false} RejectedDrops(s: System, b: nat)
    requires b in s.batches && !s.batches[b].imported && ImportBatch(s.inbox, s.batches[b].events).None?
    ensures var s' := Apply(s, Reconciling(Import(b)));
      b !in s'.batches && s' == s.(batches := s'.batches) && s'.batches == s.batches - {b}
  {
    hide ImportBatch;
  }

  lemma KnownValid(s: System, b: nat)
    requires Inv(s) && b in s.batches
    ensures forall i :: 0 <= i < |s.batches[b].events| ==> Valid(s.batches[b].events[i])
  {
    hide Valid;
    assert Known(s.versions, s.batches[b].events);
  }
}
