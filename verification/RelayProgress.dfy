// The relay never runs into a dead end: a lease that has run out is given again,
// and from every reachable state each event can still be imported and
// acknowledged.
module RelayProgress {
  import opened Prelude
  import opened EdgeEvents
  import opened EdgeTable
  import opened EdgeInbox
  import opened RelayProtocol
  import opened RelaySafety
  import opened RelayTheorems

  // ---- A row's expiry is that of a grant ----------------------------------

  // The lease of a row ends when some grant of its id does.
  ghost predicate GrantedUntil(grants: seq<Grant>, id: string, until: nat) {
    exists i :: 0 <= i < |grants| && grants[i].id == id && grants[i].until == until
  }

  ghost predicate ExpiriesGranted(t: Table, grants: seq<Grant>) {
    forall id :: id in t && t[id].state.Publishing? ==>
      t[id].leaseExpiresAt.Some? && GrantedUntil(grants, id, t[id].leaseExpiresAt.value)
  }

  lemma {:induction false} MoreGrants(grants: seq<Grant>, more: seq<Grant>, id: string, until: nat)
    requires GrantedUntil(grants, id, until) && grants <= more
    ensures GrantedUntil(more, id, until)
  {
    var i :| 0 <= i < |grants| && grants[i].id == id && grants[i].until == until;
    assert more[i] == grants[i];
  }

  lemma {:induction false} GrantKeepsExpiries(s: System, p: nat)
    requires ExpiriesGranted(s.table, s.grants) && p in s.pulls && s.pulls[p].candidates != []
    ensures ExpiriesGranted(DoGrant(s, p).table, DoGrant(s, p).grants)
  {
    hide GrantedUntil;
    var pull, s' := s.pulls[p], DoGrant(s, p);
    var next := pull.candidates[0].eventId;
    if CanLease(s.table, next, s.now) {
      LastGranted(s.grants, Grant(next, s.now, s.now + pull.lease));
      forall id | id in s'.table && s'.table[id].state.Publishing?
        ensures s'.table[id].leaseExpiresAt.Some? && GrantedUntil(s'.grants, id, s'.table[id].leaseExpiresAt.value)
      {
        if id != next { MoreGrants(s.grants, s'.grants, id, s.table[id].leaseExpiresAt.value); }
      }
    }
  }

  lemma LastGranted(grants: seq<Grant>, grant: Grant)
    ensures GrantedUntil(grants + [grant], grant.id, grant.until)
  {
    assert (grants + [grant])[|grants|] == grant;
  }

  lemma {:induction false} AckKeepsExpiries(s: System, k: nat)
    requires ExpiriesGranted(s.table, s.grants) && k in s.acks && s.acks[k].next < |s.acks[k].ids|
    ensures ExpiriesGranted(DoAck(s, k).table, DoAck(s, k).grants)
  {
    hide ExpiriesGranted, CanAck, Ack, IsAcked;
    var request := s.acks[k];
    AckedExpiries(s.table, s.grants, request.ids[request.next], request.owner, s.now);
    if CanAck(s.table, request.ids[request.next], request.owner) {
    } else if IsAcked(s.table, request.ids[request.next]) {
    } else {
    }
  }

  lemma AckedExpiries(t: Table, grants: seq<Grant>, id: string, owner: string, now: nat)
    requires ExpiriesGranted(t, grants)
    ensures ExpiriesGranted(Ack(t, id, owner, now), grants)
  {
    hide GrantedUntil;
  }

  lemma WorldKeepsExpiries(s: System, a: WorldAction)
    requires ExpiriesGranted(s.table, s.grants) && WorldEnabled(s, a)
    ensures ExpiriesGranted(ApplyWorld(s, a).table, ApplyWorld(s, a).grants)
  {
    hide GrantedUntil;
    match a
    case Tick(_) =>
    case Persist(_) =>
    case EdgeRetention(_) =>
    case InboxRetention(_) =>
  }

  lemma PullKeepsExpiries(s: System, p: nat, a: PullAction)
    requires ExpiriesGranted(s.table, s.grants) && PullEnabled(s, p, a)
    ensures ExpiriesGranted(ApplyPull(s, p, a).table, ApplyPull(s, p, a).grants)
  {
    hide ExpiriesGranted, DoGrant, IsCandidateList, EventsOf, ValidOwner;
    match a
    case Select(owner, lease, limit, ids) =>
    case GrantNext => GrantKeepsExpiries(s, p);
    case PullReply(b) =>
    case LosePull =>
  }

  lemma ReconcileKeepsExpiries(s: System, a: ReconcileAction)
    requires ExpiriesGranted(s.table, s.grants) && ReconcileEnabled(s, a)
    ensures ExpiriesGranted(ApplyReconcile(s, a).table, ApplyReconcile(s, a).grants)
  {
    hide ExpiriesGranted, DoAck, DoImport;
    match a
    case Import(b) => ImportEffects(s, b, "");
    case SendAck(b, k) =>
    case AckNext(k) => AckKeepsExpiries(s, k);
    case LoseBatch(b) =>
    case LoseAck(k) =>
  }

  lemma {:induction false} RunKeepsExpiries(run: seq<Action>)
    requires Possible(run)
    ensures ExpiriesGranted(After(run).table, After(run).grants)
  {
    hide ExpiriesGranted, WorldEnabled, PullEnabled, ReconcileEnabled, ApplyWorld, ApplyPull, ApplyReconcile;
    if run == [] {
      NothingGranted();
    } else {
      var front, a := run[..|run| - 1], run[|run| - 1];
      RunKeepsExpiries(front);
      match a
      case World(event) => WorldKeepsExpiries(After(front), event);
      case Pulling(p, step) => PullKeepsExpiries(After(front), p, step);
      case Reconciling(work) => ReconcileKeepsExpiries(After(front), work);
    }
  }

  lemma NothingGranted()
    ensures ExpiriesGranted(INITIAL.table, INITIAL.grants)
  {
  }

  // ---- What has run out is listed -----------------------------------------

  // Every grant of the event has run out.
  ghost predicate RunOut(s: System, id: string) {
    forall i :: 0 <= i < |s.grants| && s.grants[i].id == id ==> s.grants[i].until <= s.now
  }

  // A row can be leased exactly when it is unacknowledged and all grants of its
  // event have run out.
  lemma {:induction false} LeasableIff(run: seq<Action>, id: string)
    requires Possible(run) && id in After(run).table
    ensures var s := After(run);
      CanLease(s.table, id, s.now) <==> s.table[id].state != Acknowledged && RunOut(s, id)
  {
    hide Possible, After;
    Invariant(run);
    RunKeepsExpiries(run);
    RowCanLease(After(run), id);
  }

  lemma RowCanLease(s: System, id: string)
    requires Inv(s) && ExpiriesGranted(s.table, s.grants) && id in s.table
    ensures CanLease(s.table, id, s.now) <==> s.table[id].state != Acknowledged && RunOut(s, id)
  {
    hide PullsOk, BatchesOk, NothingLost, AcksOk, Exclusive, AttemptsOk, InboxConserved, Valid;
    var row := s.table[id];
    assert WellFormedRow(row, s.now);
    if row.state.Publishing? {
      var i :| 0 <= i < |s.grants| && s.grants[i].id == id && s.grants[i].until == row.leaseExpiresAt.value;
      if row.leaseExpiresAt.value <= s.now {
        assert FreeAfter(s.table, id, s.now) <= s.now;
      }
    } else if row.state.Pending? {
      assert FreeAfter(s.table, id, s.now) == s.now;
    }
  }

  // The candidate SELECT of any pull lists an event only if it is unacknowledged
  // and no grant of it is still running, and lists all of these while there is
  // room. So after a crash an event is given out again once its lease is over.
  lemma {:induction false} RunOutIsListed(run: seq<Action>, p: nat, owner: string, lease: nat, limit: nat,
                                          ids: seq<string>, id: string)
    requires Possible(run) && Enabled(After(run), Pulling(p, Select(owner, lease, limit, ids)))
    requires id in After(run).table
    ensures var s := After(run);
      && (id in ids ==> s.table[id].state != Acknowledged && RunOut(s, id))
      && (s.table[id].state != Acknowledged && RunOut(s, id) && |ids| < limit ==> id in ids)
  {
    hide Possible, After, RunOut, Before;
    LeasableIff(run, id);
    if id in ids {
      var i :| 0 <= i < |ids| && ids[i] == id;
      assert CanLease(After(run).table, ids[i], After(run).now);
    }
  }

  // The leasing UPDATE then gives it to the owner of the pull that listed it.
  lemma {:induction false} RunOutIsGranted(run: seq<Action>, p: nat)
    requires Possible(run) && p in After(run).pulls && After(run).pulls[p].candidates != []
    ensures var s := After(run);
      var s', pull := DoGrant(s, p), s.pulls[p];
      var id := pull.candidates[0].eventId;
      id in s.table && s.table[id].state != Acknowledged && RunOut(s, id) ==>
        && s'.table[id] == s.table[id].(state := Publishing, leaseOwner := Some(pull.owner),
                                        leaseExpiresAt := Some(s.now + pull.lease),
                                        attempts := s.table[id].attempts + 1)
        && s'.grants == s.grants + [Grant(id, s.now, s.now + pull.lease)]
        && s'.pulls[p].granted == pull.granted + [pull.candidates[0]]
        && s'.pulls[p].candidates == pull.candidates[1..]
  {
    hide Possible, After, RunOut;
    var s := After(run);
    var id := s.pulls[p].candidates[0].eventId;
    if id in s.table && s.table[id].state != Acknowledged && RunOut(s, id) {
      LeasableIff(run, id);
    }
  }

  // ---- Every event can still be settled -----------------------------------

  // The run goes on without another webhook.
  predicate Quiet(run: seq<Action>, longer: seq<Action>) {
    run <= longer && forall n :: |run| <= n < |longer| ==> !(longer[n].World? && longer[n].event.Persist?)
  }

  lemma {:induction false} FreshNumber(used: set<nat>) returns (n: nat)
    ensures n !in used
    decreases |used|
  {
    if used == {} {
      n := 0;
    } else {
      var most := Most(used);
      n := most + 1;
    }
  }

  lemma {:induction false} Most(used: set<nat>) returns (most: nat)
    requires used != {}
    ensures most in used && forall m :: m in used ==> m <= most
    decreases |used|
  {
    most :| most in used;
    var rest := used - {most};
    if rest != {} {
      var first := most;
      var other := Most(rest);
      if other > most { most := other; }
      forall m | m in used ensures m <= most { assert m == first || m in rest; }
    } else {
      assert used == {most};
    }
  }

  // No unacknowledged event comes before this one.
  ghost predicate IsHead(t: Table, id: string) {
    && id in t && t[id].state != Acknowledged
    && forall o :: o in t && t[o].state != Acknowledged ==> Before(t[id], t[o])
  }

  // Once its lease has run out it is the answer to a SELECT with limit 1.
  lemma HeadIsListed(t: Table, id: string, now: nat)
    requires IsHead(t, id) && CanLease(t, id, now)
    ensures IsCandidateList(t, 1, now, [id])
  {
    hide Before;
    var ids := [id];
    forall o | CanLease(t, o, now) && o !in ids
      ensures |ids| == 1 && forall i :: 0 <= i < |ids| ==> Before(t[ids[i]], t[o])
    {
      assert t[o].state != Acknowledged;
      assert Before(t[id], t[o]);
    }
  }

  // Time passes until its lease has run out.
  lemma {:induction false} WaitedRun(run: seq<Action>, id: string) returns (longer: seq<Action>)
    requires Possible(run) && IsHead(After(run).table, id)
    ensures Possible(longer) && Quiet(run, longer)
    ensures exists now :: After(longer) == After(run).(now := now)
    ensures CanLease(After(longer).table, id, After(longer).now)
  {
    hide Possible, After, IsHead, Inv, Valid, CanLease;
    Invariant(run);
    var s := After(run);
    var wait := RunsOut(s, id);
    Extend(run, World(Tick(wait)));
    longer := run + [World(Tick(wait))];
    assert After(longer) == s.(now := s.now + wait);
  }

  lemma RunsOut(s: System, id: string) returns (wait: nat)
    requires Inv(s) && IsHead(s.table, id)
    ensures CanLease(s.table, id, s.now + wait)
  {
    HeadRow(s, id);
    hide Inv, IsHead, Valid;
    wait := if s.table[id].state.Publishing? then s.table[id].leaseExpiresAt.value else 0;
  }

  lemma HeadRow(s: System, id: string)
    requires Inv(s) && IsHead(s.table, id)
    ensures id in s.table && s.table[id].state != Acknowledged && WellFormedRow(s.table[id], s.now)
    ensures s.table[id].event.eventId == id && Valid(s.table[id].event)
  {
    hide WellFormedRow, Valid;
  }

  // It is pulled alone: selected, leased and sent.
  lemma {:induction false} SelectedRun(run: seq<Action>, p: nat, id: string) returns (longer: seq<Action>)
    requires Possible(run) && p !in After(run).pulls
    requires IsHead(After(run).table, id) && CanLease(After(run).table, id, After(run).now)
    ensures Possible(longer) && Quiet(run, longer)
    ensures var s := After(run);
      After(longer) == s.(pulls := s.pulls[p := Pull("o", 60, [s.table[id].event], [])])
  {
    hide Possible, After, IsHead, IsCandidateList, CanLease;
    var s, select := After(run), Pulling(p, Select("o", 60, 1, [id]));
    HeadIsListed(s.table, id, s.now);
    HeadKnown(s.table, id);
    SelectsOne(s, p, id);
    Extend(run, select);
    longer := run + [select];
  }

  lemma HeadKnown(t: Table, id: string)
    requires IsHead(t, id)
    ensures id in t
  {
  }

  lemma SelectsOne(s: System, p: nat, id: string)
    requires p !in s.pulls && id in s.table && IsCandidateList(s.table, 1, s.now, [id])
    ensures var select := Select("o", 60, 1, [id]);
      && PullEnabled(s, p, select)
      && ApplyPull(s, p, select) == s.(pulls := s.pulls[p := Pull("o", 60, [s.table[id].event], [])])
  {
    hide IsCandidateList;
    assert EventsOf(s.table, [id]) == [s.table[id].event];
  }

  lemma {:induction false} GrantedRun(run: seq<Action>, p: nat, event: EdgeEvent) returns (longer: seq<Action>)
    requires Possible(run) && p in After(run).pulls && After(run).pulls[p] == Pull("o", 60, [event], [])
    requires CanLease(After(run).table, event.eventId, After(run).now)
    ensures Possible(longer) && Quiet(run, longer)
    ensures var s := After(run);
      After(longer) == s.(table := Lease(s.table, event.eventId, "o", 60, s.now),
                          pulls := s.pulls[p := Pull("o", 60, [], [event])],
                          grants := s.grants + [Grant(event.eventId, s.now, s.now + 60)])
  {
    hide Possible, After, Lease, CanLease;
    Extend(run, Pulling(p, GrantNext));
    longer := run + [Pulling(p, GrantNext)];
    assert [event][1..] == [] && [] + [event] == [event];
  }

  lemma {:induction false} RepliedRun(run: seq<Action>, p: nat, b: nat, event: EdgeEvent)
    returns (longer: seq<Action>)
    requires Possible(run) && p in After(run).pulls && b !in After(run).batches
    requires After(run).pulls[p] == Pull("o", 60, [], [event])
    ensures Possible(longer) && Quiet(run, longer)
    ensures var s := After(run);
      After(longer) == s.(pulls := s.pulls - {p}, batches := s.batches[b := Batch("o", [event], false)])
  {
    hide Possible, After;
    Extend(run, Pulling(p, PullReply(b)));
    longer := run + [Pulling(p, PullReply(b))];
  }

  lemma {:induction false} PulledRun(run: seq<Action>, id: string) returns (longer: seq<Action>, b: nat)
    requires Possible(run) && IsHead(After(run).table, id) && CanLease(After(run).table, id, After(run).now)
    ensures Possible(longer) && Quiet(run, longer) && b !in After(run).batches
    ensures var s, s' := After(run), After(longer);
      && s'.table == Lease(s.table, id, "o", 60, s.now) && s'.inbox == s.inbox && s'.versions == s.versions
      && s'.imported == s.imported && s'.now == s.now
      && s'.batches == s.batches[b := Batch("o", [s.table[id].event], false)]
  {
    hide Possible, After, IsHead, Lease, CanLease, Valid, WellFormedRow;
    var s := After(run);
    Invariant(run);
    HeadRow(s, id);
    var event := s.table[id].event;
    var p := FreshNumber(s.pulls.Keys);
    b := FreshNumber(s.batches.Keys);
    var selected := SelectedRun(run, p, id);
    var granted := GrantedRun(selected, p, event);
    longer := RepliedRun(granted, p, b, event);
  }

  // Its batch is imported, acknowledged and settled.
  lemma {:induction false} SettledRun(run: seq<Action>, event: EdgeEvent, b: nat) returns (longer: seq<Action>)
    requires Possible(run) && b in After(run).batches && After(run).batches[b] == Batch("o", [event], false)
    requires CanAck(After(run).table, event.eventId, "o")
    requires ImportBatch(After(run).inbox, [event]).Some?
    ensures Possible(longer) && Quiet(run, longer)
    ensures var s, s' := After(run), After(longer);
      && s'.table == Ack(s.table, event.eventId, "o", s.now) && s'.versions == s.versions
      && event.eventId in s'.imported && s.imported <= s'.imported
  {
    hide Possible, After, CanAck, Ack, ImportBatch;
    var s := After(run);
    Extend(run, Reconciling(Import(b)));
    var one := run + [Reconciling(Import(b))];
    ImportOne(s, b, event);
    var k := FreshNumber(s.acks.Keys);
    Extend(one, Reconciling(SendAck(b, k)));
    var two := one + [Reconciling(SendAck(b, k))];
    assert IdsOf([event]) == [event.eventId];
    assert After(two) == DoSendAck(After(one), b, k);
    Extend(two, Reconciling(AckNext(k)));
    longer := two + [Reconciling(AckNext(k))];
    assert After(longer) == DoAck(After(two), k);
  }

  lemma ImportOne(s: System, b: nat, event: EdgeEvent)
    requires b in s.batches && s.batches[b] == Batch("o", [event], false) && ImportBatch(s.inbox, [event]).Some?
    ensures var s' := DoImport(s, b);
      && s'.table == s.table && s'.acks == s.acks && s'.now == s.now && s'.versions == s.versions
      && b in s'.batches && s'.batches[b] == Batch("o", [event], true)
      && s'.imported == s.imported + {event.eventId}
  {
    hide ImportBatch;
    assert IdsOf([event]) == [event.eventId];
  }

  // From every reachable state the first unacknowledged event can be imported and
  // acknowledged, unless the inbox holds another version of it.
  lemma {:induction false} HeadCanFinish(run: seq<Action>, id: string) returns (longer: seq<Action>)
    requires Possible(run) && IsHead(After(run).table, id)
    requires ImportBatch(After(run).inbox, [After(run).table[id].event]).Some?
    ensures Possible(longer) && Quiet(run, longer)
    ensures var s, s' := After(run), After(longer);
      && id in s'.imported && s.imported <= s'.imported && s'.versions == s.versions
      && s'.table.Keys == s.table.Keys && s'.table[id].state == Acknowledged
      && (forall o :: o in s.table && o != id ==> s'.table[o] == s.table[o])
  {
    hide Possible, After, ImportBatch;
    var s := After(run);
    Invariant(run);
    HeadRow(s, id);
    var event := s.table[id].event;
    var waited := WaitedRun(run, id);
    var pulled, b := PulledRun(waited, id);
    longer := SettledRun(pulled, event, b);
  }

  // ---- All of them --------------------------------------------------------

  ghost function Open(t: Table): set<string> {
    set id | id in t && t[id].state != Acknowledged
  }

  lemma {:induction false} HeadOf(t: Table, ids: set<string>) returns (head: string)
    requires ids != {} && ids <= t.Keys
    ensures head in ids && forall o :: o in ids ==> Before(t[head], t[o])
    decreases |ids|
  {
    head :| head in ids;
    var rest := ids - {head};
    if rest != {} {
      var other := HeadOf(t, rest);
      if !Before(t[head], t[other]) { head := other; }
    }
  }

  lemma {:induction false} QuietFaithful(run: seq<Action>, longer: seq<Action>)
    requires Possible(run) && Faithful(run) && Possible(longer) && Quiet(run, longer)
    ensures Faithful(longer)
  {
    hide Possible, After;
    forall n | 0 <= n < |longer| ensures KeepsVersion(At(longer, n), longer[n]) {
      if n < |run| {
        assert longer[..n] == run[..n];
        assert KeepsVersion(At(run, n), run[n]);
      }
    }
  }

  lemma HeadImports(run: seq<Action>, id: string)
    requires Possible(run) && Faithful(run) && id in After(run).table
    ensures ImportBatch(After(run).inbox, [After(run).table[id].event]).Some?
  {
    hide Possible, After, Faithful, ImportBatch, Valid;
    assert run[..|run|] == run;
    FaithfulAgree(run, |run|);
    assert At(run, |run|) == After(run);
    var s := After(run);
    ImportAgreeing(s.inbox, [s.table[id].event], s.versions);
  }

  // From every state reached without a second version, whatever was lost on the
  // way, a run goes on to where every event ever delivered has been imported and
  // every row at the edge is acknowledged.
  lemma {:induction false} AllCanFinish(run: seq<Action>) returns (longer: seq<Action>)
    requires Possible(run) && Faithful(run)
    ensures Possible(longer) && Quiet(run, longer)
    ensures After(longer).table.Keys == After(run).table.Keys
    ensures forall id :: id in After(longer).table ==> After(longer).table[id].state == Acknowledged
    ensures forall id :: Delivered(run, id) ==> id in After(longer).imported
    decreases |Open(After(run).table)|
  {
    hide Possible, After, Faithful, ImportBatch, Before, Delivered;
    var s := After(run);
    var open := Open(s.table);
    if open == {} {
      longer := run;
      forall id | id in s.table ensures s.table[id].state == Acknowledged { assert id !in open; }
      forall id | Delivered(run, id) ensures id in s.imported { DeliveredImported(run, id); }
    } else {
      var head := HeadOf(s.table, open);
      HeadImports(run, head);
      var next := HeadCanFinish(run, head);
      assert Open(After(next).table) == open - {head};
      QuietFaithful(run, next);
      longer := AllCanFinish(next);
      forall id | Delivered(run, id) ensures id in After(longer).imported { DeliveredLonger(run, next, id); }
    }
  }

  lemma DeliveredImported(run: seq<Action>, id: string)
    requires Possible(run) && Delivered(run, id)
    requires forall o :: o in After(run).table ==> After(run).table[o].state == Acknowledged
    ensures id in After(run).imported
  {
    hide Possible, After, Delivered, Committed;
    NoLoss(run, id);
    HistoryOfIds(run, id);
  }

  lemma DeliveredLonger(run: seq<Action>, longer: seq<Action>, id: string)
    requires Delivered(run, id) && run <= longer
    ensures Delivered(longer, id)
  {
    var k :| 0 <= k < |run| && StoresId(run[k], id);
    assert longer[k] == run[k];
  }
}
