// One cycle of the reconciler: pull, import, acknowledge, each request sent at
// most three times. What the network does to each attempt, and the database's
// answers, are parameters.
module EdgeReconciler {
  import opened Prelude
  import opened EdgeEvents
  import opened EdgeTable
  import opened EdgeInbox

  const MAX_ATTEMPTS: nat := 3

  // What the reconciler sees of a request that failed on the way.
  datatype Failure = ServerBusy | NoAnswer

  // The edge database's answers to the retention DELETE and the candidate SELECT.
  datatype Database = Database(
    removed: (Table, nat) -> set<string>,
    candidates: (Table, nat, nat) -> seq<string>)

  ghost predicate Honest(db: Database) {
    && (forall t, now :: Removable(t, db.removed(t, now), now))
    && (forall t, limit, now :: IsCandidateList(t, limit, now, db.candidates(t, limit, now)))
  }

  // Every table has a candidate list, so such databases exist.
  lemma {:induction false} FirstOf(t: Table, ids: set<string>) returns (first: string)
    requires ids != {} && ids <= t.Keys
    ensures first in ids && forall id :: id in ids ==> Before(t[first], t[id])
    decreases |ids|
  {
    first :| first in ids;
    var rest := ids - {first};
    if rest != {} {
      var other := FirstOf(t, rest);
      if !Before(t[first], t[other]) { first := other; }
    }
  }

  lemma {:induction false} CandidatesExist(t: Table, limit: nat, now: nat) returns (ids: seq<string>)
    ensures IsCandidateList(t, limit, now, ids)
  {
    hide Leasable, Before;
    if limit == 0 {
      ids := [];
    } else {
      ids := CandidatesExist(t, limit - 1, now);
      var left := set id | id in t && CanLease(t, id, now) && id !in ids;
      if left != {} {
        var next := FirstOf(t, left);
        OneMoreCandidate(t, limit, now, ids, next);
        ids := ids + [next];
      } else {
        forall id | CanLease(t, id, now) ensures id in ids { assert id !in left; }
      }
    }
  }

  lemma OneMoreCandidate(t: Table, limit: nat, now: nat, ids: seq<string>, next: string)
    requires limit > 0 && IsCandidateList(t, limit - 1, now, ids) && CanLease(t, next, now) && next !in ids
    requires forall id :: CanLease(t, id, now) && id !in ids ==> Before(t[next], t[id])
    ensures IsCandidateList(t, limit, now, ids + [next])
  {
    hide Leasable, Before;
    var more := ids + [next];
    assert |ids| == limit - 1;
    forall id | CanLease(t, id, now) && id !in more
      ensures |more| == limit && forall i :: 0 <= i < |more| ==> Before(t[more[i]], t[id])
    {
      assert id !in ids;
    }
  }

  ghost function SomeCandidates(t: Table, limit: nat, now: nat): (ids: seq<string>)
    ensures IsCandidateList(t, limit, now, ids)
  {
    assert exists ids :: IsCandidateList(t, limit, now, ids) by {
      var ids := CandidatesExist(t, limit, now);
    }
    var ids :| IsCandidateList(t, limit, now, ids);
    ids
  }

  lemma HonestExists() returns (db: Database)
    ensures Honest(db)
  {
    hide IsCandidateList;
    db := Database((t: Table, now: nat) => {},
                   (t: Table, limit: nat, now: nat) => SomeCandidates(t, limit, now));
  }

  // ---- Pulling ------------------------------------------------------------

  // One attempt to pull: whether the worker executes the request, when and how
  // far, and what the reconciler gets to see of it.
  datatype PullDelivery =
    | Answered(now: nat)
    | Unreadable(now: nat)
    | Interrupted(now: nat, leased: nat, seen: Failure)
    | NotExecuted(seen: Failure)
    | Refused

  // A later state of the table: rows keep their events and stay as they are once
  // acknowledged; only those under the given ids become acknowledged, and only
  // acknowledged rows are dropped.
  ghost predicate Advances(before: Table, after: Table, ids: seq<string>) {
    && (forall id :: id in after ==> id in before)
    && (forall id :: id in before && id !in after ==> IsAcked(before, id) || id in ids)
    && (forall id :: id in after ==> after[id].event == before[id].event)
    && (forall id :: id in after && IsAcked(before, id) ==> after[id] == before[id])
    && (forall id :: IsAcked(after, id) ==> IsAcked(before, id) || id in ids)
  }

  lemma AdvancesOn(a: Table, b: Table, c: Table, ids: seq<string>)
    requires Advances(a, b, ids) && Advances(b, c, ids)
    ensures Advances(a, c, ids)
  {
  }

  lemma AdvancesMore(a: Table, b: Table, few: seq<string>, many: seq<string>)
    requires Advances(a, b, few) && forall id :: id in few ==> id in many
    ensures Advances(a, b, many)
  {
  }

  lemma Stays(t: Table, ids: seq<string>)
    ensures Advances(t, t, ids)
  {
  }

  function Ids(events: seq<EdgeEvent>): (r: seq<string>)
    ensures |r| == |events| && forall i :: 0 <= i < |r| ==> r[i] == events[i].eventId
  {
    seq(|events|, i requires 0 <= i < |events| => events[i].eventId)
  }

  // What a request finds in the table: the stored events of a candidate list.
  ghost predicate Listed(asked: Table, limit: nat, now: nat, events: seq<EdgeEvent>) {
    && IsCandidateList(asked, limit, now, Ids(events))
    && forall i :: 0 <= i < |events| ==> events[i].eventId in asked && asked[events[i].eventId].event == events[i]
  }

  // What it leaves: exactly the rows of these events were leased, each once.
  ghost predicate LeasedOnce(asked: Table, after: Table, owner: string, until: nat, events: seq<EdgeEvent>) {
    forall id :: id in after ==>
      && id in asked
      && after[id] == if id in Ids(events)
                      then asked[id].(state := Publishing, leaseOwner := Some(owner), leaseExpiresAt := Some(until),
                                      attempts := asked[id].attempts + 1)
                      else asked[id]
  }

  // The rows handed out: stored, valid and leased to the owner.
  ghost predicate Leased(t: Table, owner: string, events: seq<EdgeEvent>) {
    forall i :: 0 <= i < |events| ==>
      && Valid(events[i]) && events[i].eventId in t && t[events[i].eventId].event == events[i]
      && t[events[i].eventId].state.Publishing? && t[events[i].eventId].leaseOwner == Some(owner)
  }

  lemma RemovalAdvances(t: Table, removed: set<string>, now: nat)
    requires Removable(t, removed, now)
    ensures Advances(t, t - removed, [])
  {
  }

  lemma LeaseAdvances(t: Table, ids: seq<string>, owner: string, seconds: nat, now: nat)
    requires forall i :: 0 <= i < |ids| ==> CanLease(t, ids[i], now)
    requires forall i, j :: 0 <= i < j < |ids| ==> ids[i] != ids[j]
    ensures Advances(t, LeaseAll(t, ids, owner, seconds, now), [])
  {
    hide LeaseAll;
    LeaseAllAt(t, ids, owner, seconds, now, "");
    forall id | id in t
      ensures id in LeaseAll(t, ids, owner, seconds, now)
      ensures LeaseAll(t, ids, owner, seconds, now)[id] ==
        if id in ids then t[id].(state := Publishing, leaseOwner := Some(owner),
                                 leaseExpiresAt := Some(now + seconds), attempts := t[id].attempts + 1)
        else t[id]
    {
      LeaseAllAt(t, ids, owner, seconds, now, id);
    }
  }

  lemma LeasedAll(t: Table, ids: seq<string>, owner: string, seconds: nat, now: nat)
    requires SoundTable(t) && forall i :: 0 <= i < |ids| ==> ids[i] in t && CanLease(t, ids[i], now)
    requires forall i, j :: 0 <= i < j < |ids| ==> ids[i] != ids[j]
    ensures Leased(LeaseAll(t, ids, owner, seconds, now), owner, EventsOf(t, ids))
  {
    hide LeaseAll, Valid, EventsOf;
    var events, leased := EventsOf(t, ids), LeaseAll(t, ids, owner, seconds, now);
    forall i | 0 <= i < |events|
      ensures Valid(events[i]) && events[i].eventId in leased && leased[events[i].eventId].event == events[i]
      ensures leased[events[i].eventId].state.Publishing? && leased[events[i].eventId].leaseOwner == Some(owner)
    {
      LeaseAllAt(t, ids, owner, seconds, now, ids[i]);
    }
  }

  lemma ListedAll(t: Table, removed: set<string>, ids: seq<string>, limit: nat, owner: string, seconds: nat, now: nat)
    requires SoundTable(t) && IsCandidateList(t, limit, now, ids)
    requires forall i :: 0 <= i < |ids| ==> ids[i] in t - removed && CanLease(t - removed, ids[i], now)
    requires forall i, j :: 0 <= i < j < |ids| ==> ids[i] != ids[j]
    ensures var base := t - removed;
      && Listed(t, limit, now, EventsOf(base, ids))
      && LeasedOnce(t, LeaseAll(base, ids, owner, seconds, now), owner, now + seconds, EventsOf(base, ids))
  {
    hide IsCandidateList, LeaseAll, Valid, EventsOf, CanLease;
    var base := t - removed;
    var events, after := EventsOf(base, ids), LeaseAll(base, ids, owner, seconds, now);
    assert Ids(events) == ids;
    LeaseAllAt(base, ids, owner, seconds, now, "");
    forall id | id in after
      ensures id in t
      ensures after[id] == if id in ids
        then t[id].(state := Publishing, leaseOwner := Some(owner), leaseExpiresAt := Some(now + seconds),
                    attempts := t[id].attempts + 1)
        else t[id]
    {
      LeaseAllAt(base, ids, owner, seconds, now, id);
    }
  }

  // A candidate list and its prefixes can be leased.
  lemma CandidatesLeasable(t: Table, limit: nat, now: nat, ids: seq<string>, part: seq<string>)
    requires IsCandidateList(t, limit, now, ids) && part <= ids
    ensures |ids| <= limit
    ensures forall i :: 0 <= i < |part| ==> part[i] in t && CanLease(t, part[i], now)
    ensures forall i, j :: 0 <= i < j < |part| ==> part[i] != part[j]
  {
    hide Before, Leasable;
  }

  // A whole pull request at the worker.
  method Request(worker: EdgeWorker, db: Database, owner: string, limit: nat, lease: nat, now: nat)
    returns (events: seq<EdgeEvent>)
    requires Honest(db) && worker.Sound() && ValidOwner(owner)
    modifies worker
    ensures worker.Sound() && Advances(old(worker.rows), worker.rows, [])
    ensures Leased(worker.rows, owner, events) && |events| <= Clamp(limit, 1, MAX_PULL_BATCH)
    ensures Listed(old(worker.rows), Clamp(limit, 1, MAX_PULL_BATCH), now, events)
    ensures LeasedOnce(old(worker.rows), worker.rows, owner, now + Clamp(lease, 1, MAX_LEASE_SECONDS), events)
  {
    hide IsCandidateList, Removable, CanLease, LeaseAll, EventsOf, SoundTable, ValidOwner, FirstInvalid,
         Advances, Leased, Honest, Listed, LeasedOnce;
    ghost var before := worker.rows;
    assert Removable(before, db.removed(before, now), now) by { AnswersHonest(db, before, limit, now); }
    var removed := db.removed(worker.rows, now);
    var base := worker.rows - removed;
    var candidates := db.candidates(base, Clamp(limit, 1, MAX_PULL_BATCH), now);
    AnswersHonest(db, base, Clamp(limit, 1, MAX_PULL_BATCH), now);
    var pulled := worker.PullEvents(owner, limit, lease, now, removed, candidates);
    CandidatesLeasable(base, Clamp(limit, 1, MAX_PULL_BATCH), now, candidates, candidates);
    RemovalAdvances(before, removed, now);
    SoundRemoval(before, removed);
    LeaseAdvances(base, candidates, owner, Clamp(lease, 1, MAX_LEASE_SECONDS), now);
    AdvancesOn(before, base, worker.rows, []);
    LeasedAll(base, candidates, owner, Clamp(lease, 1, MAX_LEASE_SECONDS), now);
    events := pulled.value;
    CandidatesWithout(before, removed, Clamp(limit, 1, MAX_PULL_BATCH), now, candidates);
    ListedAll(before, removed, candidates, Clamp(limit, 1, MAX_PULL_BATCH), owner,
              Clamp(lease, 1, MAX_LEASE_SECONDS), now);
  }

  lemma AnswersHonest(db: Database, t: Table, limit: nat, now: nat)
    requires Honest(db)
    ensures Removable(t, db.removed(t, now), now) && IsCandidateList(t, limit, now, db.candidates(t, limit, now))
  {
    hide Removable, IsCandidateList;
  }

  lemma SoundRemoval(t: Table, removed: set<string>)
    requires SoundTable(t)
    ensures SoundTable(t - removed)
  {
    hide Valid;
  }

  function Prefix(ids: seq<string>, n: nat): seq<string> {
    if n <= |ids| then ids[..n] else ids
  }

  // The table after a request that the worker broke off, having leased some.
  ghost function BrokenOff(db: Database, t: Table, owner: string, limit: nat, lease: nat, now: nat, leased: nat): Table
  {
    var base := t - db.removed(t, now);
    LeaseAll(base, Prefix(db.candidates(base, Clamp(limit, 1, MAX_PULL_BATCH), now), leased), owner,
             Clamp(lease, 1, MAX_LEASE_SECONDS), now)
  }

  // The table after the first n attempts, none of them answered.
  ghost function AfterTries(db: Database, t: Table, owner: string, limit: nat, lease: nat,
                            deliveries: nat -> PullDelivery, n: nat): Table
  {
    if n == 0 then t
    else
      var before := AfterTries(db, t, owner, limit, lease, deliveries, n - 1);
      if deliveries(n).Interrupted?
      then BrokenOff(db, before, owner, limit, lease, deliveries(n).now, deliveries(n).leased) else before
  }

  // A pull request that the worker breaks off while leasing.
  method BrokenRequest(worker: EdgeWorker, db: Database, owner: string, limit: nat, lease: nat, now: nat, leased: nat)
    requires Honest(db) && worker.Sound()
    modifies worker
    ensures worker.Sound() && Advances(old(worker.rows), worker.rows, [])
    ensures worker.rows == BrokenOff(db, old(worker.rows), owner, limit, lease, now, leased)
  {
    hide IsCandidateList, Removable, CanLease, LeaseAll, EventsOf, SoundTable, FirstInvalid, Advances, Honest;
    ghost var before := worker.rows;
    AnswersHonest(db, before, limit, now);
    var removed := db.removed(worker.rows, now);
    SoundRemoval(before, removed);
    RemovalAdvances(before, removed, now);
    worker.rows := worker.rows - removed;
    ghost var base := worker.rows;
    var candidates := db.candidates(worker.rows, Clamp(limit, 1, MAX_PULL_BATCH), now);
    AnswersHonest(db, base, Clamp(limit, 1, MAX_PULL_BATCH), now);
    var part := Prefix(candidates, leased);
    CandidatesLeasable(base, Clamp(limit, 1, MAX_PULL_BATCH), now, candidates, part);
    var seconds := Clamp(lease, 1, MAX_LEASE_SECONDS);
    var events, valid := worker.LeaseCandidates(owner, seconds, now, part);
    AllValid(base, part);
    LeaseAllSound(base, part, owner, seconds, now);
    LeaseAdvances(base, part, owner, seconds, now);
    AdvancesOn(before, base, worker.rows, []);
  }

  lemma {:induction false} AllValid(t: Table, ids: seq<string>)
    requires SoundTable(t) && forall i :: 0 <= i < |ids| ==> ids[i] in t
    ensures FirstInvalid(t, ids) == |ids|
  {
    hide Valid;
    if ids != [] { AllValid(t, ids[1..]); }
  }

  // Some attempt is answered, and those before it are tried again.
  predicate PullAnswered(deliveries: nat -> PullDelivery) {
    exists k :: 1 <= k <= MAX_ATTEMPTS && PullAnsweredAt(deliveries, k)
  }

  predicate PullAnsweredAt(deliveries: nat -> PullDelivery, k: nat) {
    deliveries(k).Answered? && forall j :: 1 <= j < k ==> deliveries(j).Interrupted? || deliveries(j).NotExecuted?
  }

  // At most three requests. Whatever they left behind, nothing is acknowledged. A
  // successful pull holds exactly what its last request found in the table it was
  // made to, and that request leased exactly these rows to the owner.
  method PullEvents(worker: EdgeWorker, db: Database, owner: string, batchSize: nat, lease: nat,
                    deliveries: nat -> PullDelivery)
    returns (r: Result<seq<EdgeEvent>, ()>, attempts: nat)
    requires Honest(db) && worker.Sound() && ValidOwner(owner) && 1 <= batchSize <= MAX_PULL_BATCH
    modifies worker
    ensures worker.Sound() && Advances(old(worker.rows), worker.rows, [])
    ensures 1 <= attempts <= MAX_ATTEMPTS
    ensures forall k :: 1 <= k < attempts ==> deliveries(k).Interrupted? || deliveries(k).NotExecuted?
    ensures r.Ok? <==> deliveries(attempts).Answered?
    ensures r.Err? && attempts < MAX_ATTEMPTS ==> deliveries(attempts).Unreadable? || deliveries(attempts).Refused?
    ensures r.Ok? <==> PullAnswered(deliveries)
    ensures r.Ok? ==>
      var asked := AfterTries(db, old(worker.rows), owner, batchSize, lease, deliveries, attempts - 1);
      && Leased(worker.rows, owner, r.value) && |r.value| <= batchSize
      && Listed(asked, batchSize, deliveries(attempts).now, r.value)
      && LeasedOnce(asked, worker.rows, owner, deliveries(attempts).now + Clamp(lease, 1, MAX_LEASE_SECONDS), r.value)
  {
    hide Advances, Leased, Honest, ValidOwner, SoundTable, Listed, LeasedOnce, BrokenOff;
    ghost var start := worker.rows;
    Stays(start, []);
    for attempt := 1 to MAX_ATTEMPTS + 1
      invariant worker.Sound() && Advances(start, worker.rows, [])
      invariant worker.rows == AfterTries(db, start, owner, batchSize, lease, deliveries, attempt - 1)
      invariant forall k :: 1 <= k < attempt ==> deliveries(k).Interrupted? || deliveries(k).NotExecuted?
    {
      attempts := attempt;
      ghost var before := worker.rows;
      match deliveries(attempt) {
        case Answered(now) =>
          var events := Request(worker, db, owner, batchSize, lease, now);
          AdvancesOn(start, before, worker.rows, []);
          AcceptAll(worker.rows, owner, events);
          if |events| > batchSize || exists i :: 0 <= i < |events| && !Valid(events[i]) {
            return Err(()), attempts;
          }
          assert PullAnsweredAt(deliveries, attempt);
          return Ok(events), attempts;
        case Unreadable(now) =>
          var events := Request(worker, db, owner, batchSize, lease, now);
          AdvancesOn(start, before, worker.rows, []);
          return Err(()), attempts;
        case Interrupted(now, leased, seen) =>
          BrokenRequest(worker, db, owner, batchSize, lease, now, leased);
          AdvancesOn(start, before, worker.rows, []);
          if seen.NoAnswer? && attempt >= MAX_ATTEMPTS { return Err(()), attempts; }
        case NotExecuted(seen) =>
          if seen.NoAnswer? && attempt >= MAX_ATTEMPTS { return Err(()), attempts; }
        case Refused =>
          return Err(()), attempts;
      }
    }
    attempts := MAX_ATTEMPTS;
    r := Err(());
  }

  // What the reconciler checks of a reply always holds.
  lemma AcceptAll(t: Table, owner: string, events: seq<EdgeEvent>)
    requires Leased(t, owner, events)
    ensures forall i :: 0 <= i < |events| ==> Valid(events[i])
  {
    hide Valid;
  }

  // ---- Acknowledging ------------------------------------------------------

  // One attempt to acknowledge: whether the worker executes the request, when
  // and how far, and what the reconciler gets to see of it.
  datatype AckDelivery =
    | Replied(now: nat)
    | Garbled(now: nat)
    | Broken(now: nat, settled: nat, seen: Failure)
    | Lost(seen: Failure)
    | Rejected

  // The worker's rows after acknowledgement requests of one owner: only rows
  // named by them and leased to the owner changed, and only by being settled.
  ghost predicate OnlyAcked(before: Table, after: Table, owner: string, ids: seq<string>) {
    && after.Keys == before.Keys
    && forall id :: id in before ==>
      after[id] == before[id]
      || (id in ids && CanAck(before, id, owner) && IsAcked(after, id) && after[id].event == before[id].event)
  }

  lemma AckedPrefix(t: Table, ids: seq<string>, k: nat, owner: string, now: nat)
    requires k <= |ids|
    ensures OnlyAcked(t, AckAll(t, ids[..k], owner, now), owner, ids)
  {
    hide AckAll;
    AckAllAt(t, ids[..k], owner, now, "");
    forall id | id in t
      ensures id in AckAll(t, ids[..k], owner, now)
      ensures AckAll(t, ids[..k], owner, now)[id] == if id in ids[..k] && CanAck(t, id, owner)
        then t[id].(state := Acknowledged, acknowledgedAt := Some(now), leaseOwner := None, leaseExpiresAt := None)
        else t[id]
    {
      AckAllAt(t, ids[..k], owner, now, id);
    }
    assert forall id :: id in ids[..k] ==> id in ids;
  }

  lemma AckedTwice(a: Table, b: Table, c: Table, owner: string, ids: seq<string>)
    requires OnlyAcked(a, b, owner, ids) && OnlyAcked(b, c, owner, ids)
    ensures OnlyAcked(a, c, owner, ids)
  {
  }

  predicate AckAnswered(deliveries: nat -> AckDelivery) {
    exists k :: 1 <= k <= MAX_ATTEMPTS && AckAnsweredAt(deliveries, k)
  }

  predicate AckAnsweredAt(deliveries: nat -> AckDelivery, k: nat) {
    deliveries(k).Replied? && forall j :: 1 <= j < k ==> deliveries(j).Broken? || deliveries(j).Lost?
  }

  // Rows that an acknowledgement by their owner settles all of.
  ghost predicate Settleable(t: Table, owner: string, ids: seq<string>) {
    forall i :: 0 <= i < |ids| ==> IsAcked(t, ids[i]) || CanAck(t, ids[i], owner)
  }

  lemma StaysSettleable(before: Table, after: Table, owner: string, ids: seq<string>)
    requires OnlyAcked(before, after, owner, ids) && Settleable(before, owner, ids)
    ensures Settleable(after, owner, ids)
  {
  }

  lemma SettledByAll(t: Table, owner: string, ids: seq<string>, now: nat)
    requires Settleable(t, owner, ids)
    ensures forall i :: 0 <= i < |ids| ==> IsAcked(AckAll(t, ids, owner, now), ids[i])
  {
    hide AckAll;
    forall i | 0 <= i < |ids| ensures IsAcked(AckAll(t, ids, owner, now), ids[i]) {
      AckAllAt(t, ids, owner, now, ids[i]);
    }
  }

  // Success means that every id is acknowledged, however many replies were lost;
  // and rows leased to the owner are acknowledged as soon as one reply arrives.
  method AcknowledgeEvents(worker: EdgeWorker, owner: string, ids: seq<string>, deliveries: nat -> AckDelivery)
    returns (r: Result<(), ()>)
    modifies worker
    ensures r.Ok? ==> forall i :: 0 <= i < |ids| ==> IsAcked(worker.rows, ids[i])
    ensures OnlyAcked(old(worker.rows), worker.rows, owner, ids)
    ensures r.Ok? ==> AckAnswered(deliveries)
    ensures (ValidOwner(owner) && 0 < |ids| <= MAX_PULL_BATCH && (forall i :: 0 <= i < |ids| ==> GoodId(ids[i]))
             && Settleable(old(worker.rows), owner, ids) && AckAnswered(deliveries)) ==> r.Ok?
  {
    hide OnlyAcked, IsAcked, AckAll, Count, Settleable, ValidOwner, GoodId;
    ghost var start := worker.rows;
    NothingAcked(start, owner, ids);
    for attempt := 1 to MAX_ATTEMPTS + 1
      invariant OnlyAcked(start, worker.rows, owner, ids)
      invariant Settleable(start, owner, ids) ==> Settleable(worker.rows, owner, ids)
      invariant forall j :: 1 <= j < attempt ==> deliveries(j).Broken? || deliveries(j).Lost?
    {
      ghost var before := worker.rows;
      match deliveries(attempt) {
        case Replied(now) =>
          var reply := worker.AcknowledgeEvents(owner, ids, now);
          SomePrefix(before, worker.rows, owner, ids, now);
          AckedTwice(start, before, worker.rows, owner, ids);
          if Settleable(before, owner, ids) { SettledByAll(before, owner, ids, now); }
          if reply.Err? || reply.value != |ids| { return Err(()); }
          assert AckAnsweredAt(deliveries, attempt);
          return Ok(());
        case Garbled(now) =>
          var reply := worker.AcknowledgeEvents(owner, ids, now);
          SomePrefix(before, worker.rows, owner, ids, now);
          AckedTwice(start, before, worker.rows, owner, ids);
          return Err(());
        case Broken(now, settled, seen) =>
          var part := if settled <= |ids| then ids[..settled] else ids;
          var reply := worker.AcknowledgeEvents(owner, part, now);
          SomePrefix(before, worker.rows, owner, part, now);
          AckedMore(before, worker.rows, owner, part, ids);
          AckedTwice(start, before, worker.rows, owner, ids);
          if Settleable(before, owner, ids) { StaysSettleable(before, worker.rows, owner, ids); }
          if seen.NoAnswer? && attempt >= MAX_ATTEMPTS { return Err(()); }
        case Lost(seen) =>
          if seen.NoAnswer? && attempt >= MAX_ATTEMPTS { return Err(()); }
        case Rejected =>
          return Err(());
      }
    }
    r := Err(());
  }

  lemma NothingAcked(t: Table, owner: string, ids: seq<string>)
    ensures OnlyAcked(t, t, owner, ids)
  {
  }

  lemma AckedMore(before: Table, after: Table, owner: string, part: seq<string>, ids: seq<string>)
    requires OnlyAcked(before, after, owner, part) && forall id :: id in part ==> id in ids
    ensures OnlyAcked(before, after, owner, ids)
  {
  }

  lemma SomePrefix(before: Table, after: Table, owner: string, ids: seq<string>, now: nat)
    requires after == before || after == AckAll(before, ids, owner, now)
      || exists k :: 0 <= k <= |ids| && after == AckAll(before, ids[..k], owner, now)
    ensures OnlyAcked(before, after, owner, ids)
  {
    hide OnlyAcked, AckAll;
    assert ids[..|ids|] == ids;
    NothingAcked(before, owner, ids);
    if after != before {
      var k :| 0 <= k <= |ids| && after == AckAll(before, ids[..k], owner, now);
      AckedPrefix(before, ids, k, owner, now);
    }
  }

  lemma AckedAdvances(before: Table, after: Table, owner: string, ids: seq<string>)
    requires OnlyAcked(before, after, owner, ids)
    ensures Advances(before, after, ids)
  {
  }

  // ---- One cycle ----------------------------------------------------------

  datatype Report = Report(pulled: nat, imported: nat, duplicates: nat, acknowledged: nat)

  // What inbox retention, the last step, does: it deletes rows, or fails.
  datatype Retention = Deletes(removed: set<string>) | Fails

  // Pull, import, acknowledge, delete old inbox rows; the cycle ends at the first
  // failure. Nothing is acknowledged at the edge unless the whole batch has been
  // imported. The cycle succeeds exactly when the pull is answered, its batch can be
  // imported, the acknowledgement is replied to and old rows can be deleted; it has
  // then imported and acknowledged exactly the events the request found.
  method RunCycle(worker: EdgeWorker, db: Database, store: InboxStore, clock: Clock, owner: string,
                  batchSize: nat, lease: nat, pulls: nat -> PullDelivery, deliveries: nat -> AckDelivery,
                  retention: Retention)
    returns (r: Result<Report, ()>, ghost events: seq<EdgeEvent>, ghost tries: nat)
    requires Honest(db) && worker.Sound() && ValidOwner(owner) && 1 <= batchSize <= MAX_PULL_BATCH
    modifies worker, store
    ensures Advances(old(worker.rows), worker.rows, Ids(events))
    ensures ImportTimed(clock, old(store.rows), events).None? ==> Advances(old(worker.rows), worker.rows, [])
    ensures var imported := ImportTimed(clock, old(store.rows), events);
      store.rows == (if imported.None? then old(store.rows)
                     else if r.Ok? && retention.Deletes? then imported.value.0 - retention.removed
                     else imported.value.0)
    ensures PullAnswered(pulls) ==>
      && tries >= 1 && PullAnsweredAt(pulls, tries)
      && Listed(AfterTries(db, old(worker.rows), owner, batchSize, lease, pulls, tries - 1), batchSize,
                pulls(tries).now, events)
    ensures !PullAnswered(pulls) ==> events == []
    ensures r.Ok? <==>
      && PullAnswered(pulls) && ImportTimed(clock, old(store.rows), events).Some?
      && (events == [] || AckAnswered(deliveries)) && retention.Deletes?
    ensures r.Ok? ==>
      && r.value.imported == |ImportTimed(clock, old(store.rows), events).value.1|
      && (forall i :: 0 <= i < |events| ==> IsAcked(worker.rows, events[i].eventId))
      && r.value.pulled == |events| && r.value.acknowledged == |events|
      && r.value.imported + r.value.duplicates == |events|
  {
    hide OnlyAcked, IsAcked, ImportTimed, Advances, Leased, Honest, ValidOwner, SoundTable, Listed, LeasedOnce,
         PullAnswered, AckAnswered, Settleable;
    events, tries := [], 0;
    NothingImported(clock, store.rows);
    ghost var start := worker.rows;
    var pulled, attempts := PullEvents(worker, db, owner, batchSize, lease, pulls);
    AdvancesMore(start, worker.rows, [], Ids(events));
    if pulled.Err? { return Err(()), events, tries; }
    events, tries := pulled.value, attempts;
    AdvancesMore(start, worker.rows, [], Ids(events));
    var outcome := store.ImportEdgeEvents(clock, pulled.value);
    if outcome.Err? { return Err(()), events, tries; }
    var ids := Ids(pulled.value);
    if |ids| > 0 {
      ghost var before := worker.rows;
      var settled := AcknowledgeEvents(worker, owner, ids, deliveries);
      LeasedSettleable(before, owner, events);
      AckedAdvances(before, worker.rows, owner, ids);
      AdvancesOn(start, before, worker.rows, ids);
      if settled.Err? { return Err(()), events, tries; }
      forall i | 0 <= i < |events| ensures IsAcked(worker.rows, events[i].eventId) {
        assert IsAcked(worker.rows, ids[i]);
      }
    }
    if retention.Fails? { return Err(()), events, tries; }
    store.ApplyRetention(retention.removed);
    r := Ok(Report(|pulled.value|, outcome.value.imported, outcome.value.duplicates, |ids|));
  }

  lemma LeasedSettleable(t: Table, owner: string, events: seq<EdgeEvent>)
    requires Leased(t, owner, events)
    ensures Settleable(t, owner, Ids(events)) && forall i :: 0 <= i < |events| ==> GoodId(Ids(events)[i])
  {
  }

  lemma NothingImported(clock: Clock, rows: Inbox)
    ensures ImportTimed(clock, rows, []) == Some((rows, []))
  {
  }
}
