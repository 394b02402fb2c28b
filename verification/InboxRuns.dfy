// The importer's table as one system with the relay: imports add rows, any
// number of consumers work them off, retention deletes old ones. Every action is
// one statement or one transaction.
module InboxRuns {
  import opened Prelude
  import opened EdgeEvents
  import opened EdgeTable
  import opened EdgeInbox
  import opened RelayProtocol
  import RelayTheorems
  import RelayProgress
  import opened InboxWork

  const MAX_ATTEMPTS: nat := 5

  // `rows` refines the relay's inbox; `hands` holds the ids handed out to
  // consumers. `settled` and `results` are history: how often a row of an id was
  // completed, rejected or given up, and how often a consumer reported on it.
  datatype Hub = Hub(
    relay: System,
    rows: Rows,
    now: nat,
    hands: map<nat, string>,
    settled: multiset<string>,
    results: multiset<string>)

  const EMPTY := Hub(INITIAL, map[], 0, map[], multiset{}, multiset{})

  datatype Step =
    | Relaying(action: Action)
    | Wait(seconds: nat)
    | HandOut(hand: nat, id: string)
    | Finish(hand: nat)
    | GiveBack(hand: nat, maxAttempts: nat, delay: nat)
    | Drop(hand: nat)
    | Delete(removed: set<string>, days: nat)

  predicate IsInboxRetention(a: Action) {
    a.World? && a.event.InboxRetention?
  }

  ghost predicate StepEnabled(h: Hub, step: Step) {
    match step
    case Relaying(a) => Enabled(h.relay, a) && !IsInboxRetention(a)
    case Wait(_) => true
    case HandOut(hand, id) => hand !in h.hands && Ready(h.rows, id, h.now)
    case Finish(hand) => hand in h.hands
    case GiveBack(hand, maxAttempts, delay) => hand in h.hands && 0 < maxAttempts <= MAX_ATTEMPTS && delay > 0
    case Drop(hand) => hand in h.hands
    case Delete(removed, days) => days >= 1 && removed <= h.relay.inbox.Keys && Old(h.rows, removed, days, h.now)
  }

  // The rows behind an inbox: those there before stay, new ones are fresh.
  function Refill(rows: Rows, inbox: Inbox, now: nat): Rows {
    map id | id in inbox :: if id in rows then rows[id] else Fresh(inbox[id], now)
  }

  ghost function Do(h: Hub, step: Step): Hub
    requires StepEnabled(h, step)
  {
    match step
    case Relaying(a) =>
      h.(relay := Apply(h.relay, a), rows := Refill(h.rows, Apply(h.relay, a).inbox, h.now))
    case Wait(seconds) => h.(now := h.now + seconds)
    case HandOut(hand, id) => h.(hands := h.hands[hand := id])
    case Finish(hand) => DoFinish(h, hand)
    case GiveBack(hand, maxAttempts, delay) => DoGiveBack(h, hand, maxAttempts, delay)
    case Drop(hand) => h.(hands := h.hands - {hand})
    case Delete(removed, _) =>
      h.(relay := DoInboxRetention(h.relay, removed), rows := h.rows - removed)
  }

  // A report on a row that another consumer settled first is refused.
  function DoFinish(h: Hub, hand: nat): Hub
    requires hand in h.hands
  {
    var id, left := h.hands[hand], h.hands - {hand};
    if CanComplete(h.rows, id) then
      h.(rows := Complete(h.rows, id, h.now), hands := left,
         settled := h.settled + multiset{id}, results := h.results + multiset{id})
    else h.(hands := left)
  }

  function DoGiveBack(h: Hub, hand: nat, maxAttempts: nat, delay: nat): Hub
    requires hand in h.hands
  {
    var id, left := h.hands[hand], h.hands - {hand};
    if IsPending(h.rows, id) then
      h.(rows := Fail(h.rows, id, maxAttempts, delay, h.now), hands := left,
         settled := if h.rows[id].attempts + 1 >= maxAttempts then h.settled + multiset{id} else h.settled,
         results := h.results + multiset{id})
    else h.(hands := left)
  }

  // ---- Runs ---------------------------------------------------------------

  ghost predicate Legal(run: seq<Step>)
    decreases |run|, 0
  {
    run == [] || (Legal(run[..|run| - 1]) && StepEnabled(Reached(run[..|run| - 1]), run[|run| - 1]))
  }

  ghost function Reached(run: seq<Step>): Hub
    requires Legal(run)
    decreases |run|, 1
  {
    if run == [] then EMPTY else Do(Reached(run[..|run| - 1]), run[|run| - 1])
  }

  // ---- Under every run lies one of the relay ------------------------------

  function RelayPart(step: Step): seq<Action> {
    match step
    case Relaying(a) => [a]
    case Delete(removed, _) => [World(InboxRetention(removed))]
    case Wait(_) => []
    case HandOut(_, _) => []
    case Finish(_) => []
    case GiveBack(_, _, _) => []
    case Drop(_) => []
  }

  function Underlying(run: seq<Step>): seq<Action> {
    if run == [] then [] else Underlying(run[..|run| - 1]) + RelayPart(run[|run| - 1])
  }

  lemma {:induction false} RelayUnderneath(run: seq<Step>)
    requires Legal(run)
    ensures Possible(Underlying(run)) && After(Underlying(run)) == Reached(run).relay
  {
    hide Possible, After, Enabled, Apply, Refill, DoFinish, DoGiveBack, Ready, Old, DoInboxRetention;
    if run == [] {
      NothingYet();
    } else {
      var front, step := run[..|run| - 1], run[|run| - 1];
      RelayUnderneath(front);
      var relay := Reached(front).relay;
      match step {
        case Relaying(a) => RelayTheorems.Extend(Underlying(front), a);
        case Delete(removed, _) =>
          DeleteIsRetention(relay, removed);
          RelayTheorems.Extend(Underlying(front), World(InboxRetention(removed)));
        case Wait(_) => assert Underlying(run) == Underlying(front);
        case HandOut(_, _) => assert Underlying(run) == Underlying(front);
        case Finish(hand) =>
          ReportsKeepRelay(Reached(front), hand, 1, 1);
          assert Underlying(run) == Underlying(front);
        case GiveBack(hand, maxAttempts, delay) =>
          ReportsKeepRelay(Reached(front), hand, maxAttempts, delay);
          assert Underlying(run) == Underlying(front);
        case Drop(_) => assert Underlying(run) == Underlying(front);
      }
    }
  }

  lemma ReportsKeepRelay(h: Hub, hand: nat, maxAttempts: nat, delay: nat)
    requires hand in h.hands
    ensures DoFinish(h, hand).relay == h.relay && DoGiveBack(h, hand, maxAttempts, delay).relay == h.relay
  {
  }

  lemma NothingYet()
    ensures Possible([]) && After([]) == INITIAL
  {
  }

  lemma DeleteIsRetention(s: System, removed: set<string>)
    requires removed <= s.inbox.Keys
    ensures Enabled(s, World(InboxRetention(removed)))
    ensures Apply(s, World(InboxRetention(removed))) == DoInboxRetention(s, removed)
  {
  }

  // ---- What every step keeps ----------------------------------------------

  function One(b: bool): nat {
    if b then 1 else 0
  }

  // The rows are the inbox's, each with the event stored there.
  ghost predicate SameRows(rows: Rows, inbox: Inbox) {
    rows.Keys == inbox.Keys && forall id :: id in rows ==> rows[id].event == inbox[id]
  }

  predicate GoodRow(w: Work, now: nat) {
    && (w.deadLetteredAt.Some? ==> w.processedAt.Some?)
    && (Unsettled(w) ==> w.attempts < MAX_ATTEMPTS) && w.attempts <= MAX_ATTEMPTS
    && (w.processedAt.Some? ==> w.processedAt.value <= now)
  }

  ghost predicate GoodRows(rows: Rows, now: nat) {
    forall id :: id in rows ==> GoodRow(rows[id], now)
  }

  // Every insertion of an id was settled exactly once or is still pending.
  ghost predicate Conserved(inserted: multiset<string>, settled: multiset<string>, rows: Rows) {
    forall id :: inserted[id] == settled[id] + One(IsPending(rows, id))
  }

  function PendingAttempts(rows: Rows, id: string): nat {
    if IsPending(rows, id) then rows[id].attempts else 0
  }

  ghost predicate Bounded(results: multiset<string>, settled: multiset<string>, rows: Rows) {
    forall id :: results[id] <= MAX_ATTEMPTS * settled[id] + PendingAttempts(rows, id)
  }

  ghost predicate Inserted(s: System) {
    forall id :: id in s.imported || id in s.inbox ==> s.inserted[id] > 0
  }

  ghost predicate HubInv(h: Hub) {
    && SameRows(h.rows, h.relay.inbox)
    && GoodRows(h.rows, h.now)
    && Conserved(h.relay.inserted, h.settled, h.rows)
    && Bounded(h.results, h.settled, h.rows)
    && Inserted(h.relay)
  }

  // ---- Relay steps --------------------------------------------------------

  // What a relay step does to the inbox: rows stay as they are, and an id is
  // inserted exactly when its row is new.
  ghost predicate Grown(s: System, s': System, id: string) {
    && (id in s.inbox ==> id in s'.inbox && s'.inbox[id] == s.inbox[id])
    && s'.inserted[id] == s.inserted[id] + One(id in s'.inbox && id !in s.inbox)
    && (id in s'.imported ==> id in s.imported || id in s'.inbox)
  }

  lemma ImportGrows(s: System, b: nat, id: string)
    requires b in s.batches
    ensures Grown(s, DoImport(s, b), id)
  {
    hide ImportBatch, HasId;
    var events := s.batches[b].events;
    match ImportBatch(s.inbox, events)
    case None =>
    case Some((rows, inserted)) =>
      ImportCommitted(s.inbox, events, id);
      ImportInserts(s.inbox, events);
      assert multiset(rows.Keys)[id] == multiset(s.inbox.Keys)[id] + multiset(inserted)[id];
      if id in IdsOf(events) { HasSomeId(events, id); }
  }

  lemma HasSomeId(events: seq<EdgeEvent>, id: string)
    requires id in IdsOf(events)
    ensures HasId(events, id)
  {
    var i :| 0 <= i < |IdsOf(events)| && IdsOf(events)[i] == id;
    assert events[i].eventId == id;
  }

  lemma RelayGrows(s: System, a: Action, id: string)
    requires Enabled(s, a) && !IsInboxRetention(a)
    ensures Grown(s, Apply(s, a), id)
  {
    hide DoImport, DoAck, DoGrant, DoPersist, WorldEnabled, PullEnabled, ReconcileEnabled;
    match a {
      case World(event) => WorldKeepsInbox(s, event);
      case Pulling(p, step) => PullKeepsInbox(s, p, step);
      case Reconciling(work) => ReconcileGrows(s, work, id);
    }
  }

  lemma WorldKeepsInbox(s: System, a: WorldAction)
    requires WorldEnabled(s, a) && !a.InboxRetention?
    ensures var s' := ApplyWorld(s, a);
      s'.inbox == s.inbox && s'.inserted == s.inserted && s'.imported == s.imported
  {
  }

  lemma PullKeepsInbox(s: System, p: nat, a: PullAction)
    requires PullEnabled(s, p, a)
    ensures var s' := ApplyPull(s, p, a);
      s'.inbox == s.inbox && s'.inserted == s.inserted && s'.imported == s.imported
  {
    hide IsCandidateList, EventsOf, ValidOwner, DoGrant;
    match a
    case Select(owner, lease, limit, ids) =>
    case GrantNext => GrantKeepsInbox(s, p);
    case PullReply(b) =>
    case LosePull =>
  }

  lemma {:induction false} GrantKeepsInbox(s: System, p: nat)
    requires p in s.pulls && s.pulls[p].candidates != []
    ensures var s' := DoGrant(s, p);
      s'.inbox == s.inbox && s'.inserted == s.inserted && s'.imported == s.imported
  {
    hide CanLease, Lease;
    if CanLease(s.table, s.pulls[p].candidates[0].eventId, s.now) {
    } else {
    }
  }

  lemma {:induction false} AckKeepsInbox(s: System, k: nat)
    requires k in s.acks && s.acks[k].next < |s.acks[k].ids|
    ensures var s' := DoAck(s, k);
      s'.inbox == s.inbox && s'.inserted == s.inserted && s'.imported == s.imported
  {
    hide CanAck, Ack, IsAcked;
    var request := s.acks[k];
    if CanAck(s.table, request.ids[request.next], request.owner) {
    } else if IsAcked(s.table, request.ids[request.next]) {
    } else {
    }
  }

  lemma ReconcileGrows(s: System, a: ReconcileAction, id: string)
    requires ReconcileEnabled(s, a)
    ensures Grown(s, ApplyReconcile(s, a), id)
  {
    hide DoImport, DoAck;
    match a
    case Import(b) => ImportGrows(s, b, id);
    case SendAck(b, k) =>
    case AckNext(k) => AckKeepsInbox(s, k);
    case LoseBatch(b) =>
    case LoseAck(k) =>
  }

  lemma RelayKeeps(h: Hub, a: Action)
    requires HubInv(h) && StepEnabled(h, Relaying(a))
    ensures HubInv(Do(h, Relaying(a)))
  {
    hide Enabled, Apply, Grown, Refill, SameRows, GoodRows, Conserved, Bounded, Inserted;
    forall id ensures Grown(h.relay, Apply(h.relay, a), id) { RelayGrows(h.relay, a, id); }
    RefillKeeps(h.relay, Apply(h.relay, a), h.rows, h.now);
    RefillCounts(h.relay, Apply(h.relay, a), h.rows, h.now, h.settled, h.results);
  }

  lemma RefillKeeps(s: System, s': System, rows: Rows, now: nat)
    requires SameRows(rows, s.inbox) && GoodRows(rows, now) && Inserted(s)
    requires forall id :: Grown(s, s', id)
    ensures SameRows(Refill(rows, s'.inbox, now), s'.inbox) && GoodRows(Refill(rows, s'.inbox, now), now)
    ensures Inserted(s')
  {
    hide GoodRow;
    var r := Refill(rows, s'.inbox, now);
    forall id | id in r ensures r[id].event == s'.inbox[id] && GoodRow(r[id], now) {
      assert Grown(s, s', id);
      FreshIsGood(s'.inbox[id], now);
    }
    forall id | id in s'.imported || id in s'.inbox ensures s'.inserted[id] > 0 {
      assert Grown(s, s', id);
    }
  }

  // One id of a refilled table.
  lemma RefillOne(s: System, s': System, rows: Rows, now: nat, id: string)
    requires SameRows(rows, s.inbox) && Grown(s, s', id)
    ensures One(IsPending(Refill(rows, s'.inbox, now), id))
            == One(IsPending(rows, id)) + One(id in s'.inbox && id !in s.inbox)
    ensures PendingAttempts(Refill(rows, s'.inbox, now), id) == PendingAttempts(rows, id)
  {
  }

  lemma RefillCounts(s: System, s': System, rows: Rows, now: nat, settled: multiset<string>, results: multiset<string>)
    requires SameRows(rows, s.inbox) && Conserved(s.inserted, settled, rows) && Bounded(results, settled, rows)
    requires forall id :: Grown(s, s', id)
    ensures Conserved(s'.inserted, settled, Refill(rows, s'.inbox, now))
    ensures Bounded(results, settled, Refill(rows, s'.inbox, now))
  {
    hide Refill, SameRows, PendingAttempts;
    forall id ensures s'.inserted[id] == settled[id] + One(IsPending(Refill(rows, s'.inbox, now), id))
              ensures results[id] <= MAX_ATTEMPTS * settled[id] + PendingAttempts(Refill(rows, s'.inbox, now), id) {
      assert Grown(s, s', id);
      RefillOne(s, s', rows, now, id);
    }
  }

  // A relay step leaves every row as it is; a new row is due at once and untried.
  lemma {:induction false} NewRowIs(h: Hub, a: Action, id: string)
    requires HubInv(h) && StepEnabled(h, Relaying(a))
    ensures var h' := Do(h, Relaying(a));
      && (id in h.rows ==> id in h'.rows && h'.rows[id] == h.rows[id])
      && (id in h'.rows && id !in h.rows ==> h'.rows[id] == Work(h'.relay.inbox[id], 0, h.now, h.now, None, None))
  {
    hide Enabled, Apply, GoodRows, Conserved, Bounded, Inserted;
    RelayGrows(h.relay, a, id);
  }

  lemma FreshIsGood(event: EdgeEvent, now: nat)
    ensures GoodRow(Fresh(event, now), now) && Unsettled(Fresh(event, now))
  {
  }

  // ---- Consumer steps -----------------------------------------------------

  // One row changes, from pending to `w`.
  lemma RowChanges(h: Hub, id: string, w: Work, settles: bool)
    requires HubInv(h) && IsPending(h.rows, id) && w.event == h.rows[id].event && GoodRow(w, h.now)
    requires settles <==> !Unsettled(w)
    requires !settles ==> w.attempts == h.rows[id].attempts + 1
    ensures var settled := if settles then h.settled + multiset{id} else h.settled;
      HubInv(h.(rows := h.rows[id := w], settled := settled, results := h.results + multiset{id}))
  {
    hide GoodRow, Conserved, Bounded, Inserted;
    assert GoodRow(h.rows[id], h.now);
    CountsChange(h.rows, id, w, h.now, settles, h.relay.inserted, h.settled, h.results);
    assert h.rows[id := w].Keys == h.rows.Keys;
  }

  lemma CountsChange(rows: Rows, id: string, w: Work, now: nat, settles: bool,
                     inserted: multiset<string>, settled: multiset<string>, results: multiset<string>)
    requires Conserved(inserted, settled, rows) && Bounded(results, settled, rows)
    requires IsPending(rows, id) && GoodRow(rows[id], now)
    requires settles <==> !Unsettled(w)
    requires !settles ==> w.attempts == rows[id].attempts + 1
    ensures var after := if settles then settled + multiset{id} else settled;
      Conserved(inserted, after, rows[id := w]) && Bounded(results + multiset{id}, after, rows[id := w])
  {
    PendingAttemptsBelow(rows[id], now);
    hide GoodRow;
    var after := if settles then settled + multiset{id} else settled;
    forall o ensures inserted[o] == after[o] + One(IsPending(rows[id := w], o))
             ensures (results + multiset{id})[o] <= MAX_ATTEMPTS * after[o] + PendingAttempts(rows[id := w], o) {
      assert inserted[o] == settled[o] + One(IsPending(rows, o));
      assert results[o] <= MAX_ATTEMPTS * settled[o] + PendingAttempts(rows, o);
    }
  }

  lemma PendingAttemptsBelow(w: Work, now: nat)
    requires GoodRow(w, now) && Unsettled(w)
    ensures w.attempts < MAX_ATTEMPTS
  {
  }

  lemma FinishKeeps(h: Hub, hand: nat)
    requires HubInv(h) && hand in h.hands
    ensures HubInv(DoFinish(h, hand))
  {
    hide SameRows, Conserved, Bounded, Inserted;
    var id := h.hands[hand];
    if CanComplete(h.rows, id) {
      assert GoodRow(h.rows[id], h.now);
      RowChanges(h, id, h.rows[id].(processedAt := Some(h.now)), true);
    }
  }

  lemma GiveBackKeeps(h: Hub, hand: nat, maxAttempts: nat, delay: nat)
    requires HubInv(h) && hand in h.hands && 0 < maxAttempts <= MAX_ATTEMPTS
    ensures HubInv(DoGiveBack(h, hand, maxAttempts, delay))
  {
    hide SameRows, Conserved, Bounded, Inserted;
    var id := h.hands[hand];
    if IsPending(h.rows, id) {
      assert GoodRow(h.rows[id], h.now);
      RowChanges(h, id, Fail(h.rows, id, maxAttempts, delay, h.now)[id], h.rows[id].attempts + 1 >= maxAttempts);
    }
  }

  lemma DeleteKeeps(h: Hub, removed: set<string>, days: nat)
    requires HubInv(h) && StepEnabled(h, Delete(removed, days))
    ensures HubInv(Do(h, Delete(removed, days)))
  {
    var rows := h.rows - removed;
    forall id ensures IsPending(rows, id) <==> IsPending(h.rows, id)
              ensures PendingAttempts(rows, id) == PendingAttempts(h.rows, id) {
    }
  }

  lemma WaitKeeps(h: Hub, seconds: nat)
    requires HubInv(h)
    ensures HubInv(h.(now := h.now + seconds))
  {
  }

  lemma {:induction false} StepKeeps(h: Hub, step: Step)
    requires HubInv(h) && StepEnabled(h, step)
    ensures HubInv(Do(h, step))
  {
    hide SameRows, GoodRows, Conserved, Bounded, Inserted, Ready, Old, Enabled;
    match step
    case Relaying(a) => RelayKeeps(h, a);
    case Wait(seconds) => WaitKeeps(h, seconds);
    case HandOut(hand, id) =>
    case Finish(hand) => FinishKeeps(h, hand);
    case GiveBack(hand, maxAttempts, delay) => GiveBackKeeps(h, hand, maxAttempts, delay);
    case Drop(hand) =>
    case Delete(removed, days) => DeleteKeeps(h, removed, days);
  }

  lemma {:induction false} HubInvariant(run: seq<Step>)
    requires Legal(run)
    ensures HubInv(Reached(run))
  {
    hide HubInv, Do, StepEnabled;
    if run == [] {
      EmptyIsGood();
    } else {
      HubInvariant(run[..|run| - 1]);
      StepKeeps(Reached(run[..|run| - 1]), run[|run| - 1]);
    }
  }

  lemma EmptyIsGood()
    ensures HubInv(EMPTY)
  {
  }

  // ---- Nothing is lost on the way ------------------------------------------

  // Every insertion of an event into the table was settled exactly once, or its
  // row is pending; so no row is deleted unsettled.
  lemma {:induction false} SettledOnce(run: seq<Step>, id: string)
    requires Legal(run)
    ensures var h := Reached(run); h.relay.inserted[id] == h.settled[id] + One(IsPending(h.rows, id))
    ensures Reached(run).rows.Keys == Reached(run).relay.inbox.Keys
  {
    HubInvariant(run);
  }

  // From the webhook to its settlement: an event it delivered is held at the edge
  // unacknowledged, is pending in the inbox, or has been settled.
  lemma {:induction false} NothingSkipped(run: seq<Step>, id: string)
    requires Legal(run)
    ensures Possible(Underlying(run)) && After(Underlying(run)) == Reached(run).relay
    ensures var h := Reached(run);
      RelayTheorems.Delivered(Underlying(run), id) ==>
        || (id in h.relay.table && !IsAcked(h.relay.table, id))
        || IsPending(h.rows, id)
        || h.settled[id] > 0
  {
    hide After, Possible, Reached, Legal, RelayTheorems.Delivered, RelayTheorems.Committed, SameRows, GoodRows, Bounded;
    RelayUnderneath(run);
    HubInvariant(run);
    RelayTheorems.NoLoss(Underlying(run), id);
    RelayTheorems.HistoryOfIds(Underlying(run), id);
  }

  // Consumers report on an event at most five times for each time it was
  // inserted, however many of them work at once.
  lemma {:induction false} ResultsBounded(run: seq<Step>, id: string)
    requires Legal(run)
    ensures Reached(run).results[id] <= MAX_ATTEMPTS * Reached(run).relay.inserted[id]
    ensures IsPending(Reached(run).rows, id) ==> Reached(run).rows[id].attempts < MAX_ATTEMPTS
  {
    hide Legal, Reached;
    HubInvariant(run);
    var h := Reached(run);
    assert h.results[id] <= MAX_ATTEMPTS * h.settled[id] + PendingAttempts(h.rows, id);
    if IsPending(h.rows, id) { assert GoodRow(h.rows[id], h.now); }
  }

  // ---- Order --------------------------------------------------------------

  lemma {:induction false} LegalPrefix(run: seq<Step>, n: nat)
    requires Legal(run) && n <= |run|
    ensures Legal(run[..n])
  {
    if n < |run| {
      LegalPrefix(run[..|run| - 1], n);
      assert run[..|run| - 1][..n] == run[..n];
    } else {
      assert run[..n] == run;
    }
  }

  ghost function At(run: seq<Step>, n: nat): Hub
    requires Legal(run) && n <= |run|
  {
    LegalPrefix(run, n);
    Reached(run[..n])
  }

  lemma {:induction false} AtStep(run: seq<Step>, n: nat)
    requires Legal(run) && n < |run|
    ensures StepEnabled(At(run, n), run[n]) && At(run, n + 1) == Do(At(run, n), run[n])
  {
    hide StepEnabled, Do;
    LegalPrefix(run, n + 1);
    LegalPrefix(run, n);
    assert run[..n + 1][..n] == run[..n];
  }

  lemma {:induction false} AtInv(run: seq<Step>, n: nat)
    requires Legal(run) && n <= |run|
    ensures HubInv(At(run, n))
  {
    hide HubInv, Reached, Legal;
    LegalPrefix(run, n);
    HubInvariant(run[..n]);
  }

  // One step: counts only grow, and a row is there after it only if it was there
  // before with the same event, or the id was inserted.
  lemma StepCounts(h: Hub, step: Step, id: string)
    requires HubInv(h) && StepEnabled(h, step)
    ensures var h' := Do(h, step);
      && h.relay.inserted[id] <= h'.relay.inserted[id] && h.settled[id] <= h'.settled[id]
      && (id in h'.rows && h'.relay.inserted[id] == h.relay.inserted[id] ==>
            id in h.rows && h.rows[id].event == h'.rows[id].event)
  {
    hide Conserved, Bounded, Inserted, GoodRows, Ready, Old, Enabled, Apply;
    match step
    case Relaying(a) => RelayGrows(h.relay, a, id);
    case Wait(seconds) =>
    case HandOut(hand, other) =>
    case Finish(hand) =>
    case GiveBack(hand, maxAttempts, delay) =>
    case Drop(hand) =>
    case Delete(removed, days) =>
  }

  lemma {:induction false} RunCounts(run: seq<Step>, i: nat, j: nat, id: string)
    requires Legal(run) && i <= j <= |run|
    ensures var h, h' := At(run, i), At(run, j);
      && h.relay.inserted[id] <= h'.relay.inserted[id] && h.settled[id] <= h'.settled[id]
      && (id in h'.rows && h'.relay.inserted[id] == h.relay.inserted[id] ==>
            id in h.rows && h.rows[id].event == h'.rows[id].event)
    decreases j
  {
    hide Legal, At, HubInv, StepEnabled, Do;
    if i < j {
      RunCounts(run, i, j - 1, id);
      AtStep(run, j - 1);
      AtInv(run, j - 1);
      StepCounts(At(run, j - 1), run[j - 1], id);
    }
  }

  // If an event is handed out after a later one of its chat, it was imported
  // only after the later one was handed out.
  lemma {:induction false} HandedOutInOrder(run: seq<Step>, i: nat, j: nat)
    requires Legal(run) && i < j < |run| && run[i].HandOut? && run[j].HandOut?
    ensures run[i].id in At(run, i).rows && run[j].id in At(run, j).rows
    ensures var later, earlier := At(run, i).rows[run[i].id].event, At(run, j).rows[run[j].id].event;
      SameAggregate(later, earlier) && earlier.sequence < later.sequence ==>
        At(run, i).relay.inserted[run[j].id] < At(run, j).relay.inserted[run[j].id]
  {
    hide Legal, At, Bounded, Inserted, GoodRows, SameRows;
    AtStep(run, i);
    AtStep(run, j);
    AtInv(run, i);
    AtInv(run, j);
    RunCounts(run, i, j, run[j].id);
    var h, h', id := At(run, i), At(run, j), run[j].id;
    assert h.relay.inserted[id] == h.settled[id] + One(IsPending(h.rows, id));
    assert h'.relay.inserted[id] == h'.settled[id] + One(IsPending(h'.rows, id));
  }

  // ---- Head of line -------------------------------------------------------

  // The first pending event of an aggregate can be handed out exactly when it is
  // due, and until it is settled nothing after it can.
  lemma {:induction false} HeadOfLine(rows: Rows, id: string, now: nat) returns (head: string)
    requires IsPending(rows, id)
    ensures IsPending(rows, head) && SameAggregate(rows[head].event, rows[id].event)
    ensures Ready(rows, head, now) <==> rows[head].availableAt <= now
    ensures forall o :: IsPending(rows, o) && SameAggregate(rows[o].event, rows[head].event) ==>
      && rows[head].event.sequence <= rows[o].event.sequence
      && (Ready(rows, o, now) ==> rows[o].event.sequence == rows[head].event.sequence)
  {
    var line := set o | o in rows && Unsettled(rows[o]) && SameAggregate(rows[o].event, rows[id].event);
    assert id in line;
    head := Smallest(rows, line);
  }

  lemma {:induction false} Smallest(rows: Rows, ids: set<string>) returns (least: string)
    requires ids != {} && ids <= rows.Keys
    ensures least in ids && forall o :: o in ids ==> rows[least].event.sequence <= rows[o].event.sequence
    decreases |ids|
  {
    least :| least in ids;
    var rest := ids - {least};
    if rest != {} {
      var other := Smallest(rows, rest);
      if rows[other].event.sequence < rows[least].event.sequence { least := other; }
    }
  }

  // ---- Every event can still be settled -----------------------------------

  lemma {:induction false} ExtendRun(run: seq<Step>, step: Step)
    requires Legal(run) && StepEnabled(Reached(run), step)
    ensures Legal(run + [step]) && Reached(run + [step]) == Do(Reached(run), step)
  {
    assert (run + [step])[..|run|] == run;
  }

  // The first pending event of an aggregate is waited for, handed out and completed.
  lemma {:induction false} HeadCanSettle(run: seq<Step>, id: string) returns (longer: seq<Step>)
    requires Legal(run) && IsPending(Reached(run).rows, id)
    requires var rows := Reached(run).rows;
      forall o :: IsPending(rows, o) && SameAggregate(rows[o].event, rows[id].event) ==>
        rows[id].event.sequence <= rows[o].event.sequence
    ensures Legal(longer) && run <= longer
    ensures var h, h' := Reached(run), Reached(longer);
      && h'.relay == h.relay && h'.rows.Keys == h.rows.Keys && h'.settled == h.settled + multiset{id}
      && (forall o :: o in h.rows && o != id ==> h'.rows[o] == h.rows[o])
      && h'.rows[id].event == h.rows[id].event && h'.rows[id].processedAt.Some?
  {
    hide Legal, Reached;
    var h, wait := Reached(run), Wait(Reached(run).rows[id].availableAt);
    ExtendRun(run, wait);
    var one := run + [wait];
    var hand := RelayProgress.FreshNumber(h.hands.Keys);
    ExtendRun(one, HandOut(hand, id));
    var two := one + [HandOut(hand, id)];
    ExtendRun(two, Finish(hand));
    longer := two + [Finish(hand)];
  }

  ghost function Waiting(rows: Rows): set<string> {
    set id | id in rows && Unsettled(rows[id])
  }

  // Whatever happened before, a run goes on to where every row has been processed.
  lemma {:induction false} AllCanSettle(run: seq<Step>) returns (longer: seq<Step>)
    requires Legal(run)
    ensures Legal(longer) && run <= longer && Reached(longer).relay == Reached(run).relay
    ensures Reached(longer).rows.Keys == Reached(run).rows.Keys
    ensures forall id :: id in Reached(longer).rows ==> !Unsettled(Reached(longer).rows[id])
    decreases |Waiting(Reached(run).rows)|
  {
    hide Legal, Reached;
    var rows := Reached(run).rows;
    var waiting := Waiting(rows);
    if waiting == {} {
      longer := run;
      forall id | id in rows ensures !Unsettled(rows[id]) { assert id !in waiting; }
    } else {
      var some :| some in waiting;
      var head := HeadOfLine(rows, some, 0);
      var next := HeadCanSettle(run, head);
      assert Waiting(Reached(next).rows) == waiting - {head};
      longer := AllCanSettle(next);
    }
  }

  // ---- The consumer's cycle -----------------------------------------------

  // What the cycle does to the table once an event is handed out is one step.
  lemma {:induction false} CycleIsStep(h: Hub, id: string, hand: nat, verdict: Verdict, feedbackFails: bool)
    returns (step: Step)
    requires IsPending(h.rows, id) && hand in h.hands && h.hands[hand] == id
    ensures StepEnabled(h, step) && Do(h, step).hands == h.hands - {hand}
    ensures Do(h, step).rows == Settled(h.rows, id, verdict, feedbackFails, h.now)
  {
    hide RetryDelay;
    var attempt := h.rows[id].attempts + 1;
    DelayPositive(attempt, 5, 60);
    DelayPositive(attempt, 5, 300);
    if verdict.Unreadable? || verdict.Broke? {
      step := GiveBack(hand, 3, RetryDelay(attempt, 5, 60));
    } else if feedbackFails {
      step := Drop(hand);
    } else if verdict.Passed? {
      step := Finish(hand);
    } else {
      step := GiveBack(hand, 5, RetryDelay(attempt, 5, 300));
    }
  }
}
