// The relay as a transition system: webhooks, any number of concurrent pull
// requests, reconciler batches and acknowledgement requests, with a message or
// a process lost between any two statements. Every action is one atomic
// statement of EdgeTable or one transaction of EdgeInbox.
module RelayProtocol {
  import opened Prelude
  import opened EdgeEvents
  import opened EdgeTable
  import opened EdgeInbox

  // A pull request inside the edge worker, after its candidate SELECT.
  datatype Pull = Pull(owner: string, lease: nat, candidates: seq<EdgeEvent>, granted: seq<EdgeEvent>)

  // A batch that reached a reconciler.
  datatype Batch = Batch(owner: string, events: seq<EdgeEvent>, imported: bool)

  // An acknowledgement request inside the edge worker.
  datatype AckRequest = AckRequest(owner: string, ids: seq<string>, next: nat, count: nat)

  // One successful leasing UPDATE.
  datatype Grant = Grant(id: string, from: nat, until: nat)

  // The fields after `acks` are history: the running system never reads them.
  datatype System = System(
    now: nat,
    table: Table,
    inbox: Inbox,
    pulls: map<nat, Pull>,
    batches: map<nat, Batch>,
    acks: map<nat, AckRequest>,
    versions: map<string, EdgeEvent>,  // the version last stored under each id at the edge
    imported: set<string>,             // ids of every committed batch
    acked: set<string>,                // ids ever acknowledged
    grants: seq<Grant>,
    retired: map<string, nat>,         // attempts of rows deleted by retention
    inserted: multiset<string>,        // inbox insertions
    purged: multiset<string>)          // inbox deletions

  const INITIAL := System(0, map[], map[], map[], map[], map[], map[], {}, {}, [], map[],
                          multiset{}, multiset{})

  datatype Action =
    | World(event: WorldAction)
    | Pulling(pull: nat, step: PullAction)
    | Reconciling(work: ReconcileAction)

  // Clock, webhooks and the two retention jobs.
  datatype WorldAction =
    | Tick(seconds: nat)
    | Persist(event: EdgeEvent)
    | EdgeRetention(removed: set<string>)
    | InboxRetention(removed: set<string>)

  // The statements of one pull request, and its loss at any point.
  datatype PullAction =
    | Select(owner: string, lease: nat, limit: nat, ids: seq<string>)
    | GrantNext
    | PullReply(batch: nat)
    | LosePull

  // The work on one batch and on one acknowledgement request.
  datatype ReconcileAction =
    | Import(batch: nat)
    | SendAck(batch: nat, ack: nat)
    | AckNext(ack: nat)
    | LoseBatch(batch: nat)
    | LoseAck(ack: nat)

  function IdsOf(events: seq<EdgeEvent>): (ids: seq<string>)
    ensures |ids| == |events|
    ensures forall i :: 0 <= i < |events| ==> ids[i] == events[i].eventId
  {
    if events == [] then [] else IdsOf(events[..|events| - 1]) + [events[|events| - 1].eventId]
  }

  function RetiredAttempts(retired: map<string, nat>, id: string): nat {
    if id in retired then retired[id] else 0
  }

  ghost predicate Enabled(s: System, a: Action) {
    match a
    case World(event) => WorldEnabled(s, event)
    case Pulling(p, step) => PullEnabled(s, p, step)
    case Reconciling(work) => ReconcileEnabled(s, work)
  }

  ghost function Apply(s: System, a: Action): System
    requires Enabled(s, a)
  {
    match a
    case World(event) => ApplyWorld(s, event)
    case Pulling(p, step) => ApplyPull(s, p, step)
    case Reconciling(work) => ApplyReconcile(s, work)
  }

  ghost predicate WorldEnabled(s: System, a: WorldAction) {
    match a
    case Tick(_) => true
    case Persist(event) => Valid(event)
    case EdgeRetention(removed) => Removable(s.table, removed, s.now)
    case InboxRetention(removed) => removed <= s.inbox.Keys
  }

  ghost function ApplyWorld(s: System, a: WorldAction): System
    requires WorldEnabled(s, a)
  {
    match a
    case Tick(seconds) => s.(now := s.now + seconds)
    case Persist(event) => DoPersist(s, event)
    case EdgeRetention(removed) => DoEdgeRetention(s, removed)
    case InboxRetention(removed) => DoInboxRetention(s, removed)
  }

  ghost predicate PullEnabled(s: System, p: nat, a: PullAction) {
    match a
    case Select(owner, lease, limit, ids) =>
      && p !in s.pulls && ValidOwner(owner)
      && 1 <= lease <= MAX_LEASE_SECONDS && 1 <= limit <= MAX_PULL_BATCH
      && IsCandidateList(s.table, limit, s.now, ids)
    case GrantNext => p in s.pulls && s.pulls[p].candidates != []
    case PullReply(b) => p in s.pulls && s.pulls[p].candidates == [] && b !in s.batches
    case LosePull => p in s.pulls
  }

  ghost function ApplyPull(s: System, p: nat, a: PullAction): System
    requires PullEnabled(s, p, a)
  {
    match a
    case Select(owner, lease, limit, ids) => DoSelect(s, p, owner, lease, ids)
    case GrantNext => DoGrant(s, p)
    case PullReply(b) => DoReply(s, p, b)
    case LosePull => s.(pulls := s.pulls - {p})
  }

  ghost predicate ReconcileEnabled(s: System, a: ReconcileAction) {
    match a
    case Import(b) => b in s.batches && !s.batches[b].imported
    case SendAck(b, k) =>
      b in s.batches && s.batches[b].imported && s.batches[b].events != [] && k !in s.acks
    case AckNext(k) => k in s.acks && s.acks[k].next < |s.acks[k].ids|
    case LoseBatch(b) => b in s.batches
    case LoseAck(k) => k in s.acks
  }

  ghost function ApplyReconcile(s: System, a: ReconcileAction): System
    requires ReconcileEnabled(s, a)
  {
    match a
    case Import(b) => DoImport(s, b)
    case SendAck(b, k) => DoSendAck(s, b, k)
    case AckNext(k) => DoAck(s, k)
    case LoseBatch(b) => s.(batches := s.batches - {b})
    case LoseAck(k) => s.(acks := s.acks - {k})
  }

  function DoPersist(s: System, event: EdgeEvent): System {
    s.(table := InsertOrIgnore(s.table, event, s.now),
       versions := if event.eventId in s.table then s.versions else s.versions[event.eventId := event])
  }

  ghost function DoEdgeRetention(s: System, removed: set<string>): System
    requires Removable(s.table, removed, s.now)
  {
    s.(table := s.table - removed,
       retired := map id | id in s.retired.Keys + removed ::
                    RetiredAttempts(s.retired, id) + (if id in removed then s.table[id].attempts else 0))
  }

  function DoInboxRetention(s: System, removed: set<string>): System {
    s.(inbox := s.inbox - removed, purged := s.purged + multiset(removed))
  }

  ghost function DoSelect(s: System, p: nat, owner: string, lease: nat, ids: seq<string>): System
    requires forall i :: 0 <= i < |ids| ==> ids[i] in s.table
  {
    s.(pulls := s.pulls[p := Pull(owner, lease, EventsOf(s.table, ids), [])])
  }

  // The conditional UPDATE for the next candidate; the event returned to the
  // caller is the one read by the earlier SELECT.
  function DoGrant(s: System, p: nat): System
    requires p in s.pulls && s.pulls[p].candidates != []
  {
    var pull := s.pulls[p];
    var event := pull.candidates[0];
    var rest := pull.(candidates := pull.candidates[1..]);
    if CanLease(s.table, event.eventId, s.now) then
      s.(table := Lease(s.table, event.eventId, pull.owner, pull.lease, s.now),
         pulls := s.pulls[p := rest.(granted := pull.granted + [event])],
         grants := s.grants + [Grant(event.eventId, s.now, s.now + pull.lease)])
    else
      s.(pulls := s.pulls[p := rest])
  }

  function DoReply(s: System, p: nat, b: nat): System
    requires p in s.pulls
  {
    s.(pulls := s.pulls - {p},
       batches := s.batches[b := Batch(s.pulls[p].owner, s.pulls[p].granted, false)])
  }

  // A conflicting batch is rolled back and ends its reconciler's run.
  function DoImport(s: System, b: nat): System
    requires b in s.batches
  {
    var batch := s.batches[b];
    match ImportBatch(s.inbox, batch.events)
    case None => s.(batches := s.batches - {b})
    case Some((rows, inserted)) =>
      s.(inbox := rows,
         batches := s.batches[b := batch.(imported := true)],
         imported := s.imported + (set id | id in IdsOf(batch.events)),
         inserted := s.inserted + multiset(inserted))
  }

  function DoSendAck(s: System, b: nat, k: nat): System
    requires b in s.batches
  {
    s.(acks := s.acks[k := AckRequest(s.batches[b].owner, IdsOf(s.batches[b].events), 0, 0)])
  }

  // Settles one id: the conditional UPDATE, or the look-up of a row that an
  // earlier request already acknowledged.
  function DoAck(s: System, k: nat): System
    requires k in s.acks && s.acks[k].next < |s.acks[k].ids|
  {
    var request := s.acks[k];
    var id := request.ids[request.next];
    var step := request.(next := request.next + 1);
    if CanAck(s.table, id, request.owner) then
      s.(table := Ack(s.table, id, request.owner, s.now), acked := s.acked + {id},
         acks := s.acks[k := step.(count := request.count + 1)])
    else if IsAcked(s.table, id) then
      s.(acks := s.acks[k := step.(count := request.count + 1)])
    else
      s.(acks := s.acks[k := step])
  }

  // ---- Runs ---------------------------------------------------------------

  ghost predicate Possible(run: seq<Action>)
    decreases |run|, 0
  {
    run == [] || (Possible(run[..|run| - 1]) && Enabled(After(run[..|run| - 1]), run[|run| - 1]))
  }

  ghost function After(run: seq<Action>): System
    requires Possible(run)
    decreases |run|, 1
  {
    if run == [] then INITIAL else Apply(After(run[..|run| - 1]), run[|run| - 1])
  }
}
