// Where agreement ends: once retention has deleted an acknowledged edge row, a
// repeated webhook is stored as a new version with a new arrival time. The edge
// ignores arrival times when it compares versions, the importer does not, so
// the new version is rejected while the inbox still holds the old one.
module RelayConflict {
  import opened Prelude
  import Json
  import opened EdgeEvents
  import opened EdgeTable
  import opened EdgeInbox
  import opened RelayProtocol
  import opened RelayTheorems

  const ID := "telegram:1"

  // The body of a webhook for update 1.
  const BODY := Json.Object([Json.Member("update_id", Json.Number(1))])

  function Delivery(occurredAt: string): EdgeEvent {
    EdgeEvent(EDGE_EVENT_SCHEMA_VERSION, ID, "telegram.update", "telegram-update:1", 1, occurredAt, BODY)
  }

  // It is the event the webhook makes of the body.
  lemma DeliveryIsEvent(occurredAt: string)
    requires occurredAt != ""
    ensures TelegramEdgeEvent(BODY, occurredAt) == Ok(Delivery(occurredAt))
  {
    TelegramEventAccepted(BODY, occurredAt);
    assert "telegram:" + "1" == ID && "telegram-update:" + "1" == "telegram-update:1";
  }

  lemma SelectOne(s: System, event: EdgeEvent)
    requires s.pulls == map[] && s.table == map[event.eventId := FreshRow(event, s.now)]
    ensures PullEnabled(s, 0, Select("o", 60, 100, [event.eventId]))
    ensures DoSelect(s, 0, "o", 60, [event.eventId]) == s.(pulls := map[0 := Pull("o", 60, [event], [])])
  {
    assert EventsOf(s.table, [event.eventId]) == [event];
  }

  lemma GrantOne(s: System, event: EdgeEvent)
    requires s.pulls == map[0 := Pull("o", 60, [event], [])] && CanLease(s.table, event.eventId, s.now)
    ensures DoGrant(s, 0) == s.(table := Lease(s.table, event.eventId, "o", 60, s.now),
                                pulls := map[0 := Pull("o", 60, [], [event])],
                                grants := s.grants + [Grant(event.eventId, s.now, s.now + 60)])
  {
    assert [event][1..] == [] && [] + [event] == [event];
    assert s.pulls[0 := Pull("o", 60, [], [event])] == map[0 := Pull("o", 60, [], [event])];
  }

  // A fresh row can be selected, leased and sent to a reconciler as a new batch.
  lemma SelectedRun(run: seq<Action>, event: EdgeEvent) returns (longer: seq<Action>)
    requires Possible(run) && After(run).pulls == map[]
    requires After(run).table == map[event.eventId := FreshRow(event, After(run).now)]
    ensures Possible(longer) && run <= longer
    ensures After(longer) == After(run).(pulls := map[0 := Pull("o", 60, [event], [])])
  {
    hide After, Possible, DoSelect, IsCandidateList, FreshRow;
    var select := Pulling(0, Select("o", 60, 100, [event.eventId]));
    SelectOne(After(run), event);
    Extend(run, select);
    longer := run + [select];
  }

  lemma GrantedRun(run: seq<Action>, event: EdgeEvent) returns (longer: seq<Action>)
    requires Possible(run) && After(run).pulls == map[0 := Pull("o", 60, [event], [])]
    requires CanLease(After(run).table, event.eventId, After(run).now)
    ensures Possible(longer) && run <= longer
    ensures var s := After(run);
      After(longer) == s.(table := Lease(s.table, event.eventId, "o", 60, s.now),
                          pulls := map[0 := Pull("o", 60, [], [event])],
                          grants := s.grants + [Grant(event.eventId, s.now, s.now + 60)])
  {
    hide After, Possible, DoGrant, Lease, CanLease;
    GrantOne(After(run), event);
    Extend(run, Pulling(0, GrantNext));
    longer := run + [Pulling(0, GrantNext)];
  }

  lemma RepliedRun(run: seq<Action>, event: EdgeEvent, b: nat) returns (longer: seq<Action>)
    requires Possible(run) && b !in After(run).batches
    requires After(run).pulls == map[0 := Pull("o", 60, [], [event])]
    ensures Possible(longer) && run <= longer
    ensures var s := After(run);
      After(longer) == s.(pulls := map[], batches := s.batches[b := Batch("o", [event], false)])
  {
    hide After, Possible;
    Extend(run, Pulling(0, PullReply(b)));
    longer := run + [Pulling(0, PullReply(b))];
    assert After(run).pulls - {0} == map[];
  }

  lemma PullRun(run: seq<Action>, event: EdgeEvent, b: nat) returns (longer: seq<Action>)
    requires Possible(run) && After(run).pulls == map[] && b !in After(run).batches
    requires After(run).table == map[event.eventId := FreshRow(event, After(run).now)]
    ensures Possible(longer) && run <= longer
    ensures var s := After(run);
      After(longer) == s.(table := Lease(s.table, event.eventId, "o", 60, s.now),
                          batches := s.batches[b := Batch("o", [event], false)],
                          grants := s.grants + [Grant(event.eventId, s.now, s.now + 60)])
  {
    hide After, Possible, Lease;
    assert CanLease(After(run).table, event.eventId, After(run).now);
    longer := SelectedRun(run, event);
    longer := GrantedRun(longer, event);
    longer := RepliedRun(longer, event, b);
  }

  lemma FirstImport(event: EdgeEvent)
    requires Valid(event)
    ensures ImportBatch(map[], [event]) == Some((map[event.eventId := event], [event.eventId]))
  {
    hide Valid;
    var events := [event];
    assert events[..|events| - 1] == [];
    assert ImportBatch(map[], events[..|events| - 1]) == Some((map[], []));
    assert [] + [event.eventId] == [event.eventId];
  }

  lemma StoredRun(event: EdgeEvent) returns (run: seq<Action>)
    requires Valid(event)
    ensures Possible(run) && run == [World(Persist(event))] && After(run) == DoPersist(INITIAL, event)
  {
    hide DoPersist, Valid;
    assert Possible([]);
    Extend([], World(Persist(event)));
    run := [] + [World(Persist(event))];
  }

  // The first delivery is stored, pulled and imported.
  lemma ImportedRun(event: EdgeEvent) returns (run: seq<Action>)
    requires Valid(event)
    ensures Possible(run) && [World(Persist(event))] <= run
    ensures var s, id := After(run), event.eventId;
      && s.now == 0 && s.pulls == map[] && s.acks == map[] && s.inbox == map[id := event]
      && s.batches == map[0 := Batch("o", [event], true)]
      && s.table == Lease(map[id := FreshRow(event, 0)], id, "o", 60, 0)
  {
    hide After, Possible, Valid, Lease, ImportBatch;
    run := StoredRun(event);
    run := PullRun(run, event, 0);
    var s := After(run);
    FirstImport(event);
    Extend(run, Reconciling(Import(0)));
    run := run + [Reconciling(Import(0))];
  }

  lemma SentRun(run: seq<Action>, event: EdgeEvent) returns (longer: seq<Action>)
    requires Possible(run) && After(run).acks == map[]
    requires After(run).batches == map[0 := Batch("o", [event], true)]
    ensures Possible(longer) && run <= longer
    ensures After(longer) == After(run).(acks := map[0 := AckRequest("o", [event.eventId], 0, 0)])
  {
    hide After, Possible;
    Extend(run, Reconciling(SendAck(0, 0)));
    longer := run + [Reconciling(SendAck(0, 0))];
    assert IdsOf([event]) == [event.eventId];
  }

  lemma AckedRun(run: seq<Action>, id: string) returns (longer: seq<Action>)
    requires Possible(run) && After(run).acks == map[0 := AckRequest("o", [id], 0, 0)]
    requires CanAck(After(run).table, id, "o")
    ensures Possible(longer) && run <= longer
    ensures var s, s' := After(run), After(longer);
      && s'.table == Ack(s.table, id, "o", s.now) && s'.now == s.now
      && s'.pulls == s.pulls && s'.inbox == s.inbox && s'.batches == s.batches
  {
    hide After, Possible, Ack, CanAck;
    Extend(run, Reconciling(AckNext(0)));
    longer := run + [Reconciling(AckNext(0))];
    assert After(longer) == DoAck(After(run), 0);
  }

  lemma DeletedRun(run: seq<Action>, id: string, wait: nat) returns (longer: seq<Action>)
    requires Possible(run) && After(run).table.Keys == {id}
    requires var row := After(run).table[id];
      row.state.Acknowledged? && row.acknowledgedAt == Some(After(run).now)
    requires wait > RETENTION_SECONDS
    ensures Possible(longer) && run <= longer
    ensures var s, s' := After(run), After(longer);
      && s'.table == map[] && s'.now == s.now + wait
      && s'.pulls == s.pulls && s'.inbox == s.inbox && s'.batches == s.batches
  {
    hide After, Possible;
    var tick, delete := World(Tick(wait)), World(EdgeRetention({id}));
    Extend(run, tick);
    assert After(run + [tick]) == After(run).(now := After(run).now + wait);
    Extend(run + [tick], delete);
    longer := run + [tick] + [delete];
    assert After(longer) == DoEdgeRetention(After(run + [tick]), {id});
  }

  // Its acknowledgement arrives, and after the retention period its row goes.
  lemma RetiredRun(event: EdgeEvent, wait: nat) returns (run: seq<Action>)
    requires Valid(event) && wait > RETENTION_SECONDS
    ensures Possible(run) && [World(Persist(event))] <= run
    ensures var s := After(run);
      && s.now == wait
      && s.pulls == map[] && s.inbox == map[event.eventId := event]
      && s.batches == map[0 := Batch("o", [event], true)] && s.table == map[]
  {
    hide After, Possible, Valid;
    run := ImportedRun(event);
    run := SentRun(run, event);
    run := AckedRun(run, event.eventId);
    run := DeletedRun(run, event.eventId, wait);
  }

  // The webhook delivers the event at a step of the run and at a time.
  ghost predicate DeliveredAt(run: seq<Action>, k: nat, event: EdgeEvent, now: nat)
    requires Possible(run)
  {
    k < |run| && run[k] == World(Persist(event)) && At(run, k).now == now
  }

  lemma DeliveredLater(run: seq<Action>, longer: seq<Action>, k: nat, event: EdgeEvent, now: nat)
    requires Possible(run) && Possible(longer) && run <= longer && DeliveredAt(run, k, event, now)
    ensures DeliveredAt(longer, k, event, now)
  {
    hide Possible, After;
    assert longer[..k] == run[..k];
  }

  // The repeat is stored as a new row and pulled.
  lemma RepeatedRun(event: EdgeEvent, again: EdgeEvent, wait: nat) returns (run: seq<Action>, k: nat)
    requires Valid(event) && Valid(again) && again.eventId == event.eventId && wait > RETENTION_SECONDS
    ensures Possible(run) && DeliveredAt(run, 0, event, 0) && DeliveredAt(run, k, again, wait)
    ensures var s := After(run);
      s.inbox == map[event.eventId := event] && 1 in s.batches && s.batches[1].events == [again]
  {
    hide After, Possible, Valid, Lease;
    run := RetiredRun(event, wait);
    FirstAt(run, event);
    k := |run|;
    var retired, persist := run, World(Persist(again));
    Extend(run, persist);
    var stored := run + [persist];
    assert stored[..k] == retired;
    assert DeliveredAt(stored, k, again, wait);
    assert After(stored) == DoPersist(After(retired), again);
    run := PullRun(stored, again, 1);
    hide DeliveredAt;
    DeliveredLater(stored, run, k, again, wait);
    DeliveredLater(retired, run, 0, event, 0);
  }

  lemma FirstAt(run: seq<Action>, event: EdgeEvent)
    requires Possible(run) && [World(Persist(event))] <= run
    ensures DeliveredAt(run, 0, event, 0)
  {
    hide Possible;
    assert run[..0] == [];
    assert run[0] == [World(Persist(event))][0];
  }

  lemma OtherRejected(clock: Clock, row: EdgeEvent, event: EdgeEvent)
    requires row.eventId == event.eventId && clock(row.occurredAt) != clock(event.occurredAt)
    ensures ImportTimed(clock, map[row.eventId := row], [event]).None?
    ensures ImportBatch(map[row.eventId := row], [event]).None?
  {
    hide Valid;
    assert [event][..0] == [];
    assert ImportTimed(clock, map[row.eventId := row], [event][..0]).Some?;
    assert ImportBatch(map[row.eventId := row], [event][..0]).Some?;
  }

  // For any two arrival times that denote different instants, and any wait
  // beyond the retention period: the webhook repeats after edge retention, its
  // new row is pulled, and the batch is rejected. The relay stays stuck on it
  // until inbox retention deletes the old row.
  lemma {:induction false} ImportCanBeRejected(clock: Clock, first: string, second: string, wait: nat)
    returns (run: seq<Action>, k: nat)
    requires first != "" && second != "" && wait > RETENTION_SECONDS
    requires clock(first).Some? && clock(second).Some? && clock(first) != clock(second)
    ensures TelegramEdgeEvent(BODY, first) == Ok(Delivery(first))
    ensures TelegramEdgeEvent(BODY, second) == Ok(Delivery(second))
    ensures Possible(run) && !Faithful(run)
    ensures DeliveredAt(run, 0, Delivery(first), 0) && DeliveredAt(run, k, Delivery(second), wait)
    ensures var s := After(run);
      && 1 in s.batches && s.batches[1].events == [Delivery(second)]
      && SameDelivery(Delivery(first), Delivery(second))
      && s.inbox == map[ID := Delivery(first)]
      && ImportTimed(clock, s.inbox, s.batches[1].events).None?
      && ImportBatch(s.inbox, s.batches[1].events).None?
  {
    hide After, Possible, Faithful, At, Valid, DeliveredAt;
    DeliveryIsEvent(first);
    DeliveryIsEvent(second);
    TelegramEventAccepted(BODY, first);
    TelegramEventAccepted(BODY, second);
    hide TelegramEdgeEvent, ImportTimed, ImportBatch;
    run, k := RepeatedRun(Delivery(first), Delivery(second), wait);
    OtherRejected(clock, Delivery(first), Delivery(second));
    NotFaithful(run);
  }

  lemma NotFaithful(run: seq<Action>)
    requires Possible(run) && 1 in After(run).batches
    requires ImportBatch(After(run).inbox, After(run).batches[1].events).None?
    ensures !Faithful(run)
  {
    hide Faithful, ImportBatch;
    if Faithful(run) {
      assert run[..|run|] == run;
      FaithfulAgree(run, |run|);
      var s := At(run, |run|);
      ImportAgreeing(s.inbox, s.batches[1].events, s.versions);
    }
  }

  const FIRST_ARRIVAL := "2026-01-01T00:00:00.000Z"
  const SECOND_ARRIVAL := "2026-02-01T00:00:00.000Z"
  const JANUARY: nat := 31 * 24 * 60 * 60

  // For instance with two texts the edge's clock prints, a month apart in their
  // instants (in milliseconds) as in the run (in seconds).
  lemma {:induction false} RejectedAfterAMonth(clock: Clock) returns (run: seq<Action>, k: nat)
    requires clock(FIRST_ARRIVAL) == Some(1_767_225_600_000) && clock(SECOND_ARRIVAL) == Some(1_769_904_000_000)
    ensures 1_769_904_000_000 - 1_767_225_600_000 == 1000 * JANUARY
    ensures Possible(run)
    ensures DeliveredAt(run, 0, Delivery(FIRST_ARRIVAL), 0) && DeliveredAt(run, k, Delivery(SECOND_ARRIVAL), JANUARY)
    ensures var s := After(run);
      && 1 in s.batches && s.batches[1].events == [Delivery(SECOND_ARRIVAL)]
      && ImportTimed(clock, s.inbox, s.batches[1].events).None?
  {
    hide After, Possible, ImportTimed, TelegramEdgeEvent, DeliveredAt;
    run, k := ImportCanBeRejected(clock, FIRST_ARRIVAL, SECOND_ARRIVAL, JANUARY);
  }
}
