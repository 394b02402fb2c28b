// The importer's `edge_inbox_events` table. A batch is one transaction: each
// event is inserted if its id is new, counted as a duplicate if the stored row
// is identical, and otherwise the whole batch is rolled back. The importer
// compares arrival times as instants; `ImportBatch` compares them as texts,
// which is the same for the times the edge prints (`TimedIsBatch`).
module EdgeInbox {
  import opened Prelude
  import opened EdgeEvents

  type Inbox = map<string, EdgeEvent>

  datatype Outcome = Outcome(imported: nat, duplicates: nat)

  // Contents after importing `events`, and the ids inserted, in order; None
  // when some event is invalid or conflicts with the row of the same id.
  function ImportBatch(inbox: Inbox, events: seq<EdgeEvent>): Option<(Inbox, seq<string>)> {
    if events == [] then Some((inbox, []))
    else
      match ImportBatch(inbox, events[..|events| - 1])
      case None => None
      case Some((rows, inserted)) =>
        var event := events[|events| - 1];
        if !Valid(event) then None
        else if event.eventId !in rows then
          Some((rows[event.eventId := event], inserted + [event.eventId]))
        else if rows[event.eventId] == event then Some((rows, inserted))
        else None
  }

  ghost predicate HasId(events: seq<EdgeEvent>, id: string) {
    exists i :: 0 <= i < |events| && events[i].eventId == id
  }

  lemma HasIdStep(events: seq<EdgeEvent>, id: string)
    requires events != []
    ensures HasId(events, id) <==>
      HasId(events[..|events| - 1], id) || events[|events| - 1].eventId == id
  {
  }

  // A committed batch keeps every old row, adds exactly the batch's ids, and
  // leaves each event of the batch stored as it was sent.
  lemma {:induction false} ImportCommitted(inbox: Inbox, events: seq<EdgeEvent>, id: string)
    requires ImportBatch(inbox, events).Some?
    ensures var rows := ImportBatch(inbox, events).value.0;
      && (id in rows <==> id in inbox || HasId(events, id))
      && (id in inbox ==> rows[id] == inbox[id])
      && (forall i :: 0 <= i < |events| && events[i].eventId == id ==> rows[id] == events[i])
  {
    if events != [] {
      var last, rows := |events| - 1, ImportBatch(inbox, events).value.0;
      HasIdStep(events, id);
      ImportCommitted(inbox, events[..last], id);
      forall i | 0 <= i < |events| && events[i].eventId == id ensures rows[id] == events[i] {
        if i < last { assert events[..last][i] == events[i]; }
      }
    }
  }

  // A batch commits whenever one table of versions explains the inbox and every
  // event of the batch.
  lemma {:induction false} ImportAgreeing(inbox: Inbox, events: seq<EdgeEvent>, versions: Inbox)
    requires forall id :: id in inbox ==> id in versions && versions[id] == inbox[id]
    requires forall i :: 0 <= i < |events| ==>
      Valid(events[i]) && events[i].eventId in versions && versions[events[i].eventId] == events[i]
    ensures ImportBatch(inbox, events).Some?
    ensures forall id :: id in ImportBatch(inbox, events).value.0 ==>
      id in versions && versions[id] == ImportBatch(inbox, events).value.0[id]
  {
    if events != [] {
      ImportAgreeing(inbox, events[..|events| - 1], versions);
    }
  }

  // Event i of a batch is valid and differs neither from the stored row of its
  // id nor from an earlier event of the batch with the same id.
  ghost predicate Fits(inbox: Inbox, events: seq<EdgeEvent>, i: nat)
    requires i < |events|
  {
    && Valid(events[i])
    && (events[i].eventId in inbox ==> inbox[events[i].eventId] == events[i])
    && forall j :: 0 <= j < i && events[j].eventId == events[i].eventId ==> events[j] == events[i]
  }

  lemma FitsPrefix(inbox: Inbox, events: seq<EdgeEvent>, i: nat)
    requires i < |events| - 1
    ensures Fits(inbox, events[..|events| - 1], i) <==> Fits(inbox, events, i)
  {
  }

  lemma LastCommits(inbox: Inbox, events: seq<EdgeEvent>)
    requires events != [] && ImportBatch(inbox, events[..|events| - 1]).Some?
    ensures ImportBatch(inbox, events).Some? <==> Fits(inbox, events, |events| - 1)
  {
    var rest, last := events[..|events| - 1], events[|events| - 1];
    ImportCommitted(inbox, rest, last.eventId);
    if HasId(rest, last.eventId) {
      var j :| 0 <= j < |rest| && rest[j].eventId == last.eventId;
      assert events[j] == rest[j];
    }
    assert forall j :: 0 <= j < |rest| ==> rest[j] == events[j];
  }

  // A batch commits exactly when each of its events fits.
  lemma {:induction false} ImportCommitsIff(inbox: Inbox, events: seq<EdgeEvent>)
    ensures ImportBatch(inbox, events).Some? <==>
            forall i :: 0 <= i < |events| ==> Fits(inbox, events, i)
  {
    if events != [] {
      var rest := events[..|events| - 1];
      ImportCommitsIff(inbox, rest);
      forall i | 0 <= i < |rest| ensures Fits(inbox, rest, i) <==> Fits(inbox, events, i) {
        FitsPrefix(inbox, events, i);
      }
      if ImportBatch(inbox, rest).Some? { LastCommits(inbox, events); }
    }
  }

  // Each id is inserted at most once per batch, and the inserted ids are
  // exactly the growth of the table.
  lemma {:induction false} ImportInserts(inbox: Inbox, events: seq<EdgeEvent>)
    requires ImportBatch(inbox, events).Some?
    ensures var (rows, inserted) := ImportBatch(inbox, events).value;
      multiset(rows.Keys) == multiset(inbox.Keys) + multiset(inserted)
  {
    if events != [] {
      var rest, event := events[..|events| - 1], events[|events| - 1];
      ImportInserts(inbox, rest);
      var (before, inserted) := ImportBatch(inbox, rest).value;
      if event.eventId !in before {
        assert before[event.eventId := event].Keys == before.Keys + {event.eventId};
        assert multiset(before.Keys + {event.eventId}) == multiset(before.Keys) + multiset{event.eventId};
      }
    }
  }

  // ---- Arrival times as instants ------------------------------------------

  // The timestamp parser; None for a text that is no timestamp.
  type Clock = string -> Option<int>

  // A stored row is identical to an event when they agree on everything but the
  // text of the arrival time, and the texts denote one instant.
  predicate SameRow(clock: Clock, row: EdgeEvent, event: EdgeEvent) {
    SameDelivery(row, event) && clock(row.occurredAt) == clock(event.occurredAt)
  }

  function ImportTimed(clock: Clock, inbox: Inbox, events: seq<EdgeEvent>): Option<(Inbox, seq<string>)> {
    if events == [] then Some((inbox, []))
    else
      match ImportTimed(clock, inbox, events[..|events| - 1])
      case None => None
      case Some((rows, inserted)) =>
        var event := events[|events| - 1];
        if !Valid(event) || clock(event.occurredAt).None? then None
        else if event.eventId !in rows then
          Some((rows[event.eventId := event], inserted + [event.eventId]))
        else if SameRow(clock, rows[event.eventId], event) then Some((rows, inserted))
        else None
  }

  lemma {:induction false} TimedPrefix(clock: Clock, inbox: Inbox, events: seq<EdgeEvent>, k: nat)
    requires k <= |events| && ImportTimed(clock, inbox, events[..k]).None?
    ensures ImportTimed(clock, inbox, events).None?
  {
    hide SameRow;
    if k < |events| {
      assert events[..|events| - 1][..k] == events[..k];
      TimedPrefix(clock, inbox, events[..|events| - 1], k);
    } else {
      assert events[..k] == events;
    }
  }

  // Each of the texts is a timestamp, and no two of them denote one instant, as
  // with the texts of one printer.
  predicate Uniform(clock: Clock, times: set<string>) {
    forall t :: t in times ==> clock(t).Some? && forall u :: u in times && clock(u) == clock(t) ==> u == t
  }

  predicate Timed(inbox: Inbox, events: seq<EdgeEvent>, times: set<string>) {
    && (forall id :: id in inbox ==> inbox[id].occurredAt in times)
    && (forall i :: 0 <= i < |events| ==> events[i].occurredAt in times)
  }

  // With uniformly printed times the importer does exactly what `ImportBatch` does.
  lemma {:induction false} TimedIsBatch(clock: Clock, inbox: Inbox, events: seq<EdgeEvent>, times: set<string>)
    requires Uniform(clock, times) && Timed(inbox, events, times)
    ensures ImportTimed(clock, inbox, events) == ImportBatch(inbox, events)
    ensures ImportBatch(inbox, events).Some? ==> Timed(ImportBatch(inbox, events).value.0, [], times)
  {
    hide Valid;
    if events != [] {
      var front, event := events[..|events| - 1], events[|events| - 1];
      TimedIsBatch(clock, inbox, front, times);
      if ImportBatch(inbox, front).Some? {
        var rows := ImportBatch(inbox, front).value.0;
        if event.eventId in rows {
          SameIffEqual(clock, rows[event.eventId], event, times);
        }
      }
    }
  }

  lemma SameIffEqual(clock: Clock, row: EdgeEvent, event: EdgeEvent, times: set<string>)
    requires Uniform(clock, times) && row.occurredAt in times && event.occurredAt in times
    ensures SameRow(clock, row, event) <==> row == event
  {
  }

  // Event i is valid and timed, and differs neither from the stored row of its
  // id nor from an earlier event of the batch with the same id.
  ghost predicate FitsTimed(clock: Clock, inbox: Inbox, events: seq<EdgeEvent>, i: nat)
    requires i < |events|
  {
    && Valid(events[i]) && clock(events[i].occurredAt).Some?
    && (events[i].eventId in inbox ==> SameRow(clock, inbox[events[i].eventId], events[i]))
    && forall j :: 0 <= j < i && events[j].eventId == events[i].eventId ==> SameRow(clock, events[j], events[i])
  }

  // The row stored under an id is the old one, or the first event with the id.
  lemma {:induction false} TimedRow(clock: Clock, inbox: Inbox, events: seq<EdgeEvent>, id: string)
    requires ImportTimed(clock, inbox, events).Some?
    ensures var rows := ImportTimed(clock, inbox, events).value.0;
      && (id in rows <==> id in inbox || HasId(events, id))
      && (id in inbox ==> rows[id] == inbox[id])
      && (id in rows && id !in inbox ==> exists i :: 0 <= i < |events| && events[i] == rows[id])
      && (forall i :: 0 <= i < |events| && events[i].eventId == id ==> SameRow(clock, rows[id], events[i]))
  {
    hide Valid;
    if events != [] {
      var front, event := events[..|events| - 1], events[|events| - 1];
      HasIdStep(events, id);
      TimedRow(clock, inbox, front, id);
      var rows := ImportTimed(clock, inbox, front).value.0;
      if id in rows && id !in inbox {
        var i :| 0 <= i < |front| && front[i] == rows[id];
        assert events[i] == rows[id];
      }
    }
  }

  lemma TimedLast(clock: Clock, inbox: Inbox, events: seq<EdgeEvent>)
    requires events != [] && ImportTimed(clock, inbox, events[..|events| - 1]).Some?
    ensures ImportTimed(clock, inbox, events).Some? <==> FitsTimed(clock, inbox, events, |events| - 1)
  {
    hide Valid;
    var front, event := events[..|events| - 1], events[|events| - 1];
    TimedRow(clock, inbox, front, event.eventId);
    var rows := ImportTimed(clock, inbox, front).value.0;
    if HasId(front, event.eventId) {
      var j :| 0 <= j < |front| && front[j].eventId == event.eventId;
      assert events[j] == front[j];
      assert SameRow(clock, rows[event.eventId], front[j]);
    }
    assert forall j :: 0 <= j < |front| ==> front[j] == events[j];
  }

  // The importer commits a batch exactly when each of its events fits.
  lemma {:induction false} TimedCommitsIff(clock: Clock, inbox: Inbox, events: seq<EdgeEvent>)
    ensures ImportTimed(clock, inbox, events).Some? <==>
            forall i :: 0 <= i < |events| ==> FitsTimed(clock, inbox, events, i)
  {
    hide Valid, SameRow;
    if events != [] {
      var front := events[..|events| - 1];
      TimedCommitsIff(clock, inbox, front);
      forall i | 0 <= i < |front|
        ensures FitsTimed(clock, inbox, front, i) <==> FitsTimed(clock, inbox, events, i)
      {
        assert forall j :: 0 <= j <= i ==> front[j] == events[j];
      }
      if ImportTimed(clock, inbox, front).Some? { TimedLast(clock, inbox, events); }
    }
  }

  class InboxStore {
    var rows: Inbox

    method ImportEdgeEvents(clock: Clock, events: seq<EdgeEvent>) returns (r: Result<Outcome, string>)
      modifies this
      ensures r.Ok? <==> ImportTimed(clock, old(rows), events).Some?
      ensures r.Err? ==> rows == old(rows)
      ensures r.Ok? ==>
        && rows == ImportTimed(clock, old(rows), events).value.0
        && r.value.imported == |ImportTimed(clock, old(rows), events).value.1|
        && r.value.imported + r.value.duplicates == |events|
    {
      hide Valid, SameRow;
      var pending := rows;
      var outcome := Outcome(0, 0);
      for i := 0 to |events|
        invariant rows == old(rows) && ImportTimed(clock, rows, events[..i]).Some?
        invariant pending == ImportTimed(clock, rows, events[..i]).value.0
        invariant outcome.imported == |ImportTimed(clock, rows, events[..i]).value.1|
        invariant outcome.imported + outcome.duplicates == i
      {
        var event := events[i];
        assert events[..i + 1][..i] == events[..i];
        if !Valid(event) {
          TimedPrefix(clock, rows, events, i + 1);
          return Err("edge event contains invalid required values");
        }
        if clock(event.occurredAt).None? {
          TimedPrefix(clock, rows, events, i + 1);
          return Err("invalid edge event occurred_at");
        }
        if event.eventId !in pending {
          pending := pending[event.eventId := event];
          outcome := outcome.(imported := outcome.imported + 1);
        } else if SameRow(clock, pending[event.eventId], event) {
          outcome := outcome.(duplicates := outcome.duplicates + 1);
        } else {
          TimedPrefix(clock, rows, events, i + 1);
          return Err("edge event ID conflicts with different content");
        }
      }
      assert events[..|events|] == events;
      rows := pending;
      r := Ok(outcome);
    }

    // Retention deletes any number of processed rows, or fails.
    method ApplyRetention(removed: set<string>)
      modifies this
      ensures rows == old(rows) - removed
    {
      rows := rows - removed;
    }
  }
}
