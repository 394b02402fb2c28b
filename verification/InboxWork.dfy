// Working off the importer's table: which event comes next, and what completing,
// failing and retention do to a row. Times are seconds of the database's clock.
module InboxWork {
  import opened Prelude
  import opened EdgeEvents
  import Json
  import TelegramUpdates

  const TELEGRAM := "telegram.update"
  const U64_MAX: nat := 0xffff_ffff_ffff_ffff
  const DAY: nat := 86_400

  datatype Work = Work(
    event: EdgeEvent,
    attempts: nat,
    availableAt: nat,
    importedAt: nat,
    processedAt: Option<nat>,
    deadLetteredAt: Option<nat>)

  type Rows = map<string, Work>

  function Fresh(event: EdgeEvent, now: nat): Work {
    Work(event, 0, now, now, None, None)
  }

  predicate Unsettled(w: Work) {
    w.processedAt.None? && w.deadLetteredAt.None?
  }

  predicate IsPending(rows: Rows, id: string) {
    id in rows && Unsettled(rows[id])
  }

  predicate SameAggregate(a: EdgeEvent, b: EdgeEvent) {
    a.eventType == b.eventType && a.aggregateKey == b.aggregateKey
  }

  // A row can be handed out: it is pending and due, and no earlier event of its
  // aggregate is pending.
  ghost predicate Ready(rows: Rows, id: string, now: nat) {
    && IsPending(rows, id) && rows[id].availableAt <= now
    && forall o :: IsPending(rows, o) && SameAggregate(rows[o].event, rows[id].event) ==>
      rows[id].event.sequence <= rows[o].event.sequence
  }

  predicate NotLater(a: Work, b: Work) {
    a.importedAt < b.importedAt || (a.importedAt == b.importedAt && a.event.sequence <= b.event.sequence)
  }

  // The SELECT's answer for one Telegram event.
  ghost predicate IsNext(rows: Rows, now: nat, next: Option<string>) {
    match next
    case None => forall id :: Ready(rows, id, now) ==> rows[id].event.eventType != TELEGRAM
    case Some(first) =>
      && Ready(rows, first, now) && rows[first].event.eventType == TELEGRAM
      && forall id :: Ready(rows, id, now) && rows[id].event.eventType == TELEGRAM ==> NotLater(rows[first], rows[id])
  }

  // ---- The statements -----------------------------------------------------

  predicate CanComplete(rows: Rows, id: string) {
    id in rows && rows[id].processedAt.None?
  }

  // Completing and rejecting differ in the error text only.
  function Complete(rows: Rows, id: string, now: nat): Rows {
    if CanComplete(rows, id) then rows[id := rows[id].(processedAt := Some(now))] else rows
  }

  function Fail(rows: Rows, id: string, maxAttempts: nat, delay: nat, now: nat): Rows {
    if !IsPending(rows, id) then rows
    else
      var dead := if rows[id].attempts + 1 >= maxAttempts then Some(now) else None;
      rows[id := rows[id].(attempts := rows[id].attempts + 1, availableAt := now + delay,
                           deadLetteredAt := dead, processedAt := dead)]
  }

  // What retention may delete.
  predicate Old(rows: Rows, removed: set<string>, days: nat, now: nat) {
    forall id :: id in removed ==>
      id in rows && rows[id].processedAt.Some? && rows[id].processedAt.value + days * DAY < now
  }

  // ---- The retry delay ----------------------------------------------------

  function Pow2(n: nat): (p: nat)
    ensures p >= 1
  {
    if n == 0 then 1 else 2 * Pow2(n - 1)
  }

  function Min(a: nat, b: nat): nat {
    if a <= b then a else b
  }

  function RetryDelay(attempt: nat, base: nat, maximum: nat): nat {
    var exponent := Min(if attempt >= 1 then attempt - 1 else 0, 20);
    Min(Min(base * Pow2(exponent), U64_MAX), maximum)
  }

  lemma DelayPositive(attempt: nat, base: nat, maximum: nat)
    requires base >= 1 && maximum >= 1
    ensures 1 <= RetryDelay(attempt, base, maximum) <= maximum
  {
    var p := Pow2(Min(if attempt >= 1 then attempt - 1 else 0, 20));
    assert base * p >= 1;
  }

  // ---- The store ----------------------------------------------------------

  datatype Disposition = RetryScheduled | DeadLettered

  class WorkStore {
    var rows: Rows

    method CompleteEdgeEvent(id: string, now: nat) returns (ok: bool)
      modifies this
      ensures ok <==> id != "" && CanComplete(old(rows), id)
      ensures rows == if ok then Complete(old(rows), id, now) else old(rows)
    {
      if id == "" { return false; }
      ok := id in rows && rows[id].processedAt.None?;
      if ok { rows := rows[id := rows[id].(processedAt := Some(now))]; }
    }

    method FailEdgeEvent(id: string, maxAttempts: nat, delay: nat, now: nat) returns (r: Result<Disposition, ()>)
      modifies this
      ensures r.Ok? <==> id != "" && maxAttempts > 0 && delay > 0 && IsPending(old(rows), id)
      ensures rows == if r.Ok? then Fail(old(rows), id, maxAttempts, delay, now) else old(rows)
      ensures r.Ok? ==> id in rows && (r.value.DeadLettered? <==> rows[id].deadLetteredAt.Some?)
    {
      if id == "" || maxAttempts == 0 || delay == 0 { return Err(()); }
      if id !in rows || rows[id].processedAt.Some? || rows[id].deadLetteredAt.Some? { return Err(()); }
      var w := rows[id];
      var dead := if w.attempts + 1 >= maxAttempts then Some(now) else None;
      rows := rows[id := w.(attempts := w.attempts + 1, availableAt := now + delay,
                            deadLetteredAt := dead, processedAt := dead)];
      r := Ok(if dead.Some? then DeadLettered else RetryScheduled);
    }

    // `removed` is the DELETE's answer.
    method ApplyRetention(days: nat, removed: set<string>, now: nat) returns (r: Result<nat, ()>)
      requires Old(rows, removed, days, now)
      modifies this
      ensures r.Ok? <==> days >= 1
      ensures rows == if r.Ok? then old(rows) - removed else old(rows)
      ensures r.Ok? ==> r.value == |removed|
    {
      if days < 1 { return Err(()); }
      rows := rows - removed;
      r := Ok(|removed|);
    }
  }

  // ---- One cycle of the consumer ------------------------------------------

  // How a Telegram event handed out comes out: its payload does not parse, or
  // answering it breaks off with an error, or stops, or passes.
  datatype Verdict = Unreadable | Broke | Stopped | Passed

  ghost function VerdictOf(update: Option<TelegramUpdates.Update>, context: TelegramUpdates.Context,
                           answers: nat -> TelegramUpdates.Answer): Verdict
  {
    if update.None? then Unreadable
    else
      var chosen := TelegramUpdates.Selected([update.value], false);
      if TelegramUpdates.Broken(context, chosen, answers) then Broke
      else if TelegramUpdates.AllPass(context, chosen, answers) then Passed
      else Stopped
  }

  ghost function Settled(rows: Rows, id: string, verdict: Verdict, feedbackFails: bool, now: nat): Rows
    requires id in rows
  {
    var attempt := rows[id].attempts + 1;
    match verdict
    case Unreadable => Fail(rows, id, 3, RetryDelay(attempt, 5, 60), now)
    case Broke => Fail(rows, id, 3, RetryDelay(attempt, 5, 60), now)
    case Stopped => if feedbackFails then rows else Fail(rows, id, 5, RetryDelay(attempt, 5, 300), now)
    case Passed => if feedbackFails then rows else Complete(rows, id, now)
  }

  // The next event is completed exactly when all of it was answered and the
  // delivery of user feedback after it did not fail; when only that failed, the
  // event stays as it is and is handed out again at once.
  method RunEdgeInteractionCycle(store: WorkStore, parse: Json.Value -> Option<TelegramUpdates.Update>,
                                 next: Option<string>, context: TelegramUpdates.Context,
                                 answers: nat -> TelegramUpdates.Answer, feedbackFails: bool, selected: nat, now: nat)
    returns (r: Result<(), ()>)
    requires IsNext(store.rows, selected, next) && next != Some("")
    modifies store
    ensures next.None? ==> store.rows == old(store.rows) && (r.Err? <==> feedbackFails)
    ensures next.Some? ==>
      var id := next.value;
      && id in old(store.rows)
      && var verdict := VerdictOf(parse(old(store.rows)[id].event.payload), context, answers);
         && store.rows == Settled(old(store.rows), id, verdict, feedbackFails, now)
         && (r.Err? <==> feedbackFails && (verdict.Stopped? || verdict.Passed?))
  {
    hide TelegramUpdates.Broken, TelegramUpdates.AllPass, TelegramUpdates.Selected, RetryDelay;
    if next.None? { return if feedbackFails then Err(()) else Ok(()); }
    var id := next.value;
    var event, attempt := store.rows[id].event, store.rows[id].attempts + 1;
    DelayPositive(attempt, 5, 60);
    DelayPositive(attempt, 5, 300);
    var update := parse(event.payload);
    if update.None? {
      var failed := store.FailEdgeEvent(id, 3, RetryDelay(attempt, 5, 60), now);
      return Ok(());
    }
    var outcome := TelegramUpdates.ProcessInteractionUpdates([update.value], false, context, answers);
    if outcome.Err? {
      var failed := store.FailEdgeEvent(id, 3, RetryDelay(attempt, 5, 60), now);
      return Ok(());
    }
    if feedbackFails { return Err(()); }
    if outcome.value.1 {
      var completed := store.CompleteEdgeEvent(id, now);
    } else {
      var failed := store.FailEdgeEvent(id, 5, RetryDelay(attempt, 5, 300), now);
    }
    r := Ok(());
  }

  // A pending row is left as it is exactly when only the feedback delivery failed.
  lemma {:induction false} LeftAloneIff(rows: Rows, id: string, verdict: Verdict, feedbackFails: bool, now: nat)
    requires IsPending(rows, id)
    ensures Settled(rows, id, verdict, feedbackFails, now) == rows <==>
      feedbackFails && (verdict.Stopped? || verdict.Passed?)
  {
    hide RetryDelay;
    var after := Settled(rows, id, verdict, feedbackFails, now);
    if !(feedbackFails && (verdict.Stopped? || verdict.Passed?)) {
      assert after[id] != rows[id];
    }
  }

  // So a message that was answered is handed out and answered again.
  lemma {:induction false} AnsweredAgain(rows: Rows, id: string, now: nat, u: TelegramUpdates.Update,
                                         context: TelegramUpdates.Context, answers: nat -> TelegramUpdates.Answer,
                                         later: nat)
    requires IsNext(rows, now, Some(id)) && now <= later
    requires TelegramUpdates.InteractionFromUpdate(u).Some? && answers(0).send.Sent? && !answers(0).storeFails
    ensures VerdictOf(Some(u), context, answers).Passed?
    ensures Settled(rows, id, Passed, true, later) == rows && Ready(rows, id, later)
  {
    LeftAloneIff(rows, id, Passed, true, later);
    hide Settled;
    assert [u][..0] == [];
    assert TelegramUpdates.Interactions([u][..0]) == [];
    assert TelegramUpdates.Interactions([u]) == [TelegramUpdates.InteractionFromUpdate(u).value];
    hide TelegramUpdates.InteractionFromUpdate, Ready, IsNext;
    var chosen := TelegramUpdates.Selected([u], false);
    assert TelegramUpdates.AllPass(context, chosen, answers);
    assert !TelegramUpdates.Broken(context, chosen, answers);
  }

  // ---- What the statements do to a row ------------------------------------

  // The SELECT answers with the pending Telegram event that was imported first,
  // then has the smallest sequence, of those that are due and first of their chat.
  lemma {:induction false} NextIs(rows: Rows, now: nat, first: string, id: string)
    requires IsNext(rows, now, Some(first)) && id in rows && rows[id].event.eventType == "telegram.update"
    requires rows[id].processedAt.None? && rows[id].deadLetteredAt.None? && rows[id].availableAt <= now
    requires forall o :: (o in rows && rows[o].processedAt.None? && rows[o].deadLetteredAt.None?
                          && rows[o].event.eventType == rows[id].event.eventType
                          && rows[o].event.aggregateKey == rows[id].event.aggregateKey) ==>
      rows[id].event.sequence <= rows[o].event.sequence
    ensures first in rows && rows[first].processedAt.None? && rows[first].availableAt <= now
    ensures rows[first].importedAt < rows[id].importedAt
            || (rows[first].importedAt == rows[id].importedAt
                && rows[first].event.sequence <= rows[id].event.sequence)
  {
    assert Ready(rows, id, now);
  }

  // A failed attempt is counted and the row waits for the delay; at the last
  // attempt it is dead-lettered and thereby processed.
  lemma {:induction false} FailedIs(rows: Rows, id: string, maxAttempts: nat, delay: nat, now: nat)
    requires id in rows && rows[id].processedAt.None? && rows[id].deadLetteredAt.None?
    ensures var after := Fail(rows, id, maxAttempts, delay, now);
      && after.Keys == rows.Keys && (forall o :: o in rows && o != id ==> after[o] == rows[o])
      && after[id].attempts == rows[id].attempts + 1 && after[id].availableAt == now + delay
      && after[id].event == rows[id].event && after[id].importedAt == rows[id].importedAt
      && (rows[id].attempts + 1 < maxAttempts ==> after[id].processedAt.None? && after[id].deadLetteredAt.None?)
      && (rows[id].attempts + 1 >= maxAttempts ==>
            after[id].deadLetteredAt == Some(now) && after[id].processedAt == Some(now))
  {
  }

  // A completed row changes in nothing but the time it was processed.
  lemma {:induction false} CompletedIs(rows: Rows, id: string, now: nat)
    requires id in rows && rows[id].processedAt.None?
    ensures var after := Complete(rows, id, now);
      && after.Keys == rows.Keys && (forall o :: o in rows && o != id ==> after[o] == rows[o])
      && after[id].processedAt == Some(now) && after[id].(processedAt := None) == rows[id]
  {
  }

  // The delays double from five seconds up to one minute, or to five.
  lemma {:induction false} DelaysAre()
    ensures RetryDelay(1, 5, 60) == 5 && RetryDelay(2, 5, 60) == 10 && RetryDelay(3, 5, 60) == 20
    ensures RetryDelay(4, 5, 60) == 40 && RetryDelay(5, 5, 60) == 60
    ensures RetryDelay(1, 5, 300) == 5 && RetryDelay(4, 5, 300) == 40 && RetryDelay(6, 5, 300) == 160
    ensures RetryDelay(7, 5, 300) == 300
  {
    assert Pow2(1) == 2 && Pow2(2) == 4 && Pow2(3) == 8 && Pow2(4) == 16 && Pow2(5) == 32 && Pow2(6) == 64;
  }

  // An unreadable event, or one whose answer broke off, is given up at the third
  // failed attempt; one that was stopped at the fifth.
  lemma {:induction false} GivenUpIff(rows: Rows, id: string, verdict: Verdict, now: nat)
    requires id in rows && rows[id].processedAt.None? && rows[id].deadLetteredAt.None? && !verdict.Passed?
    ensures var after := Settled(rows, id, verdict, false, now);
      && id in after && after[id].attempts == rows[id].attempts + 1
      && (after[id].deadLetteredAt.Some? <==> after[id].attempts >= if verdict.Stopped? then 5 else 3)
  {
    hide RetryDelay;
  }

  // Retention deletes only rows processed longer ago than the days given.
  lemma {:induction false} RetiredIs(rows: Rows, removed: set<string>, days: nat, now: nat, id: string)
    requires Old(rows, removed, days, now) && id in removed
    ensures id in rows && rows[id].processedAt.Some?
    ensures rows[id].processedAt.value + days * (24 * 60 * 60) < now
  {
  }
}
