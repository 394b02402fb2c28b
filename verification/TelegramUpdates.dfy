// The Telegram command consumer: which updates of a batch are answered, and how
// they are counted.
module TelegramUpdates {
  import opened Prelude

  datatype Message = Message(chatId: int, private: bool, text: Option<string>)

  datatype Callback = Callback(id: string, message: Option<Message>, data: Option<string>)

  datatype Update = Update(updateId: int, message: Option<Message>, callback: Option<Callback>)

  datatype Interaction = Interaction(updateId: int, message: Message, callbackId: Option<string>)

  function InteractionFromUpdate(u: Update): Option<Interaction> {
    if u.message.Some? && u.message.value.private && u.message.value.text.Some?
    then Some(Interaction(u.updateId, u.message.value, None))
    else
      match u.callback
      case Some(Callback(id, Some(message), Some(data))) =>
        if message.private then Some(Interaction(u.updateId, message.(text := Some(data)), Some(id))) else None
      case Some(Callback(_, None, _)) => None
      case Some(Callback(_, Some(_), None)) => None
      case None => None
  }

  // A private message with a text.
  predicate Says(m: Option<Message>, text: string) {
    m.Some? && m.value.private && m.value.text == Some(text)
  }

  // A button pressed under a private message.
  predicate Presses(c: Option<Callback>, data: string) {
    c.Some? && c.value.data == Some(data) && c.value.message.Some? && c.value.message.value.private
  }

  // An update is answered exactly when it is a private text message, or else a
  // button pressed in a private chat; the answer is to the message's text, or to
  // the button's data, in that chat.
  lemma {:induction false} InteractionIs(u: Update)
    ensures InteractionFromUpdate(u).Some? <==>
      (exists text :: Says(u.message, text)) || (exists data :: Presses(u.callback, data))
    ensures forall text :: Says(u.message, text) ==>
      && InteractionFromUpdate(u).Some?
      && var i := InteractionFromUpdate(u).value;
         i.updateId == u.updateId && i.callbackId.None? && i.message.chatId == u.message.value.chatId
         && i.message.private && i.message.text == Some(text)
    ensures forall data :: (forall text :: !Says(u.message, text)) && Presses(u.callback, data) ==>
      && InteractionFromUpdate(u).Some?
      && var i := InteractionFromUpdate(u).value;
         i.updateId == u.updateId && i.callbackId == Some(u.callback.value.id)
         && i.message.chatId == u.callback.value.message.value.chatId
         && i.message.private && i.message.text == Some(data)
  {
    var said := u.message.Some? && u.message.value.private && u.message.value.text.Some?;
    if said { assert Says(u.message, u.message.value.text.value); }
    if u.callback.Some? && u.callback.value.data.Some? && u.callback.value.message.Some?
       && u.callback.value.message.value.private {
      assert Presses(u.callback, u.callback.value.data.value);
    }
  }

  // ---- Choosing the interactions ------------------------------------------

  // The interactions of a batch, in order.
  function Interactions(updates: seq<Update>): (r: seq<Interaction>)
    ensures |r| <= |updates|
  {
    if updates == [] then []
    else
      var before, i := Interactions(updates[..|updates| - 1]), InteractionFromUpdate(updates[|updates| - 1]);
      if i.Some? then before + [i.value] else before
  }

  // They are those of the updates, one after the other.
  lemma {:induction false} InteractionsAre(a: seq<Update>, b: seq<Update>, u: Update)
    ensures Interactions([]) == []
    ensures Interactions(a + b) == Interactions(a) + Interactions(b)
    ensures Interactions([u]) == match InteractionFromUpdate(u) case None => [] case Some(i) => [i]
  {
    hide InteractionFromUpdate;
    assert [u][..0] == [];
    if b == [] {
      assert a + b == a;
    } else {
      assert (a + b)[..|a + b| - 1] == a + b[..|b| - 1];
      InteractionsAre(a, b[..|b| - 1], u);
    }
  }

  // Insertion into a map kept in key order: one entry per chat.
  function Put(entries: seq<Interaction>, i: Interaction): seq<Interaction> {
    if entries == [] || i.message.chatId < entries[0].message.chatId then [i] + entries
    else if entries[0].message.chatId == i.message.chatId then [i] + entries[1..]
    else [entries[0]] + Put(entries[1..], i)
  }

  // The latest interaction of each chat, in chat order.
  function Latest(interactions: seq<Interaction>): seq<Interaction> {
    if interactions == [] then []
    else Put(Latest(interactions[..|interactions| - 1]), interactions[|interactions| - 1])
  }

  // A stable sort by update id.
  function InsertById(sorted: seq<Interaction>, i: Interaction): seq<Interaction> {
    if sorted == [] || sorted[|sorted| - 1].updateId <= i.updateId then sorted + [i]
    else InsertById(sorted[..|sorted| - 1], i) + [sorted[|sorted| - 1]]
  }

  function SortById(interactions: seq<Interaction>): seq<Interaction> {
    if interactions == [] then []
    else InsertById(SortById(interactions[..|interactions| - 1]), interactions[|interactions| - 1])
  }

  function Selected(updates: seq<Update>, collapse: bool): seq<Interaction> {
    if collapse then SortById(Latest(Interactions(updates))) else Interactions(updates)
  }

  // ---- Answering ----------------------------------------------------------

  datatype SendOutcome = Sent | PermanentFailure | RetryAfter | TransientFailure | ChatMigrated | AuthenticationFailure

  // What happens when the k-th selected interaction is answered: whether its
  // reply could be built, what sending gave, whether a store update after it
  // failed, and what sending the administrator's copy gave if there was one.
  datatype Answer = Answer(
    built: bool, suggestion: bool, send: SendOutcome, storeFails: bool, admin: Option<SendOutcome>)

  datatype Report = Report(
    received: nat, processed: nat, replied: nat, adminNotified: nat, suggestionsCreated: nat, ignored: nat,
    authenticationFailed: bool, failed: bool)

  datatype Context = Context(adminOnly: bool, adminChatId: Option<int>)

  predicate Admitted(context: Context, i: Interaction) {
    !context.adminOnly || context.adminChatId == Some(i.message.chatId)
  }

  // The batch is abandoned at this answer.
  predicate Stops(a: Answer) {
    a.send.RetryAfter? || a.send.TransientFailure? || a.send.ChatMigrated? || a.send.AuthenticationFailure?
  }

  // The k-th interaction is answered and neither stops the batch nor fails.
  predicate Passes(context: Context, i: Interaction, a: Answer) {
    Admitted(context, i) ==> !Stops(a) && !a.storeFails
  }

  predicate AllPass(context: Context, chosen: seq<Interaction>, answers: nat -> Answer) {
    forall k :: 0 <= k < |chosen| ==> Passes(context, chosen[k], answers(k))
  }

  // An interaction passes when only the administrator is answered and it is not
  // his, or when it was sent or never can be, and its outcome was stored.
  lemma {:induction false} PassesIff(context: Context, i: Interaction, a: Answer)
    ensures Passes(context, i, a) <==>
      || (context.adminOnly && context.adminChatId != Some(i.message.chatId))
      || ((a.send == Sent || a.send == PermanentFailure) && !a.storeFails)
  {
  }

  datatype Counter = Processed | Replies | AdminNotified | SuggestionsCreated | Troubles

  predicate Counts(what: Counter, context: Context, i: Interaction, a: Answer) {
    Admitted(context, i)
    && match what
       case Processed => true
       case Replies => a.send.Sent?
       case AdminNotified => context.adminChatId.Some? && a.admin == Some(Sent)
       case SuggestionsCreated => a.suggestion
       case Troubles => !a.built || (context.adminChatId.Some? && a.admin.Some? && a.admin != Some(Sent))
  }

  // How many of the first n interactions count as `what`.
  function Count(what: Counter, context: Context, chosen: seq<Interaction>, answers: nat -> Answer, n: nat): nat
    requires n <= |chosen|
  {
    if n == 0 then 0
    else
      var before := Count(what, context, chosen, answers, n - 1);
      if Counts(what, context, chosen[n - 1], answers(n - 1)) then before + 1 else before
  }

  predicate Tallied(r: Report, context: Context, chosen: seq<Interaction>, answers: nat -> Answer, n: nat)
    requires n <= |chosen|
  {
    && r.processed == Count(Processed, context, chosen, answers, n)
    && r.replied == Count(Replies, context, chosen, answers, n)
    && r.adminNotified == Count(AdminNotified, context, chosen, answers, n)
    && r.suggestionsCreated == Count(SuggestionsCreated, context, chosen, answers, n)
    && (r.failed <==> Count(Troubles, context, chosen, answers, n) > 0)
  }

  // The batch was abandoned at the k-th interaction: it was processed, but is
  // counted neither as replied nor as ignored.
  predicate StoppedAt(r: Report, context: Context, chosen: seq<Interaction>, answers: nat -> Answer, k: nat)
    requires k < |chosen|
  {
    && AllPass(context, chosen[..k], answers) && !Passes(context, chosen[k], answers(k)) && Stops(answers(k))
    && r.processed == Count(Processed, context, chosen, answers, k) + 1
    && r.replied == Count(Replies, context, chosen, answers, k)
    && r.adminNotified == Count(AdminNotified, context, chosen, answers, k)
    && r.suggestionsCreated == Count(SuggestionsCreated, context, chosen, answers, k + 1)
    && r.replied + r.ignored == r.received - |chosen| + k
    && r.failed && (r.authenticationFailed <==> answers(k).send.AuthenticationFailure?)
  }

  // The first interaction that does not pass was sent, but a store update after it failed.
  ghost predicate Broken(context: Context, chosen: seq<Interaction>, answers: nat -> Answer) {
    exists k :: 0 <= k < |chosen| && BrokenAt(context, chosen, answers, k)
  }

  predicate BrokenAt(context: Context, chosen: seq<Interaction>, answers: nat -> Answer, k: nat)
    requires k < |chosen|
  {
    (forall j :: 0 <= j < k ==> Passes(context, chosen[j], answers(j)))
    && !Passes(context, chosen[k], answers(k)) && !Stops(answers(k))
  }

  lemma NotBroken(context: Context, chosen: seq<Interaction>, answers: nat -> Answer, n: nat)
    requires n <= |chosen| && (n < |chosen| ==> Stops(answers(n)) && !Passes(context, chosen[n], answers(n)))
    requires forall j :: 0 <= j < n ==> Passes(context, chosen[j], answers(j))
    ensures !Broken(context, chosen, answers)
  {
    hide Passes, Stops;
  }

  method ProcessInteractionUpdates(updates: seq<Update>, collapse: bool, context: Context, answers: nat -> Answer)
    returns (r: Result<(Report, bool), ()>)
    ensures r.Ok? ==> var (report, complete) := r.value; var chosen := Selected(updates, collapse);
      && report.received == |updates|
      && report.replied + report.ignored <= report.received
      && (complete <==> report.replied + report.ignored == report.received)
      && (complete <==> AllPass(context, chosen, answers))
      && (complete ==> Tallied(report, context, chosen, answers, |chosen|) && !report.authenticationFailed)
      && (!complete ==> exists k :: 0 <= k < |chosen| && StoppedAt(report, context, chosen, answers, k))
    ensures r.Err? <==> Broken(context, Selected(updates, collapse), answers)
    ensures r.Err? ==> !AllPass(context, Selected(updates, collapse), answers)
  {
    hide InteractionFromUpdate, Latest, SortById, Interactions, Selected, StoppedAt;
    var received := |updates|;
    var chosen, ignored := SelectInteractions(updates, collapse);
    var processed, replied, adminNotified, suggestionsCreated, failed := 0, 0, 0, 0, false;
    for k := 0 to |chosen|
      invariant forall j :: 0 <= j < k ==> Passes(context, chosen[j], answers(j))
      invariant Tallied(Report(received, processed, replied, adminNotified, suggestionsCreated, ignored, false, failed),
                        context, chosen, answers, k)
      invariant replied + ignored == received - |chosen| + k
    {
      var i := chosen[k];
      var answer := answers(k);
      if context.adminOnly && Some(i.message.chatId) != context.adminChatId {
        ignored := ignored + 1;
        continue;
      }
      processed := processed + 1;
      failed := failed || !answer.built;
      if answer.suggestion { suggestionsCreated := suggestionsCreated + 1; }
      var stopped := Report(received, processed, replied, adminNotified, suggestionsCreated, ignored,
                            answer.send.AuthenticationFailure?, true);
      assert !Passes(context, i, answer) && Stops(answer) ==> StoppedAt(stopped, context, chosen, answers, k) by {
        StopReported(stopped, context, chosen, answers, k);
      }
      match answer.send {
        case Sent =>
          replied := replied + 1;
          if answer.storeFails {
            assert BrokenAt(context, chosen, answers, k);
            return Err(());
          }
        case PermanentFailure =>
          if answer.storeFails {
            assert BrokenAt(context, chosen, answers, k);
            return Err(());
          }
          ignored := ignored + 1;
        case AuthenticationFailure =>
          NotBroken(context, chosen, answers, k);
          return Ok((stopped, false));
        case RetryAfter =>
          NotBroken(context, chosen, answers, k);
          return Ok((stopped, false));
        case TransientFailure =>
          NotBroken(context, chosen, answers, k);
          return Ok((stopped, false));
        case ChatMigrated =>
          NotBroken(context, chosen, answers, k);
          return Ok((stopped, false));
      }
      if context.adminChatId.Some? && answer.admin.Some? {
        if answer.admin.value.Sent? { adminNotified := adminNotified + 1; } else { failed := true; }
      }
    }
    NotBroken(context, chosen, answers, |chosen|);
    r := Ok((Report(received, processed, replied, adminNotified, suggestionsCreated, ignored, false, failed), true));
  }

  lemma StopReported(r: Report, context: Context, chosen: seq<Interaction>, answers: nat -> Answer, k: nat)
    requires k < |chosen| && forall j :: 0 <= j < k ==> Passes(context, chosen[j], answers(j))
    requires Admitted(context, chosen[k])
    requires r.processed == Count(Processed, context, chosen, answers, k) + 1
    requires r.replied == Count(Replies, context, chosen, answers, k)
    requires r.adminNotified == Count(AdminNotified, context, chosen, answers, k)
    requires r.suggestionsCreated
             == Count(SuggestionsCreated, context, chosen, answers, k) + if answers(k).suggestion then 1 else 0
    requires r.replied + r.ignored == r.received - |chosen| + k
    requires r.failed && (r.authenticationFailed <==> answers(k).send.AuthenticationFailure?)
    ensures Stops(answers(k)) ==> StoppedAt(r, context, chosen, answers, k)
  {
  }

  // The interactions to answer, and how many updates were left out.
  method SelectInteractions(updates: seq<Update>, collapse: bool) returns (chosen: seq<Interaction>, ignored: nat)
    ensures chosen == Selected(updates, collapse) && |chosen| + ignored == |updates|
  {
    hide InteractionFromUpdate, SortById, Put;
    chosen, ignored := [], 0;
    if collapse {
      var latest: seq<Interaction> := [];
      for n := 0 to |updates|
        invariant latest == Latest(Interactions(updates[..n]))
        invariant ignored == n - |Interactions(updates[..n])|
      {
        assert updates[..n + 1][..n] == updates[..n];
        match InteractionFromUpdate(updates[n]) {
          case Some(i) =>
            var front := Interactions(updates[..n]);
            assert (front + [i])[..|front|] == front;
            latest := Put(latest, i);
          case None =>
            ignored := ignored + 1;
        }
      }
      assert updates[..|updates|] == updates;
      LatestLength(Interactions(updates));
      ignored := ignored + (|updates| - (ignored + |latest|));
      SortKeepsAll(latest);
      chosen := SortById(latest);
    } else {
      for n := 0 to |updates|
        invariant chosen == Interactions(updates[..n])
        invariant ignored == n - |chosen|
      {
        assert updates[..n + 1][..n] == updates[..n];
        match InteractionFromUpdate(updates[n]) {
          case Some(i) => chosen := chosen + [i];
          case None => ignored := ignored + 1;
        }
      }
      assert updates[..|updates|] == updates;
    }
  }

  lemma {:induction false} PutLength(entries: seq<Interaction>, i: Interaction)
    ensures |Put(entries, i)| <= |entries| + 1
  {
    if entries != [] { PutLength(entries[1..], i); }
  }

  lemma {:induction false} LatestLength(interactions: seq<Interaction>)
    ensures |Latest(interactions)| <= |interactions|
  {
    hide Put;
    if interactions != [] {
      var last := |interactions| - 1;
      LatestLength(interactions[..last]);
      PutLength(Latest(interactions[..last]), interactions[last]);
    }
  }

  lemma {:induction false} InsertKeeps(sorted: seq<Interaction>, i: Interaction)
    ensures multiset(InsertById(sorted, i)) == multiset(sorted) + multiset{i}
    ensures |InsertById(sorted, i)| == |sorted| + 1
  {
    if sorted != [] {
      var last := |sorted| - 1;
      assert sorted == sorted[..last] + [sorted[last]];
      InsertKeeps(sorted[..last], i);
    }
  }

  lemma {:induction false} SortKeepsAll(interactions: seq<Interaction>)
    ensures multiset(SortById(interactions)) == multiset(interactions)
    ensures |SortById(interactions)| == |interactions|
  {
    hide InsertById;
    if interactions != [] {
      var last := |interactions| - 1;
      SortKeepsAll(interactions[..last]);
      InsertKeeps(SortById(interactions[..last]), interactions[last]);
      assert interactions == interactions[..last] + [interactions[last]];
    }
  }

  // ---- Which interaction of a chat is answered ----------------------------

  // The last interaction of a chat in a batch.
  function LastOf(interactions: seq<Interaction>, chat: int): Option<Interaction> {
    if interactions == [] then None
    else if interactions[|interactions| - 1].message.chatId == chat then Some(interactions[|interactions| - 1])
    else LastOf(interactions[..|interactions| - 1], chat)
  }

  predicate InChatOrder(entries: seq<Interaction>) {
    forall j, k :: 0 <= j < k < |entries| ==> entries[j].message.chatId < entries[k].message.chatId
  }

  lemma RestInOrder(entries: seq<Interaction>)
    requires InChatOrder(entries) && entries != []
    ensures InChatOrder(entries[1..])
    ensures forall x :: x in entries[1..] ==> entries[0].message.chatId < x.message.chatId
  {
  }

  lemma PutFirst(first: Interaction, rest: seq<Interaction>)
    requires InChatOrder(rest) && forall x :: x in rest ==> first.message.chatId < x.message.chatId
    ensures InChatOrder([first] + rest)
  {
  }

  lemma {:induction false} PutMeaning(entries: seq<Interaction>, i: Interaction)
    requires InChatOrder(entries)
    ensures InChatOrder(Put(entries, i))
    ensures forall x :: x in Put(entries, i) <==> x == i || (x in entries && x.message.chatId != i.message.chatId)
  {
    hide InChatOrder;
    if entries == [] {
      PutFirst(i, []) by { EmptyInOrder(); }
    } else {
      var first, rest := entries[0], entries[1..];
      assert entries == [first] + rest;
      RestInOrder(entries);
      if i.message.chatId < first.message.chatId {
        PutFirst(i, entries);
      } else if i.message.chatId == first.message.chatId {
        PutFirst(i, rest);
      } else {
        PutMeaning(rest, i);
        PutFirst(first, Put(rest, i));
      }
    }
  }

  lemma {:induction false} LatestMeaning(interactions: seq<Interaction>)
    ensures InChatOrder(Latest(interactions))
    ensures forall x :: x in Latest(interactions) <==> LastOf(interactions, x.message.chatId) == Some(x)
  {
    hide Put, InChatOrder;
    if interactions != [] {
      var last := |interactions| - 1;
      LatestMeaning(interactions[..last]);
      PutMeaning(Latest(interactions[..last]), interactions[last]);
    } else {
      assert InChatOrder([]) by { EmptyInOrder(); }
    }
  }

  lemma EmptyInOrder()
    ensures InChatOrder([])
  {
  }

  predicate ById(interactions: seq<Interaction>) {
    forall j, k :: 0 <= j < k < |interactions| ==> interactions[j].updateId <= interactions[k].updateId
  }

  predicate AtMost(interactions: seq<Interaction>, bound: int) {
    forall j :: 0 <= j < |interactions| ==> interactions[j].updateId <= bound
  }

  lemma {:induction false} InsertAtMost(sorted: seq<Interaction>, i: Interaction, bound: int)
    requires AtMost(sorted, bound) && i.updateId <= bound
    ensures AtMost(InsertById(sorted, i), bound)
  {
    if sorted != [] && sorted[|sorted| - 1].updateId > i.updateId {
      InsertAtMost(sorted[..|sorted| - 1], i, bound);
    }
  }

  lemma {:induction false} Extended(sorted: seq<Interaction>, top: Interaction)
    requires ById(sorted) && AtMost(sorted, top.updateId)
    ensures ById(sorted + [top])
  {
  }

  lemma {:induction false} FrontSorted(sorted: seq<Interaction>)
    requires sorted != [] && ById(sorted)
    ensures ById(sorted[..|sorted| - 1])
    ensures AtMost(sorted[..|sorted| - 1], sorted[|sorted| - 1].updateId)
    ensures AtMost(sorted, sorted[|sorted| - 1].updateId)
  {
  }

  lemma AllOf(sorted: seq<Interaction>, small: int, large: int)
    requires AtMost(sorted, small) && small <= large
    ensures AtMost(sorted, large)
  {
  }

  lemma {:induction false} InsertSorts(sorted: seq<Interaction>, i: Interaction)
    requires ById(sorted)
    ensures ById(InsertById(sorted, i))
  {
    hide ById, AtMost;
    if sorted == [] {
      assert sorted + [i] == [i];
      Single(i);
    } else {
      var front, top := sorted[..|sorted| - 1], sorted[|sorted| - 1];
      FrontSorted(sorted);
      if top.updateId <= i.updateId {
        AllOf(sorted, top.updateId, i.updateId);
        Extended(sorted, i);
      } else {
        InsertSorts(front, i);
        InsertAtMost(front, i, top.updateId);
        Extended(InsertById(front, i), top);
      }
    }
  }

  lemma Single(i: Interaction)
    ensures ById([i])
  {
  }

  lemma {:induction false} SortSorts(interactions: seq<Interaction>)
    ensures ById(SortById(interactions))
  {
    hide InsertById, ById;
    if interactions != [] {
      SortSorts(interactions[..|interactions| - 1]);
      InsertSorts(SortById(interactions[..|interactions| - 1]), interactions[|interactions| - 1]);
    } else {
      assert ById([]) by { EmptyById(); }
    }
  }

  lemma EmptyById()
    ensures ById([])
  {
  }

  // The first batch answers each chat once, with its last interaction, oldest
  // update first; later batches answer every interaction.
  lemma {:induction false} SelectedMeaning(updates: seq<Update>, x: Interaction)
    ensures ById(Selected(updates, true))
    ensures x in Selected(updates, true) <==> LastOf(Interactions(updates), x.message.chatId) == Some(x)
    ensures multiset(Selected(updates, true))[x] <= 1
    ensures Selected(updates, false) == Interactions(updates)
  {
    hide SortById, ById, Latest, LastOf, InChatOrder;
    var chosen, latest := Selected(updates, true), Latest(Interactions(updates));
    SortSorts(latest);
    SortKeepsAll(latest);
    LatestMeaning(Interactions(updates));
    assert x in chosen <==> x in multiset(chosen);
    assert x in latest <==> x in multiset(latest);
    OncePerChat(latest, x);
  }

  lemma {:induction false} OncePerChat(entries: seq<Interaction>, x: Interaction)
    requires InChatOrder(entries)
    ensures multiset(entries)[x] <= 1
  {
    if entries != [] {
      var rest := entries[1..];
      assert entries == [entries[0]] + rest;
      OncePerChat(rest, x);
      if x == entries[0] {
        assert x !in rest;
        assert multiset(rest)[x] == 0;
      }
    }
  }

  // ---- One polling cycle --------------------------------------------------

  const I64_MAX: int := 0x7fff_ffff_ffff_ffff

  // `max()` of the update ids, plus one unless that overflows.
  function MaxId(updates: seq<Update>): Option<int> {
    if updates == [] then None
    else
      var last := updates[|updates| - 1].updateId;
      match MaxId(updates[..|updates| - 1])
      case None => Some(last)
      case Some(m) => if last >= m then Some(last) else Some(m)
  }

  function NextUpdateId(updates: seq<Update>): Option<int> {
    match MaxId(updates)
    case None => None
    case Some(m) => if m < I64_MAX then Some(m + 1) else None
  }

  // The offset to move to is one past the largest id, unless that is the last
  // number there is.
  lemma {:induction false} NextUpdateIdIs(updates: seq<Update>, next: int)
    ensures NextUpdateId(updates) == Some(next) <==>
      && next <= I64_MAX && (exists u :: u in updates && u.updateId == next - 1)
      && forall u :: u in updates ==> u.updateId <= next - 1
  {
    MaxIdIs(updates);
    hide MaxId;
    if updates != [] {
      var i :| 0 <= i < |updates| && updates[i].updateId == MaxId(updates).value;
      assert updates[i] in updates;
    }
  }

  lemma {:induction false} MaxIdIs(updates: seq<Update>)
    ensures MaxId(updates).None? <==> updates == []
    ensures MaxId(updates).Some? ==>
      (forall i :: 0 <= i < |updates| ==> updates[i].updateId <= MaxId(updates).value)
      && exists i :: 0 <= i < |updates| && updates[i].updateId == MaxId(updates).value
  {
    if updates != [] {
      var front := updates[..|updates| - 1];
      MaxIdIs(front);
      if MaxId(updates) == MaxId(front) && front != [] {
        var i :| 0 <= i < |front| && front[i].updateId == MaxId(front).value;
        assert updates[i].updateId == MaxId(updates).value;
      }
    }
  }

  class UpdateState {
    var nextUpdateId: int

    constructor ()
      ensures nextUpdateId == 0
    {
      nextUpdateId := 0;
    }

    // The upsert with GREATEST; a negative offset is refused.
    method Advance(next: int) returns (ok: bool)
      modifies this
      ensures ok <==> next >= 0
      ensures nextUpdateId == if ok && next > old(nextUpdateId) then next else old(nextUpdateId)
    {
      if next < 0 { return false; }
      if next > nextUpdateId { nextUpdateId := next; }
      ok := true;
    }
  }

  // A cycle that received a batch: the stored offset moves past the batch exactly
  // when every interaction selected from it passed and the delivery of user
  // feedback in between did not fail.
  method RunInteractionCycle(store: UpdateState, updates: seq<Update>, context: Context, answers: nat -> Answer,
                             feedbackFails: bool)
    returns (completed: bool)
    modifies store
    ensures completed <==>
      (NextUpdateId(updates).Some? && AllPass(context, Selected(updates, old(store.nextUpdateId) == 0), answers)
       && !feedbackFails && NextUpdateId(updates).value >= 0)
    ensures completed ==>
      store.nextUpdateId == Max(old(store.nextUpdateId), NextUpdateId(updates).value)
    ensures !completed ==> store.nextUpdateId == old(store.nextUpdateId)
  {
    hide NextUpdateId, Selected, AllPass;
    completed := false;
    var next := NextUpdateId(updates);
    if next.None? { return; }
    var offset := store.nextUpdateId;
    var r := ProcessInteractionUpdates(updates, offset == 0, context, answers);
    if r.Err? || feedbackFails { return; }
    if r.value.1 {
      completed := store.Advance(next.value);
    }
  }

  function Max(a: int, b: int): int {
    if a >= b then a else b
  }
}
