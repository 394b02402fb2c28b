// What the crawler reads back from a snapshot with appended scripts.
module SnapshotRoundTrip {
  import opened Prelude
  import opened ScriptScanner
  import opened ScriptExtraction
  import opened Snapshot

  // ---- When the first appended block is recovered --------------------------

  // What is left of a page after its last complete script element.
  function LeftOver(s: string): string
    decreases |s|
  {
    match NextBlock(s)
    case None => s
    case Some(b) => LeftOver(b.rest)
  }

  lemma {:induction false} LeftOverStops(s: string)
    ensures NextBlock(LeftOver(s)).None?
    ensures Settled(s) <==> Find(LeftOver(s), 0, SCRIPT).None?
    decreases |s|
  {
    hide NextBlock, Find;
    if NextBlock(s).Some? { LeftOverStops(NextBlock(s).value.rest); }
  }

  lemma {:induction false} ScriptsSplit(s: string, tail: string)
    ensures Scripts(s + tail) == Scripts(s) + Scripts(LeftOver(s) + tail)
    decreases |s|
  {
    hide NextBlock, HasJsonType;
    if NextBlock(s).Some? {
      NextBlockBefore(s, tail);
      ScriptsSplit(NextBlock(s).value.rest, tail);
    }
  }

  // The page ends inside an opening script tag.
  predicate TagLeftOpen(d: string) {
    Find(d, 0, SCRIPT).Some? && IndexOf(d, Find(d, 0, SCRIPT).value, '>').None?
  }

  lemma TagLocated(d: string, tail: string, open: nat, end: nat)
    requires StartsWithBlock(tail, open, end) && TagLeftOpen(d)
    ensures Locate(d + tail, 0) == Some(Place(Find(d, 0, SCRIPT).value, |d| + open, |d| + end))
  {
    hide Find, IndexOf, NoStraddle, StartsWithBlock;
    var start := Find(d, 0, SCRIPT).value;
    BlockParts(tail, open, end);
    FindBefore(d, tail, 0, SCRIPT);
    IndexBeyond(d, tail, start, '>');
    assert (d + tail)[|d|..] == tail;
    FindAfter(d + tail, |d|, open, CLOSE);
  }

  // An open tag swallows the appended one: its element holds the payload.
  lemma TagContinues(d: string, open: string, payload: string, rest: string)
    requires GoodOpen(open) && IsPayload(payload) && TagLeftOpen(d)
    ensures var start := Find(d, 0, SCRIPT).value;
      NextBlock(d + (open + (payload + (CLOSE + rest)))) == Some(Block(d[start..] + open, payload, rest))
  {
    hide Find, IndexOf, Locate, StartsWithBlock, GoodOpen, IsPayload;
    var start, tail := Find(d, 0, SCRIPT).value, open + (payload + (CLOSE + rest));
    BlockStarts(open, payload, rest);
    TagLocated(d, tail, |open|, |open| + |payload|);
    TagSlices(d, start, open, payload, CLOSE, rest);
  }

  lemma TagSlices(d: string, start: nat, open: string, payload: string, close: string, rest: string)
    requires start <= |d|
    ensures var s, end := d + (open + (payload + (close + rest))), |d| + |open| + |payload|;
      s[start..|d| + |open|] == d[start..] + open && s[|d| + |open|..end] == payload && s[end + |close|..] == rest
  {
    PieceSlices(d + open, payload, close, rest);
    assert d + (open + (payload + (close + rest))) == (d + open) + (payload + (close + rest));
    assert ((d + open) + (payload + (close + rest)))[start..|d| + |open|] == (d + open)[start..];
  }

  lemma {:induction false} IndexBeyond(s: string, tail: string, start: nat, c: char)
    requires start <= |s| && IndexOf(s, start, c).None?
    ensures IndexOf(s + tail, start, c) == Shifted(IndexOf(tail, 0, c), |s|)
    decreases |s| - start
  {
    if start < |s| {
      IndexBeyond(s, tail, start + 1, c);
    } else {
      assert (s + tail)[|s|..] == tail;
      IndexAfter(s + tail, |s|, 0, c);
    }
  }

  lemma ContentLocated(d: string, tail: string, open: nat, end: nat)
    requires StartsWithBlock(tail, open, end)
    requires Find(d, 0, SCRIPT).Some? && !TagLeftOpen(d)
    requires Find(d, IndexOf(d, Find(d, 0, SCRIPT).value, '>').value + 1, CLOSE).None?
    ensures var start := Find(d, 0, SCRIPT).value;
      Locate(d + tail, 0) == Some(Place(start, IndexOf(d, start, '>').value + 1, |d| + end))
  {
    hide Find, IndexOf, NoStraddle, StartsWithBlock;
    var start := Find(d, 0, SCRIPT).value;
    var tagEnd := IndexOf(d, start, '>').value;
    BlockParts(tail, open, end);
    FindBefore(d, tail, 0, SCRIPT);
    IndexBefore(d, tail, start, '>');
    CloseCannotStraddle(tail);
    FindBeyond(d, tail, tagEnd + 1, CLOSE);
  }

  // An element left open swallows the appended block into its content.
  lemma ContentContinues(d: string, open: string, payload: string, rest: string)
    requires GoodOpen(open) && IsPayload(payload)
    requires NextBlock(d).None? && Find(d, 0, SCRIPT).Some? && !TagLeftOpen(d)
    ensures var tagEnd := IndexOf(d, Find(d, 0, SCRIPT).value, '>').value;
      NextBlock(d + (open + (payload + (CLOSE + rest))))
      == Some(Block(d[Find(d, 0, SCRIPT).value..tagEnd + 1], d[tagEnd + 1..] + (open + payload), rest))
  {
    hide Find, IndexOf;
    var start, tail := Find(d, 0, SCRIPT).value, open + (payload + (CLOSE + rest));
    BlockStarts(open, payload, rest);
    ContentLocated(d, tail, |open|, |open| + |payload|);
    hide Locate, StartsWithBlock;
    MiddleSlices(d, start, IndexOf(d, start, '>').value + 1, open, payload, CLOSE, rest);
  }

  lemma MiddleSlices(d: string, i: nat, k: nat, a: string, b: string, c: string, rest: string)
    requires i <= k <= |d|
    ensures var s, end := d + (a + (b + (c + rest))), |d| + |a| + |b|;
      s[i..k] == d[i..k] && s[k..end] == d[k..] + (a + b) && s[end + |c|..] == rest
  {
  }

  lemma CloseCannotStraddle(tail: string)
    requires tail == "" || tail[0] == '<'
    ensures NoStraddle(CLOSE, tail) && NoStraddle(SCRIPT, tail)
  {
  }

  ghost predicate Recovered(html: string, payload: string, rest: string, page: string) {
    Scripts(page) == Scripts(html) + ([payload] + Scripts(rest))
  }

  // For any opening tag of a JSON script.
  lemma TagRecovered(html: string, open: string, payload: string, rest: string)
    requires GoodOpen(open) && HasJsonType(open) && IsPayload(payload)
    ensures var d := LeftOver(html);
      Recovered(html, payload, rest, html + (open + (payload + (CLOSE + rest)))) <==>
        Settled(html)
        || (TagLeftOpen(d) && HasJsonType(d[Find(d, 0, SCRIPT).value..] + open))
  {
    hide NextBlock, HasJsonType, Find, LeftOver, Settled, Scripts, IndexOf;
    var d, tail := LeftOver(html), open + (payload + (CLOSE + rest));
    ScriptsSplit(html, tail);
    LeftOverStops(html);
    if Find(d, 0, SCRIPT).None? {
      SettledBlock(d, open, payload, rest);
    } else {
      PendingBlock(d, open, payload, rest);
    }
    Cancel(Scripts(html), Scripts(d + tail), [payload] + Scripts(rest));
  }

  // An appended block is read back, after the page's own scripts and before what
  // follows, exactly when the page's scan settles, or the page ends inside a
  // script tag that the appended tag turns into a JSON one.
  lemma {:induction false} BlockRecovered(html: string, source: string, payload: string, rest: string)
    requires GoodSource(source) && IsPayload(payload)
    ensures var d := LeftOver(html);
      Recovered(html, payload, rest, html + (Open(source) + (payload + (CLOSE + rest)))) <==>
        Settled(html)
        || (TagLeftOpen(d) && HasJsonType(d[Find(d, 0, SCRIPT).value..] + Open(source)))
  {
    hide Recovered, Settled, TagLeftOpen, HasJsonType, Find, LeftOver, Open, GoodOpen;
    OpenIsGood(source);
    TagRecovered(html, Open(source), payload, rest);
  }

  lemma Cancel(a: seq<string>, x: seq<string>, y: seq<string>)
    ensures a + x == a + y <==> x == y
  {
    assert (a + x)[|a|..] == x && (a + y)[|a|..] == y;
  }

  lemma Differs(content: string, payload: string, rest: seq<string>, json: bool)
    requires |content| > |payload|
    ensures (if json then [content] else []) + rest != [payload] + rest
  {
    assert ([content] + rest)[0] == content && ([payload] + rest)[0] == payload;
  }

  lemma SettledBlock(d: string, open: string, payload: string, rest: string)
    requires GoodOpen(open) && HasJsonType(open) && IsPayload(payload)
    requires Find(d, 0, SCRIPT).None?
    ensures Scripts(d + (open + (payload + (CLOSE + rest)))) == [payload] + Scripts(rest)
  {
    hide NextBlock, HasJsonType, NoStraddle;
    var tail := open + (payload + (CLOSE + rest));
    assert tail[0] == open[..|SCRIPT|][0] == '<';
    CloseCannotStraddle(tail);
    NextBlockBeyond(d, tail);
    PrintedBlock(open, payload, rest);
  }

  lemma PendingBlock(d: string, open: string, payload: string, rest: string)
    requires GoodOpen(open) && IsPayload(payload)
    requires NextBlock(d).None? && Find(d, 0, SCRIPT).Some?
    ensures Scripts(d + (open + (payload + (CLOSE + rest)))) == [payload] + Scripts(rest) <==>
      TagLeftOpen(d) && HasJsonType(d[Find(d, 0, SCRIPT).value..] + open)
  {
    hide NextBlock, HasJsonType, Find, IndexOf;
    if TagLeftOpen(d) {
      TagContinues(d, open, payload, rest);
    } else {
      ContentContinues(d, open, payload, rest);
      var b := NextBlock(d + (open + (payload + (CLOSE + rest)))).value;
      Differs(b.content, payload, Scripts(rest), HasJsonType(b.tag));
    }
  }

  // ---- The whole snapshot -------------------------------------------------

  datatype Piece = Piece(source: string, payload: string)

  function PrintAll(pieces: seq<Piece>): string {
    if pieces == [] then "" else Open(pieces[0].source) + (pieces[0].payload + (CLOSE + PrintAll(pieces[1..])))
  }

  function Payloads(pieces: seq<Piece>): seq<string> {
    if pieces == [] then [] else [pieces[0].payload] + Payloads(pieces[1..])
  }

  predicate GoodPieces(pieces: seq<Piece>) {
    forall i :: 0 <= i < |pieces| ==> GoodSource(pieces[i].source) && IsPayload(pieces[i].payload)
  }

  lemma {:induction false} PiecesRead(pieces: seq<Piece>)
    requires GoodPieces(pieces)
    ensures Scripts(PrintAll(pieces)) == Payloads(pieces)
    decreases |pieces|
  {
    hide NextBlock, HasJsonType, Open, GoodOpen, GoodSource, IsPayload;
    if pieces != [] {
      OpenIsGood(pieces[0].source);
      PrintedBlock(Open(pieces[0].source), pieces[0].payload, PrintAll(pieces[1..]));
      PiecesRead(pieces[1..]);
    } else {
      NoScripts();
    }
  }

  lemma NoScripts()
    ensures Scripts("") == []
  {
  }

  function PieceSize(p: Piece): nat {
    |Open(p.source)| + |p.payload| + |CLOSE|
  }

  // The raw payloads that still fit, in order, and the bytes then used.
  function Fit(payloads: seq<string>, used: nat): (seq<Piece>, nat) {
    if payloads == [] then ([], used)
    else
      var (pieces, bytes) := Fit(payloads[..|payloads| - 1], used);
      var piece := Piece("graphql", payloads[|payloads| - 1]);
      if bytes + PieceSize(piece) > SNAPSHOT_LIMIT then (pieces, bytes)
      else (pieces + [piece], bytes + PieceSize(piece))
  }

  // The normalized payload is dropped when it is absent, empty or too long.
  function Head(normalized: Option<string>): seq<Piece> {
    if normalized.Some? && normalized.value != "" && |normalized.value| <= NORMALIZED_LIMIT
    then [Piece("graphql-normalized", normalized.value)] else []
  }

  function Size(pieces: seq<Piece>): nat {
    if pieces == [] then 0 else PieceSize(pieces[0]) + Size(pieces[1..])
  }

  function Appended(normalized: Option<string>, payloads: seq<string>): seq<Piece> {
    Head(normalized) + Fit(payloads, Size(Head(normalized))).0
  }

  function Join(parts: seq<string>): string {
    if parts == [] then "" else parts[0] + Join(parts[1..])
  }

  function PrintEach(pieces: seq<Piece>): seq<string> {
    if pieces == [] then []
    else [Printed(pieces[0].source, pieces[0].payload)] + PrintEach(pieces[1..])
  }

  lemma {:induction false} PrintEachLast(pieces: seq<Piece>, last: Piece)
    ensures PrintEach(pieces + [last]) == PrintEach(pieces) + [Printed(last.source, last.payload)]
  {
    hide Printed;
    if pieces != [] {
      assert (pieces + [last])[1..] == pieces[1..] + [last];
      PrintEachLast(pieces[1..], last);
    }
  }

  lemma {:induction false} JoinPrinted(pieces: seq<Piece>)
    ensures Join(PrintEach(pieces)) == PrintAll(pieces)
  {
    hide Open;
    if pieces != [] {
      JoinPrinted(pieces[1..]);
      assert PrintEach(pieces)[1..] == PrintEach(pieces[1..]);
      Regroup(Open(pieces[0].source), pieces[0].payload, CLOSE, PrintAll(pieces[1..]));
    }
  }

  lemma Regroup(a: string, b: string, c: string, d: string)
    ensures (a + (b + c)) + d == a + (b + (c + d))
  {
  }

  method AppendGraphqlSnapshot(html: string, normalized: Option<string>, payloads: seq<string>) returns (page: string)
    ensures page == html + PrintAll(Appended(normalized, payloads))
  {
    hide PieceSize, PrintAll, Printed, Join;
    var scripts: seq<string> := [];
    var scriptBytes := 0;
    ghost var pieces := Head(normalized);
    if normalized.Some? && normalized.value != "" && |normalized.value| <= NORMALIZED_LIMIT {
      var script := Printed("graphql-normalized", normalized.value);
      scripts := scripts + [script];
      PrintedSize("graphql-normalized", normalized.value);
      scriptBytes := scriptBytes + |script|;
      assert pieces[1..] == [];
    }
    for i := 0 to |payloads|
      invariant pieces == Head(normalized) + Fit(payloads[..i], Size(Head(normalized))).0
      invariant scripts == PrintEach(pieces)
      invariant scriptBytes == Fit(payloads[..i], Size(Head(normalized))).1
    {
      var payload := payloads[i];
      assert payloads[..i + 1][..i] == payloads[..i];
      var script := Printed("graphql", payload);
      PrintedSize("graphql", payload);
      if scriptBytes + |script| > SNAPSHOT_LIMIT {
        continue;
      }
      PrintEachLast(pieces, Piece("graphql", payload));
      pieces := pieces + [Piece("graphql", payload)];
      scripts := scripts + [script];
      scriptBytes := scriptBytes + |script|;
    }
    assert payloads[..|payloads|] == payloads;
    JoinPrinted(pieces);
    page := if |scripts| == 0 then html else html + Join(scripts);
    NothingJoined();
  }

  lemma NothingJoined()
    ensures Join([]) == "" && forall s: string :: s + "" == s
  {
  }

  lemma PrintedSize(source: string, payload: string)
    ensures |Printed(source, payload)| == PieceSize(Piece(source, payload))
  {
  }

  // ---- Round trip and budgets ---------------------------------------------

  lemma {:induction false} FitGood(payloads: seq<string>, used: nat)
    requires forall i :: 0 <= i < |payloads| ==> IsPayload(payloads[i])
    ensures GoodPieces(Fit(payloads, used).0)
  {
    hide Open, IsPayload, GoodSource;
    if payloads != [] {
      GraphqlSources();
      FitGood(payloads[..|payloads| - 1], used);
    }
  }

  lemma GraphqlSources()
    ensures GoodSource("graphql") && GoodSource("graphql-normalized")
  {
  }

  lemma PrintAllStart(pieces: seq<Piece>)
    requires GoodPieces(pieces)
    ensures NoStraddle(SCRIPT, PrintAll(pieces))
  {
  }

  // The crawler reads back the scripts of a settled page followed by exactly the
  // payloads the agent chose to append, in order, whatever JSON they hold.
  lemma {:induction false} SnapshotRead(html: string, normalized: Option<string>, jsons: seq<string>)
    requires Settled(html)
    ensures var payloads := seq(|jsons|, i requires 0 <= i < |jsons| => Escape(jsons[i]));
      var head := if normalized.Some? then Some(Escape(normalized.value)) else None;
      var pieces := Appended(head, payloads);
      Scripts(html + PrintAll(pieces)) == Scripts(html) + Payloads(pieces)
  {
    var payloads := seq(|jsons|, i requires 0 <= i < |jsons| => Escape(jsons[i]));
    var head := if normalized.Some? then Some(Escape(normalized.value)) else None;
    var pieces := Appended(head, payloads);
    assert GoodPieces(pieces) by {
      hide Open, Size;
      GraphqlSources();
      FitGood(payloads, Size(Head(head)));
    }
    hide Appended, PrintAll, Settled, NoStraddle;
    PrintAllStart(pieces);
    ScriptsAppend(html, PrintAll(pieces));
    PiecesRead(pieces);
  }

  // When anything is appended, the crawler reads back exactly that exactly when
  // the page settles, or ends inside a script tag that the first appended tag
  // turns into a JSON one.
  lemma {:induction false} SnapshotReadIff(html: string, pieces: seq<Piece>)
    requires GoodPieces(pieces) && pieces != []
    ensures var d := LeftOver(html);
      Scripts(html + PrintAll(pieces)) == Scripts(html) + Payloads(pieces) <==>
        Settled(html)
        || (TagLeftOpen(d) && HasJsonType(d[Find(d, 0, SCRIPT).value..] + Open(pieces[0].source)))
  {
    hide Scripts, Settled, TagLeftOpen, HasJsonType, Find, LeftOver, Open, GoodSource, IsPayload;
    var first, rest := pieces[0], pieces[1..];
    BlockRecovered(html, first.source, first.payload, PrintAll(rest));
    PiecesRead(rest);
  }

  // A page that ends inside a script element, for instance, swallows the first
  // appended block.
  lemma {:induction false} OpenScriptSwallows(pieces: seq<Piece>)
    requires GoodPieces(pieces) && pieces != []
    ensures Scripts("<script>" + PrintAll(pieces)) != Scripts("<script>") + Payloads(pieces)
  {
    hide Scripts, HasJsonType, Open, GoodSource, IsPayload, PrintAll, Payloads;
    SnapshotReadIff("<script>", pieces);
    OpenScript();
    hide Settled, LeftOver, TagLeftOpen;
  }

  lemma OpenScript()
    ensures LeftOver("<script>") == "<script>" && !Settled("<script>") && !TagLeftOpen("<script>")
  {
    var s := "<script>";
    assert MatchesAt(s, 0, SCRIPT);
    assert Find(s, 0, SCRIPT) == Some(0);
    assert IndexOf(s, 0, '>').Some?;
    assert |CLOSE| == 9 && forall c :: 0 <= c <= |s| ==> Find(s, c, CLOSE).None?;
    assert Locate(s, 0).None?;
  }

  lemma {:induction false} SizeConcat(a: seq<Piece>, b: seq<Piece>)
    ensures Size(a + b) == Size(a) + Size(b)
  {
    hide PieceSize;
    if a != [] {
      assert (a + b)[1..] == a[1..] + b;
      SizeConcat(a[1..], b);
    } else {
      assert a + b == b;
    }
  }

  lemma {:induction false} FitSize(payloads: seq<string>, used: nat)
    ensures var (pieces, bytes) := Fit(payloads, used);
      bytes == used + Size(pieces) && (used <= SNAPSHOT_LIMIT ==> bytes <= SNAPSHOT_LIMIT)
  {
    hide PieceSize;
    if payloads != [] {
      var front := Fit(payloads[..|payloads| - 1], used).0;
      var piece := Piece("graphql", payloads[|payloads| - 1]);
      FitSize(payloads[..|payloads| - 1], used);
      SizeConcat(front, [piece]);
      assert [piece][1..] == [];
      assert Size([piece]) == PieceSize(piece) + Size([piece][1..]);
    }
  }

  lemma {:induction false} PrintAllSize(pieces: seq<Piece>)
    ensures |PrintAll(pieces)| == Size(pieces)
  {
    hide Open;
    if pieces != [] { PrintAllSize(pieces[1..]); }
  }

  lemma HeadFits(normalized: Option<string>)
    ensures Size(Head(normalized)) <= SNAPSHOT_LIMIT
  {
  }

  // Whatever is captured, at most 4 MiB of scripts are appended.
  lemma {:induction false} SnapshotBounded(normalized: Option<string>, payloads: seq<string>)
    ensures |PrintAll(Appended(normalized, payloads))| <= SNAPSHOT_LIMIT
  {
    hide Open, PieceSize, PrintAll;
    HeadFits(normalized);
    FitSize(payloads, Size(Head(normalized)));
    SizeConcat(Head(normalized), Fit(payloads, Size(Head(normalized))).0);
    PrintAllSize(Appended(normalized, payloads));
  }

  function Raw(payloads: seq<string>): seq<Piece> {
    if payloads == [] then [] else Raw(payloads[..|payloads| - 1]) + [Piece("graphql", payloads[|payloads| - 1])]
  }

  // Every payload is appended exactly when all of them fit together.
  lemma {:induction false} FitAllIff(payloads: seq<string>, used: nat)
    requires used <= SNAPSHOT_LIMIT
    ensures |Fit(payloads, used).0| <= |payloads|
    ensures |Fit(payloads, used).0| == |payloads| <==> used + Size(Raw(payloads)) <= SNAPSHOT_LIMIT
    ensures |Fit(payloads, used).0| == |payloads| ==> Fit(payloads, used).0 == Raw(payloads)
  {
    hide PieceSize;
    if payloads != [] {
      var front := payloads[..|payloads| - 1];
      var piece := Piece("graphql", payloads[|payloads| - 1]);
      FitAllIff(front, used);
      FitSize(front, used);
      SizeConcat(Raw(front), [piece]);
      assert Size([piece]) == PieceSize(piece) + Size([piece][1..]);
    }
  }
}
