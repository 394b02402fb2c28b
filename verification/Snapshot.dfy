// The browser agent's snapshot printer, and what the crawler's scanner reads
// back from it. Text is a sequence of bytes, as in ScriptScanner.
module Snapshot {
  import opened Prelude
  import opened ScriptScanner
  import opened ScriptExtraction
  import opened TagGrammar

  const SNAPSHOT_LIMIT: nat := 4 * 1024 * 1024
  const NORMALIZED_LIMIT: nat := 1024 * 1024

  // ---- Payloads -----------------------------------------------------------

  const ESCAPED := "\\u003c"

  // `replaceAll("<", "\\u003c")` on serialized JSON.
  function Escape(json: string): (r: string)
    ensures forall i :: 0 <= i < |r| ==> r[i] != '<'
  {
    if json == "" then ""
    else (if json[0] == '<' then ESCAPED else [json[0]]) + Escape(json[1..])
  }

  predicate IsPayload(p: string) {
    forall i :: 0 <= i < |p| ==> p[i] != '<'
  }

  // ---- Printed blocks -----------------------------------------------------

  function SourceAttrs(source: string): seq<Attr> {
    [Attr(" ", "type", Quoted("", "", '"', "application/json")),
     Attr(" ", "data-uth-source", Quoted("", "", '"', source))]
  }

  // The opening tag of an appended script.
  function Open(source: string): string {
    PrintTag(SourceAttrs(source), "")
  }

  function Printed(source: string, payload: string): string {
    Open(source) + (payload + CLOSE)
  }

  predicate Clean(s: string) {
    forall i :: 0 <= i < |s| ==> s[i] != '<' && s[i] != '>'
  }

  // The source names in use.
  predicate GoodSource(source: string) {
    Clean(source) && All(source, Not('"'))
  }

  // An opening script tag with no other angle bracket in it.
  predicate GoodOpen(open: string) {
    && |open| > |SCRIPT| && open[..|SCRIPT|] == SCRIPT && open[|open| - 1] == '>'
    && (forall i :: 0 < i < |open| ==> open[i] != '<')
    && (forall i :: 0 <= i < |open| - 1 ==> open[i] != '>')
  }

  lemma CleanValue(text: string)
    requires Clean(text)
    ensures Clean(PrintValue(Quoted("", "", '"', text)))
  {
  }

  lemma CleanAttr(a: Attr, rest: string)
    requires Clean(a.lead) && Clean(a.name) && Clean(PrintValue(a.value)) && Clean(rest)
    ensures Clean(a.lead + (a.name + (PrintValue(a.value) + rest)))
  {
  }

  lemma PrintTwo(a: Attr, b: Attr)
    ensures PrintAttrs([a, b]) == a.lead + (a.name + (PrintValue(a.value)
                                  + (b.lead + (b.name + (PrintValue(b.value) + "")))))
  {
    hide PrintValue;
    var one, two := [b], [a, b];
    assert two[1..] == one && one[1..] == [];
    assert PrintAttrs(one[1..]) == "";
    assert PrintAttrs(one) == b.lead + (b.name + (PrintValue(b.value) + ""));
    assert PrintAttrs(two) == a.lead + (a.name + (PrintValue(a.value) + PrintAttrs(one)));
  }

  lemma TypeAttrGood()
    ensures GoodAttr(Attr(" ", "type", Quoted("", "", '"', "application/json")))
  {
  }

  lemma SourceNameGood()
    ensures All("data-uth-source", Name)
  {
  }

  lemma SourceAttrGood(source: string)
    requires GoodSource(source)
    ensures GoodAttr(Attr(" ", "data-uth-source", Quoted("", "", '"', source)))
  {
    assert All(source, Not('"'));
    assert GoodValue(Quoted("", "", '"', source));
    hide GoodValue;
    SourceNameGood();
    assert All(" ", Space);
    hide All;
  }

  lemma SourceListGood(source: string)
    requires GoodSource(source)
    ensures GoodList(SourceAttrs(source))
  {
    hide GoodAttr, GoodSource;
    TypeAttrGood();
    SourceAttrGood(source);
  }

  lemma SourceAttrsClean(source: string)
    requires GoodSource(source)
    ensures Clean(PrintAttrs(SourceAttrs(source)))
  {
    hide PrintAttrs, PrintValue;
    var a, b := SourceAttrs(source)[0], SourceAttrs(source)[1];
    PrintTwo(a, b);
    CleanValue("application/json");
    CleanValue(source);
    CleanAttr(b, "");
    CleanAttr(a, b.lead + (b.name + (PrintValue(b.value) + "")));
  }

  lemma {:induction false} OpenIsGood(source: string)
    requires GoodSource(source)
    ensures GoodOpen(Open(source)) && HasJsonType(Open(source))
  {
    hide HasJsonType, PrintAttrs;
    var attrs := SourceAttrs(source);
    SourceListGood(source);
    SourceAttrsClean(source);
    assert IsJsonType(attrs[0].name, ValueText(attrs[0].value));
    TagAccepted(attrs, "");
    var open, middle := Open(source), PrintAttrs(attrs) + "";
    assert open == SCRIPT + (middle + ['>']);
    assert forall i :: 0 < i < |SCRIPT| ==> SCRIPT[i] != '<' && SCRIPT[i] != '>';
  }

  lemma QuotedText(lead: string, name: string, text: string, rest: string)
    ensures lead + (name + (PrintValue(Quoted("", "", '"', text)) + rest))
            == (lead + name + "=\"") + (text + ("\"" + rest))
  {
    QuotedValue(text);
    hide PrintValue;
    var value := "=\"" + (text + "\"");
    assert value + rest == "=\"" + (text + ("\"" + rest));
    assert lead + (name + ("=\"" + (text + ("\"" + rest)))) == (lead + name + "=\"") + (text + ("\"" + rest));
  }

  lemma QuotedValue(text: string)
    ensures PrintValue(Quoted("", "", '"', text)) == "=\"" + (text + "\"")
  {
  }

  // The tags as the agent writes them.
  lemma OpenText(source: string)
    ensures Open(source) == "<script type=\"" + ("application/json" + ("\" data-uth-source=\"" + (source + "\">")))
  {
    hide PrintAttrs, PrintValue;
    PrintTwo(SourceAttrs(source)[0], SourceAttrs(source)[1]);
    QuotedText(" ", "data-uth-source", source, "");
    var tail := (" " + "data-uth-source" + "=\"") + (source + ("\"" + ""));
    QuotedText(" ", "type", "application/json", tail);
    assert " " + "data-uth-source" + "=\"" == " data-uth-source=\"";
    assert " " + "type" + "=\"" == " type=\"";
    var attrs := PrintAttrs(SourceAttrs(source));
    assert attrs == " type=\"" + ("application/json" + ("\"" + tail));
    CloseTag(source, tail, attrs);
  }

  lemma CloseTag(source: string, tail: string, attrs: string)
    requires tail == " data-uth-source=\"" + (source + "\"")
    requires attrs == " type=\"" + ("application/json" + ("\"" + tail))
    ensures SCRIPT + attrs + "" + ">"
            == "<script type=\"" + ("application/json" + ("\" data-uth-source=\"" + (source + "\">")))
  {
    Literals(source);
    ClosedAfter("\" data-uth-source=\"", source + "\"");
    assert "\"" + tail == ("\"" + " data-uth-source=\"") + (source + "\"");
    ClosedAfter("application/json", "\"" + tail);
    ClosedAfter(SCRIPT + " type=\"", "application/json" + ("\"" + tail));
    assert SCRIPT + attrs + "" == (SCRIPT + " type=\"") + ("application/json" + ("\"" + tail));
  }

  lemma Literals(source: string)
    ensures SCRIPT + " type=\"" == "<script type=\""
    ensures "\"" + " data-uth-source=\"" == "\" data-uth-source=\""
    ensures (source + "\"") + ">" == source + "\">"
  {
  }

  lemma ClosedAfter(a: string, b: string)
    ensures (a + b) + ">" == a + (b + ">")
  {
  }

  // ---- Reading one printed block back -------------------------------------

  lemma NoAngleNoMatch(s: string, i: nat, needle: string)
    requires needle != "" && needle[0] == '<' && i < |s| && s[i] != '<'
    ensures !MatchesAt(s, i, needle)
  {
  }

  lemma {:induction false} FindSkips(s: string, from: nat, to: nat, needle: string)
    requires from <= to < |s| && needle != "" && needle[0] == '<'
    requires forall i :: from <= i < to ==> s[i] != '<'
    ensures Find(s, from, needle) == Find(s, to, needle)
    decreases |s| - from
  {
    hide MatchesAt;
    if from < to {
      NoAngleNoMatch(s, from, needle);
      if |needle| <= |s| - from {
        FindSkips(s, from + 1, to, needle);
      } else {
        FindShort(s, from, needle);
        FindShort(s, to, needle);
      }
    }
  }

  lemma {:induction false} IndexSkips(s: string, from: nat, to: nat, c: char)
    requires from <= to < |s| && s[to] == c
    requires forall i :: from <= i < to ==> s[i] != c
    ensures IndexOf(s, from, c) == Some(to)
    decreases |s| - from
  {
  }

  lemma ScriptIsNotClose(s: string)
    requires |s| >= |SCRIPT| && s[..|SCRIPT|] == SCRIPT
    ensures MatchesAt(s, 0, SCRIPT) && !MatchesAt(s, 0, CLOSE)
  {
    assert s[0..|SCRIPT|] == SCRIPT;
    if |s| >= |CLOSE| { assert s[0..|CLOSE|][1] == s[..|SCRIPT|][1] == 's'; }
  }

  lemma MatchesItself(s: string, i: nat, needle: string)
    requires i + |needle| <= |s| && s[i..i + |needle|] == needle
    ensures MatchesAt(s, i, needle)
  {
  }

  // The text starts with a printed block: an opening tag of length `open`, a
  // payload ending at `end`, a closing tag.
  predicate StartsWithBlock(s: string, open: nat, end: nat) {
    && |SCRIPT| < open <= end && end + |CLOSE| <= |s|
    && s[..|SCRIPT|] == SCRIPT && s[end..end + |CLOSE|] == CLOSE && s[open - 1] == '>'
    && (forall i :: 0 < i < end ==> s[i] != '<')
    && (forall i :: 0 <= i < open - 1 ==> s[i] != '>')
  }

  lemma BlockStarts(open: string, payload: string, rest: string)
    requires GoodOpen(open) && IsPayload(payload)
    ensures StartsWithBlock(open + (payload + (CLOSE + rest)), |open|, |open| + |payload|)
  {
  }

  // Where the parts of a printed block lie.
  lemma BlockParts(s: string, open: nat, end: nat)
    requires StartsWithBlock(s, open, end)
    ensures Find(s, 0, SCRIPT) == Some(0)
    ensures IndexOf(s, 0, '>') == Some(open - 1)
    ensures Find(s, open, CLOSE) == Some(end)
    ensures Find(s, 0, CLOSE) == Some(end)
    ensures s[0] == '<'
  {
    hide MatchesAt;
    assert s[0] == s[..|SCRIPT|][0];
    ScriptIsNotClose(s);
    IndexSkips(s, 0, open - 1, '>');
    assert CLOSE[0] == '<' && s[end] == s[end..end + |CLOSE|][0];
    MatchesItself(s, end, CLOSE);
    FindSkips(s, open, end, CLOSE);
    FindSkips(s, 1, end, CLOSE);
    assert Find(s, 0, CLOSE) == Find(s, 1, CLOSE);
  }

  lemma BlockLocated(s: string, open: nat, end: nat)
    requires StartsWithBlock(s, open, end)
    ensures Locate(s, 0) == Some(Place(0, open, end))
  {
    hide Find, IndexOf, StartsWithBlock;
    BlockParts(s, open, end);
  }

  lemma {:induction false} PrintedBlock(open: string, payload: string, rest: string)
    requires GoodOpen(open) && IsPayload(payload)
    ensures NextBlock(open + (payload + (CLOSE + rest))) == Some(Block(open, payload, rest))
  {
    hide Locate, StartsWithBlock, GoodOpen, IsPayload;
    BlockStarts(open, payload, rest);
    BlockLocated(open + (payload + (CLOSE + rest)), |open|, |open| + |payload|);
    PieceSlices(open, payload, CLOSE, rest);
  }

  lemma PieceSlices(a: string, b: string, c: string, d: string)
    ensures var s := a + (b + (c + d));
      && s[0..|a|] == a && s[|a|..|a| + |b|] == b && s[|a| + |b| + |c|..] == d
  {
  }
}
