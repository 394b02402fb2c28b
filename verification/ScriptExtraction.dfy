// Extraction of the JSON script blocks of a page.
module ScriptExtraction {
  import opened Prelude
  import opened ScriptScanner

  // Where a complete script element lies: its opening tag starts at `start`, its
  // content at `content`, its closing tag at `end`.
  datatype Place = Place(start: nat, content: nat, end: nat)

  function Locate(s: string, cursor: nat): (r: Option<Place>)
    requires cursor <= |s|
    ensures r.Some? ==> cursor <= r.value.start < r.value.content <= r.value.end && r.value.end + |CLOSE| <= |s|
  {
    match Find(s, cursor, SCRIPT)
    case None => None
    case Some(start) =>
      match IndexOf(s, start, '>')
      case None => None
      case Some(tagEnd) =>
        match Find(s, tagEnd + 1, CLOSE)
        case None => None
        case Some(end) => Some(Place(start, tagEnd + 1, end))
  }

  // An element's opening tag, its content, and what follows its closing tag.
  datatype Block = Block(tag: string, content: string, rest: string)

  function BlockAt(s: string, p: Place): (b: Block)
    requires p.start < p.content <= p.end && p.end + |CLOSE| <= |s|
    ensures |b.rest| < |s|
  {
    Block(s[p.start..p.content], s[p.content..p.end], s[p.end + |CLOSE|..])
  }

  function NextBlock(s: string): (r: Option<Block>)
    ensures r.Some? ==> |r.value.rest| < |s|
  {
    match Locate(s, 0)
    case None => None
    case Some(p) => Some(BlockAt(s, p))
  }

  // The contents of the JSON scripts, in order.
  function Scripts(s: string): seq<string>
    decreases |s|
  {
    match NextBlock(s)
    case None => []
    case Some(b) => (if HasJsonType(b.tag) then [b.content] else []) + Scripts(b.rest)
  }

  // The scan ends because no further `<script` follows, not at one left open.
  predicate Settled(s: string)
    decreases |s|
  {
    match NextBlock(s)
    case None => Find(s, 0, SCRIPT).None?
    case Some(b) => Settled(b.rest)
  }

  // ---- The cursor loop ----------------------------------------------------

  lemma MatchesAfter(s: string, c: nat, i: nat, needle: string)
    requires c <= |s|
    ensures MatchesAt(s[c..], i, needle) == MatchesAt(s, c + i, needle)
  {
  }

  function Shifted(r: Option<nat>, c: nat): Option<nat> {
    if r.Some? then Some(c + r.value) else None
  }

  lemma {:induction false} FindAfter(s: string, c: nat, start: nat, needle: string)
    requires c <= |s|
    ensures Find(s, c + start, needle) == Shifted(Find(s[c..], start, needle), c)
    decreases |s| - start
  {
    hide MatchesAt;
    if needle != "" && c + start < |s| && |needle| <= |s| - c - start {
      MatchesAfter(s, c, start, needle);
      if !MatchesAt(s, c + start, needle) { FindAfter(s, c, start + 1, needle); }
    }
  }

  lemma {:induction false} IndexAfter(s: string, c: nat, start: nat, ch: char)
    requires c + start <= |s|
    ensures IndexOf(s, c + start, ch) == Shifted(IndexOf(s[c..], start, ch), c)
    decreases |s| - start
  {
  }

  lemma LocateAfter(s: string, c: nat)
    requires c <= |s|
    ensures match Locate(s[c..], 0)
      case None => Locate(s, c).None?
      case Some(p) => Locate(s, c) == Some(Place(c + p.start, c + p.content, c + p.end))
  {
    hide Find, IndexOf;
    FindAfter(s, c, 0, SCRIPT);
    var start := Find(s[c..], 0, SCRIPT);
    if start.Some? {
      IndexAfter(s, c, start.value, '>');
      var tagEnd := IndexOf(s[c..], start.value, '>');
      if tagEnd.Some? { FindAfter(s, c, tagEnd.value + 1, CLOSE); }
    }
  }

  lemma NextBlockAfter(s: string, c: nat)
    requires c <= |s|
    ensures NextBlock(s[c..]) == match Locate(s, c) case None => None case Some(p) => Some(BlockAt(s, p))
  {
    hide Locate;
    LocateAfter(s, c);
    var q := Locate(s[c..], 0);
    if q.Some? {
      var p := q.value;
      assert s[c..][p.start..p.content] == s[c + p.start..c + p.content];
      assert s[c..][p.content..p.end] == s[c + p.content..c + p.end];
      assert s[c..][p.end + |CLOSE|..] == s[c + p.end + |CLOSE|..];
    }
  }

  method ExtractJsonScripts(html: string) returns (scripts: seq<string>)
    ensures scripts == Scripts(html)
  {
    hide HasJsonType, NextBlock, Find, IndexOf;
    scripts := [];
    var cursor := 0;
    assert html[0..] == html;
    while true
      invariant cursor <= |html|
      invariant scripts + Scripts(html[cursor..]) == Scripts(html)
      decreases |html| - cursor
    {
      NextBlockAfter(html, cursor);
      var start := Find(html, cursor, SCRIPT);
      if start.None? { break; }
      var tagEnd := IndexOf(html, start.value, '>');
      if tagEnd.None? { break; }
      var content := tagEnd.value + 1;
      var end := Find(html, content, CLOSE);
      if end.None? { break; }
      var json := TagHasJsonType(html[start.value..content]);
      if json {
        scripts := scripts + [html[content..end.value]];
      }
      cursor := end.value + |CLOSE|;
    }
  }

  // ---- Text appended to a page --------------------------------------------

  // Nothing that starts in `s` can run over into a text starting with '<'.
  predicate NoStraddle(needle: string, tail: string) {
    tail == "" || forall i :: 0 < i < |needle| ==> Lower(needle[i]) != Lower(tail[0])
  }

  lemma MatchesBefore(s: string, tail: string, i: nat, needle: string)
    requires i + |needle| <= |s|
    ensures MatchesAt(s + tail, i, needle) == MatchesAt(s, i, needle)
  {
  }

  lemma {:induction false} FindBefore(s: string, tail: string, start: nat, needle: string)
    requires Find(s, start, needle).Some?
    ensures Find(s + tail, start, needle) == Find(s, start, needle)
    decreases |s| - start
  {
    hide MatchesAt;
    MatchesBefore(s, tail, start, needle);
    if !MatchesAt(s, start, needle) { FindBefore(s, tail, start + 1, needle); }
  }

  lemma Straddling(s: string, tail: string, i: nat, needle: string)
    requires i < |s| < i + |needle| && NoStraddle(needle, tail)
    ensures !MatchesAt(s + tail, i, needle)
  {
    if i + |needle| <= |s + tail| {
      var k := |s| - i;
      assert (s + tail)[i..i + |needle|][k] == tail[0];
    }
  }

  lemma {:induction false} FindBeyond(s: string, tail: string, start: nat, needle: string)
    requires needle != "" && Find(s, start, needle).None? && start <= |s| && NoStraddle(needle, tail)
    ensures Find(s + tail, start, needle) == Shifted(Find(tail, 0, needle), |s|)
    decreases |s| - start
  {
    hide MatchesAt;
    hide NoStraddle;
    if start == |s| {
      FindAfter(s + tail, |s|, 0, needle);
      assert (s + tail)[|s|..] == tail;
    } else if |needle| > |s + tail| - start {
      FindShort(tail, 0, needle);
    } else {
      if |needle| > |s| - start {
        Straddling(s, tail, start, needle);
        FindShort(s, start + 1, needle);
      } else {
        MatchesBefore(s, tail, start, needle);
      }
      FindBeyond(s, tail, start + 1, needle);
    }
  }

  lemma FindShort(s: string, start: nat, needle: string)
    requires start >= |s| || |needle| > |s| - start
    ensures Find(s, start, needle).None?
  {
  }

  lemma {:induction false} IndexBefore(s: string, tail: string, start: nat, c: char)
    requires start <= |s| && IndexOf(s, start, c).Some?
    ensures IndexOf(s + tail, start, c) == IndexOf(s, start, c)
    decreases |s| - start
  {
    if s[start] != c { IndexBefore(s, tail, start + 1, c); }
  }

  lemma NextBlockBefore(s: string, tail: string)
    requires NextBlock(s).Some?
    ensures var b := NextBlock(s).value;
      NextBlock(s + tail) == Some(Block(b.tag, b.content, b.rest + tail))
  {
    hide Find, IndexOf;
    var p := Locate(s, 0).value;
    FindBefore(s, tail, 0, SCRIPT);
    IndexBefore(s, tail, p.start, '>');
    FindBefore(s, tail, p.content, CLOSE);
    assert Locate(s + tail, 0) == Some(p);
    assert (s + tail)[p.start..p.content] == s[p.start..p.content];
    assert (s + tail)[p.content..p.end] == s[p.content..p.end];
    assert (s + tail)[p.end + |CLOSE|..] == s[p.end + |CLOSE|..] + tail;
  }

  lemma NextBlockBeyond(s: string, tail: string)
    requires Find(s, 0, SCRIPT).None? && NoStraddle(SCRIPT, tail)
    ensures NextBlock(s + tail) == NextBlock(tail)
  {
    hide Find, IndexOf, NoStraddle;
    FindBeyond(s, tail, 0, SCRIPT);
    assert (s + tail)[|s|..] == tail && (s + tail)[0..] == s + tail;
    FindAfter(s + tail, |s|, 0, SCRIPT);
    assert Locate(s + tail, 0) == Locate(s + tail, |s|);
    NextBlockAfter(s + tail, |s|);
  }

  // Scripts appended to a page whose scan settles are found after its own.
  lemma {:induction false} ScriptsAppend(s: string, tail: string)
    requires Settled(s) && NoStraddle(SCRIPT, tail)
    ensures Scripts(s + tail) == Scripts(s) + Scripts(tail)
    decreases |s|
  {
    hide NextBlock, NoStraddle, HasJsonType;
    if NextBlock(s).None? {
      NextBlockBeyond(s, tail);
    } else {
      NextBlockBefore(s, tail);
      ScriptsAppend(NextBlock(s).value.rest, tail);
    }
  }
}
