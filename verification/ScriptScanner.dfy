// The crawler's hand-written scanner for JSON scripts in an HTML page. Text is
// a sequence of bytes, one per character; letter case is ASCII case.
module ScriptScanner {
  import opened Prelude

  // ---- Characters ---------------------------------------------------------

  function Lower(c: char): char {
    if 'A' <= c <= 'Z' then c - 'A' + 'a' else c
  }

  predicate EqualIgnoringCase(a: string, b: string) {
    |a| == |b| && forall i :: 0 <= i < |a| ==> Lower(a[i]) == Lower(b[i])
  }

  predicate IsSpace(c: char) {
    c == ' ' || c == '\t' || c == '\n' || c == '\r' || c == '\U{c}'
  }

  // The character classes the scanner's inner loops run over.
  datatype Class = Space | SpaceOrClose | Name | Unquoted | Not(quote: char)

  predicate In(c: char, k: Class) {
    match k
    case Space => IsSpace(c)
    case SpaceOrClose => IsSpace(c) || c == '>'
    case Name => !IsSpace(c) && c != '=' && c != '>'
    case Unquoted => !IsSpace(c) && c != '>'
    case Not(quote) => c != quote
  }

  // Length of the longest prefix of `s` within the class.
  function Span(s: string, k: Class): (n: nat)
    ensures n <= |s|
    ensures forall i :: 0 <= i < n ==> In(s[i], k)
    ensures n < |s| ==> !In(s[n], k)
  {
    if s == "" || !In(s[0], k) then 0 else 1 + Span(s[1..], k)
  }

  // ---- Searching ----------------------------------------------------------

  predicate MatchesAt(s: string, i: nat, needle: string) {
    i + |needle| <= |s| && EqualIgnoringCase(s[i..i + |needle|], needle)
  }

  function Find(s: string, start: nat, needle: string): (r: Option<nat>)
    ensures r.Some? ==> start <= r.value && r.value + |needle| <= |s| && needle != ""
    decreases |s| - start
  {
    if needle == "" || start >= |s| || |needle| > |s| - start then None
    else if MatchesAt(s, start, needle) then Some(start)
    else Find(s, start + 1, needle)
  }

  // It is the first match at or after `start`, if there is one.
  lemma {:induction false} FindFirst(s: string, start: nat, needle: string)
    requires needle != ""
    ensures var r := Find(s, start, needle);
      && (r.Some? ==> MatchesAt(s, r.value, needle) && forall i :: start <= i < r.value ==> !MatchesAt(s, i, needle))
      && (r.None? ==> forall i :: start <= i ==> !MatchesAt(s, i, needle))
    decreases |s| - start
  {
    if start < |s| && |needle| <= |s| - start && !MatchesAt(s, start, needle) {
      FindFirst(s, start + 1, needle);
    }
  }

  function IndexOf(s: string, start: nat, c: char): (r: Option<nat>)
    requires start <= |s|
    ensures r.Some? ==> start <= r.value < |s| && s[r.value] == c
    ensures r.Some? ==> forall i :: start <= i < r.value ==> s[i] != c
    ensures r.None? ==> forall i :: start <= i < |s| ==> s[i] != c
    decreases |s| - start
  {
    if start == |s| then None
    else if s[start] == c then Some(start)
    else IndexOf(s, start + 1, c)
  }

  // ---- Attributes ---------------------------------------------------------

  const TYPE := "type"
  const JSON_TYPE := "application/json"
  const SCRIPT := "<script"
  const CLOSE := "</script>"

  predicate IsQuote(c: char) {
    c == '\'' || c == '"'
  }

  // A name, and the value of `name = value`, read from the front of a text, and
  // what follows; None at the end of the text.
  datatype Attribute = Attribute(name: string, value: Option<string>, rest: string)

  function ReadValue(s: string): (r: (string, string))
    requires s != ""
    ensures |r.1| <= |s|
  {
    if IsQuote(s[0]) then
      var k := Span(s[1..], Not(s[0]));
      (s[1..][..k], if k < |s| - 1 then s[1..][k + 1..] else "")
    else
      var k := Span(s, Unquoted);
      (s[..k], s[k..])
  }

  // What follows an attribute name: an optional `= value`.
  function ReadAssignment(s: string): (r: (Option<string>, string))
    ensures |r.1| <= |s|
  {
    var s1 := s[Span(s, Space)..];
    if s1 == "" || s1[0] != '=' then (None, s1)
    else
      var s2 := s1[1..][Span(s1[1..], Space)..];
      if s2 == "" then (None, "") else (Some(ReadValue(s2).0), ReadValue(s2).1)
  }

  function ReadAttribute(s: string): (r: Option<Attribute>)
    ensures r.Some? ==> |r.value.rest| < |s|
  {
    var s1 := s[Span(s, SpaceOrClose)..];
    var n := Span(s1, Name);
    if s1 == "" then None
    else if n == 0 then Some(Attribute("", None, s1[1..]))
    else Some(Attribute(s1[..n], ReadAssignment(s1[n..]).0, ReadAssignment(s1[n..]).1))
  }

  predicate IsJsonType(name: string, value: Option<string>) {
    value.Some? && EqualIgnoringCase(name, TYPE) && EqualIgnoringCase(value.value, JSON_TYPE)
  }

  predicate AnyJsonType(s: string)
    decreases |s|
  {
    match ReadAttribute(s)
    case None => false
    case Some(a) => IsJsonType(a.name, a.value) || AnyJsonType(a.rest)
  }

  predicate HasJsonType(tag: string) {
    |tag| > |SCRIPT| && AnyJsonType(tag[|SCRIPT|..])
  }

  // One inner loop: moves the cursor over a class of characters.
  method Skip(tag: string, cursor: nat, k: Class) returns (end: nat)
    requires cursor <= |tag|
    ensures cursor <= end <= |tag| && end == cursor + Span(tag[cursor..], k)
    ensures tag[cursor..][Span(tag[cursor..], k)..] == tag[end..]
    ensures tag[cursor..][..Span(tag[cursor..], k)] == tag[cursor..end]
  {
    end := cursor;
    while end < |tag| && In(tag[end], k)
      invariant cursor <= end <= |tag|
      invariant cursor + Span(tag[cursor..], k) == end + Span(tag[end..], k)
    {
      assert tag[end..][1..] == tag[end + 1..];
      end := end + 1;
    }
  }

  method ScanValue(tag: string, cursor: nat) returns (value: string, next: nat)
    requires cursor < |tag|
    ensures cursor <= next <= |tag| && ReadValue(tag[cursor..]) == (value, tag[next..])
  {
    var quoted := IsQuote(tag[cursor]);
    var start := if quoted then cursor + 1 else cursor;
    var end := Skip(tag, start, if quoted then Not(tag[cursor]) else Unquoted);
    value := tag[start..end];
    next := if quoted && end < |tag| then end + 1 else end;
    hide ReadValue, Span, IsQuote, In;
    if quoted {
      assert tag[cursor..] == [tag[cursor]] + tag[start..];
      QuotedValue(tag[cursor], tag[start..], end - start);
      assert end < |tag| ==> tag[end..][1..] == tag[next..];
    } else {
      PlainValue(tag[cursor..], end - cursor);
    }
  }

  lemma {:induction false} QuotedValue(quote: char, s: string, k: nat)
    requires IsQuote(quote) && k == Span(s, Not(quote))
    ensures ReadValue([quote] + s) == (s[..k], if k < |s| then s[k..][1..] else "")
  {
    assert ([quote] + s)[1..] == s;
    if k < |s| { assert s[k..][1..] == s[k + 1..]; }
  }

  lemma {:induction false} PlainValue(s: string, k: nat)
    requires s != "" && !IsQuote(s[0]) && k == Span(s, Unquoted)
    ensures ReadValue(s) == (s[..k], s[k..])
  {
  }

  method ScanAssignment(tag: string, cursor: nat) returns (value: Option<string>, next: nat)
    requires cursor <= |tag|
    ensures cursor <= next <= |tag| && ReadAssignment(tag[cursor..]) == (value, tag[next..])
  {
    hide Span, ReadValue, ReadAssignment, In;
    var equals := Skip(tag, cursor, Space);
    if equals >= |tag| || tag[equals] != '=' {
      AssignmentAbsent(tag[cursor..], tag[equals..]);
      return None, equals;
    }
    ghost var from := equals + 1;
    next := Skip(tag, equals + 1, Space);
    assert tag[equals..] == ['='] + tag[from..];
    AssignmentPresent(tag[cursor..], tag[from..], tag[next..]);
    value := None;
    if next < |tag| {
      var text;
      text, next := ScanValue(tag, next);
      value := Some(text);
    }
  }

  lemma {:induction false} AssignmentAbsent(s: string, after: string)
    requires s[Span(s, Space)..] == after && (after == "" || after[0] != '=')
    ensures ReadAssignment(s) == (None, after)
  {
  }

  lemma {:induction false} AssignmentPresent(s: string, after: string, text: string)
    requires s[Span(s, Space)..] == ['='] + after && after[Span(after, Space)..] == text
    ensures ReadAssignment(s) == if text == "" then (None, "") else (Some(ReadValue(text).0), ReadValue(text).1)
  {
    hide ReadValue;
    assert s[Span(s, Space)..][1..] == after;
  }

  // One round of the tag loop; an empty name is a stray character.
  method ScanAttribute(tag: string, cursor: nat) returns (name: string, value: Option<string>, next: nat)
    requires cursor < |tag|
    ensures next > cursor
    ensures match ReadAttribute(tag[cursor..])
      case None => next >= |tag| && value.None?
      case Some(a) => next <= |tag| && a == Attribute(name, value, tag[next..])
  {
    var nameStart := Skip(tag, cursor, SpaceOrClose);
    var nameEnd := Skip(tag, nameStart, Name);
    name, value := tag[nameStart..nameEnd], None;
    if nameStart == nameEnd {
      assert nameEnd < |tag| ==> tag[nameStart..][1..] == tag[nameEnd + 1..];
      return name, value, nameEnd + 1;
    }
    value, next := ScanAssignment(tag, nameEnd);
  }

  method TagHasJsonType(tag: string) returns (r: bool)
    ensures r == HasJsonType(tag)
  {
    var cursor := |SCRIPT|;
    while cursor < |tag|
      invariant HasJsonType(tag) == (cursor < |tag| && AnyJsonType(tag[cursor..]))
      decreases |tag| - cursor
    {
      var name, value, next := ScanAttribute(tag, cursor);
      if IsJsonType(name, value) {
        return true;
      }
      if next >= |tag| { assert next == |tag| ==> tag[next..] == ""; }
      cursor := next;
    }
    r := false;
  }
}
