// Printed attribute lists, and what the tag scanner finds in them.
module TagGrammar {
  import opened Prelude
  import opened ScriptScanner

  datatype Value =
    | Absent
    | Plain(before: string, after: string, text: string)
    | Quoted(before: string, after: string, quote: char, text: string)

  datatype Attr = Attr(lead: string, name: string, value: Value)

  predicate All(s: string, k: Class) {
    forall i :: 0 <= i < |s| ==> In(s[i], k)
  }

  predicate GoodValue(v: Value) {
    match v
    case Absent => true
    case Plain(before, after, text) =>
      All(before, Space) && All(after, Space) && text != "" && All(text, Unquoted) && !IsQuote(text[0])
    case Quoted(before, after, quote, text) =>
      All(before, Space) && All(after, Space) && IsQuote(quote) && All(text, Not(quote))
  }

  predicate GoodAttr(a: Attr) {
    All(a.lead, Space) && a.name != "" && All(a.name, Name) && GoodValue(a.value)
  }

  // Attributes are separated by white space, except after a closing quote.
  predicate GoodList(attrs: seq<Attr>) {
    && (forall i :: 0 <= i < |attrs| ==> GoodAttr(attrs[i]))
    && (forall i :: 0 < i < |attrs| ==> attrs[i].lead != "" || attrs[i - 1].value.Quoted?)
  }

  function PrintText(v: Value): string {
    match v
    case Absent => ""
    case Plain(_, _, text) => text
    case Quoted(_, _, quote, text) => [quote] + (text + [quote])
  }

  function PrintValue(v: Value): string {
    if v.Absent? then "" else v.before + (['='] + (v.after + PrintText(v)))
  }

  function ValueText(v: Value): Option<string> {
    match v
    case Absent => None
    case Plain(_, _, text) => Some(text)
    case Quoted(_, _, _, text) => Some(text)
  }

  function PrintAttrs(attrs: seq<Attr>): string {
    if attrs == [] then ""
    else attrs[0].lead + (attrs[0].name + (PrintValue(attrs[0].value) + PrintAttrs(attrs[1..])))
  }

  function PrintTag(attrs: seq<Attr>, trail: string): string {
    SCRIPT + PrintAttrs(attrs) + trail + ">"
  }

  // The attribute is `type` and its value the JSON media type, in any letter case.
  predicate NamesJson(a: Attr) {
    && EqualIgnoringCase(a.name, "type") && !a.value.Absent?
    && EqualIgnoringCase(a.value.text, "application/json")
  }

  ghost predicate DeclaresJson(attrs: seq<Attr>) {
    exists i :: 0 <= i < |attrs| && NamesJson(attrs[i])
  }

  // ---- Reading back one attribute -----------------------------------------

  lemma {:induction false} SpanOver(a: string, b: string, k: Class)
    requires All(a, k) && (b != "" ==> !In(b[0], k))
    ensures Span(a + b, k) == |a| && (a + b)[..|a|] == a && (a + b)[|a|..] == b
  {
  }

  // The characters of each class.
  lemma {:induction false} ClassesAre(c: char)
    ensures In(c, Space) <==> c in {' ', '\t', '\n', '\r', '\U{c}'}
    ensures In(c, SpaceOrClose) <==> c in {' ', '\t', '\n', '\r', '\U{c}', '>'}
    ensures In(c, Name) <==> c !in {' ', '\t', '\n', '\r', '\U{c}', '=', '>'}
    ensures In(c, Unquoted) <==> c !in {' ', '\t', '\n', '\r', '\U{c}', '>'}
    ensures IsQuote(c) <==> c in {'"', '\''}
    ensures forall q :: In(c, Not(q)) <==> c != q
  {
  }

  // The text after an attribute cannot be taken for more of it.
  predicate Ends(v: Value, rest: string) {
    match v
    case Absent => rest == "" || (rest[0] != '=' && !In(rest[0], Name))
    case Plain(_, _, _) => rest == "" || !In(rest[0], Unquoted)
    case Quoted(_, _, _, _) => true
  }

  predicate NoAssignment(rest: string) {
    var s := rest[Span(rest, Space)..];
    s == "" || s[0] != '='
  }

  lemma ValueRead(v: Value, rest: string)
    requires GoodValue(v) && !v.Absent? && Ends(v, rest)
    ensures ReadValue(PrintText(v) + rest) == (v.text, rest)
  {
    match v
    case Plain(_, _, text) => SpanOver(text, rest, Unquoted);
    case Quoted(_, _, quote, text) =>
      var s := PrintText(v) + rest;
      assert s[1..] == text + ([quote] + rest);
      SpanOver(text, [quote] + rest, Not(quote));
      assert s[1..][|text| + 1..] == rest;
  }

  lemma AssignmentForm(before: string, after: string, t: string)
    requires All(before, Space) && All(after, Space) && t != "" && !IsSpace(t[0])
    ensures ReadAssignment(before + (['='] + (after + t))) == (Some(ReadValue(t).0), ReadValue(t).1)
  {
    var s := ['='] + (after + t);
    SpanOver(before, s, Space);
    assert s[1..] == after + t;
    SpanOver(after, t, Space);
  }

  lemma Assoc(a: string, b: string, c: string, d: string, e: string)
    ensures (a + (b + (c + d))) + e == a + (b + (c + (d + e)))
  {
  }

  lemma AssignmentRead(v: Value, rest: string)
    requires GoodValue(v) && !v.Absent? && Ends(v, rest)
    ensures ReadAssignment(PrintValue(v) + rest) == (ValueText(v), rest)
  {
    var t := PrintText(v) + rest;
    ValueRead(v, rest);
    assert t[0] == if v.Plain? then v.text[0] else v.quote;
    AssignmentForm(v.before, v.after, t);
    Assoc(v.before, ['='], v.after, PrintText(v), rest);
  }

  lemma AttrRead(a: Attr, rest: string)
    requires GoodAttr(a) && Ends(a.value, rest) && (a.value.Absent? ==> NoAssignment(rest))
    ensures var left := if a.value.Absent? then rest[Span(rest, Space)..] else rest;
      ReadAttribute(a.lead + (a.name + (PrintValue(a.value) + rest)))
      == Some(Attribute(a.name, ValueText(a.value), left))
  {
    var tail := PrintValue(a.value) + rest;
    SpanOver(a.lead, a.name + tail, SpaceOrClose);
    assert tail != "" ==> !In(tail[0], Name);
    SpanOver(a.name, tail, Name);
    if a.value.Absent? {
      assert tail == rest;
    } else {
      AssignmentRead(a.value, rest);
    }
  }

  // ---- Whole lists --------------------------------------------------------

  lemma {:induction false} SpacesDoNotMatter(s: string)
    ensures AnyJsonType(s[Span(s, Space)..]) == AnyJsonType(s)
  {
    if s != "" && IsSpace(s[0]) {
      LeadingSpace(s);
      SpacesDoNotMatter(s[1..]);
      assert s[Span(s, Space)..] == s[1..][Span(s[1..], Space)..];
    } else {
      assert s[Span(s, Space)..] == s;
    }
  }

  lemma LeadingSpace(s: string)
    requires s != "" && IsSpace(s[0])
    ensures ReadAttribute(s) == ReadAttribute(s[1..])
  {
  }

  lemma OneMore(a: Attr, rest: string)
    requires GoodAttr(a) && Ends(a.value, rest) && (a.value.Absent? ==> NoAssignment(rest))
    ensures AnyJsonType(a.lead + (a.name + (PrintValue(a.value) + rest)))
            <==> IsJsonType(a.name, ValueText(a.value)) || AnyJsonType(rest)
  {
    AttrRead(a, rest);
    SpacesDoNotMatter(rest);
  }

  lemma {:induction false} AttrsRead(attrs: seq<Attr>, trail: string)
    requires GoodList(attrs) && All(trail, SpaceOrClose)
    ensures AnyJsonType(PrintAttrs(attrs) + trail) <==> DeclaresJson(attrs)
  {
    if attrs == [] {
      SpanOver(trail, "", SpaceOrClose);
      assert PrintAttrs(attrs) + trail == trail + "";
    } else {
      var a, rest := attrs[0], PrintAttrs(attrs[1..]) + trail;
      AttrsRead(attrs[1..], trail);
      RestEnds(attrs, trail);
      OneMore(a, rest);
      Assoc(a.lead, a.name, PrintValue(a.value), PrintAttrs(attrs[1..]), trail);
      DeclaresStep(attrs);
    }
  }

  lemma DeclaresStep(attrs: seq<Attr>)
    requires attrs != []
    ensures DeclaresJson(attrs) <==>
      IsJsonType(attrs[0].name, ValueText(attrs[0].value)) || DeclaresJson(attrs[1..])
  {
    assert NamesJson(attrs[0]) <==> IsJsonType(attrs[0].name, ValueText(attrs[0].value));
    hide NamesJson, IsJsonType;
    forall i | 0 <= i < |attrs| - 1 ensures NamesJson(attrs[1..][i]) <==> NamesJson(attrs[i + 1]) {
    }
    if i :| 0 <= i < |attrs| && NamesJson(attrs[i]) {
      if i > 0 { assert NamesJson(attrs[1..][i - 1]); }
    }
  }

  lemma RestEnds(attrs: seq<Attr>, trail: string)
    requires GoodList(attrs) && attrs != [] && All(trail, SpaceOrClose)
    ensures var rest := PrintAttrs(attrs[1..]) + trail;
      Ends(attrs[0].value, rest) && (attrs[0].value.Absent? ==> NoAssignment(rest))
  {
    hide All, Ends, NoAssignment, GoodAttr, PrintValue;
    var rest := PrintAttrs(attrs[1..]) + trail;
    if |attrs| == 1 {
      assert rest == trail;
      TrailEnds(attrs[0].value, trail);
    } else {
      var b := attrs[1];
      assert attrs[1..][0] == b && GoodAttr(b) && GoodAttr(attrs[0]);
      Assoc(b.lead, b.name, PrintValue(b.value), PrintAttrs(attrs[1..][1..]), trail);
      NextEnds(attrs[0].value, b, PrintValue(b.value) + (PrintAttrs(attrs[1..][1..]) + trail));
    }
  }

  lemma {:induction false} TrailEnds(v: Value, trail: string)
    requires All(trail, SpaceOrClose)
    ensures Ends(v, trail) && NoAssignment(trail)
  {
    if trail != "" { assert In(trail[0], SpaceOrClose); }
    var k := Span(trail, Space);
    if k < |trail| { assert In(trail[k], SpaceOrClose); }
  }

  lemma {:induction false} NextEnds(v: Value, next: Attr, tail: string)
    requires GoodAttr(next) && (next.lead != "" || v.Quoted?)
    ensures Ends(v, next.lead + (next.name + tail)) && NoAssignment(next.lead + (next.name + tail))
  {
    hide GoodValue;
    var rest := next.name + tail;
    assert In(rest[0], Name);
    SpanOver(next.lead, rest, Space);
    if next.lead != "" { assert In((next.lead + rest)[0], Space); }
  }

  // The scanner accepts a printed script tag exactly when one of its attributes
  // is `type` with the JSON media type, whatever the case, quoting, white space
  // and the other attributes are.
  lemma {:induction false} TagAccepted(attrs: seq<Attr>, trail: string)
    requires GoodList(attrs) && All(trail, SpaceOrClose)
    ensures HasJsonType(PrintTag(attrs, trail)) <==> DeclaresJson(attrs)
  {
    hide PrintAttrs, AnyJsonType, DeclaresJson, GoodList;
    var tag := PrintTag(attrs, trail);
    assert tag[|SCRIPT|..] == PrintAttrs(attrs) + (trail + ">");
    AttrsRead(attrs, trail + ">");
  }
}
