// The string operations of the command parsers. What counts as white space and
// how letters are lower-cased is Unicode's business; only ASCII is fixed here.
module Text {
  datatype Unicode = Unicode(isSpace: char -> bool, lower: string -> string)

  predicate Ascii(s: string) {
    forall i :: 0 <= i < |s| ==> s[i] < '\U{80}'
  }

  predicate AsciiSpace(c: char) {
    c == ' ' || '\t' <= c <= '\r'
  }

  function LowerChar(c: char): char {
    if 'A' <= c <= 'Z' then c - 'A' + 'a' else c
  }

  function LowerAscii(s: string): (r: string)
    ensures |r| == |s| && forall i :: 0 <= i < |s| ==> r[i] == LowerChar(s[i])
  {
    seq(|s|, i requires 0 <= i < |s| => LowerChar(s[i]))
  }

  ghost predicate Sane(u: Unicode) {
    && (forall c :: c < '\U{80}' ==> (u.isSpace(c) <==> AsciiSpace(c)))
    && (forall s :: Ascii(s) ==> u.lower(s) == LowerAscii(s))
    && (forall s :: s != "" && s[0] == '/' ==> u.lower(s) != "" && u.lower(s)[0] == '/')
  }

  function TrimStart(u: Unicode, s: string): string {
    if s != "" && u.isSpace(s[0]) then TrimStart(u, s[1..]) else s
  }

  function TrimEnd(u: Unicode, s: string): string {
    if s != "" && u.isSpace(s[|s| - 1]) then TrimEnd(u, s[..|s| - 1]) else s
  }

  function Trim(u: Unicode, s: string): string {
    TrimEnd(u, TrimStart(u, s))
  }

  // `filter(|c| !c.is_whitespace())`.
  function Compact(u: Unicode, s: string): string {
    if s == "" then "" else (if u.isSpace(s[0]) then "" else [s[0]]) + Compact(u, s[1..])
  }

  lemma {:induction false} CompactAppend(u: Unicode, a: string, b: string)
    ensures Compact(u, a + b) == Compact(u, a) + Compact(u, b)
  {
    if a != "" {
      assert (a + b)[1..] == a[1..] + b;
      CompactAppend(u, a[1..], b);
    } else {
      assert a + b == b;
    }
  }

  lemma {:induction false} CompactKeeps(u: Unicode, s: string)
    requires forall i :: 0 <= i < |s| ==> !u.isSpace(s[i])
    ensures Compact(u, s) == s
  {
    if s != "" { CompactKeeps(u, s[1..]); }
  }

  predicate StartsWith(s: string, prefix: string) {
    |s| >= |prefix| && s[..|prefix|] == prefix
  }

  predicate EndsWith(s: string, suffix: string) {
    |s| >= |suffix| && s[|s| - |suffix|..] == suffix
  }

  // `split` at every occurrence of a character.
  function Split(s: string, c: char): (r: seq<string>)
    ensures |r| >= 1
  {
    if s == "" then [""]
    else
      var rest := Split(s[1..], c);
      if s[0] == c then [""] + rest else [[s[0]] + rest[0]] + rest[1..]
  }

  lemma {:induction false} SplitNone(s: string, c: char)
    requires c !in s
    ensures Split(s, c) == [s]
  {
    if s != "" {
      SplitNone(s[1..], c);
      assert s == [s[0]] + s[1..];
    }
  }

  lemma {:induction false} SplitAppend(a: string, b: string, c: char)
    ensures Split(a + ([c] + b), c) == Split(a, c) + Split(b, c)
  {
    hide Split;
    if a == "" {
      assert a + ([c] + b) == [c] + b;
      SplitFirst(c, b, c);
      SplitEmpty(c);
    } else {
      assert a + ([c] + b) == [a[0]] + (a[1..] + ([c] + b));
      assert a == [a[0]] + a[1..];
      SplitAppend(a[1..], b, c);
      SplitFirst(a[0], a[1..] + ([c] + b), c);
      SplitFirst(a[0], a[1..], c);
    }
  }

  lemma SplitEmpty(c: char)
    ensures Split("", c) == [""]
  {
  }

  lemma SplitFirst(first: char, s: string, c: char)
    ensures Split([first] + s, c) ==
      if first == c then [""] + Split(s, c) else [[first] + Split(s, c)[0]] + Split(s, c)[1..]
  {
    assert ([first] + s)[1..] == s;
  }

  function Concat(parts: seq<string>): string {
    if parts == [] then "" else Concat(parts[..|parts| - 1]) + parts[|parts| - 1]
  }

  // White space on both ends is trimmed, and nothing else.
  lemma {:induction false} TrimIs(u: Unicode, before: string, s: string, after: string)
    requires forall i :: 0 <= i < |before| ==> u.isSpace(before[i])
    requires forall i :: 0 <= i < |after| ==> u.isSpace(after[i])
    requires s != "" && !u.isSpace(s[0]) && !u.isSpace(s[|s| - 1])
    ensures Trim(u, before + (s + after)) == s
  {
    StartTrimmed(u, before, s + after);
    EndTrimmed(u, s, after);
  }

  lemma {:induction false} StartTrimmed(u: Unicode, before: string, s: string)
    requires (forall i :: 0 <= i < |before| ==> u.isSpace(before[i])) && s != "" && !u.isSpace(s[0])
    ensures TrimStart(u, before + s) == s
  {
    if before == "" {
      assert before + s == s;
    } else {
      assert (before + s)[1..] == before[1..] + s;
      StartTrimmed(u, before[1..], s);
    }
  }

  lemma {:induction false} EndTrimmed(u: Unicode, s: string, after: string)
    requires (forall i :: 0 <= i < |after| ==> u.isSpace(after[i])) && s != "" && !u.isSpace(s[|s| - 1])
    ensures TrimEnd(u, s + after) == s
  {
    if after == "" {
      assert s + after == s;
    } else {
      var last := |after| - 1;
      assert (s + after)[..|s + after| - 1] == s + after[..last];
      EndTrimmed(u, s, after[..last]);
    }
  }
}
