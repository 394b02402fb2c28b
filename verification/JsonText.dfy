// What serialized JSON says, as a sequence of tokens: structural characters
// outside strings, code units inside them. Escaping `<` does not change it.
module JsonText {
  import opened Prelude
  import opened Snapshot

  datatype Token = Mark(c: char) | Unit(code: nat)

  predicate Structural(c: char) {
    'a' <= c <= 'z' || 'A' <= c <= 'Z' || '0' <= c <= '9' || c in " \t\r\n{}[],:.+-\""
  }

  function HexDigit(c: char): Option<nat> {
    if '0' <= c <= '9' then Some((c - '0') as nat)
    else if 'a' <= c <= 'f' then Some((c - 'a') as nat + 10)
    else if 'A' <= c <= 'F' then Some((c - 'A') as nat + 10)
    else None
  }

  function Hex(digits: string): Option<nat> {
    if digits == "" then Some(0)
    else
      var high, low := Hex(digits[..|digits| - 1]), HexDigit(digits[|digits| - 1]);
      if high.Some? && low.Some? then Some(16 * high.value + low.value) else None
  }

  // The two-character escapes of section 7 of RFC 8259.
  function ShortEscape(c: char): Option<nat> {
    match c
    case '"' => Some(0x22)
    case '\\' => Some(0x5c)
    case '/' => Some(0x2f)
    case 'b' => Some(0x08)
    case 'f' => Some(0x0c)
    case 'n' => Some(0x0a)
    case 'r' => Some(0x0d)
    case 't' => Some(0x09)
    case _ => None
  }

  // The next token, with the number of characters it takes and whether it
  // leaves the reader inside a string.
  function Next(s: string, inside: bool): (r: Option<(Token, nat, bool)>)
    requires s != ""
    ensures r.Some? ==> 1 <= r.value.1 <= |s|
  {
    var c := s[0];
    if !inside then (if Structural(c) then Some((Mark(c), 1, c == '"')) else None)
    else if c == '"' then Some((Mark(c), 1, false))
    else if c < ' ' then None
    else if c != '\\' then Some((Unit(c as nat), 1, true))
    else if |s| >= 6 && s[1] == 'u' && Hex(s[2..6]).Some? then Some((Unit(Hex(s[2..6]).value), 6, true))
    else if |s| >= 2 && ShortEscape(s[1]).Some? then Some((Unit(ShortEscape(s[1]).value), 2, true))
    else None
  }

  function Lex(s: string, inside: bool): Option<seq<Token>>
    decreases |s|
  {
    if s == "" then (if inside then None else Some([]))
    else
      match Next(s, inside)
      case None => None
      case Some((token, taken, after)) =>
        match Lex(s[taken..], after)
        case None => None
        case Some(rest) => Some([token] + rest)
  }

  lemma {:induction false} EscapeKeeps(s: string, n: nat)
    requires n <= |s| && forall i :: 0 <= i < n ==> s[i] != '<'
    ensures Escape(s) == s[..n] + Escape(s[n..])
    decreases n
  {
    if n > 0 {
      EscapeKeeps(s[1..], n - 1);
      assert s[1..][n - 1..] == s[n..];
      assert s[..n] == [s[0]] + s[1..][..n - 1];
    } else {
      assert s[n..] == s;
    }
  }

  lemma HexValues(digits: string)
    requires Hex(digits).Some?
    ensures forall i :: 0 <= i < |digits| ==> HexDigit(digits[i]).Some?
  {
  }

  lemma EscapedUnit(tail: string)
    ensures Next(ESCAPED + tail, true) == Some((Unit('<' as nat), 6, true))
    ensures (ESCAPED + tail)[6..] == tail
  {
    assert (ESCAPED + tail)[2..6] == "003c";
    assert Hex("003c") == Some(0x3c) by {
      assert "003c"[..3] == "003" && "003"[..2] == "00" && "00"[..1] == "0" && "0"[..0] == "";
      assert Hex("0") == Some(0) && Hex("00") == Some(0) && Hex("003") == Some(3);
    }
  }

  lemma NoRawAngle(s: string, inside: bool)
    requires s != "" && s[0] != '<' && Next(s, inside).Some?
    ensures forall i :: 0 <= i < Next(s, inside).value.1 ==> s[i] != '<'
  {
    hide Hex, Structural;
    if Next(s, inside).value.1 == 6 {
      HexValues(s[2..6]);
      forall i | 2 <= i < 6 ensures s[i] != '<' {
        assert HexDigit(s[2..6][i - 2]).Some?;
      }
    }
  }

  // A token is fixed by the characters it takes.
  lemma TokenLocal(s: string, t: string, inside: bool)
    requires s != "" && Next(s, inside).Some?
    requires Next(s, inside).value.1 <= |t| && t[..Next(s, inside).value.1] == s[..Next(s, inside).value.1]
    ensures Next(t, inside) == Next(s, inside)
  {
  }

  // A token other than a raw `<` is left as it stands.
  lemma TokenKept(s: string, inside: bool)
    requires s != "" && s[0] != '<' && Next(s, inside).Some?
    ensures var n := Next(s, inside).value.1;
      Escape(s) == s[..n] + Escape(s[n..])
      && Next(Escape(s), inside) == Next(s, inside)
  {
    hide Next, Escape;
    NoRawAngle(s, inside);
    var n := Next(s, inside).value.1;
    EscapeKeeps(s, n);
    assert (s[..n] + Escape(s[n..]))[..n] == s[..n];
    TokenLocal(s, Escape(s), inside);
  }

  // Valid JSON means the same after `<` has been escaped.
  lemma {:induction false} EscapeKeepsMeaning(s: string, inside: bool)
    requires Lex(s, inside).Some?
    ensures Lex(Escape(s), inside) == Lex(s, inside)
    decreases |s|
  {
    if s != "" {
      var n := Next(s, inside).value.1;
      if s[0] == '<' {
        EscapedUnit(Escape(s[1..]));
      } else {
        TokenKept(s, inside);
        assert (s[..n] + Escape(s[n..]))[n..] == Escape(s[n..]);
      }
      EscapeKeepsMeaning(s[n..], Next(s, inside).value.2);
    }
  }

  // ---- What the tokens say ------------------------------------------------

  // Inside a string a character stands for itself, and an escape for the code
  // unit that section 7 of RFC 8259 gives it.
  lemma {:induction false} UnitsAre(tail: string)
    ensures forall c :: c >= ' ' && c != '"' && c != '\\' ==> Next([c] + tail, true) == Some((Unit(c as nat), 1, true))
    ensures Next("\"" + tail, true) == Some((Mark('"'), 1, false))
    ensures Next("\\\"" + tail, true) == Some((Unit('"' as nat), 2, true))
    ensures Next("\\\\" + tail, true) == Some((Unit('\\' as nat), 2, true))
    ensures Next("\\/" + tail, true) == Some((Unit('/' as nat), 2, true))
    ensures Next("\\b" + tail, true) == Some((Unit(8), 2, true))
    ensures Next("\\f" + tail, true) == Some((Unit(12), 2, true))
    ensures Next("\\n" + tail, true) == Some((Unit(10), 2, true))
    ensures Next("\\r" + tail, true) == Some((Unit(13), 2, true))
    ensures Next("\\t" + tail, true) == Some((Unit(9), 2, true))
  {
  }

  function Units(s: string): seq<Token> {
    if s == "" then [] else [Unit(s[0] as nat)] + Units(s[1..])
  }

  // A quoted text without quotes, backslashes and control characters is read as
  // its characters.
  lemma {:induction false} TextIsUnits(s: string)
    requires forall i :: 0 <= i < |s| ==> s[i] >= ' ' && s[i] != '"' && s[i] != '\\'
    ensures Lex(s + "\"", true) == Some(Units(s) + [Mark('"')])
  {
    var t := s + "\"";
    if s == "" {
      assert t == "\"" && t[1..] == "";
      assert Lex(t[1..], false) == Some([]);
      assert Next(t, true) == Some((Mark('"'), 1, false));
      assert Units(s) + [Mark('"')] == [Mark('"')] + [];
    } else {
      TextIsUnits(s[1..]);
      assert t[0] == s[0] && t[1..] == s[1..] + "\"";
      assert Next(t, true) == Some((Unit(s[0] as nat), 1, true));
      assert Units(s) + [Mark('"')] == [Unit(s[0] as nat)] + (Units(s[1..]) + [Mark('"')]);
    }
  }
}
