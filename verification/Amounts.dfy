// Donation amounts: the grouped printer and the tolerant parser.
module Amounts {
  import opened Prelude
  import opened Decimal
  import opened Text

  const I64_MIN: int := -0x8000_0000_0000_0000
  const I64_MAX: int := 0x7fff_ffff_ffff_ffff
  const MIN_AMOUNT: int := 10_000
  const MAX_AMOUNT: int := 10_000_000

  // ---- Printing -----------------------------------------------------------

  // The text in groups of three from the right.
  function Grouped(s: string): string {
    if |s| <= 3 then s else Grouped(s[..|s| - 3]) + ("." + s[|s| - 3..])
  }

  // The first n characters, with a dot before every later one that has a
  // multiple of three characters from itself to the end.
  function Dotted(s: string, n: nat): string
    requires n <= |s|
  {
    if n == 0 then ""
    else Dotted(s, n - 1) + Mark(s, n - 1) + [s[n - 1]]
  }

  function Mark(s: string, index: nat): string {
    if index > 0 && (|s| - index) % 3 == 0 then "." else ""
  }

  method FormatVnd(amount: int) returns (output: string)
    ensures output == Grouped(PrintInt(amount)) + " VND"
  {
    var digits := PrintInt(amount);
    output := "";
    for index := 0 to |digits|
      invariant output == Dotted(digits, index)
    {
      if index > 0 && (|digits| - index) % 3 == 0 {
        output := output + ".";
      }
      output := output + [digits[index]];
    }
    DottedIsGrouped(digits);
    output := output + " VND";
  }

  lemma {:induction false} DottedPrefix(s: string, n: nat)
    requires n + 3 <= |s|
    ensures Dotted(s, n) == Dotted(s[..|s| - 3], n)
  {
    if n > 0 {
      DottedPrefix(s, n - 1);
      assert (|s| - (n - 1)) % 3 == (|s| - 3 - (n - 1)) % 3;
    }
  }

  lemma {:induction false} DottedIsGrouped(s: string)
    ensures Dotted(s, |s|) == Grouped(s)
  {
    hide Dotted, Mark;
    var n := |s|;
    if n <= 3 {
      ShortDotted(s, n);
      assert s[..n] == s;
    } else {
      hide Grouped;
      DottedPrefix(s, n - 3);
      DottedIsGrouped(s[..n - 3]);
      LastGroup(s);
      GroupedStep(s);
    }
  }

  lemma {:induction false} GroupedStep(s: string)
    requires |s| > 3
    ensures Grouped(s) == Grouped(s[..|s| - 3]) + ("." + s[|s| - 3..])
  {
  }

  lemma DottedStep(s: string, n: nat)
    requires n < |s|
    ensures Dotted(s, n + 1) == Dotted(s, n) + (Mark(s, n) + [s[n]])
  {
  }

  lemma NoneDotted(s: string)
    ensures Dotted(s, 0) == ""
  {
  }

  lemma NoMark(s: string, index: nat)
    requires index == 0 || |s| - 3 < index < |s|
    ensures Mark(s, index) == ""
  {
  }

  lemma {:induction false} ShortDotted(s: string, n: nat)
    requires n <= |s| <= 3
    ensures Dotted(s, n) == s[..n]
  {
    hide Mark, Dotted;
    if n == 0 {
      NoneDotted(s);
    } else {
      ShortDotted(s, n - 1);
      NoMark(s, n - 1);
      DottedStep(s, n - 1);
      assert s[..n] == s[..n - 1] + ("" + [s[n - 1]]);
    }
  }

  lemma ThreeMore(front: string, s: string)
    requires |s| > 3
    ensures ((front + ("." + [s[|s| - 3]])) + ("" + [s[|s| - 2]])) + ("" + [s[|s| - 1]]) == front + ("." + s[|s| - 3..])
  {
  }

  lemma LastGroup(s: string)
    requires |s| > 3
    ensures Dotted(s, |s|) == Dotted(s, |s| - 3) + ("." + s[|s| - 3..])
  {
    var n := |s|;
    assert Mark(s, n - 3) == ".";
    hide Dotted, Mark;
    NoMark(s, n - 2);
    NoMark(s, n - 1);
    DottedStep(s, n - 3);
    DottedStep(s, n - 2);
    DottedStep(s, n - 1);
    ThreeMore(Dotted(s, n - 3), s);
  }

  // ---- Grouped digits -----------------------------------------------------

  predicate Digits(s: string) {
    s != "" && AllDigits(s)
  }

  function Separator(value: string): Option<char> {
    if '.' in value then Some('.') else if ',' in value then Some(',') else if '_' in value then Some('_') else None
  }

  predicate OtherSeparator(value: string, separator: char) {
    exists c :: c in ['.', ',', '_'] && c != separator && c in value
  }

  predicate GoodGroups(groups: seq<string>) {
    && |groups| >= 2 && 1 <= |groups[0]| <= 3
    && (forall i :: 0 <= i < |groups| ==> Digits(groups[i]))
    && (forall i :: 1 <= i < |groups| ==> |groups[i]| == 3)
  }

  function NormalizeGroupedAmountDigits(value: string): Option<string> {
    if Digits(value) then Some(value)
    else
      match Separator(value)
      case None => None
      case Some(separator) =>
        if OtherSeparator(value, separator) then None
        else
          var groups := Split(value, separator);
          if GoodGroups(groups) then Some(Concat(groups)) else None
  }

  function Groups(s: string): seq<string> {
    if |s| <= 3 then [s] else Groups(s[..|s| - 3]) + [s[|s| - 3..]]
  }

  // A first group of one to three digits, then groups of three.
  predicate Shaped(groups: seq<string>) {
    && |groups| >= 1 && 1 <= |groups[0]| <= 3
    && forall i :: 0 <= i < |groups| ==> Digits(groups[i]) && (i > 0 ==> |groups[i]| == 3)
  }

  lemma OneMoreGroup(groups: seq<string>, last: string)
    requires Shaped(groups) && Digits(last) && |last| == 3
    ensures Shaped(groups + [last])
  {
    hide Digits;
  }

  lemma {:induction false} GroupsGood(s: string)
    requires Digits(s)
    ensures Concat(Groups(s)) == s && Shaped(Groups(s))
    ensures |Groups(s)| >= 2 <==> |s| > 3
  {
    if |s| <= 3 {
      assert [s][..0] == [];
    } else {
      var front, last := s[..|s| - 3], s[|s| - 3..];
      GroupsGood(front);
      assert Digits(last);
      hide Shaped, Digits;
      OneMoreGroup(Groups(front), last);
      assert Groups(s)[..|Groups(s)| - 1] == Groups(front);
      assert s == front + last;
    }
  }

  lemma {:induction false} GroupedSplits(s: string)
    requires Digits(s)
    ensures Split(Grouped(s), '.') == Groups(s)
    ensures forall c :: c in Grouped(s) ==> IsDigit(c) || c == '.'
    ensures '.' in Grouped(s) <==> |s| > 3
  {
    hide Split;
    if |s| <= 3 {
      SplitNone(s, '.');
    } else {
      var front, last := s[..|s| - 3], s[|s| - 3..];
      GroupedSplits(front);
      SplitAppend(Grouped(front), last, '.');
      SplitNone(last, '.');
      assert "." + last == ['.'] + last;
    }
  }

  // The parser undoes the grouping.
  lemma {:induction false} GroupedParses(s: string)
    requires Digits(s)
    ensures NormalizeGroupedAmountDigits(Grouped(s)) == Some(s)
  {
    hide Split, Groups, Grouped;
    GroupsGood(s);
    GroupedSplits(s);
    if |s| <= 3 { assert Grouped(s) == s by { GroupedShort(s); } }
  }

  lemma GroupedShort(s: string)
    requires |s| <= 3
    ensures Grouped(s) == s
  {
  }

  // And the grouping undoes the parser, on every text it accepts with dots.
  lemma {:induction false} ParsedRegroups(value: string)
    requires '.' in value && NormalizeGroupedAmountDigits(value).Some?
    ensures Grouped(NormalizeGroupedAmountDigits(value).value) == value
  {
    assert !Digits(value) by { DotNotDigit(value); }
    JoinSplit(value, '.');
    RegroupGroups(Split(value, '.'));
  }

  lemma DotNotDigit(value: string)
    requires '.' in value
    ensures !Digits(value)
  {
  }

  function Join(parts: seq<string>, c: char): string {
    if |parts| <= 1 then Concat(parts) else Join(parts[..|parts| - 1], c) + ([c] + parts[|parts| - 1])
  }

  lemma {:induction false} JoinFront(a: string, parts: seq<string>, c: char)
    requires |parts| >= 1
    ensures Join([a + parts[0]] + parts[1..], c) == a + Join(parts, c)
  {
    var all, last := [a + parts[0]] + parts[1..], |parts| - 1;
    if last == 0 {
      assert parts[..0] == [] && all[..0] == [] && all == [a + parts[0]];
      assert Concat(all) == Concat(all[..0]) + all[0] && Concat(parts) == Concat(parts[..0]) + parts[0];
    } else {
      assert all[..last] == [a + parts[..last][0]] + parts[..last][1..];
      JoinFront(a, parts[..last], c);
    }
  }

  lemma {:induction false} JoinEmpty(parts: seq<string>, c: char)
    requires |parts| >= 1
    ensures Join([""] + parts, c) == [c] + Join(parts, c)
  {
    var all, last := [""] + parts, |parts| - 1;
    assert all[..last + 1] == [""] + parts[..last];
    if last == 0 {
      assert parts[..0] == [] && [""][..0] == [] && [""] + parts[..0] == [""];
    } else {
      JoinEmpty(parts[..last], c);
    }
  }

  lemma {:induction false} JoinSplit(s: string, c: char)
    ensures Join(Split(s, c), c) == s
  {
    if s == "" {
      assert [""][..0] == [];
    } else {
      var rest := Split(s[1..], c);
      JoinSplit(s[1..], c);
      if s[0] == c { JoinEmpty(rest, c); } else { JoinFront([s[0]], rest, c); }
    }
  }

  lemma {:induction false} RegroupGroups(groups: seq<string>)
    requires |groups| >= 1 && 1 <= |groups[0]| <= 3 && forall i :: 1 <= i < |groups| ==> |groups[i]| == 3
    ensures Grouped(Concat(groups)) == Join(groups, '.') && |Concat(groups)| >= 1
  {
    var last := |groups| - 1;
    if last == 0 {
      assert groups[..0] == [];
    } else {
      RegroupGroups(groups[..last]);
      var s := Concat(groups);
      assert s == Concat(groups[..last]) + groups[last];
      assert s[..|s| - 3] == Concat(groups[..last]) && s[|s| - 3..] == groups[last];
    }
  }

  // ---- Parsing an amount --------------------------------------------------

  function WithoutCurrency(s: string): string {
    if EndsWith(s, "vnd") then s[..|s| - 3]
    else if EndsWith(s, "\U{111}\U{1ed3}ng") then s[..|s| - 4]
    else if EndsWith(s, "\U{111}") then s[..|s| - 1]
    else if EndsWith(s, "d") then s[..|s| - 1]
    else s
  }

  // `parse::<i64>`, then `checked_mul`, then the accepted range.
  function Accepted(digits: string, multiplier: int): Option<int> {
    match ParseSigned(digits, I64_MIN, I64_MAX)
    case None => None
    case Some(amount) =>
      if I64_MIN <= amount * multiplier <= I64_MAX && MIN_AMOUNT <= amount * multiplier <= MAX_AMOUNT
      then Some(amount * multiplier) else None
  }

  function ParseDonationAmount(u: Unicode, value: string): Option<int> {
    if |value| > 32 then None
    else
      var normalized := WithoutCurrency(Compact(u, u.lower(Trim(u, value))));
      if normalized != "" && normalized[|normalized| - 1] == 'k' then
        var digits := normalized[..|normalized| - 1];
        if Digits(digits) then Accepted(digits, 1000) else None
      else
        match NormalizeGroupedAmountDigits(normalized)
        case None => None
        case Some(digits) => Accepted(digits, 1)
  }

  // ---- Round trip ---------------------------------------------------------

  lemma {:induction false} GroupedLength(s: string)
    ensures 3 * |Grouped(s)| <= 4 * |s|
    ensures s != "" ==> Grouped(s) != "" && Grouped(s)[0] == s[0] && Grouped(s)[|Grouped(s)| - 1] == s[|s| - 1]
  {
    if |s| > 3 { GroupedLength(s[..|s| - 3]); }
  }

  predicate Plain(s: string) {
    forall i :: 0 <= i < |s| ==> IsDigit(s[i]) || s[i] == '.' || s[i] == '-'
  }

  lemma NothingToTrim(u: Unicode, s: string)
    requires s != "" && !u.isSpace(s[0]) && !u.isSpace(s[|s| - 1])
    ensures Trim(u, s) == s
  {
  }

  lemma LowerPlain(u: Unicode, g: string)
    requires Sane(u) && Plain(g)
    ensures u.lower(g + " VND") == g + " vnd"
  {
  }

  lemma CompactPlain(u: Unicode, g: string)
    requires Sane(u) && Plain(g)
    ensures Compact(u, g + " vnd") == g + "vnd"
  {
    CompactAppend(u, g, " vnd");
    CompactKeeps(u, g);
    assert Compact(u, " vnd") == "vnd" by {
      assert " vnd"[1..] == "vnd";
      CompactKeeps(u, "vnd");
    }
  }

  lemma CurrencyStripped(g: string)
    ensures WithoutCurrency(g + "vnd") == g
  {
  }

  lemma {:induction false} GroupedPlain(s: string)
    requires Plain(s)
    ensures Plain(Grouped(s))
  {
    if |s| > 3 { GroupedPlain(s[..|s| - 3]); }
  }

  // Reading a printed text reduces to reading its number.
  lemma PrintedRead(u: Unicode, s: string)
    requires Sane(u) && Plain(s) && s != ""
    ensures ParseDonationAmount(u, Grouped(s) + " VND") ==
      if |Grouped(s)| > 28 || NormalizeGroupedAmountDigits(Grouped(s)).None? then None
      else Accepted(NormalizeGroupedAmountDigits(Grouped(s)).value, 1)
  {
    hide NormalizeGroupedAmountDigits, Accepted, Grouped;
    var g := Grouped(s);
    GroupedPlain(s);
    GroupedLength(s);
    assert (g + " VND")[0] == g[0];
    NothingToTrim(u, g + " VND");
    LowerPlain(u, g);
    CompactPlain(u, g);
    CurrencyStripped(g);
  }

  lemma {:induction false} SplitHead(v: string, c: char)
    requires v != "" && v[0] != c
    ensures Split(v, c)[0] != "" && Split(v, c)[0][0] == v[0]
  {
  }

  lemma SignRejected(v: string)
    requires v != "" && v[0] == '-'
    ensures NormalizeGroupedAmountDigits(v).None?
  {
    assert !IsDigit(v[0]);
    if Separator(v).Some? { SplitHead(v, Separator(v).value); }
  }

  // The parser reads back what the printer wrote exactly for the accepted
  // amounts, and rejects every other 64-bit amount.
  lemma {:induction false} AmountRoundTrip(u: Unicode, n: int)
    requires Sane(u) && I64_MIN <= n <= I64_MAX
    ensures ParseDonationAmount(u, Grouped(PrintInt(n)) + " VND") ==
      if MIN_AMOUNT <= n <= MAX_AMOUNT then Some(n) else None
  {
    hide ParseDonationAmount, NormalizeGroupedAmountDigits, Grouped, ParseSigned, Sane;
    var s := PrintInt(n);
    assert Plain(s);
    PrintedRead(u, s);
    GroupedLength(s);
    if n < 0 {
      SignRejected(Grouped(s));
    } else {
      GroupedParses(s);
      PrintParses(n, I64_MIN, I64_MAX);
      if n <= MAX_AMOUNT {
        assert Pow10(8) == 100_000_000 by { EightDigits(); }
        PrintLength(n, 8);
      }
    }
  }

  lemma EightDigits()
    ensures Pow10(8) == 100_000_000
  {
  }

  predicate Simple(s: string) {
    forall i :: 0 <= i < |s| ==> IsDigit(s[i]) || s[i] == 'k'
  }

  lemma NoCurrency(s: string)
    requires s != "" && (IsDigit(s[|s| - 1]) || s[|s| - 1] == 'k')
    ensures WithoutCurrency(s) == s
  {
    var last := |s| - 1;
    assert forall k :: 0 <= k < |s| ==> s[k..][|s| - k - 1] == s[last];
  }

  // Digits, with or without the letter for thousands, reach the number parser as
  // they stand.
  lemma SimpleRead(u: Unicode, s: string)
    requires Sane(u) && Simple(s) && s != ""
    ensures WithoutCurrency(Compact(u, u.lower(Trim(u, s)))) == s
  {
    NothingToTrim(u, s);
    assert Ascii(s);
    assert LowerAscii(s) == s;
    CompactKeeps(u, s);
    NoCurrency(s);
  }

  // Plain digits stand for themselves.
  lemma DigitsAmount(u: Unicode, n: nat)
    requires Sane(u) && n <= I64_MAX
    ensures ParseDonationAmount(u, Print(n)) == if MIN_AMOUNT <= n <= MAX_AMOUNT then Some(n) else None
  {
    hide Print, ParseSigned, Sane, Trim, Compact, WithoutCurrency, Separator, GoodGroups;
    SimpleRead(u, Print(n));
    PrintParses(n, I64_MIN, I64_MAX);
    if n <= MAX_AMOUNT {
      EightDigits();
      PrintLength(n, 8);
    }
  }

  // Digits before a `k` stand for thousands.
  lemma {:induction false} ThousandsAmount(u: Unicode, n: nat)
    requires Sane(u) && n <= I64_MAX
    ensures ParseDonationAmount(u, Print(n) + "k") == if 10 <= n <= 10_000 then Some(1000 * n) else None
  {
    hide Print, ParseSigned, Sane, Trim, Compact, WithoutCurrency, NormalizeGroupedAmountDigits;
    var s := Print(n) + "k";
    SimpleRead(u, s);
    assert s[..|s| - 1] == Print(n);
    PrintParses(n, I64_MIN, I64_MAX);
    if n <= 10_000 {
      EightDigits();
      PrintLength(n, 8);
    }
  }

  // Whatever the text, only amounts within the limits are accepted.
  lemma {:induction false} AcceptedInRange(u: Unicode, value: string)
    ensures var r := ParseDonationAmount(u, value);
      r.Some? ==> MIN_AMOUNT <= r.value <= MAX_AMOUNT
  {
    hide ParseSigned, NormalizeGroupedAmountDigits, WithoutCurrency, Compact, Trim;
  }

  // ---- Currencies and separators ------------------------------------------

  // Each way to write the currency is dropped.
  lemma {:induction false} CurrencyDropped(g: string)
    requires g != "" && IsDigit(g[|g| - 1])
    ensures WithoutCurrency(g + "vnd") == g && WithoutCurrency(g + "\U{111}\U{1ed3}ng") == g
    ensures WithoutCurrency(g + "\U{111}") == g && WithoutCurrency(g + "d") == g && WithoutCurrency(g) == g
  {
    hide WithoutCurrency, EndsWith, IsDigit;
    NoCurrency(g);
    CurrencyStripped(g);
    DongDropped(g);
    LetterDropped(g);
    DDropped(g);
  }

  lemma Ended(g: string, suffix: string)
    ensures EndsWith(g + suffix, suffix) && (g + suffix)[..|g|] == g && |g + suffix| == |g| + |suffix|
  {
  }

  lemma DongDropped(g: string)
    ensures WithoutCurrency(g + "\U{111}\U{1ed3}ng") == g
  {
    var dong := "\U{111}\U{1ed3}ng";
    Ended(g, dong);
    NotLonger(g + dong, "vnd");
    hide EndsWith;
  }

  lemma LetterDropped(g: string)
    ensures WithoutCurrency(g + "\U{111}") == g
  {
    var letter := "\U{111}";
    Ended(g, letter);
    NotLonger(g + letter, "vnd");
    NotLonger(g + letter, "\U{111}\U{1ed3}ng");
    hide EndsWith;
  }

  lemma DDropped(g: string)
    requires g != "" && IsDigit(g[|g| - 1])
    ensures WithoutCurrency(g + "d") == g
  {
    Ended(g, "d");
    NotVnd(g + "d");
    NotLonger(g + "d", "\U{111}\U{1ed3}ng");
    NotLonger(g + "d", "\U{111}");
    hide EndsWith;
  }

  lemma LastOfEnd(s: string, suffix: string, k: nat)
    requires EndsWith(s, suffix) && k < |suffix|
    ensures s[|s| - 1 - k] == suffix[|suffix| - 1 - k]
  {
    assert s[|s| - |suffix|..][|suffix| - 1 - k] == s[|s| - 1 - k];
  }

  lemma NotLonger(s: string, suffix: string)
    requires s != "" && suffix != "" && s[|s| - 1] != suffix[|suffix| - 1]
    ensures !EndsWith(s, suffix)
  {
    hide EndsWith;
    if EndsWith(s, suffix) { LastOfEnd(s, suffix, 0); }
  }

  lemma NotVnd(s: string)
    requires |s| >= 2 && IsDigit(s[|s| - 2])
    ensures !EndsWith(s, "vnd")
  {
    hide EndsWith;
    assert !IsDigit("vnd"[1]);
    if EndsWith(s, "vnd") { LastOfEnd(s, "vnd", 1); }
  }

  lemma OneGroup(groups: seq<string>)
    requires |groups| == 1
    ensures Concat(groups) == groups[0]
  {
    assert groups[..0] == [];
    assert Concat(groups) == Concat(groups[..0]) + groups[0];
    assert Concat(groups[..0]) == "";
  }

  lemma {:induction false} SplitJoined(groups: seq<string>, c: char)
    requires groups != [] && forall i :: 0 <= i < |groups| ==> c !in groups[i]
    ensures Split(Join(groups, c), c) == groups
  {
    var last := |groups| - 1;
    hide Split;
    if last == 0 {
      OneGroup(groups);
      SplitNone(groups[0], c);
      assert groups == [groups[0]];
    } else {
      SplitJoined(groups[..last], c);
      SplitAppend(Join(groups[..last], c), groups[last], c);
      SplitNone(groups[last], c);
      assert groups == groups[..last] + [groups[last]];
    }
  }

  lemma {:induction false} JoinedChars(groups: seq<string>, c: char)
    requires forall i :: 0 <= i < |groups| ==> AllDigits(groups[i])
    ensures forall x :: x in Join(groups, c) ==> IsDigit(x) || x == c
    ensures |groups| >= 2 ==> c in Join(groups, c)
  {
    if |groups| == 1 {
      OneGroup(groups);
    } else if |groups| >= 2 {
      var last := |groups| - 1;
      JoinedChars(groups[..last], c);
    }
  }

  // Dots, commas and underscores group alike.
  lemma {:induction false} SeparatorsAlike(s: string, c: char)
    requires Digits(s) && |s| > 3 && c in {'.', ',', '_'}
    ensures NormalizeGroupedAmountDigits(Join(Groups(s), c)) == Some(s)
  {
    var groups := Groups(s);
    GroupsGood(s);
    hide Groups, Split, Concat, Join;
    forall i | 0 <= i < |groups| ensures c !in groups[i] && AllDigits(groups[i]) {
      assert Digits(groups[i]);
    }
    SplitJoined(groups, c);
    JoinedChars(groups, c);
    assert GoodGroups(groups);
    hide GoodGroups, Shaped;
    OnlySeparator(Join(groups, c), c);
  }

  lemma OnlySeparator(value: string, c: char)
    requires c in {'.', ',', '_'} && c in value && forall x :: x in value ==> IsDigit(x) || x == c
    ensures !Digits(value) && Separator(value) == Some(c) && !OtherSeparator(value, c)
  {
    assert !IsDigit('.') && !IsDigit(',') && !IsDigit('_');
  }

  // But not together.
  lemma {:induction false} MixedRejected(value: string, a: char, b: char)
    requires a in {'.', ',', '_'} && b in {'.', ',', '_'} && a != b && a in value && b in value
    ensures NormalizeGroupedAmountDigits(value).None?
  {
    hide Split, GoodGroups;
    assert !IsDigit(a);
    assert !Digits(value);
    var separator := Separator(value).value;
    assert a != separator || b != separator;
    assert OtherSeparator(value, separator) by {
      var c := if a != separator then a else b;
      assert c in ['.', ',', '_'];
    }
  }

  // A text of more than 32 characters is no amount.
  lemma {:induction false} LongRejected(u: Unicode, value: string)
    requires |value| >= 33
    ensures ParseDonationAmount(u, value).None?
  {
  }
}
