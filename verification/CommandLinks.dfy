// Every numbered command the bot prints in its messages and keyboards parses
// back to exactly what it stands for.
module CommandLinks {
  import opened Prelude
  import opened Decimal
  import opened Text
  import Amounts
  import opened Commands

  datatype Link =
    | UsefulLink | IrrelevantLink | OpenLink | FeedbacksLink
    | CrawlHistoryLink | CrawlRunLink
    | PortalHistoryLink | PortalNoticeLink
    | EventsLink | PagesLink
    | ReviewsLink | ReviewSendLink | ReviewSkipLink
    | AiRejectLink | AiApproveLink
    | ReviewLink | LatestPostLink | LatestLink

  function Prefix(l: Link): string {
    match l
    case UsefulLink => "/useful_"
    case IrrelevantLink => "/irrelevant_"
    case OpenLink => "/open_"
    case FeedbacksLink => "/feedbacks_"
    case CrawlHistoryLink => "/crawl_history_"
    case CrawlRunLink => "/crawl_run_"
    case PortalHistoryLink => "/portal_history_"
    case PortalNoticeLink => "/portal_notice_"
    case EventsLink => "/events_"
    case PagesLink => "/pages_"
    case ReviewsLink => "/reviews_"
    case ReviewSendLink => "/review_send_"
    case ReviewSkipLink => "/review_skip_"
    case AiRejectLink => "/ai_reject_"
    case AiApproveLink => "/ai_approve_"
    case ReviewLink => "/review_"
    case LatestPostLink => "/latest_post_"
    case LatestLink => "/latest_"
  }

  function Meaning(l: Link, n: nat): Command {
    match l
    case UsefulLink => Feedback(n, "useful")
    case IrrelevantLink => Feedback(n, "irrelevant")
    case OpenLink => OpenAction(n)
    case FeedbacksLink => FeedbackHistory(n)
    case CrawlHistoryLink => CrawlHistory(n)
    case CrawlRunLink => CrawlRun(n)
    case PortalHistoryLink => PortalHistory(n)
    case PortalNoticeLink => PortalNotice(n)
    case EventsLink => Events(n)
    case PagesLink => Pages(n)
    case ReviewsLink => Reviews(n)
    case ReviewSendLink => ReviewSend(n)
    case ReviewSkipLink => ReviewSkip(n, None)
    case AiRejectLink => AiReject(n, None)
    case AiApproveLink => AiApprove(n, None)
    case ReviewLink => Review(n)
    case LatestPostLink => LatestPost(n)
    case LatestLink => Latest(n)
  }

  function LinkText(l: Link, n: nat): string {
    Prefix(l) + Print(n)
  }

  // ---- Numbers ------------------------------------------------------------

  // Pages are `usize`, ids are `i64`.
  predicate IsPageLink(l: Link) {
    l.FeedbacksLink? || l.CrawlHistoryLink? || l.PortalHistoryLink? || l.EventsLink? || l.PagesLink?
    || l.ReviewsLink? || l.LatestLink?
  }

  predicate Number(l: Link, n: nat) {
    1 <= n <= if IsPageLink(l) then U64_MAX else Amounts.I64_MAX
  }

  lemma NumberRead(l: Link, n: nat)
    requires Number(l, n)
    ensures if IsPageLink(l) then Page(Some(Print(n))) == n else PositiveId(Some(Print(n))) == Some(n)
  {
    hide ParseSigned, ParseUnsigned, Print;
    PrintParses(n, 0, U64_MAX);
    if !IsPageLink(l) { PrintParses(n, Amounts.I64_MIN, Amounts.I64_MAX); }
  }

  lemma Suffix(prefix: string, digits: string)
    ensures HasPrefix(prefix + digits, prefix) && After(prefix + digits, prefix) == digits
  {
  }

  lemma Trimmed(prefix: string, digits: string)
    requires prefix != "" && prefix[0] == '/' && digits != "" && IsDigit(digits[0])
    ensures TrimPrefixes(prefix + digits, prefix) == digits
  {
  }

  // ---- Arms that cannot match ---------------------------------------------

  lemma SettingsArmsSkip(c: string, words: seq<string>)
    requires |c| > 2 && c[1] != 's' && (c[1] == 'o' ==> c[2] != 'n')
    ensures SettingsArms(c, words).None?
  {
  }

  lemma FeedbackArmsSkip(c: string, words: seq<string>)
    requires |c| > 2 && c[1] != 'u' && c[1] != 'i' && c[1] != 'o' && c[1] != 'm' && c[1] != 'f'
    ensures FeedbackArms(c, words).None?
  {
  }

  lemma CrawlArmsSkip(c: string, words: seq<string>)
    requires |c| > 2 && c[1] != 'c'
    ensures CrawlArms(c, words).None?
  {
  }

  lemma PortalArmsSkip(c: string, words: seq<string>)
    requires |c| > 2 && (c[1] == 'p' ==> c[2] != 'o')
    ensures PortalArms(c, words).None?
  {
  }

  lemma EventArmsSkip(c: string, words: seq<string>)
    requires |c| > 2 && c[1] != 'e' && (c[1] == 'a' ==> c[2] != 'c')
    ensures EventArms(c, words).None?
  {
  }

  lemma PageArmsSkip(c: string, words: seq<string>)
    requires |c| > 3 && c[1] != 'h' && c[1] != 's' && c[1] != 'p'
    requires (c[1] == 'r' ==> c[3] != 'p') && (c[1] == 'a' ==> c[2] != 'd')
    ensures PageArms(c, words).None?
  {
  }

  lemma ContactArmsSkip(u: Unicode, c: string, words: seq<string>)
    requires |c| > 2 && c[1] != 's' && c[1] != 'c' && c[1] != 'f'
    ensures ContactArms(u, c, words).None?
  {
  }

  lemma ReviewArmsSkip(c: string, words: seq<string>)
    requires |c| > 2 && c[1] != 'r' && c[1] != 'p' && (c[1] == 'a' ==> c[2] != 'p')
    ensures ReviewArms(c, words).None?
  {
  }

  lemma AiArmsSkip(c: string, words: seq<string>)
    requires |c| > 2 && (c[1] == 'a' ==> c[2] != 'i')
    ensures AiArms(c, words).None?
  {
  }

  // ---- Arms that match ----------------------------------------------------

  lemma LinkStarts(l: Link, n: nat)
    ensures var c, p := LinkText(l, n), Prefix(l);
      && |c| > |p| && (forall i :: 0 <= i < |p| ==> c[i] == p[i]) && After(c, p) == Print(n) && IsDigit(c[|p|])
  {
  }

  lemma UsefulRead(n: nat)
    requires Number(UsefulLink, n)
    ensures FeedbackArms(LinkText(UsefulLink, n), []) == Some(Meaning(UsefulLink, n))
  {
    hide Print, PositiveId, Page, LinkText, After;
    NumberRead(UsefulLink, n);
    LinkStarts(UsefulLink, n);
  }

  lemma IrrelevantRead(n: nat)
    requires Number(IrrelevantLink, n)
    ensures FeedbackArms(LinkText(IrrelevantLink, n), []) == Some(Meaning(IrrelevantLink, n))
  {
    hide Print, PositiveId, Page, LinkText, After;
    NumberRead(IrrelevantLink, n);
    LinkStarts(IrrelevantLink, n);
    assert LinkText(IrrelevantLink, n)[1] == 'i';
  }

  lemma OpenRead(n: nat)
    requires Number(OpenLink, n)
    ensures FeedbackArms(LinkText(OpenLink, n), []) == Some(Meaning(OpenLink, n))
  {
    hide Print, PositiveId, Page, LinkText, After;
    NumberRead(OpenLink, n);
    LinkStarts(OpenLink, n);
    assert LinkText(OpenLink, n)[1] == 'o';
  }

  lemma FeedbacksRead(n: nat)
    requires Number(FeedbacksLink, n)
    ensures FeedbackArms(LinkText(FeedbacksLink, n), []) == Some(Meaning(FeedbacksLink, n))
  {
    hide Print, PositiveId, Page, LinkText, After;
    NumberRead(FeedbacksLink, n);
    LinkStarts(FeedbacksLink, n);
    assert LinkText(FeedbacksLink, n)[1] == 'f';
  }

  lemma CrawlHistoryRead(n: nat)
    requires Number(CrawlHistoryLink, n)
    ensures CrawlArms(LinkText(CrawlHistoryLink, n), []) == Some(Meaning(CrawlHistoryLink, n))
  {
    hide Print, PositiveId, Page, LinkText, After;
    NumberRead(CrawlHistoryLink, n);
    LinkStarts(CrawlHistoryLink, n);
  }

  lemma CrawlRunRead(n: nat)
    requires Number(CrawlRunLink, n)
    ensures CrawlArms(LinkText(CrawlRunLink, n), []) == Some(Meaning(CrawlRunLink, n))
  {
    hide Print, PositiveId, Page, LinkText, After;
    NumberRead(CrawlRunLink, n);
    LinkStarts(CrawlRunLink, n);
    assert LinkText(CrawlRunLink, n)[7] == 'r';
  }

  lemma PortalHistoryRead(n: nat)
    requires Number(PortalHistoryLink, n)
    ensures PortalArms(LinkText(PortalHistoryLink, n), []) == Some(Meaning(PortalHistoryLink, n))
  {
    hide Print, PositiveId, Page, LinkText, After;
    NumberRead(PortalHistoryLink, n);
    LinkStarts(PortalHistoryLink, n);
    assert LinkText(PortalHistoryLink, n)[8] == 'h';
  }

  lemma PortalNoticeRead(n: nat)
    requires Number(PortalNoticeLink, n)
    ensures PortalArms(LinkText(PortalNoticeLink, n), []) == Some(Meaning(PortalNoticeLink, n))
  {
    hide Print, PositiveId, Page, LinkText, After;
    NumberRead(PortalNoticeLink, n);
    LinkStarts(PortalNoticeLink, n);
    assert LinkText(PortalNoticeLink, n)[8] == 'n';
  }

  lemma EventsRead(n: nat)
    requires Number(EventsLink, n)
    ensures EventArms(LinkText(EventsLink, n), []) == Some(Meaning(EventsLink, n))
  {
    hide Print, PositiveId, Page, LinkText, After;
    NumberRead(EventsLink, n);
    LinkStarts(EventsLink, n);
    assert LinkText(EventsLink, n)[1] == 'e';
  }

  lemma PagesRead(n: nat)
    requires Number(PagesLink, n)
    ensures PageArms(LinkText(PagesLink, n), []) == Some(Meaning(PagesLink, n))
  {
    hide Print, PositiveId, Page, TrimPrefixes;
    NumberRead(PagesLink, n);
    Trimmed("/pages_", Print(n));
    hide LinkText;
    LinkStarts(PagesLink, n);
    assert LinkText(PagesLink, n)[1] == 'p';
  }

  lemma ReviewsRead(n: nat)
    requires Number(ReviewsLink, n)
    ensures ReviewArms(LinkText(ReviewsLink, n), []) == Some(Meaning(ReviewsLink, n))
  {
    hide Print, PositiveId, Page, TrimPrefixes;
    NumberRead(ReviewsLink, n);
    Trimmed("/reviews_", Print(n));
    hide LinkText;
    LinkStarts(ReviewsLink, n);
    assert LinkText(ReviewsLink, n)[1] == 'r' && LinkText(ReviewsLink, n)[3] == 'v';
  }

  lemma ReviewSendRead(n: nat)
    requires Number(ReviewSendLink, n)
    ensures ReviewArms(LinkText(ReviewSendLink, n), []) == Some(Meaning(ReviewSendLink, n))
  {
    hide Print, PositiveId, Page, LinkText, After;
    NumberRead(ReviewSendLink, n);
    LinkStarts(ReviewSendLink, n);
    var c := LinkText(ReviewSendLink, n);
    assert c[1] == 'r' && c[3] == 'v' && c[7] == '_';
  }

  lemma ReviewSkipRead(n: nat)
    requires Number(ReviewSkipLink, n)
    ensures ReviewArms(LinkText(ReviewSkipLink, n), []) == Some(Meaning(ReviewSkipLink, n))
  {
    hide Print, PositiveId, Page, LinkText, After;
    NumberRead(ReviewSkipLink, n);
    LinkStarts(ReviewSkipLink, n);
    var c := LinkText(ReviewSkipLink, n);
    assert c[1] == 'r' && c[3] == 'v' && c[7] == '_' && c[9] == 'k';
  }

  lemma AiRejectRead(n: nat)
    requires Number(AiRejectLink, n)
    ensures AiArms(LinkText(AiRejectLink, n), []) == Some(Meaning(AiRejectLink, n))
  {
    hide Print, PositiveId, Page, LinkText, After;
    NumberRead(AiRejectLink, n);
    LinkStarts(AiRejectLink, n);
  }

  lemma AiApproveRead(n: nat)
    requires Number(AiApproveLink, n)
    ensures AiArms(LinkText(AiApproveLink, n), []) == Some(Meaning(AiApproveLink, n))
  {
    hide Print, PositiveId, Page, LinkText, After;
    NumberRead(AiApproveLink, n);
    LinkStarts(AiApproveLink, n);
    assert LinkText(AiApproveLink, n)[4] == 'a';
  }

  // `/review_N` falls through the review arms before it.
  lemma ReviewFallsThrough(n: nat)
    ensures ReviewArms(LinkText(ReviewLink, n), []).None?
  {
    hide Print, PositiveId, Page, LinkText, After;
    LinkStarts(ReviewLink, n);
    var c := LinkText(ReviewLink, n);
    assert c[1] == 'r' && c[3] == 'v' && c[7] == '_' && IsDigit(c[8]);
  }

  lemma ReviewRead(n: nat)
    requires Number(ReviewLink, n)
    ensures LatestArms(LinkText(ReviewLink, n), []) == Some(Meaning(ReviewLink, n))
  {
    hide Print, PositiveId, Page, LinkText, After;
    NumberRead(ReviewLink, n);
    LinkStarts(ReviewLink, n);
  }

  lemma LatestPostRead(n: nat)
    requires Number(LatestPostLink, n)
    ensures LatestArms(LinkText(LatestPostLink, n), []) == Some(Meaning(LatestPostLink, n))
  {
    hide Print, PositiveId, Page, LinkText, After;
    NumberRead(LatestPostLink, n);
    LinkStarts(LatestPostLink, n);
    assert LinkText(LatestPostLink, n)[1] == 'l';
  }

  lemma LatestRead(n: nat)
    requires Number(LatestLink, n)
    ensures LatestArms(LinkText(LatestLink, n), []) == Some(Meaning(LatestLink, n))
  {
    hide Print, PositiveId, Page, TrimPrefixes;
    NumberRead(LatestLink, n);
    Trimmed("/latest_", Print(n));
    hide LinkText;
    LinkStarts(LatestLink, n);
    assert LinkText(LatestLink, n)[1] == 'l' && IsDigit(LinkText(LatestLink, n)[8]);
  }

  // ---- Dispatch -----------------------------------------------------------

  // No earlier arm takes a printed command away from its own.
  lemma {:induction false} LinkDispatches(u: Unicode, l: Link, n: nat)
    requires Number(l, n)
    ensures SlashCommand(u, LinkText(l, n), []) == Some(Meaning(l, n))
  {
    hide LinkText, Print, SettingsArms, FeedbackArms, CrawlArms, PortalArms, EventArms, PageArms, ContactArms,
         DonateArms, ReviewArms, AiArms, LatestArms;
    var c, none := LinkText(l, n), [];
    LinkStarts(l, n);
    SettingsArmsSkip(c, none);
    match l
    case UsefulLink => UsefulRead(n);
    case IrrelevantLink => IrrelevantRead(n);
    case OpenLink => OpenRead(n);
    case FeedbacksLink => FeedbacksRead(n);
    case CrawlHistoryLink => FeedbackArmsSkip(c, none); CrawlHistoryRead(n);
    case CrawlRunLink => FeedbackArmsSkip(c, none); CrawlRunRead(n);
    case PortalHistoryLink => FeedbackArmsSkip(c, none); CrawlArmsSkip(c, none); PortalHistoryRead(n);
    case PortalNoticeLink => FeedbackArmsSkip(c, none); CrawlArmsSkip(c, none); PortalNoticeRead(n);
    case EventsLink =>
      FeedbackArmsSkip(c, none); CrawlArmsSkip(c, none); PortalArmsSkip(c, none); EventsRead(n);
    case PagesLink => EarlyArmsSkip(c); PagesRead(n);
    case ReviewsLink => EarlyArmsSkip(c); MiddleArmsSkip(u, c); ReviewsRead(n);
    case ReviewSendLink => EarlyArmsSkip(c); MiddleArmsSkip(u, c); ReviewSendRead(n);
    case ReviewSkipLink => EarlyArmsSkip(c); MiddleArmsSkip(u, c); ReviewSkipRead(n);
    case AiRejectLink => EarlyArmsSkip(c); MiddleArmsSkip(u, c); ReviewArmsSkip(c, none); AiRejectRead(n);
    case AiApproveLink => EarlyArmsSkip(c); MiddleArmsSkip(u, c); ReviewArmsSkip(c, none); AiApproveRead(n);
    case ReviewLink =>
      EarlyArmsSkip(c); MiddleArmsSkip(u, c); ReviewFallsThrough(n); AiArmsSkip(c, none); ReviewRead(n);
    case LatestPostLink =>
      EarlyArmsSkip(c); MiddleArmsSkip(u, c); ReviewArmsSkip(c, none); AiArmsSkip(c, none); LatestPostRead(n);
    case LatestLink =>
      EarlyArmsSkip(c); MiddleArmsSkip(u, c); ReviewArmsSkip(c, none); AiArmsSkip(c, none); LatestRead(n);
  }

  lemma EarlyArmsSkip(c: string)
    requires |c| > 2 && (c[1] == 'p' || c[1] == 'r' || c[1] == 'a' || c[1] == 'l' || c[1] == 'd')
    requires (c[1] == 'p' ==> c[2] != 'o') && (c[1] == 'a' ==> c[2] != 'c')
    ensures FeedbackArms(c, []).None? && CrawlArms(c, []).None? && PortalArms(c, []).None? && EventArms(c, []).None?
  {
    hide FeedbackArms, CrawlArms, PortalArms, EventArms;
    FeedbackArmsSkip(c, []);
    CrawlArmsSkip(c, []);
    PortalArmsSkip(c, []);
    EventArmsSkip(c, []);
  }

  lemma MiddleArmsSkip(u: Unicode, c: string)
    requires |c| > 3 && (c[1] == 'r' || c[1] == 'a' || c[1] == 'l')
    requires c[2] != 'd' && c[3] != 'p'
    ensures PageArms(c, []).None? && ContactArms(u, c, []).None? && DonateArms(u, c, []).None?
  {
  }

  // ---- From the message text ----------------------------------------------

  // Characters that no text function changes or splits at.
  predicate PlainChar(c: char) {
    c == '/' || c == '_' || 'a' <= c <= 'z' || '0' <= c <= '9'
  }

  predicate PlainText(s: string) {
    forall i :: 0 <= i < |s| ==> PlainChar(s[i])
  }

  // Nothing, or '@' and the bot's name.
  predicate Mention(s: string) {
    s == "" || (s[0] == '@' && Ascii(s) && forall i :: 0 <= i < |s| ==> !AsciiSpace(s[i]))
  }

  predicate InFirstArms(l: Link) {
    l.UsefulLink? || l.IrrelevantLink? || l.OpenLink? || l.FeedbacksLink? || l.CrawlHistoryLink? || l.CrawlRunLink?
    || l.PortalHistoryLink? || l.PortalNoticeLink? || l.EventsLink?
  }

  lemma FirstPrefixesPlain(l: Link)
    requires InFirstArms(l)
    ensures PlainText(Prefix(l)) && |Prefix(l)| > 0 && Prefix(l)[0] == '/'
  {
  }

  lemma LastPrefixesPlain(l: Link)
    requires !InFirstArms(l)
    ensures PlainText(Prefix(l)) && |Prefix(l)| > 0 && Prefix(l)[0] == '/'
  {
  }

  lemma PrefixPlain(l: Link)
    ensures PlainText(Prefix(l)) && |Prefix(l)| > 0 && Prefix(l)[0] == '/'
  {
    hide Prefix, PlainText;
    if InFirstArms(l) { FirstPrefixesPlain(l); } else { LastPrefixesPlain(l); }
  }

  lemma LinkPlain(l: Link, n: nat)
    ensures PlainText(LinkText(l, n)) && LinkText(l, n) != "" && LinkText(l, n)[0] == '/'
  {
    hide Prefix, Print;
    PrefixPlain(l);
  }

  lemma {:induction false} OneWord(u: Unicode, s: string)
    requires s != "" && forall i :: 0 <= i < |s| ==> !u.isSpace(s[i])
    ensures Words(u, s) == [s]
  {
    if |s| > 1 {
      OneWord(u, s[1..]);
      assert s == [s[0]] + s[1..];
    } else {
      assert Words(u, s[1..]) == [];
      assert s == [s[0]];
    }
  }

  lemma NameDropped(c: string, mention: string)
    requires PlainText(c) && Mention(mention)
    ensures Split(c + mention, '@')[0] == c
  {
    assert '@' !in c;
    SplitNone(c, '@');
    if mention == "" {
      assert c + mention == c;
    } else {
      SplitAppend(c, mention[1..], '@');
      assert mention == ['@'] + mention[1..];
    }
  }

  lemma LowerPlain(u: Unicode, c: string)
    requires Sane(u) && PlainText(c)
    ensures u.lower(c) == c
  {
  }

  lemma PhraseSkip(t: string)
    requires t != "" && t[0] == '/'
    ensures Phrase(t).None?
  {
  }

  // A plain command, with or without the bot's name, is dispatched as it stands.
  lemma PlainCommand(u: Unicode, c: string, mention: string)
    requires Sane(u) && PlainText(c) && c != "" && c[0] == '/' && Mention(mention)
    requires SlashCommand(u, c, []).Some?
    ensures ParseInteractionCommand(u, c + mention) == SlashCommand(u, c, []).value
  {
    hide SlashCommand, Phrase, Split, Words;
    var text := c + mention;
    assert Ascii(text) && forall i :: 0 <= i < |text| ==> !u.isSpace(text[i]);
    Amounts.NothingToTrim(u, text);
    OneWord(u, text);
    NameDropped(c, mention);
    LowerPlain(u, c);
    assert u.lower(text) == LowerAscii(text);
    PhraseSkip(LowerAscii(text));
    assert [text][1..] == [];
  }

  // Every printed command with a positive number of its kind, with or without the
  // bot's name, parses back to what it stands for.
  lemma {:induction false} LinkRoundTrip(u: Unicode, l: Link, n: nat, mention: string)
    requires Sane(u) && Number(l, n) && Mention(mention)
    ensures ParseInteractionCommand(u, LinkText(l, n) + mention) == Meaning(l, n)
  {
    hide LinkText, SlashCommand, ParseInteractionCommand, Sane;
    LinkPlain(l, n);
    LinkDispatches(u, l, n);
    PlainCommand(u, LinkText(l, n), mention);
  }

  // ---- Donation amounts ---------------------------------------------------

  lemma DonateText(digits: string)
    requires digits != "" && IsDigit(digits[0])
    ensures var c := "/donate_" + digits;
      c != "/donate" && c != "/donate_custom" && c != "/donate_later"
      && HasPrefix(c, "/donate_") && After(c, "/donate_") == digits
  {
    Suffix("/donate_", digits);
    hide HasPrefix, After;
    var c := "/donate_" + digits;
    assert |c| > 8 && c[8] == digits[0];
    assert "/donate_custom"[8] == 'c' && "/donate_later"[8] == 'l';
  }

  lemma DonateRead(u: Unicode, n: nat)
    requires Sane(u) && n <= Amounts.I64_MAX
    ensures DonateArms(u, "/donate_" + Print(n), []) == Some(
      if Amounts.MIN_AMOUNT <= n <= Amounts.MAX_AMOUNT then DonateAmount(n) else Usage)
  {
    hide Print, Amounts.ParseDonationAmount, Sane, HasPrefix, After;
    Amounts.DigitsAmount(u, n);
    DonateText(Print(n));
  }

  // The donation buttons' commands: accepted amounts are read back, others are
  // answered with the usage hint.
  lemma {:induction false} DonateRoundTrip(u: Unicode, n: nat, mention: string)
    requires Sane(u) && n <= Amounts.I64_MAX && Mention(mention)
    ensures ParseInteractionCommand(u, ("/donate_" + Print(n)) + mention) ==
      if Amounts.MIN_AMOUNT <= n <= Amounts.MAX_AMOUNT then DonateAmount(n) else Usage
  {
    hide SlashCommand, ParseInteractionCommand, Sane, DonateArms;
    var c := "/donate_" + Print(n);
    assert PlainText(c);
    DonateRead(u, n);
    DonateDispatches(u, c);
    PlainCommand(u, c, mention);
  }

  lemma DonateDispatches(u: Unicode, c: string)
    requires |c| > 3 && c[1] == 'd' && DonateArms(u, c, []).Some?
    ensures SlashCommand(u, c, []) == DonateArms(u, c, [])
  {
    hide SettingsArms, FeedbackArms, CrawlArms, PortalArms, EventArms, PageArms, ContactArms,
         DonateArms, ReviewArms, AiArms, LatestArms;
    SettingsArmsSkip(c, []);
    FeedbackArmsSkip(c, []);
    CrawlArmsSkip(c, []);
    PortalArmsSkip(c, []);
    EventArmsSkip(c, []);
    PageArmsSkip(c, []);
    ContactArmsSkip(u, c, []);
  }

  // ---- Buttons without a number -------------------------------------------

  datatype Button =
    | OnboardDrlButton | OnboardAllButton | OnboardSampleButton
    | ScopeDrlButton | ScopeAllButton | ModeInstantButton | ModeDailyButton | QuietOnButton | QuietOffButton
    | StartButton | SampleButton | StopButton | CustomAmountButton

  function ButtonText(b: Button): string {
    match b
    case OnboardDrlButton => "/onboard_drl"
    case OnboardAllButton => "/onboard_all"
    case OnboardSampleButton => "/onboard_sample"
    case ScopeDrlButton => "/settings_scope_drl"
    case ScopeAllButton => "/settings_scope_all"
    case ModeInstantButton => "/settings_mode_instant"
    case ModeDailyButton => "/settings_mode_daily"
    case QuietOnButton => "/settings_quiet_on"
    case QuietOffButton => "/settings_quiet_off"
    case StartButton => "/start"
    case SampleButton => "/settings_sample"
    case StopButton => "/stop"
    case CustomAmountButton => "/donate_custom"
  }

  function ButtonMeaning(b: Button): Command {
    match b
    case OnboardDrlButton => OnboardScope("drl")
    case OnboardAllButton => OnboardScope("all")
    case OnboardSampleButton => OnboardSample
    case ScopeDrlButton => SettingsScope("drl")
    case ScopeAllButton => SettingsScope("all")
    case ModeInstantButton => SettingsMode("instant")
    case ModeDailyButton => SettingsMode("daily")
    case QuietOnButton => SettingsQuiet(true)
    case QuietOffButton => SettingsQuiet(false)
    case StartButton => Start(None)
    case SampleButton => SettingsSample
    case StopButton => Stop
    case CustomAmountButton => PromptDonationAmount
  }

  predicate OnboardButton(b: Button) {
    b.OnboardDrlButton? || b.OnboardAllButton? || b.OnboardSampleButton?
  }

  lemma OnboardRead(b: Button)
    requires OnboardButton(b)
    ensures SettingsArms(ButtonText(b), []) == Some(ButtonMeaning(b))
  {
    var c := ButtonText(b);
    assert c[1] == 'o' && "/start"[1] == 's' && "/settings"[1] == 's' && "/settings_sample"[1] == 's';
    assert "/onboard_drl"[9] == 'd' && "/onboard_all"[9] == 'a';
    assert |"/onboard_sample"| == 15 && |"/onboard_drl"| == 12 && |"/onboard_all"| == 12;
  }

  lemma SettingsRead(b: Button)
    requires !OnboardButton(b) && !b.StopButton? && !b.CustomAmountButton?
    ensures SettingsArms(ButtonText(b), []) == Some(ButtonMeaning(b))
  {
    var c := ButtonText(b);
    assert "/onboard_drl"[1] == 'o' && "/onboard_all"[1] == 'o' && "/onboard_sample"[1] == 'o';
    assert |"/start"| == 6 && |"/settings"| == 9 && |"/settings_sample"| == 16;
    assert |"/settings_scope_drl"| == 19 && "/settings_scope_drl"[16] == 'd';
    assert |"/settings_scope_all"| == 19 && "/settings_scope_all"[16] == 'a';
    assert |"/settings_mode_instant"| == 22 && |"/settings_mode_daily"| == 20;
    assert |"/settings_quiet_on"| == 18 && |"/settings_quiet_off"| == 19 && "/settings_quiet_off"[10] == 'q';
    assert "/settings_scope_drl"[10] == 's' && "/settings_scope_all"[10] == 's';
  }

  lemma StopRead(u: Unicode)
    ensures SlashCommand(u, "/stop", []) == Some(Stop)
  {
    var c := "/stop";
    assert SettingsArms(c, []).None? by {
      assert "/onboard_drl"[1] == 'o' && "/onboard_all"[1] == 'o' && "/onboard_sample"[1] == 'o';
      assert c[3] == 'o' && "/start"[3] == 'a';
      assert |c| == 5;
    }
    FeedbackArmsSkip(c, []);
    CrawlArmsSkip(c, []);
    PortalArmsSkip(c, []);
    EventArmsSkip(c, []);
    assert PageArms(c, []) == Some(Stop) by {
      assert c[1] == 's' && "/report"[1] == 'r' && "/admin"[1] == 'a' && "/help"[1] == 'h' && "/status"[3] == 'a';
    }
    hide SettingsArms, FeedbackArms, CrawlArms, PortalArms, EventArms, PageArms;
  }

  lemma CustomAmountRead(u: Unicode)
    ensures DonateArms(u, "/donate_custom", []) == Some(PromptDonationAmount)
  {
    assert |"/donate_custom"| == 14 && |"/donate"| == 7;
  }

  lemma ButtonDispatches(u: Unicode, b: Button)
    ensures SlashCommand(u, ButtonText(b), []) == Some(ButtonMeaning(b))
  {
    hide SettingsArms, DonateArms;
    match b {
      case StopButton =>
        StopRead(u);
      case CustomAmountButton =>
        CustomAmountRead(u);
        assert "/donate_custom"[1] == 'd';
        DonateDispatches(u, "/donate_custom");
      case _ =>
        hide ButtonText, ButtonMeaning, FeedbackArms, CrawlArms, PortalArms, EventArms, PageArms, ContactArms,
             ReviewArms, AiArms, LatestArms;
        if OnboardButton(b) { OnboardRead(b); } else { SettingsRead(b); }
    }
  }

  lemma ButtonPlain(b: Button)
    ensures PlainText(ButtonText(b)) && ButtonText(b) != "" && ButtonText(b)[0] == '/'
  {
  }

  // The buttons' other commands parse back to what they stand for.
  lemma {:induction false} ButtonRoundTrip(u: Unicode, b: Button, mention: string)
    requires Sane(u) && Mention(mention)
    ensures ParseInteractionCommand(u, ButtonText(b) + mention) == ButtonMeaning(b)
  {
    hide ButtonText, ButtonMeaning, SlashCommand, ParseInteractionCommand, Sane;
    ButtonPlain(b);
    ButtonDispatches(u, b);
    PlainCommand(u, ButtonText(b), mention);
  }
}
