// Commands followed by words, and the fixed phrases on the bot's keyboard.
module CommandWords {
  import opened Prelude
  import opened Decimal
  import opened Text
  import Amounts
  import opened Commands
  import opened CommandLinks

  // ---- Splitting a message into words -------------------------------------

  predicate IsWord(u: Unicode, w: string) {
    w != "" && forall i :: 0 <= i < |w| ==> !u.isSpace(w[i])
  }

  predicate AreWords(u: Unicode, words: seq<string>) {
    forall i :: 0 <= i < |words| ==> IsWord(u, words[i])
  }

  lemma {:induction false} WordThen(u: Unicode, w: string, rest: string)
    requires IsWord(u, w) && u.isSpace(' ')
    ensures Words(u, w + (" " + rest)) == [w] + Words(u, rest)
  {
    var s := w + (" " + rest);
    if |w| == 1 {
      assert s[1..] == " " + rest && (" " + rest)[1..] == rest;
      assert Words(u, " " + rest) == Words(u, rest);
      assert w == [w[0]];
    } else {
      assert s[1..] == w[1..] + (" " + rest);
      WordThen(u, w[1..], rest);
      assert w == [w[0]] + w[1..];
    }
  }

  // White space before a word is passed over, however much of it there is.
  lemma {:induction false} SpacesPassed(u: Unicode, spaces: string, rest: string)
    requires forall i :: 0 <= i < |spaces| ==> u.isSpace(spaces[i])
    ensures Words(u, spaces + rest) == Words(u, rest)
  {
    if spaces == "" {
      assert spaces + rest == rest;
    } else {
      assert (spaces + rest)[1..] == spaces[1..] + rest;
      SpacesPassed(u, spaces[1..], rest);
    }
  }

  // Words joined by single spaces are split again.
  lemma {:induction false} WordsOfJoined(u: Unicode, words: seq<string>)
    requires AreWords(u, words) && u.isSpace(' ')
    ensures Words(u, JoinWords(words)) == words
  {
    hide Words;
    if |words| == 0 {
      NoWords(u);
    } else if |words| == 1 {
      OneWord(u, words[0]);
      assert words == [words[0]];
    } else {
      WordsOfJoined(u, words[1..]);
      assert JoinWords(words) == words[0] + (" " + JoinWords(words[1..]));
      WordThen(u, words[0], JoinWords(words[1..]));
      assert words == [words[0]] + words[1..];
    }
  }

  lemma NoWords(u: Unicode)
    ensures Words(u, "") == []
  {
  }

  lemma {:induction false} JoinedEnds(u: Unicode, words: seq<string>)
    requires AreWords(u, words) && words != []
    ensures var s := JoinWords(words); s != "" && s[0] == words[0][0] && !u.isSpace(s[|s| - 1])
  {
    if |words| > 1 { JoinedEnds(u, words[1..]); }
  }

  lemma CommandIsWord(u: Unicode, c: string)
    requires Sane(u) && PlainText(c) && c != ""
    ensures IsWord(u, c) && u.isSpace(' ') && !u.isSpace(c[0])
  {
  }

  lemma LowersSlash(u: Unicode, s: string)
    requires Sane(u)
    ensures s != "" && s[0] == '/' ==> u.lower(s) != "" && u.lower(s)[0] == '/'
  {
  }

  // A plain command with words after it is dispatched with these words.
  lemma SpacedCommand(u: Unicode, c: string, words: seq<string>)
    requires Sane(u) && PlainText(c) && c != "" && c[0] == '/' && AreWords(u, words)
    requires SlashCommand(u, c, words).Some?
    ensures ParseInteractionCommand(u, JoinWords([c] + words)) == SlashCommand(u, c, words).value
  {
    hide SlashCommand, Phrase, Split, Words, Sane, PlainText, Trim, JoinWords, IsWord;
    var all := [c] + words;
    CommandIsWord(u, c);
    LowersSlash(u, JoinWords(all));
    assert AreWords(u, all);
    JoinedEnds(u, all);
    Amounts.NothingToTrim(u, JoinWords(all));
    WordsOfJoined(u, all);
    NameDropped(c, "");
    assert c + "" == c;
    CommandLinks.LowerPlain(u, c);
    PhraseSkip(u.lower(JoinWords(all)));
    assert all[1..] == words;
  }

  // ---- Arms that cannot match ---------------------------------------------

  lemma DonateArmsSkip(u: Unicode, c: string, words: seq<string>)
    requires |c| > 2 && c[1] != 'd'
    ensures DonateArms(u, c, words).None?
  {
  }

  // A command that no arm before the administrator's reads.
  lemma ToReviewArms(u: Unicode, c: string, words: seq<string>)
    requires |c| > 3 && (c[1] == 'a' || c[1] == 'r' || c[1] == 'l')
    requires c[2] != 'c' && c[2] != 'd' && (c[1] == 'r' ==> c[3] != 'p')
    ensures SlashCommand(u, c, words)
            == Else(ReviewArms(c, words), Else(AiArms(c, words), LatestArms(c, words)))
  {
    hide SettingsArms, FeedbackArms, CrawlArms, PortalArms, EventArms, PageArms, ContactArms, DonateArms, ReviewArms,
         AiArms, LatestArms;
    SettingsArmsSkip(c, words);
    FeedbackArmsSkip(c, words);
    CrawlArmsSkip(c, words);
    PortalArmsSkip(c, words);
    EventArmsSkip(c, words);
    PageArmsSkip(c, words);
    ContactArmsSkip(u, c, words);
    DonateArmsSkip(u, c, words);
  }

  // ---- The administrator's decisions --------------------------------------

  predicate IsI64(n: int) {
    Amounts.I64_MIN <= n <= Amounts.I64_MAX
  }

  lemma NumberWord(u: Unicode, n: int)
    requires Sane(u) && IsI64(n)
    ensures IsWord(u, PrintInt(n)) && ParseSigned(PrintInt(n), Amounts.I64_MIN, Amounts.I64_MAX) == Some(n)
  {
    IntParses(n, Amounts.I64_MIN, Amounts.I64_MAX);
  }

  lemma Detail(id: string, detail: seq<string>)
    ensures Rest([id] + detail, 1) == JoinWords(detail)
  {
    assert ([id] + detail)[1..] == detail;
  }

  // Approving names the entry, rejecting gives the reason, each after its number.
  lemma {:induction false} DecisionIs(u: Unicode, n: int, detail: seq<string>)
    requires Sane(u) && IsI64(n) && AreWords(u, detail) && detail != []
    ensures ParseInteractionCommand(u, JoinWords(["/approve", PrintInt(n)] + detail)) == Approve(n, JoinWords(detail))
    ensures ParseInteractionCommand(u, JoinWords(["/reject", PrintInt(n)] + detail)) == Reject(n, JoinWords(detail))
  {
    hide ParseInteractionCommand, JoinWords, PrintInt, ParseSigned, SlashCommand, Sane, IsWord, PlainText, ReviewArms,
         AiArms, LatestArms, Rest;
    var words := [PrintInt(n)] + detail;
    DecisionsPlain();
    NumberWord(u, n);
    Detail(PrintInt(n), detail);
    JoinedEnds(u, detail);
    ApproveArms(words);
    ToReviewArms(u, "/approve", words);
    ToReviewArms(u, "/reject", words);
    SpacedCommand(u, "/approve", words);
    SpacedCommand(u, "/reject", words);
    assert ["/approve"] + words == ["/approve", PrintInt(n)] + detail;
    assert ["/reject"] + words == ["/reject", PrintInt(n)] + detail;
  }

  lemma DecisionsPlain()
    ensures PlainText("/approve") && PlainText("/reject")
  {
  }

  lemma ApproveArms(words: seq<string>)
    ensures ReviewArms("/approve", words) == Some(ParseReviewCommand(words, true))
    ensures ReviewArms("/reject", words) == Some(ParseReviewCommand(words, false))
  {
    assert "/approve"[1] == 'a' && "/pending"[1] == 'p' && "/reject"[1] == 'r';
  }

  lemma ReasonArms(words: seq<string>)
    requires |words| > 1 && PositiveId(Some(words[0])).Some?
    ensures var id, reason := PositiveId(Some(words[0])).value, NonEmpty(Rest(words, 1));
      && ReviewArms("/review_skip", words) == Some(ReviewSkip(id, reason))
      && AiArms("/ai_reject", words) == Some(AiReject(id, reason))
      && AiArms("/ai_approve", words) == Some(AiApprove(id, reason))
  {
    hide PositiveId, Rest, ReviewArms, AiArms;
    ReasonSkip(words);
    AiReasons(words);
    assert Word(words, 0) == Some(words[0]);
  }

  lemma AiReasons(words: seq<string>)
    requires |words| > 1 && PositiveId(Some(words[0])).Some?
    ensures var id, reason := PositiveId(Some(words[0])).value, NonEmpty(Rest(words, 1));
      && AiArms("/ai_reject", words) == Some(AiReject(id, reason))
      && AiArms("/ai_approve", words) == Some(AiApprove(id, reason))
  {
    hide PositiveId, Rest;
    var c, d := "/ai_reject", "/ai_approve";
    assert |c| == 10 && |d| == 11 && c[4] == 'r' && d[4] == 'a';
    assert AiArms(c, words) == Some(OrUsage(PositiveId(Word(words, 0)), id => AiReject(id, NonEmpty(Rest(words, 1)))));
    assert AiArms(d, words) == Some(OrUsage(PositiveId(Word(words, 0)), id => AiApprove(id, NonEmpty(Rest(words, 1)))));
  }

  lemma ReasonSkip(words: seq<string>)
    ensures ReviewArms("/review_skip", words)
            == Some(OrUsage(PositiveId(Word(words, 0)), id => ReviewSkip(id, NonEmpty(Rest(words, 1)))))
  {
    hide PositiveId, Rest, Page, Word;
    var c := "/review_skip";
    assert c[1] == 'r' && c[2] == 'e' && c[3] == 'v' && "/reject"[3] == 'j' && "/pending"[1] == 'p';
    assert "/approve"[1] == 'a' && |"/review"| == 7 && |"/reviews"| == 8 && |"/review_send"| == 12 && |c| == 12;
    assert "/review_send"[9] == 'e' && c[9] == 'k' && c[7] == '_';
  }

  // What follows the number is the reason.
  lemma {:induction false} ReasonIs(u: Unicode, n: int, reason: seq<string>)
    requires Sane(u) && 0 < n <= Amounts.I64_MAX && AreWords(u, reason) && reason != []
    ensures ParseInteractionCommand(u, JoinWords(["/review_skip", PrintInt(n)] + reason))
            == ReviewSkip(n, Some(JoinWords(reason)))
    ensures ParseInteractionCommand(u, JoinWords(["/ai_reject", PrintInt(n)] + reason))
            == AiReject(n, Some(JoinWords(reason)))
    ensures ParseInteractionCommand(u, JoinWords(["/ai_approve", PrintInt(n)] + reason))
            == AiApprove(n, Some(JoinWords(reason)))
  {
    hide ParseInteractionCommand, JoinWords, PrintInt, ParseSigned, SlashCommand, Sane, IsWord, PlainText, ReviewArms,
         AiArms, LatestArms, Rest;
    var words := [PrintInt(n)] + reason;
    NumberWord(u, n);
    Detail(PrintInt(n), reason);
    JoinedEnds(u, reason);
    ReasonArms(words);
    ReasonsPlain();
    ReviewArmsSkip("/ai_reject", words);
    ReviewArmsSkip("/ai_approve", words);
    ToReviewArms(u, "/review_skip", words);
    ToReviewArms(u, "/ai_reject", words);
    ToReviewArms(u, "/ai_approve", words);
    SpacedCommand(u, "/review_skip", words);
    SpacedCommand(u, "/ai_reject", words);
    SpacedCommand(u, "/ai_approve", words);
    assert ["/review_skip"] + words == ["/review_skip", PrintInt(n)] + reason;
    assert ["/ai_reject"] + words == ["/ai_reject", PrintInt(n)] + reason;
    assert ["/ai_approve"] + words == ["/ai_approve", PrintInt(n)] + reason;
  }

  lemma ReasonsPlain()
    ensures PlainText("/review_skip") && PlainText("/ai_reject") && PlainText("/ai_approve")
  {
  }

  // ---- Free text ----------------------------------------------------------

  lemma FeedbackReads(u: Unicode, words: seq<string>)
    ensures SlashCommand(u, "/feedback", words) == ContactArms(u, "/feedback", words)
    ensures ContactArms(u, "/feedback", words) ==
      Some(if Trim(u, JoinWords(words)) == "" then UserFeedbackPrompt else UserFeedback(JoinWords(words)))
  {
    hide JoinWords, Trim;
    var c := "/feedback";
    SettingsArmsSkip(c, words);
    assert FeedbackArms(c, words).None? by { assert c[1] == 'f' && |c| == 9; }
    CrawlArmsSkip(c, words);
    PortalArmsSkip(c, words);
    EventArmsSkip(c, words);
    PageArmsSkip(c, words);
    assert "/suggest"[1] == 's' && "/contact"[1] == 'c';
    hide SettingsArms, FeedbackArms, CrawlArms, PortalArms, EventArms, PageArms;
  }

  lemma SuggestReads(u: Unicode, words: seq<string>)
    ensures SlashCommand(u, "/suggest", words) == Some(Suggest(Word(words, 0)))
  {
    var c := "/suggest";
    assert SettingsArms(c, words).None? by {
      assert c[2] == 'u' && "/start"[2] == 't' && "/onboard_drl"[1] == 'o' && "/onboard_all"[1] == 'o';
      assert "/onboard_sample"[1] == 'o' && |"/settings"| == 9 && |c| == 8;
    }
    FeedbackArmsSkip(c, words);
    CrawlArmsSkip(c, words);
    PortalArmsSkip(c, words);
    EventArmsSkip(c, words);
    assert PageArms(c, words).None? by { assert "/report"[1] == 'r' && "/admin"[1] == 'a' && "/help"[1] == 'h'; }
    hide SettingsArms, FeedbackArms, CrawlArms, PortalArms, EventArms, PageArms;
  }

  // A start parameter is valid exactly with one to 64 letters, digits, underscores
  // and hyphens.
  lemma {:induction false} StartParameterIs(value: string)
    ensures ValidStartParameter(value) <==>
      && value != "" && |value| < 65
      && forall c :: c in value ==> c in {'_', '-'} || '0' <= c <= '9' || 'a' <= LowerChar(c) <= 'z'
  {
    assert forall i :: 0 <= i < |value| ==> value[i] in value;
  }

  // Feedback is the text after the command, a suggestion its first word, and a
  // start parameter counts if it is a valid one.
  lemma {:induction false} FreeTextIs(u: Unicode, words: seq<string>)
    requires Sane(u) && AreWords(u, words) && words != []
    ensures ParseInteractionCommand(u, JoinWords(["/feedback"] + words)) == UserFeedback(JoinWords(words))
    ensures ParseInteractionCommand(u, JoinWords(["/suggest"] + words)) == Suggest(Some(words[0]))
    ensures ParseInteractionCommand(u, JoinWords(["/start"] + words))
            == Start(if ValidStartParameter(words[0]) then Some(words[0]) else None)
  {
    hide ParseInteractionCommand, SlashCommand, Sane, Trim, ValidStartParameter;
    FirstNotSpace(u, words);
    hide JoinWords;
    FeedbackReads(u, words);
    SuggestReads(u, words);
    StartReads(u, words);
    SpacedCommand(u, "/feedback", words);
    SpacedCommand(u, "/suggest", words);
    SpacedCommand(u, "/start", words);
  }

  lemma StartReads(u: Unicode, words: seq<string>)
    ensures SlashCommand(u, "/start", words)
            == Some(Start(if |words| > 0 && ValidStartParameter(words[0]) then Some(words[0]) else None))
  {
    hide FeedbackArms, CrawlArms, PortalArms, EventArms, PageArms, ContactArms, DonateArms, ReviewArms, AiArms,
         LatestArms, ValidStartParameter;
  }

  lemma FirstNotSpace(u: Unicode, words: seq<string>)
    requires AreWords(u, words) && words != []
    ensures Trim(u, JoinWords(words)) != ""
  {
    hide Trim;
    JoinedEnds(u, words);
    Amounts.NothingToTrim(u, JoinWords(words));
  }

  // ---- Numbers after a space ----------------------------------------------

  predicate HasSpaced(l: Link) {
    !l.UsefulLink? && !l.IrrelevantLink? && !l.OpenLink?
  }

  // The command without its number.
  function Name(l: Link): string
    requires HasSpaced(l)
  {
    match l
    case FeedbacksLink => "/feedbacks"
    case CrawlHistoryLink => "/crawl_history"
    case CrawlRunLink => "/crawl_run"
    case PortalHistoryLink => "/portal_history"
    case PortalNoticeLink => "/portal_notice"
    case EventsLink => "/events"
    case PagesLink => "/pages"
    case ReviewsLink => "/reviews"
    case ReviewSendLink => "/review_send"
    case ReviewSkipLink => "/review_skip"
    case AiRejectLink => "/ai_reject"
    case AiApproveLink => "/ai_approve"
    case ReviewLink => "/review"
    case LatestPostLink => "/latest_post"
    case LatestLink => "/latest"
  }

  // What a number word in this place means.
  function MeantBy(l: Link, word: string): Command
    requires HasSpaced(l)
  {
    match l
    case FeedbacksLink => FeedbackHistory(Page(Some(word)))
    case CrawlHistoryLink => CrawlHistory(Page(Some(word)))
    case CrawlRunLink => OrUsage(PositiveId(Some(word)), id => CrawlRun(id))
    case PortalHistoryLink => PortalHistory(Page(Some(word)))
    case PortalNoticeLink => OrUsage(PositiveId(Some(word)), id => PortalNotice(id))
    case EventsLink => Events(Page(Some(word)))
    case PagesLink => Pages(Page(Some(word)))
    case ReviewsLink => Reviews(Page(Some(word)))
    case ReviewSendLink => OrUsage(PositiveId(Some(word)), id => ReviewSend(id))
    case ReviewSkipLink => OrUsage(PositiveId(Some(word)), id => ReviewSkip(id, None))
    case AiRejectLink => OrUsage(PositiveId(Some(word)), id => AiReject(id, None))
    case AiApproveLink => OrUsage(PositiveId(Some(word)), id => AiApprove(id, None))
    case ReviewLink => OrUsage(PositiveId(Some(word)), id => Review(id))
    case LatestPostLink => OrUsage(PositiveId(Some(word)), id => LatestPost(id))
    case LatestLink => Latest(Page(Some(word)))
  }

  lemma MeantNumber(l: Link, n: nat)
    requires HasSpaced(l) && Number(l, n)
    ensures MeantBy(l, Print(n)) == Meaning(l, n)
  {
    hide Page, PositiveId, Print;
    NumberRead(l, n);
  }

  lemma NoMoreWords(word: string)
    ensures Rest([word], 1) == "" && Word([word], 0) == Some(word)
  {
    assert [word][1..] == [];
  }

  lemma EarlyNames(l: Link, word: string)
    requires l.FeedbacksLink? || l.CrawlHistoryLink? || l.CrawlRunLink?
    ensures l.FeedbacksLink? ==> FeedbackArms(Name(l), [word]) == Some(MeantBy(l, word))
    ensures !l.FeedbacksLink? ==> CrawlArms(Name(l), [word]) == Some(MeantBy(l, word))
  {
    hide Page, PositiveId;
    NoMoreWords(word);
    assert |"/crawl_history"| == 14 && |"/crawl_run"| == 10 && "/feedbacks"[1] == 'f' && "/metrics"[1] == 'm';
  }

  lemma PublicNames(l: Link, word: string)
    requires l.PortalHistoryLink? || l.PortalNoticeLink? || l.EventsLink? || l.PagesLink?
    ensures l.PortalHistoryLink? || l.PortalNoticeLink? ==> PortalArms(Name(l), [word]) == Some(MeantBy(l, word))
    ensures l.EventsLink? ==> EventArms(Name(l), [word]) == Some(MeantBy(l, word))
    ensures l.PagesLink? ==> PageArms(Name(l), [word]) == Some(MeantBy(l, word))
  {
    hide Page, PositiveId;
    NoMoreWords(word);
    assert |"/portal_history"| == 15 && |"/portal_notice"| == 14 && |"/portal"| == 7;
    assert "/pages"[1] == 'p' && "/report"[1] == 'r' && "/admin"[1] == 'a' && "/help"[1] == 'h' && "/stop"[1] == 's';
    assert "/status"[1] == 's';
  }

  lemma ReviewNames(l: Link, word: string)
    requires l.ReviewsLink? || l.ReviewSendLink? || l.ReviewSkipLink? || l.ReviewLink?
    ensures ReviewArms(Name(l), [word]) == Some(MeantBy(l, word))
  {
    hide Page, PositiveId;
    NoMoreWords(word);
    hide Rest;
    var c := Name(l);
    assert c[1] == 'r' && c[2] == 'e' && c[3] == 'v';
    assert "/reject"[3] == 'j' && "/pending"[1] == 'p' && "/approve"[1] == 'a';
    assert |"/review"| == 7 && |"/reviews"| == 8 && |"/review_send"| == 12 && |"/review_skip"| == 12;
    assert "/review_send"[9] == 'e' && "/review_skip"[9] == 'k' && "/review_send"[7] == '_' && "/review_skip"[7] == '_';
  }

  lemma AiNames(l: Link, word: string)
    requires l.AiRejectLink? || l.AiApproveLink?
    ensures AiArms(Name(l), [word]) == Some(MeantBy(l, word))
  {
    hide Page, PositiveId;
    NoMoreWords(word);
    hide Rest;
    var c := Name(l);
    assert c[4] == 'r' || c[4] == 'a';
    assert |"/ai_reject"| == 10 && |"/ai_approve"| == 11;
    assert AiArms(c, [word]) ==
      Some(if l.AiRejectLink? then OrUsage(PositiveId(Some(word)), id => AiReject(id, NonEmpty(Rest([word], 1))))
           else OrUsage(PositiveId(Some(word)), id => AiApprove(id, NonEmpty(Rest([word], 1)))));
    assert NonEmpty("") == None;
    if PositiveId(Some(word)).Some? {
    } else {
    }
  }

  lemma LatestNames(l: Link, word: string)
    requires l.LatestPostLink? || l.LatestLink?
    ensures LatestArms(Name(l), [word]) == Some(MeantBy(l, word))
  {
    hide Page, PositiveId;
    NoMoreWords(word);
    var c := Name(l);
    assert c[1] == 'l' && |"/latest"| == 7 && |"/latest_post"| == 12;
  }

  lemma SpacedDispatches(u: Unicode, l: Link, word: string)
    requires HasSpaced(l)
    ensures SlashCommand(u, Name(l), [word]) == Some(MeantBy(l, word))
  {
    hide SettingsArms, FeedbackArms, CrawlArms, PortalArms, EventArms, PageArms, ContactArms,
         DonateArms, ReviewArms, AiArms, LatestArms, MeantBy;
    var c, words := Name(l), [word];
    SettingsArmsSkip(c, words);
    match l
    case FeedbacksLink => EarlyNames(l, word);
    case CrawlHistoryLink => FeedbackArmsSkip(c, words); EarlyNames(l, word);
    case CrawlRunLink => FeedbackArmsSkip(c, words); EarlyNames(l, word);
    case PortalHistoryLink => FeedbackArmsSkip(c, words); CrawlArmsSkip(c, words); PublicNames(l, word);
    case PortalNoticeLink => FeedbackArmsSkip(c, words); CrawlArmsSkip(c, words); PublicNames(l, word);
    case EventsLink =>
      FeedbackArmsSkip(c, words); CrawlArmsSkip(c, words); PortalArmsSkip(c, words); PublicNames(l, word);
    case PagesLink =>
      FeedbackArmsSkip(c, words); CrawlArmsSkip(c, words); PortalArmsSkip(c, words); EventArmsSkip(c, words);
      PublicNames(l, word);
    case ReviewsLink => ToReviewArms(u, c, words); ReviewNames(l, word);
    case ReviewSendLink => ToReviewArms(u, c, words); ReviewNames(l, word);
    case ReviewSkipLink => ToReviewArms(u, c, words); ReviewNames(l, word);
    case ReviewLink => ToReviewArms(u, c, words); ReviewNames(l, word);
    case AiRejectLink => ToReviewArms(u, c, words); ReviewArmsSkip(c, words); AiNames(l, word);
    case AiApproveLink => ToReviewArms(u, c, words); ReviewArmsSkip(c, words); AiNames(l, word);
    case LatestPostLink =>
      ToReviewArms(u, c, words); ReviewArmsSkip(c, words); AiArmsSkip(c, words); LatestNames(l, word);
    case LatestLink =>
      ToReviewArms(u, c, words); ReviewArmsSkip(c, words); AiArmsSkip(c, words); LatestNames(l, word);
  }

  lemma NamePlain(l: Link)
    requires HasSpaced(l)
    ensures PlainText(Name(l)) && Name(l) != "" && Name(l)[0] == '/'
  {
  }

  // A number after a space means what it means after an underscore.
  lemma {:induction false} SpacedRoundTrip(u: Unicode, l: Link, n: nat)
    requires Sane(u) && HasSpaced(l) && Number(l, n)
    ensures ParseInteractionCommand(u, Name(l) + " " + Print(n)) == Meaning(l, n)
    ensures Prefix(l) == Name(l) + "_"
  {
    hide ParseInteractionCommand, SlashCommand, Sane, Print, PlainText, MeantBy, Number;
    NamePlain(l);
    PrefixIsName(l);
    SpacedDispatches(u, l, Print(n));
    MeantNumber(l, n);
    PrintedWord(u, n);
    SpacedCommand(u, Name(l), [Print(n)]);
    assert [Name(l)] + [Print(n)] == [Name(l), Print(n)];
    JoinTwo(Name(l), Print(n));
    hide JoinWords, Name;
  }

  lemma JoinTwo(a: string, b: string)
    ensures JoinWords([a, b]) == a + " " + b
  {
    assert [a, b][1..] == [b];
    assert JoinWords([b]) == b;
  }

  lemma PrintedWord(u: Unicode, n: nat)
    requires Sane(u)
    ensures IsWord(u, Print(n))
  {
  }

  lemma PrefixIsName(l: Link)
    requires HasSpaced(l)
    ensures Prefix(l) == Name(l) + "_"
  {
  }

  // ---- The keyboard -------------------------------------------------------

  datatype Label = EventsLabel | PortalLabel | SettingsLabel | PagesLabel | HelpLabel | DonateLabel

  function LabelText(k: Label): string {
    match k
    case EventsLabel => "Hoạt động"
    case PortalLabel => "Cổng đào tạo"
    case SettingsLabel => "Cài đặt"
    case PagesLabel => "Trang theo dõi"
    case HelpLabel => "Trợ giúp"
    case DonateLabel => "Ủng hộ"
  }

  function SmallText(k: Label): string {
    match k
    case EventsLabel => "hoạt động"
    case PortalLabel => "cổng đào tạo"
    case SettingsLabel => "cài đặt"
    case PagesLabel => "trang theo dõi"
    case HelpLabel => "trợ giúp"
    case DonateLabel => "ủng hộ"
  }

  function LabelMeaning(k: Label): Command {
    match k
    case EventsLabel => Events(1)
    case PortalLabel => PortalHistory(1)
    case SettingsLabel => Settings
    case PagesLabel => Pages(1)
    case HelpLabel => Help
    case DonateLabel => Donate
  }

  lemma PhraseOf(k: Label)
    ensures Phrase(SmallText(k)) == Some(LabelMeaning(k))
  {
  }

  // The keyboard's labels are read as what they say.
  lemma {:induction false} KeyboardRoundTrip(u: Unicode, k: Label)
    requires u.lower(LabelText(k)) == SmallText(k)
    requires !u.isSpace(LabelText(k)[0]) && !u.isSpace(LabelText(k)[|LabelText(k)| - 1])
    ensures ParseInteractionCommand(u, LabelText(k)) == LabelMeaning(k)
  {
    hide Phrase, SlashCommand, Words;
    Amounts.NothingToTrim(u, LabelText(k));
    PhraseOf(k);
  }

  // ---- Words that are no numbers ------------------------------------------

  // A missing or unreadable page is the first one.
  lemma {:induction false} BadPageIs(u: Unicode, l: Link, word: string)
    requires Sane(u) && HasSpaced(l) && IsPageLink(l) && IsWord(u, word)
    requires ParseUnsigned(word, U64_MAX).None? || ParseUnsigned(word, U64_MAX) == Some(0)
    ensures ParseInteractionCommand(u, Name(l) + " " + word) == Meaning(l, 1)
  {
    hide ParseInteractionCommand, SlashCommand, Sane, PlainText, ParseUnsigned, IsWord;
    NamePlain(l);
    SpacedDispatches(u, l, word);
    SpacedCommand(u, Name(l), [word]);
    assert [Name(l)] + [word] == [Name(l), word];
    JoinTwo(Name(l), word);
    hide JoinWords, Name;
  }

  // A number that is missing, unreadable or not positive is answered with a hint.
  lemma {:induction false} BadIdIs(u: Unicode, l: Link, word: string)
    requires Sane(u) && HasSpaced(l) && !IsPageLink(l) && IsWord(u, word)
    requires ParseSigned(word, Amounts.I64_MIN, Amounts.I64_MAX).GetOr(0) <= 0
    ensures ParseInteractionCommand(u, Name(l) + " " + word) == Usage
  {
    hide ParseInteractionCommand, SlashCommand, Sane, PlainText, ParseSigned, IsWord;
    NamePlain(l);
    SpacedDispatches(u, l, word);
    SpacedCommand(u, Name(l), [word]);
    assert [Name(l)] + [word] == [Name(l), word];
    JoinTwo(Name(l), word);
    hide JoinWords, Name;
  }

  // ---- Links and anything else --------------------------------------------

  lemma NoFirstArms(c: string, words: seq<string>)
    requires c == "" || c[0] != '/'
    ensures SettingsArms(c, words).None? && FeedbackArms(c, words).None? && CrawlArms(c, words).None?
  {
  }

  lemma NoMiddleArms(u: Unicode, c: string, words: seq<string>)
    requires c == "" || c[0] != '/'
    ensures PortalArms(c, words).None? && EventArms(c, words).None? && PageArms(c, words).None?
    ensures ContactArms(u, c, words).None? && DonateArms(u, c, words).None?
  {
  }

  lemma NoLastArms(c: string, words: seq<string>)
    requires c == "" || c[0] != '/'
    ensures ReviewArms(c, words).None? && AiArms(c, words).None? && LatestArms(c, words).None?
  {
  }

  lemma {:induction false} NotSlash(u: Unicode, c: string, words: seq<string>)
    requires c == "" || c[0] != '/'
    ensures SlashCommand(u, c, words).None?
  {
    hide SettingsArms, FeedbackArms, CrawlArms, PortalArms, EventArms, PageArms, ContactArms,
         DonateArms, ReviewArms, AiArms, LatestArms;
    NoFirstArms(c, words);
    NoMiddleArms(u, c, words);
    NoLastArms(c, words);
  }

  // An address alone is a suggestion.
  lemma {:induction false} AddressIs(u: Unicode, url: string)
    requires Sane(u) && Ascii(url) && (forall i :: 0 <= i < |url| ==> !AsciiSpace(url[i]))
    requires StartsWith(url, "http://") || StartsWith(url, "https://")
    ensures ParseInteractionCommand(u, url) == Suggest(Some(url))
  {
    hide SlashCommand, Phrase, Words, Split;
    assert url[0] == 'h' && url[1] == 't';
    assert IsWord(u, url);
    Amounts.NothingToTrim(u, url);
    OneWord(u, url);
    FirstOfSplit(url, '@');
    var c := u.lower(Split(url, '@')[0]);
    assert c == "" || c[0] == 'h';
    NotSlash(u, c, []);
    NoPhrase(u.lower(url));
    assert [url][1..] == [];
  }

  lemma {:induction false} FirstOfSplit(s: string, c: char)
    ensures Split(s, c)[0] <= s
  {
    if s != "" && s[0] != c { FirstOfSplit(s[1..], c); }
  }

  lemma NoPhrase(text: string)
    requires |text| > 1 && text[0] == 'h' && text[1] == 't'
    ensures Phrase(text).None?
  {
  }
}
