// The bot's command parser: fixed phrases, then slash commands arm by arm in
// the order of the match. The wording of usage hints is not modelled.
module Commands {
  import opened Prelude
  import opened Decimal
  import opened Text
  import opened Amounts

  const U64_MAX: nat := 0xffff_ffff_ffff_ffff

  datatype Command =
    | Start(parameter: Option<string>)
    | OnboardScope(scope: string)
    | OnboardSample
    | Settings
    | SettingsSample
    | SettingsScope(scope: string)
    | SettingsMode(mode: string)
    | SettingsQuiet(on: bool)
    | UserFeedbackPrompt
    | UserFeedback(message: string)
    | Feedback(campaignId: int, value: string)
    | OpenAction(campaignId: int)
    | Metrics
    | FeedbackHistory(page: nat)
    | Admin
    | Help
    | Status
    | Stop
    | Pages(page: nat)
    | Suggest(url: Option<string>)
    | Contact
    | Donate
    | PromptDonationAmount
    | Cancel
    | DeclineDonation
    | DonateAmount(amount: int)
    | CrawlHistory(page: nat)
    | CrawlRun(id: int)
    | PortalHistory(page: nat)
    | PortalNotice(id: int)
    | Pending
    | Approve(id: int, name: string)
    | Reject(id: int, rejection: string)
    | Reviews(page: nat)
    | Review(id: int)
    | ReviewSend(id: int)
    | ReviewSkip(id: int, reason: Option<string>)
    | AiReject(id: int, reason: Option<string>)
    | AiApprove(id: int, reason: Option<string>)
    | Latest(page: nat)
    | LatestPost(id: int)
    | Events(page: nat)
    | Report
    | Usage
    | Unknown

  // ---- Pieces of a command ------------------------------------------------

  predicate HasPrefix(s: string, prefix: string) {
    |s| >= |prefix| && forall i :: 0 <= i < |prefix| ==> s[i] == prefix[i]
  }

  function After(s: string, prefix: string): string {
    if |s| >= |prefix| then s[|prefix|..] else ""
  }

  // `parse::<usize>().ok()`, with 1 for a missing page and at least 1.
  function Page(text: Option<string>): (page: nat)
    ensures page >= 1
  {
    if text.None? then 1
    else
      match ParseUnsigned(text.value, U64_MAX)
      case None => 1
      case Some(n) => if n >= 1 then n else 1
  }

  function PositiveId(text: Option<string>): Option<int> {
    if text.None? then None
    else
      match ParseSigned(text.value, I64_MIN, I64_MAX)
      case None => None
      case Some(id) => if id > 0 then Some(id) else None
  }

  // The word at index n of the rest of the message.
  function Word(words: seq<string>, n: nat): Option<string> {
    if n < |words| then Some(words[n]) else None
  }

  function JoinWords(words: seq<string>): string {
    if words == [] then "" else if |words| == 1 then words[0] else words[0] + " " + JoinWords(words[1..])
  }

  function Rest(words: seq<string>, n: nat): string {
    if n <= |words| then JoinWords(words[n..]) else ""
  }

  function NonEmpty(s: string): Option<string> {
    if s == "" then None else Some(s)
  }

  // `trim_start_matches` with a non-empty pattern.
  function TrimPrefixes(s: string, prefix: string): string
    requires prefix != ""
  {
    if HasPrefix(s, prefix) then TrimPrefixes(s[|prefix|..], prefix) else s
  }

  predicate ValidStartParameter(value: string) {
    && 1 <= |value| <= 64
    && forall i :: 0 <= i < |value| ==>
      IsDigit(value[i]) || 'a' <= value[i] <= 'z' || 'A' <= value[i] <= 'Z' || value[i] == '_' || value[i] == '-'
  }

  // ---- The arms, in order -------------------------------------------------

  function SettingsArms(c: string, words: seq<string>): Option<Command> {
    if c == "/start" then
      Some(Start(if |words| > 0 && ValidStartParameter(words[0]) then Some(words[0]) else None))
    else if c == "/settings" then Some(Settings)
    else if c == "/settings_sample" then Some(SettingsSample)
    else if c == "/onboard_drl" then Some(OnboardScope("drl"))
    else if c == "/onboard_all" then Some(OnboardScope("all"))
    else if c == "/onboard_sample" then Some(OnboardSample)
    else if c == "/settings_scope_drl" then Some(SettingsScope("drl"))
    else if c == "/settings_scope_all" then Some(SettingsScope("all"))
    else if c == "/settings_mode_instant" then Some(SettingsMode("instant"))
    else if c == "/settings_mode_daily" then Some(SettingsMode("daily"))
    else if c == "/settings_quiet_on" then Some(SettingsQuiet(true))
    else if c == "/settings_quiet_off" then Some(SettingsQuiet(false))
    else None
  }

  function OrUnknown(id: Option<int>, make: int -> Command): Command {
    if id.Some? then make(id.value) else Unknown
  }

  function OrUsage(id: Option<int>, make: int -> Command): Command {
    if id.Some? then make(id.value) else Usage
  }

  function FeedbackArms(c: string, words: seq<string>): Option<Command> {
    if HasPrefix(c, "/useful_") then
      Some(OrUnknown(PositiveId(Some(After(c, "/useful_"))), id => Feedback(id, "useful")))
    else if HasPrefix(c, "/irrelevant_") then
      Some(OrUnknown(PositiveId(Some(After(c, "/irrelevant_"))), id => Feedback(id, "irrelevant")))
    else if HasPrefix(c, "/open_") then
      Some(OrUnknown(PositiveId(Some(After(c, "/open_"))), id => OpenAction(id)))
    else if c == "/metrics" then Some(Metrics)
    else if c == "/feedbacks" then Some(FeedbackHistory(Page(Word(words, 0))))
    else if HasPrefix(c, "/feedbacks_") then Some(FeedbackHistory(Page(Some(After(c, "/feedbacks_")))))
    else None
  }

  function CrawlArms(c: string, words: seq<string>): Option<Command> {
    if c == "/crawl_history" then Some(CrawlHistory(Page(Word(words, 0))))
    else if HasPrefix(c, "/crawl_history_") then Some(CrawlHistory(Page(Some(After(c, "/crawl_history_")))))
    else if c == "/crawl_run" then Some(OrUsage(PositiveId(Word(words, 0)), id => CrawlRun(id)))
    else if HasPrefix(c, "/crawl_run_") then
      Some(OrUsage(PositiveId(Some(After(c, "/crawl_run_"))), id => CrawlRun(id)))
    else None
  }

  function PortalArms(c: string, words: seq<string>): Option<Command> {
    if c == "/portal" || c == "/portal_history" then Some(PortalHistory(Page(Word(words, 0))))
    else if c == "/portal_notice" then Some(OrUsage(PositiveId(Word(words, 0)), id => PortalNotice(id)))
    else if HasPrefix(c, "/portal_history_") then Some(PortalHistory(Page(Some(After(c, "/portal_history_")))))
    else if HasPrefix(c, "/portal_") && !HasPrefix(c, "/portal_notice_") then
      Some(PortalHistory(Page(Some(After(c, "/portal_")))))
    else if HasPrefix(c, "/portal_notice_") then
      Some(OrUsage(PositiveId(Some(After(c, "/portal_notice_"))), id => PortalNotice(id)))
    else None
  }

  function EventArms(c: string, words: seq<string>): Option<Command> {
    if c == "/events" || c == "/active" then Some(Events(Page(Word(words, 0))))
    else if HasPrefix(c, "/events_") then Some(Events(Page(Some(After(c, "/events_")))))
    else if HasPrefix(c, "/active_") then Some(Events(Page(Some(After(c, "/active_")))))
    else None
  }

  function PageArms(c: string, words: seq<string>): Option<Command> {
    if c == "/report" then Some(Report)
    else if c == "/admin" then Some(Admin)
    else if c == "/help" then Some(Help)
    else if c == "/status" then Some(Status)
    else if c == "/stop" then Some(Stop)
    else if c == "/pages" then Some(Pages(Page(Word(words, 0))))
    else if HasPrefix(c, "/pages_") then Some(Pages(Page(Some(TrimPrefixes(c, "/pages_")))))
    else None
  }

  function ContactArms(u: Unicode, c: string, words: seq<string>): Option<Command> {
    if c == "/suggest" then Some(Suggest(Word(words, 0)))
    else if c == "/contact" then Some(Contact)
    else if c == "/feedback" then
      Some(if Trim(u, JoinWords(words)) == "" then UserFeedbackPrompt else UserFeedback(JoinWords(words)))
    else if c == "/cancel" then Some(Cancel)
    else None
  }

  function DonateArms(u: Unicode, c: string, words: seq<string>): Option<Command> {
    if c == "/donate" then
      Some(if words == [] then Donate else OrUsage(ParseDonationAmount(u, words[0]), amount => DonateAmount(amount)))
    else if c == "/donate_custom" then Some(PromptDonationAmount)
    else if c == "/donate_later" then Some(DeclineDonation)
    else if HasPrefix(c, "/donate_") then
      Some(OrUsage(ParseDonationAmount(u, After(c, "/donate_")), amount => DonateAmount(amount)))
    else None
  }

  function ParseReviewCommand(words: seq<string>, approve: bool): Command {
    var id := if |words| > 0 then ParseSigned(words[0], I64_MIN, I64_MAX) else None;
    var detail := Rest(words, 1);
    if id.None? || detail == "" then Unknown
    else if approve then Approve(id.value, detail) else Reject(id.value, detail)
  }

  function ReviewArms(c: string, words: seq<string>): Option<Command> {
    if c == "/pending" then Some(Pending)
    else if c == "/approve" then Some(ParseReviewCommand(words, true))
    else if c == "/reject" then Some(ParseReviewCommand(words, false))
    else if c == "/reviews" then Some(Reviews(Page(Word(words, 0))))
    else if HasPrefix(c, "/reviews_") then Some(Reviews(Page(Some(TrimPrefixes(c, "/reviews_")))))
    else if c == "/review" then Some(OrUsage(PositiveId(Word(words, 0)), id => Review(id)))
    else if HasPrefix(c, "/review_send_") then
      Some(OrUsage(PositiveId(Some(After(c, "/review_send_"))), id => ReviewSend(id)))
    else if HasPrefix(c, "/review_skip_") then
      Some(OrUsage(PositiveId(Some(After(c, "/review_skip_"))), id => ReviewSkip(id, None)))
    else if c == "/review_send" then Some(OrUsage(PositiveId(Word(words, 0)), id => ReviewSend(id)))
    else if c == "/review_skip" then
      Some(OrUsage(PositiveId(Word(words, 0)), id => ReviewSkip(id, NonEmpty(Rest(words, 1)))))
    else None
  }

  function AiArms(c: string, words: seq<string>): Option<Command> {
    if HasPrefix(c, "/ai_reject_") then
      Some(OrUsage(PositiveId(Some(After(c, "/ai_reject_"))), id => AiReject(id, None)))
    else if HasPrefix(c, "/ai_approve_") then
      Some(OrUsage(PositiveId(Some(After(c, "/ai_approve_"))), id => AiApprove(id, None)))
    else if c == "/ai_reject" then
      Some(OrUsage(PositiveId(Word(words, 0)), id => AiReject(id, NonEmpty(Rest(words, 1)))))
    else if c == "/ai_approve" then
      Some(OrUsage(PositiveId(Word(words, 0)), id => AiApprove(id, NonEmpty(Rest(words, 1)))))
    else None
  }

  function LatestArms(c: string, words: seq<string>): Option<Command> {
    if HasPrefix(c, "/review_") then Some(OrUsage(PositiveId(Some(After(c, "/review_"))), id => Review(id)))
    else if c == "/latest" then Some(Latest(Page(Word(words, 0))))
    else if HasPrefix(c, "/latest_post_") then
      Some(OrUsage(PositiveId(Some(After(c, "/latest_post_"))), id => LatestPost(id)))
    else if c == "/latest_post" then Some(OrUsage(PositiveId(Word(words, 0)), id => LatestPost(id)))
    else if HasPrefix(c, "/latest_") then Some(Latest(Page(Some(TrimPrefixes(c, "/latest_")))))
    else None
  }

  function Else(first: Option<Command>, next: Option<Command>): Option<Command> {
    if first.Some? then first else next
  }

  function SlashCommand(u: Unicode, c: string, words: seq<string>): Option<Command> {
    Else(SettingsArms(c, words), Else(FeedbackArms(c, words), Else(CrawlArms(c, words),
      Else(PortalArms(c, words), Else(EventArms(c, words), Else(PageArms(c, words),
        Else(ContactArms(u, c, words), Else(DonateArms(u, c, words), Else(ReviewArms(c, words),
          Else(AiArms(c, words), LatestArms(c, words)))))))))))
  }

  // The keyboard's fixed phrases, lower-cased.
  function Phrase(text: string): Option<Command> {
    if text == "bật thông báo" then Some(Start(None))
    else if text == "trợ giúp" then Some(Help)
    else if text == "trạng thái" then Some(Status)
    else if text == "tắt thông báo" then Some(Stop)
    else if text == "trang theo dõi" || text == "trang đang theo dõi" then Some(Pages(1))
    else if text == "đề xuất trang" then Some(Suggest(None))
    else if text == "liên hệ quản trị" then Some(Contact)
    else if text == "gửi phản hồi" then Some(UserFeedbackPrompt)
    else if text == "ủng hộ" then Some(Donate)
    else if text == "cài đặt" then Some(Settings)
    else if text == "hoạt động" || text == "sự kiện" then Some(Events(1))
    else if text == "events" || text == "active" then Some(Events(1))
    else if text == "báo cáo" || text == "report" then Some(Report)
    else if text == "cổng đào tạo" || text == "portal" then Some(PortalHistory(1))
    else if text == "10.000 vnd" then Some(DonateAmount(10_000))
    else if text == "20.000 vnd" then Some(DonateAmount(20_000))
    else if text == "50.000 vnd" then Some(DonateAmount(50_000))
    else if text == "tùy tâm" then Some(PromptDonationAmount)
    else if text == "để sau" then Some(DeclineDonation)
    else None
  }

  // `split_whitespace`.
  function Words(u: Unicode, s: string): seq<string> {
    if s == "" then []
    else if u.isSpace(s[0]) then Words(u, s[1..])
    else
      var rest := Words(u, s[1..]);
      if |s| > 1 && !u.isSpace(s[1]) && rest != [] then [[s[0]] + rest[0]] + rest[1..]
      else [[s[0]]] + rest
  }

  function ParseInteractionCommand(u: Unicode, text: string): Command {
    var trimmed := Trim(u, text);
    var words := Words(u, trimmed);
    var command := if words == [] then "" else u.lower(Split(words[0], '@')[0]);
    var rest := if words == [] then [] else words[1..];
    match Else(Phrase(u.lower(trimmed)), SlashCommand(u, command, rest))
    case Some(c) => c
    case None =>
      if StartsWith(trimmed, "http://") || StartsWith(trimmed, "https://") then Suggest(Some(trimmed)) else Unknown
  }
}
