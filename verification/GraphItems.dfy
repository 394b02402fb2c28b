// Where each item an object contributes comes from, kind by kind.
module GraphItems {
  import opened Prelude
  import opened Json
  import opened GraphWalk

  predicate TimeKey(key: string) {
    key == "creation_time" || key == "publish_time"
  }

  predicate PermalinkKey(key: string) {
    key == "url" || key == "permalink_url"
  }

  predicate LinkKey(key: string) {
    key == "external_url" || key == "web_link" || key == "href" || key == "url"
  }

  function ScoreOf(key: string): Option<nat> {
    if key == "message" then Some(100)
    else if key == "message_context" then Some(80)
    else if key == "title" then Some(50)
    else if key == "text" then Some(40)
    else None
  }

  ghost predicate GivesTime(members: seq<Member>, seconds: int) {
    seconds > 0 && exists key :: TimeKey(key) && AsI64(Lookup(members, key)) == Some(seconds)
  }

  // An http URL of a post, in canonical form.
  ghost predicate GivesPermalink(lib: Library, members: seq<Member>, url: string) {
    exists key, raw :: PermalinkKey(key) && AsText(Lookup(members, key)) == Some(raw)
      && lib.isHttpUrl(raw) && LooksLikePost(raw) && lib.canonicalizeUrl(raw) == Some(url)
  }

  ghost predicate GivesText(lib: Library, members: seq<Member>, score: nat, text: string) {
    |text| >= 20 && exists key :: ScoreOf(key) == Some(score) && MessageText(lib, Lookup(members, key)) == Some(text)
  }

  // An http URL whose canonical form leads elsewhere.
  ghost predicate GivesLink(lib: Library, members: seq<Member>, url: string) {
    exists key, raw :: LinkKey(key) && AsText(Lookup(members, key)) == Some(raw)
      && lib.isHttpUrl(raw) && lib.canonicalizeUrl(raw) == Some(url) && lib.isExternalUrl(url)
  }

  // Media count only inside an attachment.
  ghost predicate GivesMedia(lib: Library, members: seq<Member>, inAttachment: bool,
                             kind: string, url: string, altText: Option<string>)
  {
    && inAttachment && MediaKind(members) == Some(kind) && MediaUrl(lib, members, kind) == Some(url)
    && altText == MessageText(lib, Lookup(members, "accessibility_caption"))
  }

  ghost predicate Source(lib: Library, members: seq<Member>, inAttachment: bool, item: Item) {
    match item
    case Timestamp(seconds) => GivesTime(members, seconds)
    case Permalink(url) => GivesPermalink(lib, members, url)
    case TextCandidate(score, text) => GivesText(lib, members, score, text)
    case OutboundLink(url) => GivesLink(lib, members, url)
    case Media(kind, url, altText) => GivesMedia(lib, members, inAttachment, kind, url, altText)
  }

  predicate FromTimes(members: seq<Member>, item: Item) {
    TimestampOf(members, "creation_time") == Some(item) || TimestampOf(members, "publish_time") == Some(item)
  }

  predicate FromPermalinks(lib: Library, members: seq<Member>, item: Item) {
    PermalinkOf(lib, members, "url") == Some(item) || PermalinkOf(lib, members, "permalink_url") == Some(item)
  }

  predicate FromTexts(lib: Library, members: seq<Member>, item: Item) {
    TextOf(lib, members, "message", 100) == Some(item) || TextOf(lib, members, "message_context", 80) == Some(item)
    || TextOf(lib, members, "title", 50) == Some(item) || TextOf(lib, members, "text", 40) == Some(item)
  }

  predicate FromLinks(lib: Library, members: seq<Member>, item: Item) {
    OutboundOf(lib, members, "external_url") == Some(item) || OutboundOf(lib, members, "web_link") == Some(item)
    || OutboundOf(lib, members, "href") == Some(item) || OutboundOf(lib, members, "url") == Some(item)
  }

  lemma Parts(lib: Library, members: seq<Member>, inAttachment: bool, item: Item)
    ensures item in Contributions(lib, members, inAttachment) <==>
      FromTimes(members, item) || FromPermalinks(lib, members, item) || FromTexts(lib, members, item)
      || FromLinks(lib, members, item) || MediaOf(lib, members, inAttachment) == Some(item)
  {
    hide TimestampOf, PermalinkOf, TextOf, OutboundOf, MediaOf;
  }

  lemma TimeSource(members: seq<Member>, item: Item)
    ensures FromTimes(members, item) <==> (item.Timestamp? && GivesTime(members, item.seconds))
  {
    hide Lookup, AsI64;
    assert TimeKey("creation_time") && TimeKey("publish_time");
  }

  lemma PermalinkSource(lib: Library, members: seq<Member>, item: Item)
    ensures FromPermalinks(lib, members, item) <==> (item.Permalink? && GivesPermalink(lib, members, item.url))
  {
    hide Lookup, AsText, LooksLikePost;
    assert PermalinkKey("url") && PermalinkKey("permalink_url");
  }

  lemma TextSource(lib: Library, members: seq<Member>, item: Item)
    ensures FromTexts(lib, members, item) <==> (item.TextCandidate? && GivesText(lib, members, item.score, item.text))
  {
    hide Lookup, MessageText;
  }

  lemma LinkSource(lib: Library, members: seq<Member>, item: Item)
    ensures FromLinks(lib, members, item) <==> (item.OutboundLink? && GivesLink(lib, members, item.url))
  {
    hide Lookup, AsText;
    assert LinkKey("external_url") && LinkKey("web_link") && LinkKey("href") && LinkKey("url");
  }

  lemma MediaSource(lib: Library, members: seq<Member>, inAttachment: bool, item: Item)
    ensures MediaOf(lib, members, inAttachment) == Some(item) <==>
      (item.Media? && GivesMedia(lib, members, inAttachment, item.kind, item.url, item.altText))
  {
    hide Lookup, MessageText, MediaKind, MediaUrl;
  }

  // An object contributes exactly the items that have a source in it.
  lemma {:induction false} ContributionSource(lib: Library, members: seq<Member>, inAttachment: bool, item: Item)
    ensures item in Contributions(lib, members, inAttachment) <==> Source(lib, members, inAttachment, item)
  {
    hide FromTimes, FromPermalinks, FromTexts, FromLinks, MediaOf, Contributions,
         GivesTime, GivesPermalink, GivesText, GivesLink, GivesMedia;
    Parts(lib, members, inAttachment, item);
    TimeSource(members, item);
    PermalinkSource(lib, members, item);
    TextSource(lib, members, item);
    LinkSource(lib, members, item);
    MediaSource(lib, members, inAttachment, item);
  }
}
