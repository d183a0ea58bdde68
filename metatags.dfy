/** The fragment `getEventMetaTags` (server.js:46-88) renders for a crawler:
    Open Graph and Twitter Card tags filled from the backend's event record,
    or a fixed "Event Not Found" fragment when anything goes wrong. */
module EventMeta {

  import opened Options
  import opened Text
  import opened JsValues
  import opened HtmlEscape

  /** The environment variables the gateway reads, each unset (`None`) or
      set to some text. */
  datatype Config = Config(apiUrl: Option<string>, baseUrl: Option<string>, siteName: Option<string>)

  const DEFAULT_API_URL := "http://localhost:5000"
  const DEFAULT_BASE_URL := "http://localhost:3000"
  const DEFAULT_SITE_NAME := "Your Site"

  /** The decoded JSON body. `null` is kept apart because reading a property
      of it throws; any other value yields its five properties (a number,
      string or array body yields five missing ones). */
  datatype EventJson =
    | NullJson
    | Fields(title: Value, description: Value, excerpt: Value, image: Value, imageUrl: Value)

  /** What the backend request came to: the request itself failed, or a
      reply arrived with a status and a body that decoded (`Some`) or did
      not (`None`). */
  datatype FetchOutcome = NetworkError | Reply(status: int, body: Option<EventJson>)

  /** The backend URL requested for an event. */
  function EventApiUrl(cfg: Config, slug: string): (r: string)
    ensures StartsWith(r, Setting(cfg.apiUrl, DEFAULT_API_URL))
    ensures |r| >= |slug| && r[|r| - |slug|..] == slug
  {
    Setting(cfg.apiUrl, DEFAULT_API_URL) + "/api/v1/events/" + slug
  }

  /** The body the handler goes on with: present only when `response.ok`
      (a status from 200 to 299) holds and the body decodes. */
  function Fetched(outcome: FetchOutcome): (r: Option<EventJson>)
    ensures r.Some? <==> outcome.Reply? && 200 <= outcome.status <= 299 && outcome.body.Some?
    ensures r.Some? ==> r == outcome.body
  {
    match outcome
    case NetworkError => None
    case Reply(status, body) => if 200 <= status <= 299 then body else None
  }

  // ---------------------------------------------------------------------
  // Tags and their text
  // ---------------------------------------------------------------------

  /** The `<meta>` tags the gateway writes, each rendered with the name
      given by KeyName. */
  datatype Key =
    | OgTitle | OgDescription | OgImage | OgUrl | OgType | OgSiteName
    | TwitterCard | TwitterTitle | TwitterDescription | TwitterImage
    | Description

  /** The Open Graph tags carry their name in a `property` attribute, the
      others in a `name` attribute. */
  predicate IsOpenGraph(k: Key)
  {
    k.OgTitle? || k.OgDescription? || k.OgImage? || k.OgUrl? || k.OgType? || k.OgSiteName?
  }

  function KeyName(k: Key): (r: string)
    ensures |r| > 0
  {
    match k
    case OgTitle => "og:title"
    case OgDescription => "og:description"
    case OgImage => "og:image"
    case OgUrl => "og:url"
    case OgType => "og:type"
    case OgSiteName => "og:site_name"
    case TwitterCard => "twitter:card"
    case TwitterTitle => "twitter:title"
    case TwitterDescription => "twitter:description"
    case TwitterImage => "twitter:image"
    case Description => "description"
  }

  datatype MetaTag =
    | Meta(key: Key, content: string)   // <meta property|name="…" content="…" />
    | TitleTag(text: string)            // <title>…</title>
    | Comment(text: string)             // <!-- … -->
    | Blank                             // an empty line

  function RenderTag(t: MetaTag): (r: string)
    ensures t != Blank ==> |r| > 1 && r[0] == '<'
    ensures t.Comment? ==> r[1] == '!'
    ensures t.Meta? || t.TitleTag? ==> r[1] != '!'
  {
    match t
    case Meta(k, c) =>
      var attribute := if IsOpenGraph(k) then "property" else "name";
      "<meta " + attribute + "=\"" + KeyName(k) + "\" content=\"" + c + "\" />"
    case TitleTag(s) => "<title>" + s + "</title>"
    case Comment(s) => "<!-- " + s + " -->"
    case Blank => ""
  }

  /** Each tag on a line of its own, indented by four spaces. */
  function Lines(tags: seq<MetaTag>): string
  {
    if |tags| == 0 then "" else "    " + RenderTag(tags[0]) + "\n" + Lines(tags[1..])
  }

  /** The template literal's text: a line break, the tag lines, and the four
      spaces before the closing backquote. */
  function Render(tags: seq<MetaTag>): string
  {
    "\n" + Lines(tags) + "    "
  }

  predicate HasKey(t: MetaTag, k: Key)
  {
    t.Meta? && t.key == k
  }

  /** The content of the first `<meta>` tag with the given key, as a crawler
      reading the page top to bottom finds it. */
  function Lookup(tags: seq<MetaTag>, k: Key): (r: Option<string>)
    ensures r.None? <==> forall i | 0 <= i < |tags| :: !HasKey(tags[i], k)
    ensures r.Some? ==> exists i | 0 <= i < |tags| :: tags[i] == Meta(k, r.value)
  {
    if |tags| == 0 then None
    else if HasKey(tags[0], k) then Some(tags[0].content)
    else
      var r := Lookup(tags[1..], k);
      assert forall i | 1 <= i < |tags| :: tags[i] == tags[1..][i - 1];
      r
  }

  /** The values a tag interpolates are safe in markup. */
  predicate ValuesSafe(t: MetaTag)
  {
    match t
    case Meta(_, c) => HtmlSafe(c)
    case TitleTag(s) => HtmlSafe(s)
    case _ => true
  }

  // ---------------------------------------------------------------------
  // The two fragments
  // ---------------------------------------------------------------------

  /** `escapeHtml(v)` threw: `v` is truthy and not a string. */
  predicate Throws(v: Value)
  {
    v.NonString? && v.truthy
  }

  /** `event.description || event.excerpt || ""`. */
  function DescriptionOf(ev: EventJson): Value
    requires ev.Fields?
  {
    Or(Or(ev.description, ev.excerpt), Str(""))
  }

  /** `event.image || event.imageUrl || ""`. */
  function ImageOf(ev: EventJson): Value
    requires ev.Fields?
  {
    Or(Or(ev.image, ev.imageUrl), Str(""))
  }

  const OPEN_GRAPH_COMMENT := "Event-specific meta tags"
  const TWITTER_COMMENT := "Twitter Card meta tags"
  const ADDITIONAL_COMMENT := "Additional meta tags"
  const EVENT_TYPE := "event"
  const LARGE_CARD := "summary_large_image"

  /** The Open Graph group of the success fragment (server.js:60-66). */
  function OpenGraphBlock(title: string, description: string, image: string, url: string, site: string): seq<MetaTag>
  {
    [
      Comment(OPEN_GRAPH_COMMENT),
      Meta(OgTitle, title),
      Meta(OgDescription, description),
      Meta(OgImage, image),
      Meta(OgUrl, url),
      Meta(OgType, EVENT_TYPE),
      Meta(OgSiteName, site)
    ]
  }

  /** The Twitter Card group, after a blank line (server.js:67-72). */
  function TwitterBlock(title: string, description: string, image: string): seq<MetaTag>
  {
    [
      Blank,
      Comment(TWITTER_COMMENT),
      Meta(TwitterCard, LARGE_CARD),
      Meta(TwitterTitle, title),
      Meta(TwitterDescription, description),
      Meta(TwitterImage, image)
    ]
  }

  /** The closing group, after a blank line (server.js:73-76). */
  function AdditionalBlock(title: string, description: string): seq<MetaTag>
  {
    [
      Blank,
      Comment(ADDITIONAL_COMMENT),
      Meta(Description, description),
      TitleTag(title)
    ]
  }

  /** The success fragment's lines (server.js:60-76), given the escaped
      title, description, image, page URL and site name. */
  function EventTags(title: string, description: string, image: string, url: string, site: string): (r: seq<MetaTag>)
    ensures |r| == 17 && r[0].Comment? && r[16] == TitleTag(title)
  {
    OpenGraphBlock(title, description, image, url, site)
    + TwitterBlock(title, description, image)
    + AdditionalBlock(title, description)
  }

  /** The page URL `${baseUrl}/events/${slug}`, escaped. */
  function PageUrl(cfg: Config, slug: string): (r: string)
    ensures HtmlSafe(r)
  {
    var url := Setting(cfg.baseUrl, DEFAULT_BASE_URL) + "/events/" + slug;
    EscapeIsSafe(url);
    Escape(url)
  }

  /** The site name, escaped. */
  function SiteName(cfg: Config): (r: string)
    ensures HtmlSafe(r)
  {
    EscapeIsSafe(Setting(cfg.siteName, DEFAULT_SITE_NAME));
    Escape(Setting(cfg.siteName, DEFAULT_SITE_NAME))
  }

  /** The success fragment's tags, or `None` when rendering it throws: the
      body is `null`, or a value handed to `escapeHtml` is a truthy
      non-string. */
  function SuccessTags(cfg: Config, slug: string, ev: EventJson): (r: Option<seq<MetaTag>>)
    ensures r.None? <==>
              ev.NullJson? || Throws(ev.title) || Throws(DescriptionOf(ev)) || Throws(ImageOf(ev))
    ensures r.Some? ==> |r.value| == 17 && r.value[0].Comment?
  {
    if ev.NullJson? then None
    else
      var title := EscapeHtml(ev.title);
      var description := EscapeHtml(DescriptionOf(ev));
      var image := EscapeHtml(ImageOf(ev));
      if title.None? || description.None? || image.None? then None
      else Some(EventTags(title.value, description.value, image.value, PageUrl(cfg, slug), SiteName(cfg)))
  }

  const NOT_FOUND_TITLE := "Event Not Found"
  const NOT_FOUND_DESCRIPTION := "The requested event could not be found."
  const SUMMARY_CARD := "summary"

  function NotFoundTags(): (r: seq<MetaTag>)
    ensures |r| == 5 && r[0].Meta?
  {
    [
      Meta(OgTitle, NOT_FOUND_TITLE),
      Meta(OgDescription, NOT_FOUND_DESCRIPTION),
      Meta(TwitterCard, SUMMARY_CARD),
      Meta(TwitterTitle, NOT_FOUND_TITLE),
      TitleTag(NOT_FOUND_TITLE)
    ]
  }

  /** Rendering succeeds: the reply is ok, decodes, and renders without
      throwing. */
  predicate Renders(cfg: Config, slug: string, outcome: FetchOutcome)
  {
    Fetched(outcome).Some? && SuccessTags(cfg, slug, Fetched(outcome).value).Some?
  }

  /** The tags `getEventMetaTags` emits: the success fragment, or the fixed
      fragment its `catch` returns. */
  function FragmentTags(cfg: Config, slug: string, outcome: FetchOutcome): (r: seq<MetaTag>)
    ensures Renders(cfg, slug, outcome) ==> r == SuccessTags(cfg, slug, Fetched(outcome).value).value
    ensures Renders(cfg, slug, outcome) ==> |r| == 17 && r[0].Comment?
    ensures !Renders(cfg, slug, outcome) ==> r == NotFoundTags()
  {
    if Renders(cfg, slug, outcome) then SuccessTags(cfg, slug, Fetched(outcome).value).value
    else NotFoundTags()
  }

  lemma RenderCons(tags: seq<MetaTag>)
    requires |tags| > 0
    ensures Render(tags) == "\n" + ("    " + RenderTag(tags[0]) + "\n" + Lines(tags[1..])) + "    "
  {
  }

  lemma SeventhChar(tag: string, rest: string)
    requires |tag| > 1
    ensures ("\n" + ("    " + tag + "\n" + rest) + "    ")[6] == tag[1]
  {
  }

  /** The seventh character of a rendered fragment is the second of its
      first tag. */
  lemma RenderSeventh(tags: seq<MetaTag>)
    requires |tags| > 0 && tags[0] != Blank
    ensures |Render(tags)| > 6 && Render(tags)[6] == RenderTag(tags[0])[1]
  {
    RenderCons(tags);
    SeventhChar(RenderTag(tags[0]), Lines(tags[1..]));
  }

  /** A fragment that opens with a comment line never renders as the
      "Event Not Found" fragment, whose first line is a `<meta>` tag. */
  lemma OpensDifferently(tags: seq<MetaTag>)
    requires |tags| > 0 && tags[0].Comment?
    ensures Render(tags) != Render(NotFoundTags())
  {
    RenderSeventh(tags);
    RenderSeventh(NotFoundTags());
  }

  /** `getEventMetaTags(slug)`: never fails, and gives the "Event Not Found"
      fragment exactly when the fetch, the decoding or the rendering failed. */
  function EventMetaTags(cfg: Config, slug: string, outcome: FetchOutcome): (r: string)
    ensures r == Render(NotFoundTags()) <==> !Renders(cfg, slug, outcome)
  {
    var tags := FragmentTags(cfg, slug, outcome);
    if Renders(cfg, slug, outcome) then
      OpensDifferently(tags);
      Render(tags)
    else Render(tags)
  }

  // ---------------------------------------------------------------------
  // What a crawler reads in each fragment
  // ---------------------------------------------------------------------

  /** `Lookup` finds the first tag carrying the key. */
  lemma {:induction false} LookupFirst(tags: seq<MetaTag>, i: nat, k: Key)
    requires i < |tags| && HasKey(tags[i], k)
    requires forall j | 0 <= j < i :: !HasKey(tags[j], k)
    ensures Lookup(tags, k) == Some(tags[i].content)
  {
    if i > 0 {
      assert !HasKey(tags[0], k);
      var rest := tags[1..];
      assert rest[i - 1] == tags[i];
      assert forall j | 0 <= j < i - 1 :: rest[j] == tags[j + 1];
      LookupFirst(rest, i - 1, k);
    }
  }

  /** Rendering in the success case reads the decoded record: the body was
      ok, decoded and renders, so the fragment is built from it. */
  lemma RendersIff(cfg: Config, slug: string, outcome: FetchOutcome)
    ensures Renders(cfg, slug, outcome) <==>
              && outcome.Reply? && 200 <= outcome.status <= 299
              && outcome.body.Some? && outcome.body.value.Fields?
              && !Throws(outcome.body.value.title)
              && !Throws(DescriptionOf(outcome.body.value))
              && !Throws(ImageOf(outcome.body.value))
  {
  }

  /** The description falls back from `description` to `excerpt` to "",
      and so does the image from `image` to `imageUrl`. */
  lemma Fallbacks(ev: EventJson)
    requires ev.Fields?
    ensures Truthy(ev.description) ==> DescriptionOf(ev) == ev.description
    ensures !Truthy(ev.description) && Truthy(ev.excerpt) ==> DescriptionOf(ev) == ev.excerpt
    ensures !Truthy(ev.description) && !Truthy(ev.excerpt) ==> EscapeHtml(DescriptionOf(ev)) == Some("")
    ensures Truthy(ev.image) ==> ImageOf(ev) == ev.image
    ensures !Truthy(ev.image) && Truthy(ev.imageUrl) ==> ImageOf(ev) == ev.imageUrl
    ensures !Truthy(ev.image) && !Truthy(ev.imageUrl) ==> EscapeHtml(ImageOf(ev)) == Some("")
  {
  }

  /** What each tag of the success fragment says: the title, description
      and image each go to their Open Graph tag, their Twitter tag and (for
      the description) the plain tag; the page URL and the site name to
      theirs; the type and the card are fixed. */
  function SuccessContent(k: Key, title: string, description: string, image: string, url: string, site: string): string
  {
    match k
    case OgTitle | TwitterTitle => title
    case OgDescription | TwitterDescription | Description => description
    case OgImage | TwitterImage => image
    case OgUrl => url
    case OgType => EVENT_TYPE
    case OgSiteName => site
    case TwitterCard => LARGE_CARD
  }

  /** A lookup in two lists takes the first list's tag when it has one. */
  lemma {:induction false} LookupAppend(a: seq<MetaTag>, b: seq<MetaTag>, k: Key)
    ensures Lookup(a + b, k) == if Lookup(a, k).Some? then Lookup(a, k) else Lookup(b, k)
  {
    if |a| == 0 {
      assert a + b == b;
    } else {
      assert (a + b)[0] == a[0] && (a + b)[1..] == a[1..] + b;
      LookupAppend(a[1..], b, k);
    }
  }

  predicate IsTwitter(k: Key)
  {
    k.TwitterCard? || k.TwitterTitle? || k.TwitterDescription? || k.TwitterImage?
  }

  lemma OpenGraphBlockLookup(k: Key, title: string, description: string, image: string, url: string, site: string)
    ensures Lookup(OpenGraphBlock(title, description, image, url, site), k)
            == if IsOpenGraph(k) then Some(SuccessContent(k, title, description, image, url, site)) else None
  {
    var ts := OpenGraphBlock(title, description, image, url, site);
    match k
    case OgTitle => LookupFirst(ts, 1, k);
    case OgDescription => LookupFirst(ts, 2, k);
    case OgImage => LookupFirst(ts, 3, k);
    case OgUrl => LookupFirst(ts, 4, k);
    case OgType => LookupFirst(ts, 5, k);
    case OgSiteName => LookupFirst(ts, 6, k);
    case _ => OpenGraphBlockOmits(k, title, description, image, url, site);
  }

  lemma OpenGraphBlockOmits(k: Key, title: string, description: string, image: string, url: string, site: string)
    requires !IsOpenGraph(k)
    ensures Lookup(OpenGraphBlock(title, description, image, url, site), k).None?
  {
    var ts := OpenGraphBlock(title, description, image, url, site);
    assert forall i | 0 <= i < |ts| :: !HasKey(ts[i], k);
  }

  lemma TwitterBlockLookup(k: Key, title: string, description: string, image: string, url: string, site: string)
    ensures Lookup(TwitterBlock(title, description, image), k)
            == if IsTwitter(k) then Some(SuccessContent(k, title, description, image, url, site)) else None
  {
    var ts := TwitterBlock(title, description, image);
    match k
    case TwitterCard => LookupFirst(ts, 2, k);
    case TwitterTitle => LookupFirst(ts, 3, k);
    case TwitterDescription => LookupFirst(ts, 4, k);
    case TwitterImage => LookupFirst(ts, 5, k);
    case _ => TwitterBlockOmits(k, title, description, image);
  }

  lemma TwitterBlockOmits(k: Key, title: string, description: string, image: string)
    requires !IsTwitter(k)
    ensures Lookup(TwitterBlock(title, description, image), k).None?
  {
    var ts := TwitterBlock(title, description, image);
    assert forall i | 0 <= i < |ts| :: !HasKey(ts[i], k);
  }

  lemma AdditionalBlockLookup(k: Key, title: string, description: string)
    ensures Lookup(AdditionalBlock(title, description), k) == if k.Description? then Some(description) else None
  {
    var ts := AdditionalBlock(title, description);
    if k.Description? {
      LookupFirst(ts, 2, k);
    } else {
      assert forall i | 0 <= i < |ts| :: !HasKey(ts[i], k);
    }
  }

  /** The success layout carries every key, with the content above. */
  lemma EventTagsLookup(k: Key, title: string, description: string, image: string, url: string, site: string)
    ensures Lookup(EventTags(title, description, image, url, site), k)
            == Some(SuccessContent(k, title, description, image, url, site))
  {
    var og, tw, ad := OpenGraphBlock(title, description, image, url, site),
                      TwitterBlock(title, description, image), AdditionalBlock(title, description);
    LookupAppend(og + tw, ad, k);
    LookupAppend(og, tw, k);
    OpenGraphBlockLookup(k, title, description, image, url, site);
    TwitterBlockLookup(k, title, description, image, url, site);
    AdditionalBlockLookup(k, title, description);
  }

  /** The success fragment as a crawler reads it: every value escaped, the
      description and image after their fallbacks, the page URL built from
      BASE_URL and the slug, and the page title the escaped title. */
  lemma SuccessFragment(cfg: Config, slug: string, ev: EventJson, k: Key)
    requires SuccessTags(cfg, slug, ev).Some?
    ensures var ts := SuccessTags(cfg, slug, ev).value;
            && Lookup(ts, k) == Some(SuccessContent(k, EscapeHtml(ev.title).value,
                                                   EscapeHtml(DescriptionOf(ev)).value,
                                                   EscapeHtml(ImageOf(ev)).value,
                                                   Escape(Setting(cfg.baseUrl, DEFAULT_BASE_URL) + "/events/" + slug),
                                                   Escape(Setting(cfg.siteName, DEFAULT_SITE_NAME))))
            && ts[16] == TitleTag(EscapeHtml(ev.title).value)
  {
    var t, d, i := EscapeHtml(ev.title).value, EscapeHtml(DescriptionOf(ev)).value, EscapeHtml(ImageOf(ev)).value;
    var url, site := PageUrl(cfg, slug), SiteName(cfg);
    assert SuccessTags(cfg, slug, ev).value == EventTags(t, d, i, url, site);
    EventTagsLookup(k, t, d, i, url, site);
  }

  /** What each tag of the fixed fragment says: "Event Not Found" as the
      title, a fixed description, a plain summary card, and no image, no
      page URL, no type and no site name. */
  function NotFoundContent(k: Key): Option<string>
  {
    match k
    case OgTitle | TwitterTitle => Some(NOT_FOUND_TITLE)
    case OgDescription => Some(NOT_FOUND_DESCRIPTION)
    case TwitterCard => Some(SUMMARY_CARD)
    case _ => None
  }

  /** The fixed fragment carries exactly the tags above, and the page
      title "Event Not Found". */
  lemma NotFoundFragment(k: Key)
    ensures Lookup(NotFoundTags(), k) == NotFoundContent(k)
    ensures NotFoundTags()[4] == TitleTag(NOT_FOUND_TITLE)
  {
    var ts := NotFoundTags();
    match k
    case OgTitle => LookupFirst(ts, 0, k);
    case OgDescription => LookupFirst(ts, 1, k);
    case TwitterCard => LookupFirst(ts, 2, k);
    case TwitterTitle => LookupFirst(ts, 3, k);
    case _ => NotFoundOmits(k);
  }

  lemma NotFoundOmits(k: Key)
    requires NotFoundContent(k).None?
    ensures Lookup(NotFoundTags(), k).None?
  {
    var ts := NotFoundTags();
    assert forall i | 0 <= i < |ts| :: !HasKey(ts[i], k);
  }

  /** The two fixed contents of the success fragment hold no special
      character. */
  lemma FixedContentsSafe()
    ensures HtmlSafe(EVENT_TYPE) && HtmlSafe(LARGE_CARD)
  {
    PlainIsSafe(EVENT_TYPE);
    PlainIsSafe(LARGE_CARD);
  }

  /** The layout adds no unsafe text of its own. */
  lemma EventTagsAreSafe(title: string, description: string, image: string, url: string, site: string)
    requires HtmlSafe(title) && HtmlSafe(description) && HtmlSafe(image) && HtmlSafe(url) && HtmlSafe(site)
    ensures var ts := EventTags(title, description, image, url, site);
            forall i | 0 <= i < |ts| :: ValuesSafe(ts[i])
  {
    FixedContentsSafe();
  }

  /** Every text the success fragment interpolates is safe inside an
      attribute or an element: a field value cannot close the tag it sits
      in. */
  lemma SuccessFragmentIsSafe(cfg: Config, slug: string, ev: EventJson)
    requires SuccessTags(cfg, slug, ev).Some?
    ensures var ts := SuccessTags(cfg, slug, ev).value;
            forall i | 0 <= i < |ts| :: ValuesSafe(ts[i])
  {
    var t, d, i := EscapeHtml(ev.title).value, EscapeHtml(DescriptionOf(ev)).value, EscapeHtml(ImageOf(ev)).value;
    forall v: Value | EscapeHtml(v).Some? ensures HtmlSafe(EscapeHtml(v).value) {
      if v.Str? { EscapeIsSafe(v.s); }
    }
    assert SuccessTags(cfg, slug, ev).value == EventTags(t, d, i, PageUrl(cfg, slug), SiteName(cfg));
    EventTagsAreSafe(t, d, i, PageUrl(cfg, slug), SiteName(cfg));
  }

  // ---------------------------------------------------------------------
  // The rendered text
  // ---------------------------------------------------------------------

  lemma {:induction false} LinesConcat(a: seq<MetaTag>, b: seq<MetaTag>)
    ensures Lines(a + b) == Lines(a) + Lines(b)
  {
    if |a| == 0 {
      assert a + b == b;
    } else {
      assert (a + b)[0] == a[0] && (a + b)[1..] == a[1..] + b;
      LinesConcat(a[1..], b);
    }
  }

  lemma LinesOne(t: MetaTag)
    ensures Lines([t]) == "    " + RenderTag(t) + "\n"
  {
    assert [t][1..] == [];
  }

  /** The lines of a tag list, around one of its tags. */
  lemma LinesAround(before: seq<MetaTag>, t: MetaTag, after: seq<MetaTag>)
    ensures Lines(before + [t] + after) == Lines(before) + ("    " + RenderTag(t) + "\n") + Lines(after)
  {
    LinesConcat(before + [t], after);
    LinesConcat(before, [t]);
    LinesOne(t);
  }

  /** The rendered fragment, around one of its tags. */
  lemma RenderAround(before: seq<MetaTag>, t: MetaTag, after: seq<MetaTag>)
    ensures Render(before + [t] + after)
            == ("\n" + Lines(before) + "    ") + RenderTag(t) + ("\n" + Lines(after) + "    ")
  {
    LinesAround(before, t, after);
    RegroupFramed("\n", "    ", Lines(before), RenderTag(t), Lines(after));
  }

  /** Every tag appears in the rendered fragment as its own text. */
  lemma RenderShowsTag(tags: seq<MetaTag>, i: nat)
    requires i < |tags|
    ensures Contains(Render(tags), RenderTag(tags[i]))
  {
    var before, t, after := tags[..i], tags[i], tags[i + 1..];
    assert tags == before + [t] + after;
    RenderAround(before, t, after);
    OccursInMiddle("\n" + Lines(before) + "    ", RenderTag(t), "\n" + Lines(after) + "    ");
  }

  lemma NotFoundRendersTitle()
    ensures Contains(Render(NotFoundTags()), "<title>" + NOT_FOUND_TITLE + "</title>")
  {
    var tags := NotFoundTags();
    RenderShowsTag(tags, 4);
  }

  /** Whenever the fetch, the decoding or the rendering failed, the page
      title a crawler reads is "Event Not Found". */
  lemma NotFoundShowsTitle(cfg: Config, slug: string, outcome: FetchOutcome)
    requires !Renders(cfg, slug, outcome)
    ensures Contains(EventMetaTags(cfg, slug, outcome), "<title>" + NOT_FOUND_TITLE + "</title>")
  {
    NotFoundRendersTitle();
  }

  /** When the record renders, the page title a crawler reads is the
      event's escaped title. */
  lemma SuccessShowsTitle(cfg: Config, slug: string, outcome: FetchOutcome)
    requires Renders(cfg, slug, outcome)
    ensures Contains(EventMetaTags(cfg, slug, outcome),
                     "<title>" + EscapeHtml(Fetched(outcome).value.title).value + "</title>")
  {
    var ev := Fetched(outcome).value;
    var tags := FragmentTags(cfg, slug, outcome);
    assert tags == SuccessTags(cfg, slug, ev).value;
    SuccessFragment(cfg, slug, ev, OgTitle);
    RenderShowsTag(tags, 16);
  }

}
