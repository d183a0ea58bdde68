/** The request handling of server.js: the `/events/:slug` route, which
    serves crawlers a page with event meta tags and everyone else the plain
    single-page app (server.js:121-172); the catch-all route (server.js:187-193);
    and the order in which Express tries the routes and the static files
    (server.js:121, 187, 196). */
module Server {

  import opened Options
  import opened Text
  import opened JsValues
  import opened HtmlEscape
  import opened UrlRewrite
  import opened MetaInject
  import opened EventMeta

  /** The status, the headers the handler sets itself, and the body. */
  datatype Response = Response(status: int, headers: map<string, string>, body: string)

  /** A handler either sends a response or throws; a throw in the async
      events handler is an unhandled rejection and one in the catch-all is
      answered by Express's error handler, neither of which the source
      controls. */
  datatype Outcome = Sent(response: Response) | Raised

  /** `build/index.html` as one request sees it: whether `existsSync` finds
      it, what the first `readFileSync` returns (`None`: it throws), and
      what the second read in the `catch` block returns. */
  datatype IndexFile = IndexFile(present: bool, firstRead: Option<string>, retryRead: Option<string>)

  const HTML_CONTENT_TYPE := "text/html; charset=utf-8"
  const ROBOTS_DIRECTIVE := "index, follow"
  const CONFIG_ERROR := "Server configuration error"

  /** The headers the crawler page carries. */
  function SeoHeaders(): (r: map<string, string>)
    ensures r.Keys == {"Content-Type", "X-Robots-Tag"}
    ensures r["Content-Type"] == HTML_CONTENT_TYPE && r["X-Robots-Tag"] == ROBOTS_DIRECTIVE
  {
    map["Content-Type" := HTML_CONTENT_TYPE, "X-Robots-Tag" := ROBOTS_DIRECTIVE]
  }

  /** The page a crawler gets: the event fragment injected into the index
      page as the source's string replacement does it (expanding `$`
      patterns), then the production origin stripped from the whole. */
  function BotPage(index: string, cfg: Config, slug: string, fetch: FetchOutcome): string
  {
    FixLocalhostUrls(InjectAsWritten(index, EventMetaTags(cfg, slug, fetch)))
  }

  /** Read the index page, strip the origin, and send it with no headers of
      its own; a failed read throws. */
  method SendIndexPage(read: Option<string>) returns (out: Outcome)
    ensures read.None? ==> out == Raised
    ensures read.Some? ==> out == Sent(Response(200, map[], FixLocalhostUrls(read.value)))
  {
    if read.None? {
      return Raised;
    }
    var html := read.value;
    html := FixLocalhostUrls(html);
    out := Sent(Response(200, map[], html));
  }

  /** `GET /events/:slug`. The user agent is the request header (`None`
      when absent), `isBot` the `isbot` library, and `fetch` what the
      backend request comes to; `backendRequest` is the URL the handler
      fetches, if it fetches at all. */
  method EventsRoute(slug: string, userAgent: Option<string>, isBot: string -> bool,
                     index: IndexFile, cfg: Config, fetch: FetchOutcome)
    returns (out: Outcome, backendRequest: Option<string>)
    // People get the plain page, and the backend is not asked.
    ensures !isBot(Setting(userAgent, "")) ==>
              && backendRequest.None?
              && out == (if index.firstRead.Some?
                         then Sent(Response(200, map[], FixLocalhostUrls(index.firstRead.value)))
                         else Raised)
    // A crawler when the index page is missing.
    ensures isBot(Setting(userAgent, "")) && !index.present ==>
              out == Sent(Response(500, map[], CONFIG_ERROR)) && backendRequest.None?
    // A crawler, the index page read: the event page with its headers.
    ensures isBot(Setting(userAgent, "")) && index.present && index.firstRead.Some? ==>
              && backendRequest == Some(EventApiUrl(cfg, slug))
              && out == Sent(Response(200, SeoHeaders(), BotPage(index.firstRead.value, cfg, slug, fetch)))
    // A crawler, the read failing: the fallback reads again and sends the
    // plain page without the headers.
    ensures isBot(Setting(userAgent, "")) && index.present && index.firstRead.None? ==>
              && backendRequest.None?
              && out == (if index.retryRead.Some?
                         then Sent(Response(200, map[], FixLocalhostUrls(index.retryRead.value)))
                         else Raised)
  {
    var agent := Setting(userAgent, "");
    backendRequest := None;
    if !isBot(agent) {
      out := SendIndexPage(index.firstRead);
      return;
    }
    if !index.present {
      out := Sent(Response(500, map[], CONFIG_ERROR));
      return;
    }
    if index.firstRead.None? {
      out := SendIndexPage(index.retryRead);
      return;
    }
    var html := index.firstRead.value;
    backendRequest := Some(EventApiUrl(cfg, slug));
    var metaTags := EventMetaTags(cfg, slug, fetch);
    html := InjectAsWritten(html, metaTags);
    html := FixLocalhostUrls(html);
    var headers: map<string, string> := map[];
    headers := headers["Content-Type" := HTML_CONTENT_TYPE];
    headers := headers["X-Robots-Tag" := ROBOTS_DIRECTIVE];
    out := Sent(Response(200, headers, html));
  }

  /** `GET *`: the plain page for every other path. */
  method CatchAllRoute(index: IndexFile) returns (out: Outcome)
    ensures index.firstRead.None? ==> out == Raised
    ensures index.firstRead.Some? ==> out == Sent(Response(200, map[], FixLocalhostUrls(index.firstRead.value)))
  {
    out := SendIndexPage(index.firstRead);
  }

  // ---------------------------------------------------------------------
  // Route order
  // ---------------------------------------------------------------------

  const EVENTS_PREFIX := "/events/"

  function LowerAscii(c: char): (r: char)
    ensures 'A' <= c <= 'Z' ==> r != c
    ensures !('A' <= c <= 'Z') ==> r == c
  {
    if 'A' <= c <= 'Z' then (c as int + 32) as char else c
  }

  /** Equal up to the letter case of ASCII letters, as a case-insensitive
      regular expression without the `u` flag compares. */
  predicate SameIgnoringCase(a: string, b: string)
  {
    |a| == |b| && forall i | 0 <= i < |a| :: LowerAscii(a[i]) == LowerAscii(b[i])
  }

  /** The slug the pattern `/events/:slug` extracts from a request path:
      the prefix in any letter case, then one non-empty segment with no
      slash, then at most one trailing slash. */
  function EventSlug(path: string): (r: Option<string>)
    ensures r.Some? ==> |r.value| > 0 && '/' !in r.value
    ensures r.Some? ==> |path| >= |EVENTS_PREFIX| && SameIgnoringCase(path[..|EVENTS_PREFIX|], EVENTS_PREFIX)
    ensures r.Some? ==> |path| >= |EVENTS_PREFIX|
                        && (path[|EVENTS_PREFIX|..] == r.value || path[|EVENTS_PREFIX|..] == r.value + "/")
  {
    if |path| < |EVENTS_PREFIX| || !SameIgnoringCase(path[..|EVENTS_PREFIX|], EVENTS_PREFIX) then None
    else
      var rest := path[|EVENTS_PREFIX|..];
      var segment := if |rest| > 0 && rest[|rest| - 1] == '/' then rest[..|rest| - 1] else rest;
      if |segment| > 0 && '/' !in segment then Some(segment) else None
  }

  /** The application's middleware stack in registration order. */
  datatype Layer = EventsHandler | CatchAllHandler | StaticFiles

  const STACK := [EventsHandler, CatchAllHandler, StaticFiles]

  /** Routes registered with `app.get` answer GET and also HEAD; the static
      middleware only serves GET and HEAD too. */
  predicate IsGetOrHead(verb: string)
  {
    verb == "GET" || verb == "HEAD"
  }

  predicate Handles(layer: Layer, verb: string, path: string)
  {
    match layer
    case EventsHandler => IsGetOrHead(verb) && EventSlug(path).Some?
    case CatchAllHandler => IsGetOrHead(verb)
    case StaticFiles => IsGetOrHead(verb)
  }

  /** The first layer of the stack that takes the request; a handler that
      matched never passes the request on. */
  function FirstHandler(stack: seq<Layer>, verb: string, path: string): (r: Option<Layer>)
    ensures r.None? <==> forall i | 0 <= i < |stack| :: !Handles(stack[i], verb, path)
    ensures r.Some? ==> exists i | 0 <= i < |stack| ::
              && stack[i] == r.value && Handles(stack[i], verb, path)
              && forall j | 0 <= j < i :: !Handles(stack[j], verb, path)
  {
    if |stack| == 0 then None
    else if Handles(stack[0], verb, path) then
      assert stack[0] == stack[0];
      Some(stack[0])
    else
      var r := FirstHandler(stack[1..], verb, path);
      assert forall i | 1 <= i < |stack| :: stack[i] == stack[1..][i - 1];
      if r.Some? then
        var i :| 0 <= i < |stack[1..]| && stack[1..][i] == r.value && Handles(stack[1..][i], verb, path)
                 && forall j | 0 <= j < i :: !Handles(stack[1..][j], verb, path);
        assert stack[i + 1] == r.value;
        assert forall j | 0 <= j < i + 1 :: !Handles(stack[j], verb, path);
        r
      else r
  }

  /** The static middleware registered after the catch-all never answers a
      request: every GET and HEAD is taken by one of the two routes. */
  lemma StaticFilesNeverReached(verb: string, path: string)
    ensures FirstHandler(STACK, verb, path) != Some(StaticFiles)
    ensures IsGetOrHead(verb) ==>
              FirstHandler(STACK, verb, path)
              == (if EventSlug(path).Some? then Some(EventsHandler) else Some(CatchAllHandler))
    ensures !IsGetOrHead(verb) ==> FirstHandler(STACK, verb, path).None?
  {
    var s := STACK;
    assert s[1..] == [CatchAllHandler, StaticFiles];
    assert s[1..][1..] == [StaticFiles];
  }

  /** A GET request as the application answers it. */
  method HandleGet(path: string, userAgent: Option<string>, isBot: string -> bool,
                   index: IndexFile, cfg: Config, fetch: FetchOutcome)
    returns (out: Outcome, backendRequest: Option<string>)
    ensures EventSlug(path).None? ==> backendRequest.None?
    ensures EventSlug(path).None? ==>
              out == (if index.firstRead.Some?
                      then Sent(Response(200, map[], FixLocalhostUrls(index.firstRead.value)))
                      else Raised)
    ensures backendRequest.Some? ==>
              EventSlug(path).Some? && backendRequest == Some(EventApiUrl(cfg, EventSlug(path).value))
    // A crawler asking for an event page when the index page is missing.
    ensures EventSlug(path).Some? && isBot(Setting(userAgent, "")) && !index.present ==>
              out == Sent(Response(500, map[], CONFIG_ERROR)) && backendRequest.None?
    // A crawler asking for an event page whose index page is read: the
    // backend is asked for the slug and the event page is sent.
    ensures EventSlug(path).Some? && isBot(Setting(userAgent, "")) && index.present && index.firstRead.Some? ==>
              && backendRequest == Some(EventApiUrl(cfg, EventSlug(path).value))
              && out == Sent(Response(200, SeoHeaders(), BotPage(index.firstRead.value, cfg, EventSlug(path).value, fetch)))
    // A crawler asking for an event page whose first read fails: the
    // fallback's plain page.
    ensures EventSlug(path).Some? && isBot(Setting(userAgent, "")) && index.present && index.firstRead.None? ==>
              && backendRequest.None?
              && out == (if index.retryRead.Some?
                         then Sent(Response(200, map[], FixLocalhostUrls(index.retryRead.value)))
                         else Raised)
    // Anyone else gets the plain page, whatever the path.
    ensures !isBot(Setting(userAgent, "")) ==>
              && backendRequest.None?
              && out == (if index.firstRead.Some?
                         then Sent(Response(200, map[], FixLocalhostUrls(index.firstRead.value)))
                         else Raised)
  {
    StaticFilesNeverReached("GET", path);
    var slug := EventSlug(path);
    if slug.Some? {
      out, backendRequest := EventsRoute(slug.value, userAgent, isBot, index, cfg, fetch);
    } else {
      out := CatchAllRoute(index);
      backendRequest := None;
    }
  }

  /** A path matches with a given slug exactly when it is the prefix in any
      letter case, then that slug (non-empty, without `/`), then at most one
      `/`. */
  lemma EventSlugIff(path: string, slug: string)
    ensures EventSlug(path) == Some(slug) <==>
              && |path| >= |EVENTS_PREFIX|
              && SameIgnoringCase(path[..|EVENTS_PREFIX|], EVENTS_PREFIX)
              && |slug| > 0 && '/' !in slug
              && (path[|EVENTS_PREFIX|..] == slug || path[|EVENTS_PREFIX|..] == slug + "/")
  {
    if && |path| >= |EVENTS_PREFIX|
       && SameIgnoringCase(path[..|EVENTS_PREFIX|], EVENTS_PREFIX)
       && |slug| > 0 && '/' !in slug
    {
      var rest := path[|EVENTS_PREFIX|..];
      if rest == slug {
        assert rest[|rest| - 1] == slug[|slug| - 1];
      } else if rest == slug + "/" {
        assert rest[..|rest| - 1] == slug;
      }
    }
  }

  /** The slug of an event path, in any letter case and with or without the
      trailing slash. */
  lemma EventPaths(slug: string)
    requires |slug| > 0 && '/' !in slug
    ensures EventSlug(EVENTS_PREFIX + slug) == Some(slug)
    ensures EventSlug(EVENTS_PREFIX + slug + "/") == Some(slug)
    ensures EventSlug("/EVENTS/" + slug) == Some(slug)
  {
    var p, q, u := EVENTS_PREFIX + slug, EVENTS_PREFIX + slug + "/", "/EVENTS/" + slug;
    assert p[..8] == EVENTS_PREFIX && p[8..] == slug;
    assert q[..8] == EVENTS_PREFIX && q[8..] == slug + "/";
    assert (slug + "/")[..|slug|] == slug;
    assert u[..8] == "/EVENTS/" && u[8..] == slug;
    assert SameIgnoringCase("/EVENTS/", EVENTS_PREFIX);
  }

  /** Paths the pattern does not take go to the catch-all: the bare
      prefix, a nested path and a doubled trailing slash. */
  lemma NonEventPaths(slug: string)
    requires |slug| > 0 && '/' !in slug
    ensures EventSlug("/events").None? && EventSlug(EVENTS_PREFIX).None?
    ensures EventSlug(EVENTS_PREFIX + slug + "/x").None?
    ensures EventSlug(EVENTS_PREFIX + slug + "//").None?
  {
    var n, d := EVENTS_PREFIX + slug + "/x", EVENTS_PREFIX + slug + "//";
    assert n[..8] == EVENTS_PREFIX && n[8..] == slug + "/x";
    assert (slug + "/x")[|slug|] == '/';
    assert d[..8] == EVENTS_PREFIX && d[8..] == slug + "//";
    assert (slug + "//")[..|slug| + 1][|slug|] == '/';
  }

  // ---------------------------------------------------------------------
  // What the crawler page holds
  // ---------------------------------------------------------------------

  /** A piece set between a lead ending in, and a trail starting with,
      characters that cannot belong to the origin shows in the rewritten
      whole, rewritten on its own. */
  lemma EnclosedPieceSurvivesRewrite(p: string, lead: string, m: string, trail: string, q: string)
    requires |lead| > 0 && lead[|lead| - 1] !in ORIGIN
    requires |trail| > 0 && trail[0] !in ORIGIN
    ensures Contains(FixLocalhostUrls(p + (lead + m + trail) + q), FixLocalhostUrls(m))
  {
    var a, b := p + lead, trail + q;
    assert p + (lead + m + trail) + q == a + m + b;
    assert a[|a| - 1] == lead[|lead| - 1];
    FixKeepsEnclosedPiece(a, m, b);
    OccursInMiddle(FixLocalhostUrls(a), FixLocalhostUrls(m), FixLocalhostUrls(b));
  }

  /** The fixed text before the fragment ends in a space, the text after
      it starts with a line break, and neither character is in the origin. */
  lemma ReplacementEnds()
    ensures var lead := HEAD + INDENT + OPEN + INDENT; |lead| > 0 && lead[|lead| - 1] !in ORIGIN
    ensures var trail := INDENT + CLOSE; |trail| > 0 && trail[0] !in ORIGIN
  {
    var lead, trail := HEAD + INDENT + OPEN + INDENT, INDENT + CLOSE;
    assert lead[|lead| - 1] == ' ' && trail[0] == '\n';
  }

  /** When the index page has a `<head>`, the page after injection and
      rewriting holds the fragment, rewritten on its own: the characters
      around it (a space before, a line break after) cannot belong to the
      origin. */
  lemma InjectedFragmentSurvivesRewrite(index: string, metaTags: string)
    requires Find(StripDynamic(index), HEAD).Some?
    ensures Contains(FixLocalhostUrls(InjectMetaTags(index, metaTags)), FixLocalhostUrls(metaTags))
  {
    var s := StripDynamic(index);
    var k := Find(s, HEAD).value;
    InjectShape(index, metaTags);
    ReplacementShape(metaTags);
    ReplacementEnds();
    EnclosedPieceSurvivesRewrite(s[..k], HEAD + INDENT + OPEN + INDENT, metaTags, INDENT + CLOSE, s[k + |HEAD|..]);
  }

  /** When the fragment holds no `$`, the crawler page is the page with the
      fragment inserted literally, and it holds the event fragment, with the
      production origin stripped from it like from the rest of the page.
      (With a `$` pattern in it, the fragment is altered on the way in; see
      AsWrittenExpandsDollarAmpersand.) */
  lemma BotPageShowsFragment(index: string, cfg: Config, slug: string, fetch: FetchOutcome)
    requires Find(StripDynamic(index), HEAD).Some?
    requires '$' !in EventMetaTags(cfg, slug, fetch)
    ensures BotPage(index, cfg, slug, fetch) == FixLocalhostUrls(InjectMetaTags(index, EventMetaTags(cfg, slug, fetch)))
    ensures Contains(BotPage(index, cfg, slug, fetch), FixLocalhostUrls(EventMetaTags(cfg, slug, fetch)))
  {
    AsWrittenAgreesWithoutDollar(index, EventMetaTags(cfg, slug, fetch));
    InjectedFragmentSurvivesRewrite(index, EventMetaTags(cfg, slug, fetch));
  }

  /** The production origin holds no character that escaping changes. */
  lemma OriginNeedsNoEscape()
    ensures Escape(ORIGIN) == ORIGIN
  {
    assert forall i | 0 <= i < |ORIGIN| :: !IsSpecial(ORIGIN[i]);
    EscapeUnchangedIff(ORIGIN);
  }

  /** Escaping leaves a leading production origin in place. */
  lemma EscapeKeepsOrigin(path: string)
    ensures Escape(ORIGIN + path) == ORIGIN + Escape(path)
  {
    EscapeConcat(ORIGIN, path);
    OriginNeedsNoEscape();
  }

  /** With the base URL set to the production origin, the rewrite turns the
      page URL the crawler sees into a bare path: `og:url` is then no
      longer absolute. */
  lemma ProductionPageUrlBecomesPath(slug: string)
    ensures FixLocalhostUrls(PageUrl(Config(None, Some(ORIGIN), None), slug))
            == FixLocalhostUrls(Escape("/events/" + slug))
  {
    var path := "/events/" + slug;
    assert PageUrl(Config(None, Some(ORIGIN), None), slug) == Escape(ORIGIN + "/events/" + slug);
    assert ORIGIN + "/events/" + slug == ORIGIN + path;
    EscapeKeepsOrigin(path);
    FixDropsLeadingOrigin(Escape(path));
  }

}
