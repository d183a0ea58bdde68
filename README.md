# Crawler-aware front for a single-page app, in Dafny

`server.js` is an Express server that sits in front of a built React app.
Ordinary visitors get the app's `index.html` for every path. Link-preview
crawlers (recognised by the `isbot` library) asking for `/events/:slug` get
the same page, with a fragment of Open Graph and Twitter Card tags for that
event injected after `<head>`. The tags are filled from the backend's event
API. Every page it sends has the production origin
`https://muscatwhereto.com` stripped out, so absolute links become relative.

The model has one module per part of that file:

- `Text` (text.dfy): literal substring search, and the regrouping
  identities on concatenations that the other modules share. The origin
  rewrite's pattern is a fixed string, and the injection's patterns are a
  fixed string or two fixed strings with a lazy gap between them. The
  escaper's character class `[&<>"']` is not a search; `HtmlEscape` maps
  it character by character.
- `JsValues` (jsvalue.dfy): the JavaScript values the code inspects, with
  truthiness, `||`, and environment variables read with a default.
- `HtmlEscape` (escape.dfy): `escapeHtml`, with a reference decoder.
- `UrlRewrite` (rewrite.dfy): `fixLocalhostUrls`.
- `MetaInject` (inject.dfy): `injectMetaTags`. It holds both the literal
  insertion the code means and the `$`-pattern expansion it actually
  performs (see Findings).
- `EventMeta` (metatags.dfy): the fragment `getEventMetaTags` renders. The
  fragment is a list of structured tags whose rendering reproduces the
  template literal character for character.
- `Server` (server.dfy): the two route handlers as methods that build a
  response record step by step, the order in which Express tries the
  layers, and what the page sent to a crawler contains. The event route
  injects the fragment as the code does, with the `$`-pattern expansion
  (`InjectAsWritten`); when the fragment has no `$` that is the literal
  insertion (`BotPageShowsFragment`).

The file read, the `existsSync` probe, the backend fetch with its JSON
decoding, the user-agent header, the `isbot` predicate and the environment
variables are all inputs.

Where the code behaves differently from what its comments and names
suggest, the model follows the code:

- The rewrite matches only the exact lower-case `https://` origin.
  `PlainHttpIsKept` and `OtherCaseIsKept` prove this.
- The rewrite is not idempotent. Deleting an origin can splice two halves
  into a new one (`FixNotIdempotent`). It is idempotent only when its output
  has no origin left (`FixIdempotentWithoutSplice`).
- There is no special handling of `/` or of `.js` and `.css` assets. Every
  GET that is not an event page goes to the catch-all
  (`StaticFilesNeverReached`).
- The failure fragment's title is "Event Not Found".
- A missing event title renders as the empty string. Nothing fills it with
  a placeholder.

## Model

| member | source | states |
|---|---|---|
| `JsValues.Or` | server.js:62-63 | `a \|\| b` yields the left operand when truthy, else the right; the result is truthy iff either operand is |
| `JsValues.Setting` | server.js:49 | `process.env.X \|\| d`: an unset or empty variable gives the default, a non-empty one itself |
| `HtmlEscape.EscapeChar` | server.js:35-41 | each of the five characters maps to an entity starting with `&`; any other character maps to itself |
| `HtmlEscape.Escape` | server.js:42 | escaping never shortens the text |
| `HtmlEscape.EscapeHtml` | server.js:33-43 | a falsy value gives `""`; a string is escaped; a truthy non-string throws (no `replace` method), and only that throws |
| `HtmlEscape.EscapeConcat` | server.js:42 | the global replace works character by character, so escaping distributes over concatenation |
| `HtmlEscape.UnescapeEscape` | server.js:35-42 | decoding the five entities restores the input exactly, so every character survives, in order |
| `HtmlEscape.EscapeIsSafe` | server.js:35-42 | the output has no raw `<`, `>`, `"` or `'`, and every `&` in it starts one of the five entities |
| `HtmlEscape.EscapeUnchangedIff` | server.js:42 | the output equals the input exactly when the input has none of the five characters |
| `HtmlEscape.PlainIsSafe` | server.js:42 | text without the five characters is already safe markup |
| `UrlRewrite.FixLocalhostUrls` | server.js:97 | the rewrite never lengthens the text |
| `UrlRewrite.FixWithoutOrigin` | server.js:97 | text without the origin comes back unchanged |
| `UrlRewrite.FixShrinksWithOrigin` | server.js:97 | text with the origin loses at least one whole origin |
| `UrlRewrite.RewriteAppliedIff` | server.js:94-101 | the "URL rewriting applied" condition (`before !== html`) holds exactly when the text contains the origin |
| `UrlRewrite.FixDeletesWholeOrigins` | server.js:97 | the length drops by a multiple of the origin's 25 characters |
| `UrlRewrite.FixAroundOrigin` | server.js:97 | an occurrence of the origin is deleted and the text on either side is rewritten on its own |
| `UrlRewrite.FixDropsLeadingOrigin` | server.js:97 | a leading origin is deleted |
| `UrlRewrite.FixSplitsAtForeignChar` | server.js:97 | the rewrite splits at a point where the right-hand text starts with a character that cannot be in the origin |
| `UrlRewrite.FixSplitsAfterForeignChar` | server.js:97 | the rewrite splits after a character that cannot be in the origin |
| `UrlRewrite.FixKeepsEnclosedPiece` | server.js:97 | a piece framed by such characters is rewritten on its own |
| `UrlRewrite.FixIdempotentWithoutSplice` | server.js:97 | a second rewrite changes nothing when the first left no origin behind |
| `UrlRewrite.FixNotIdempotent` | server.js:97 | splitting the origin around a copy of itself makes the second rewrite delete what the first one produced |
| `UrlRewrite.PlainHttpIsKept` | server.js:97 | `http://muscatwhereto.com` is not rewritten |
| `UrlRewrite.OtherCaseIsKept` | server.js:97 | an upper-case origin is not rewritten |
| `MetaInject.StripDynamic` | server.js:109 | stripping sentinel regions never lengthens the page |
| `MetaInject.InjectMetaTags` | server.js:107-118 | the corrected, literal insertion (the corrected half of the Findings row): with no `<head>` left after stripping, the result is the stripped page; otherwise its length grows by the replacement minus `<head>` |
| `MetaInject.InjectAsWritten` | server.js:107-118 | the injection as the code runs it, with `$` patterns expanded, and the one the route uses: with no `<head>` after stripping, the stripped page; otherwise the text before the first `<head>`, then the expanded replacement, then the text after it. `AsWrittenAgreesWithoutDollar` and `AsWrittenExpandsDollarAmpersand` relate it to the literal insertion |
| `MetaInject.ExpandReplacement` | server.js:112-115 | the replacement string with `$$`, `$&`, `` $` `` and `$'` expanded; a template without `$` comes out unchanged |
| `MetaInject.StripWithoutOpen` | server.js:109 | a page with no opening sentinel is not touched by stripping |
| `MetaInject.StripKeepsUnclosed` | server.js:109 | a page with no closing sentinel is not touched: an opening sentinel with nothing to close it does not match |
| `MetaInject.StripKeepsPlainPrefix` | server.js:109 | text before any opening sentinel is kept as it is |
| `MetaInject.StripRegionAtStart` | server.js:109 | a region ends at the nearest closing sentinel (the gap is lazy and crosses lines) and is removed whole |
| `MetaInject.StripRemovesRegion` | server.js:109 | a complete region is removed and the text around it is kept |
| `MetaInject.InjectIntoTemplate` | server.js:107-118 | on a page without sentinels the fragment lands right after the first `<head>` and nothing else changes |
| `MetaInject.InjectPlacesFragmentVerbatim` | server.js:112-115 | with the literal insertion, the fragment appears unchanged in the page, whatever it holds |
| `MetaInject.StripUndoesInject` | server.js:109-115 | stripping an injected page gives back the template, plus the line break and indentation left after `<head>` |
| `MetaInject.ReinjectReplaces` | server.js:109-115 | injecting twice replaces the first fragment: exactly one region remains, holding the second fragment; the result differs from a single injection only by a leftover line break and indentation |
| `MetaInject.DollarPattern` | server.js:112-115 | `$$`, `$&`, `` $` `` and `$'` are the two-character patterns a string replacement expands |
| `MetaInject.ExpandWithoutDollar` | server.js:112-115 | a replacement string without `$` is inserted literally |
| `MetaInject.AsWrittenAgreesWithoutDollar` | server.js:107-118 | for a fragment without `$`, the code as written gives exactly the literal insertion |
| `MetaInject.AsWrittenExpandsDollarAmpersand` | server.js:112-115 | as written, a `$&` in the fragment is replaced by the matched `<head>`, so the page differs from the literal insertion |
| `EventMeta.EventApiUrl` | server.js:49-50 | the backend URL starts with `API_URL` (default `http://localhost:5000`) and ends with the slug |
| `EventMeta.Fetched` | server.js:50-56 | the handler goes on only with a 2xx reply whose body decoded, and with that body |
| `EventMeta.Lookup` | server.js:59-86 | the content of the first `<meta>` tag with a key; absent exactly when no tag carries that key |
| `EventMeta.EventTags` | server.js:59-77 | the success fragment has 17 lines, opens with a comment and ends with the `<title>` |
| `EventMeta.PageUrl` | server.js:57-64 | the page URL `BASE_URL/events/slug` (default `http://localhost:3000`) is escaped and safe markup |
| `EventMeta.SiteName` | server.js:66 | the site name (default "Your Site") is escaped and safe markup |
| `EventMeta.SuccessTags` | server.js:56-77 | rendering the success fragment throws exactly when the body is `null` or the title, description or image is a truthy non-string |
| `EventMeta.FragmentTags` | server.js:46-88 | when the fetch, the decoding and the rendering all succeed, the fragment is the success layout built from the decoded record (17 lines opening with a comment); otherwise it is the fixed fragment |
| `EventMeta.EventMetaTags` | server.js:46-88 | `getEventMetaTags` never fails, and returns the "Event Not Found" text exactly when something went wrong |
| `EventMeta.OpensDifferently` | server.js:59-86 | no success fragment renders as the same text as the fixed one |
| `EventMeta.LookupFirst` | server.js:59-86 | the lookup finds the first tag carrying the key |
| `EventMeta.LookupAppend` | server.js:59-77 | a lookup in two joined lists takes the first list's tag when it has one |
| `EventMeta.OpenGraphBlockLookup` | server.js:60-66 | the Open Graph group carries title, description, image, URL, type `event` and site name, and no other key |
| `EventMeta.TwitterBlockLookup` | server.js:68-72 | the Twitter group carries card `summary_large_image`, title, description and image, and no other key |
| `EventMeta.AdditionalBlockLookup` | server.js:74-76 | the closing group carries only the plain description |
| `EventMeta.EventTagsLookup` | server.js:59-77 | every key of the success fragment, with its content |
| `EventMeta.RendersIff` | server.js:50-77 | rendering succeeds iff the reply is 2xx, the body decoded to a non-null value, and none of title, description and image is a truthy non-string |
| `EventMeta.Fallbacks` | server.js:62-63 | description is `description`, else `excerpt`, else `""`; image is `image`, else `imageUrl`, else `""` |
| `EventMeta.SuccessFragment` | server.js:57-76 | a crawler reads the escaped title, the escaped description and image after their fallbacks, the escaped page URL and site name, type `event`, card `summary_large_image`, and the escaped title as page title |
| `EventMeta.NotFoundFragment` | server.js:80-86 | the fixed fragment has og:title "Event Not Found", the fixed description and card `summary`, and no og:image, og:url, type or site name |
| `EventMeta.SuccessFragmentIsSafe` | server.js:61-76 | every value the success fragment interpolates is safe markup, so a field cannot close the attribute or element it sits in |
| `EventMeta.RenderShowsTag` | server.js:59-86 | every tag appears in the rendered fragment as its own text |
| `EventMeta.SuccessShowsTitle` | server.js:56-77 | when the record renders, the fragment contains `<title>` with the event's escaped title |
| `EventMeta.NotFoundShowsTitle` | server.js:78-86 | whenever anything failed, the fragment contains `<title>Event Not Found</title>` |
| `Server.SeoHeaders` | server.js:153-154 | the crawler page carries exactly `Content-Type: text/html; charset=utf-8` and `X-Robots-Tag: index, follow` |
| `Server.SendIndexPage` | server.js:159-170 | the page sent is the index with the origin stripped and no headers of its own; a failed read throws |
| `Server.EventsRoute` | server.js:121-172 | people get the plain page and the backend is not asked; a crawler gets a 500 "Server configuration error" when the index is missing, the event page (fragment injected as the code does it, then the origin stripped) with the SEO headers when the index is read (having asked the backend for the slug), and the plain page without headers when the first read fails, or a throw when the retry fails too |
| `Server.CatchAllRoute` | server.js:187-193 | every other path gets the plain page; a failed read throws |
| `Server.EventSlug` | server.js:121 | a matched slug is non-empty, has no `/`, and is what follows the prefix (in any letter case), less at most one trailing `/` |
| `Server.EventSlugIff` | server.js:121 | a path yields a given slug exactly when it is the prefix in any letter case, then that slug (non-empty, without `/`), then at most one `/` |
| `Server.FirstHandler` | server.js:121-198 | the first layer in registration order that takes the request, and none exactly when no layer does |
| `Server.StaticFilesNeverReached` | server.js:187-198 | the static layer registered after the catch-all never answers; GET and HEAD go to the event route for event paths and to the catch-all otherwise |
| `Server.HandleGet` | server.js:121-193 | a GET for a non-event path gets the catch-all's plain page and asks no backend; for an event path, people get the plain page, and a crawler gets the 500 when the index is missing, the event page after asking the backend for the path's slug when the index is read, and the retry's plain page (or a throw) when the first read fails |
| `Server.EventPaths` | server.js:121 | `/events/<slug>`, the same with a trailing `/`, and the upper-case prefix all extract the slug |
| `Server.NonEventPaths` | server.js:121 | `/events`, `/events/`, a nested path and a doubled trailing slash do not match the event route |
| `Server.InjectedFragmentSurvivesRewrite` | server.js:147-150 | after the literal injection and the rewrite, the page holds the fragment rewritten on its own |
| `Server.BotPageShowsFragment` | server.js:141-156 | when the fragment has no `$`, the crawler page equals the page with the fragment inserted literally, and it holds the event fragment with the origin stripped from it too |
| `Server.ProductionPageUrlBecomesPath` | server.js:57-64 | with `BASE_URL` set to the production origin, the rewrite turns `og:url` into the bare path `/events/<slug>` |

## Left out

- Express wiring, `app.listen`, the port and the static middleware's own behaviour (caching, file lookup) are not modelled. They are framework plumbing; only the order of the layers is.
- The `isbot` library is an uninterpreted predicate on the user-agent string. The `knownBots` list is never used.
- Console logging is not modelled. It has no effect on responses; the rewrite's log condition is stated as `RewriteApplied`.
- The file system, the backend fetch and JSON decoding are inputs. A decoded body that is not `null` is reduced to its five fields.
- What happens after a handler throws is out of scope: Express's error handler, or an unhandled promise rejection in the async route. The model records only `Raised`.
- The commented-out `/posts/:slug` route is dead code.
- check-setup.js, test-server.js, test-bot-detection.js, test-url-rewrite.js and ecosystem.config.js are not part of this model. They are environment probes, network clients and static configuration.
- Server.EventSlug: does not model the percent-decoding Express applies to `req.params.slug`, nor the 400 response for a malformed escape. The slug is taken as the raw path segment.
- Server.EventsRoute: does not model the headers `res.send` adds by default (a `text/html` content type, `Content-Length`, `ETag`), nor the empty body of a HEAD response. The header map holds only the headers the handler sets itself.
- HtmlEscape.Escape: works on characters. JavaScript strings are UTF-16 code units, which makes no difference for the five ASCII characters replaced.

## Findings

| source | as written | input that shows it | evidently intended | confidence | as-written member | corrected member |
|---|---|---|---|---|---|---|
| server.js:112-115 | the fragment is built into the second argument of `html.replace(/<head>/, ...)`, a replacement string, so `$&`, `$$`, `` $` `` and `$'` inside it are expanded | an event titled `Rock $'n' Roll`: escaping gives `Rock $&#039;n&#039; Roll`, and `$&` in it is replaced by `<head>` | the fragment is inserted literally (a replacement function, or `$` escaped as `$$`); the route model keeps the code as written, and `Server.BotPageShowsFragment` ties it to the literal insertion for fragments without `$` | not executed | `MetaInject.InjectAsWritten` / `MetaInject.AsWrittenExpandsDollarAmpersand` | `MetaInject.InjectMetaTags` / `MetaInject.InjectPlacesFragmentVerbatim` |
