# A verified model of the apex marketing-site server

apex is a small Rocket web server. It renders a handful of pages from
templates. It serves static files with a cache header, and it can answer
`/robots.txt` with a disallow-all body. A response fairing stamps fixed
security headers on every response. This project models that logic in
Dafny and proves what it promises.

All of it rests on one response value: a status, an optional content type,
a body and a header table. In the table each name holds one value, and
`set_header` replaces what the name held before (`Http.Response`,
`Http.SetAll`).

- `wrappers.dfy`: `Option` and `Result`.
- `http.dfy`: the response class. `SetAll` is the header table after a
  sequence of `set_header` calls, with lemmas: the last write to a name
  wins, other names are untouched, and repeating the sequence changes
  nothing.
- `headers.dfy`: the security-header fairing (src/headers.rs).
  `OnResponse` updates a response in place with a loop over the four fixed
  headers, then sets the content security policy. Its result is tied to
  `Injected`, and the lemmas give each header's value, the SVG
  if-and-only-if, the frame and idempotence.
- `caching.dfy`: the cache decorator (src/caching.rs): `Cached`, `Cache`
  (`cached`) and `RespondTo` (`respond_to`). `RespondTo` loops over the directives on the
  inner response. `set_header` replaces, so the directives do not pile up
  as separate `Cache-Control` lines; only the last one survives
  (src/caching.rs:17-19).
- `assets.dfy`: the cache-busting stylesheet URLs of `compile_sass` and
  `concat_vendor_css`, and the decimal `to_string` of `hash_css`. A URL is
  proved to parse back to its name and digest, so distinct digests give
  distinct URLs.
- `site.dfy`: the rest of src/main.rs. This covers `Context::new`,
  `render_simple_template`, the five page routes and the 404 and 500
  catchers. It also covers `robots_txt` and the `files` route.

Inputs from outside the program are parameters:
- the hasher, as `hash: string -> U64`;
- the compiled CSS;
- whether each file read or write succeeded;
- whether the static file opened;
- the robots environment flag;
- the asset table.

Header names are written in one normal form, lower case (`cache-control`,
`content-security-policy`), so two spellings of one name never sit side by
side in the table. Content types are compared as Rocket compares them:
top and sub type, ignoring ASCII case (`Http.IsSvg`).

A failed startup step panics in the server. In the model it is a `Failure`
carrying the panic message.

## Model

| member | source | states |
|---|---|---|
| `Http.SetAll` | src/headers.rs:32-34 | a run of `set_header` calls leaves the old names plus the set names, and names it does not set keep their old values |
| `Http.SetAllIsOverlay` | src/headers.rs:32-34 | setting a run of headers overlays the table they build on the old table (replace, never append) |
| `Http.SetAllLastWins` | src/caching.rs:17-19 | a name ends up holding the value of the last pair that sets it |
| `Http.SetAllIdempotent` | src/headers.rs:32-42 | setting the same run of headers twice gives the same table as setting it once |
| `Http.Response.SetHeader` | src/headers.rs:33 | `set_header` makes the name hold exactly the new value; no other header and no other field changes |
| `Http.IsSvgIgnoresCase` | src/headers.rs:35 | the SVG test compares media types without regard to ASCII case: `image/svg+xml` and `Image/SVG+XML` are SVG, `text/html` and no content type are not |
| `SecurityHeaders.CspFor` | src/headers.rs:35-41 | the chosen policy is the SVG policy if and only if the content type is SVG (ignoring case), and the normal policy otherwise; the two policies differ |
| `SecurityHeaders.InjectionNames` | src/headers.rs:5-18 | the headers the fairing sets name exactly the four fixed headers and `content-security-policy` |
| `SecurityHeaders.OnResponse` | src/headers.rs:31-43 | the response's header table becomes the injected table of its old table and content type; status, content type and body are unchanged |
| `SecurityHeaders.InjectedValues` | src/headers.rs:32-42 | after injection each of the four fixed headers holds exactly its table value, and the policy header holds the policy for the content type, whatever was there before |
| `SecurityHeaders.InjectedCspIffSvg` | src/headers.rs:35-42 | the policy header equals the SVG policy if and only if the content type is SVG, and equals the normal policy otherwise |
| `SecurityHeaders.InjectedLeavesOthers` | src/headers.rs:31-43 | injection adds exactly the five injected names, and every other header is present and valued as before |
| `SecurityHeaders.InjectedIdempotent` | src/headers.rs:32-42 | running the fairing twice leaves the same header table as running it once |
| `Caching.Cache` | src/caching.rs:36-41 | `cached` keeps the inner responder and the directives unchanged and in the same order |
| `Caching.DirectiveHeaders` | src/caching.rs:17-19 | one header per directive, and every one of them names `cache-control` (none when there are no directives) |
| `Caching.WithDirectivesLastWins` | src/caching.rs:17-20 | with no directives the table is the inner response's exactly; otherwise it is the inner table with `Cache-Control` set to the last directive and nothing else changed |
| `Caching.WithDirectivesInOrder` | src/caching.rs:17-19 | after the first k+1 directives are set, `Cache-Control` holds the k-th |
| `Caching.RespondTo` | src/caching.rs:14-22 | a failing inner responder's status is returned unchanged and nothing is modified; on success the same response is returned, its headers are the inner headers with each directive set in turn, and status, content type and body are unchanged |
| `Assets.DecimalString` | src/main.rs:143 | `to_string` of a number is a non-empty string of decimal digits |
| `Assets.DecimalStringRoundTrip` | src/main.rs:143 | reading the decimal digits back gives the number |
| `Assets.HashCss` | src/main.rs:140-144 | the digest is a non-empty decimal string computed from the CSS text alone |
| `Assets.Emit` | src/main.rs:152-158 | the written path is `./static/styles/<name>_<digest>.css`, the URL is that path without its leading `.`, and the contents are the CSS |
| `Assets.CompileSass` | src/main.rs:146-159 | a failed compile or write gives the panic message naming the file; otherwise the URL is `/static/styles/<name>_<hash>.css` and the written path is `.` followed by the URL |
| `Assets.VendorContents` | src/main.rs:163-167 | the vendor bundle exists if and only if every vendor file `./static/styles/<stem>.css` is readable |
| `Assets.VendorContentsAppend` | src/main.rs:163-167 | the bundle of a + b is a's bundle followed by b's bundle, so contents are concatenated in list order |
| `Assets.VendorContentsSingle` | src/main.rs:163-167 | the bundle of one file is exactly that file's contents |
| `Assets.ConcatVendorCss` | src/main.rs:161-175 | an unreadable vendor file or a failed write gives its panic message; otherwise the URL is `/static/styles/vendor_<hash of the in-order concatenation>.css` and the path is `.` followed by the URL |
| `Assets.SplitDigestRoundTrip` | src/main.rs:152 | `<name>_<digits>` splits back into the name and the digits |
| `Assets.AssetUrlRoundTrip` | src/main.rs:152-158 | a stylesheet URL parses back into the name and digest it was built from |
| `Assets.AssetUrlInjective` | src/main.rs:152-158 | different names or different digests give different URLs |
| `Assets.CompileSassUrlTracksHash` | src/main.rs:146-158 | two stylesheets compiled under one name get the same URL if and only if the hasher gives them the same value; identical CSS gives an identical URL |
| `Site.NewContext` | src/main.rs:50-63 | the title equals the given title in both branches of the emptiness test; page, data and assets are carried unchanged and the parent is `components/layout` |
| `Site.RenderSimpleTemplate` | src/main.rs:177-182 | renders the template named `name` with page id and title both `name`, under the layout |
| `Site.NotFoundHtml` | src/main.rs:129-133 | renders template `404` with page `404` and title `error404-page-title`, under the layout |
| `Site.NotFound` | src/main.rs:124-127 | the 404 catcher renders template `404`, page `404`, title `error404-page-title` |
| `Site.CatchError` | src/main.rs:135-138 | the 500 catcher renders template `404`, page `404`, title `error404-page-title` |
| `Site.ErrorPagesIdentical` | src/main.rs:124-138 | the 500 catcher's render is identical to the 404 catcher's |
| `Site.PageRoutesRenderOwnName` | src/main.rs:99-122 | each of the five page routes `Site.Index`, `Site.Services`, `Site.TipsAndTricks`, `Site.AboutUs` and `Site.Contact` renders the template of its own name (`index`, `services`, `tips-and-tricks`, `about-us`, `contact`), with that name as page id and title |
| `Site.RobotsTxt` | src/main.rs:91-97 | returns `User-agent: *\nDisallow: /` exactly when the flag is set, and no response otherwise |
| `Site.MaxAgeHeader` | src/main.rs:82 | the formatted directive is `max-age=3600` |
| `Site.Files` | src/main.rs:80-87 | no response if and only if the file could not be opened; otherwise the opened file wrapped with the directives exactly `["max-age=3600"]` |
| `Site.FilesCacheControl` | src/main.rs:80-87 | a served static file's headers are its own with `Cache-Control` set to `max-age=3600` |

## Left out

- Rocket machinery is not modelled: `Fairing::info`, the `Responder` trait plumbing, route ranking and matching, and the `routes!`/`catchers!` registration in `main`. This is framework wiring over a library not in the model.
- The async runtime, `main`'s bootstrap and the Lambda adapter (`is_running_on_lambda`, `launch_rocket_on_lambda`) are host glue and are left out.
- Sass compilation, `fs::write`, `fs::read_to_string` and `NamedFile::open` are foreign calls or file I/O. Their outcomes are parameters: the compiled CSS, a `read` function from path to contents, a write-succeeded flag, and whether the file opened.
- `Site.Files` takes the outcome of opening the file. The joining of `static/` with the requested path is not modelled.
- `DefaultHasher` (SipHash) is not modelled. `hash_css` takes the hasher as a parameter `hash: string -> U64`; only the decimal rendering of its digest is modelled.
- `Template::render` and the template files are not modelled. A render is the pair of a template name and its context.
- `lazy_static` initialisation of the asset table and the `env::var` read are not modelled. The asset table and the robots flag are parameters. The startup that builds the table from `compile_sass("app")`, `compile_sass("fonts")` and `concat_vendor_css(vec!["tachyons"])` is not modelled as one function.
- Header names are case-insensitive in Rocket. The model writes every name in lower case and compares names exactly; a name arriving in another spelling is not folded.
- Media type parameters (`; charset=…`) are not modelled; Rocket's media type equality ignores them too.
- `Http.Response` keeps the content type as a field of its own. Rocket reads it from the `Content-Type` header. None of the injected names is `Content-Type`, so the fairing's choice of policy is the same either way.
- A response body is a string; streamed bodies are not modelled.
- `Assets.ConcatVendorCss`: when a vendor file cannot be read or the bundle cannot be written, the model's failure carries the message (`couldn't read vendor css`, `couldn't write vendor css`) but not the `: <I/O error>` text that `expect` appends after it (src/main.rs:165, src/main.rs:172).
