/**
 * The request handlers of src/main.rs: page renders, the error catchers,
 * the robots gate and the static-file route.  A render is the pair of a
 * template name and the context handed to it; the template engine is not
 * modelled.
 */
module Site {
  import opened Wrappers
  import opened Assets
  import Caching
  import Http

  /** The layout every page renders within. */
  const LAYOUT: string := "components/layout"

  const ROBOTS_DISALLOW_ALL: string := "User-agent: *\nDisallow: /"

  /** What a template sees: page id, title, layout, page data and the asset URLs. */
  datatype Context<T> = Context(page: string, title: string, parent: string, data: T, assets: AssetFiles)

  /** `Template::render(name, &context)`. */
  datatype Template<T> = Template(name: string, context: Context<T>)

  /**
   * `Context::new`: the title is kept whether or not it is empty; every
   * context names the layout as its parent.  `assets` stands for the
   * process-wide asset table.
   */
  function NewContext<T>(page: string, title: string, data: T, assets: AssetFiles): (c: Context<T>)
    ensures c.page == page && c.title == title && c.data == data
    ensures c.parent == LAYOUT && c.assets == assets
  {
    var t := if title == "" then "" else title;
    Context(page, t, LAYOUT, data, assets)
  }

  /** `render_simple_template`: the template named `name`, with `name` as page id and title. */
  function RenderSimpleTemplate(name: string, assets: AssetFiles): (t: Template<()>)
    ensures t.name == name && t.context.page == name && t.context.title == name
    ensures t.context.parent == LAYOUT && t.context.assets == assets
  {
    var page := name;
    Template(page, NewContext(page, page, (), assets))
  }

  /** `not_found_html`: the `404` template, page `404`, titled by the error-page key. */
  function NotFoundHtml(assets: AssetFiles): (t: Template<()>)
    ensures t.name == "404" && t.context.page == "404" && t.context.title == "error404-page-title"
    ensures t.context.parent == LAYOUT && t.context.assets == assets
  {
    var page := "404";
    Template(page, NewContext("404", "error404-page-title", (), assets))
  }

  /** The 404 catcher. */
  function NotFound(assets: AssetFiles): (t: Template<()>)
    ensures t.name == "404" && t.context.page == "404" && t.context.title == "error404-page-title"
  {
    NotFoundHtml(assets)
  }

  /** The 500 catcher: a server error is shown exactly as a missing page. */
  function CatchError(assets: AssetFiles): (t: Template<()>)
    ensures t.name == "404" && t.context.page == "404" && t.context.title == "error404-page-title"
  {
    NotFoundHtml(assets)
  }

  lemma ErrorPagesIdentical(assets: AssetFiles)
    ensures CatchError(assets) == NotFound(assets)
  {
  }

  function Index(assets: AssetFiles): Template<()> { RenderSimpleTemplate("index", assets) }
  function Services(assets: AssetFiles): Template<()> { RenderSimpleTemplate("services", assets) }
  function TipsAndTricks(assets: AssetFiles): Template<()> { RenderSimpleTemplate("tips-and-tricks", assets) }
  function AboutUs(assets: AssetFiles): Template<()> { RenderSimpleTemplate("about-us", assets) }
  function Contact(assets: AssetFiles): Template<()> { RenderSimpleTemplate("contact", assets) }

  /** Each page route renders the template of its own name, with that name as page id and title. */
  lemma PageRoutesRenderOwnName(assets: AssetFiles)
    ensures var t := Index(assets); t.name == t.context.page == t.context.title == "index"
    ensures var t := Services(assets); t.name == t.context.page == t.context.title == "services"
    ensures var t := TipsAndTricks(assets); t.name == t.context.page == t.context.title == "tips-and-tricks"
    ensures var t := AboutUs(assets); t.name == t.context.page == t.context.title == "about-us"
    ensures var t := Contact(assets); t.name == t.context.page == t.context.title == "contact"
  {
  }

  /**
   * `robots_txt`: the disallow-all body when the environment flag is set,
   * and no response otherwise.  `disallowAll` is the flag, read once at
   * startup from `ROBOTS_TXT_DISALLOW_ALL`.
   */
  function RobotsTxt(disallowAll: bool): (r: Option<string>)
    ensures r.Some? <==> disallowAll
    ensures r.Some? ==> r.value == "User-agent: *\nDisallow: /"
  {
    if disallowAll then Some(ROBOTS_DISALLOW_ALL) else None
  }

  /** `format!("max-age={}", 3600)`. */
  function MaxAgeHeader(): (d: string)
    ensures d == "max-age=3600"
  {
    var digits := DecimalString(3600);
    assert DecimalString(3) == "3";
    assert DecimalString(36) == "36";
    assert DecimalString(360) == "360";
    "max-age=" + digits
  }

  /**
   * `files`: `openResult` is the outcome of opening the requested file under
   * `static/` (None when it could not be opened).  No response when it
   * failed; otherwise the file, cached with the one directive `max-age=3600`.
   */
  function Files<F>(openResult: Option<F>): (r: Option<Caching.Cached<F>>)
    ensures r.None? <==> openResult.None?
    ensures r.Some? ==> r.value.inner == openResult.value && r.value.directives == ["max-age=3600"]
  {
    var maxAgeHeader := MaxAgeHeader();
    match openResult
    case None => None
    case Some(file) => Some(Caching.Cache(file, [maxAgeHeader]))
  }

  /**
   * A static file that opened is served with `Cache-Control: max-age=3600`
   * and its other headers as the file's own response had them.
   */
  lemma FilesCacheControl<F>(file: F, h: Http.Headers)
    ensures Files(Some(file)).Some?
    ensures Caching.WithDirectives(h, Files(Some(file)).value.directives) == h[Caching.CACHE_CONTROL := "max-age=3600"]
  {
    Caching.WithDirectivesLastWins(h, ["max-age=3600"]);
  }
}
