/**
 * The slice of an HTTP response that the server touches: a status, an
 * optional content type, a body and a header table in which each name has
 * one value.  Setting a header replaces whatever that name held before,
 * which is Rocket's `Response::set_header`.
 */
module Http {
  import opened Wrappers

  /** A media type `top/sub`, as in a `Content-Type` header. */
  datatype MediaType = MediaType(top: string, sub: string)

  /** Rocket's `ContentType::SVG`. */
  const SVG: MediaType := MediaType("image", "svg+xml")

  /** ASCII lower-casing: other characters are kept as they are. */
  function Lower(s: string): (r: string)
    ensures |r| == |s|
    ensures forall i :: 0 <= i < |s| ==> !('A' <= r[i] <= 'Z')
    ensures forall i :: 0 <= i < |s| && !('A' <= s[i] <= 'Z') ==> r[i] == s[i]
  {
    seq(|s|, i requires 0 <= i < |s| => if 'A' <= s[i] <= 'Z' then (s[i] as int + 32) as char else s[i])
  }

  /**
   * Media type equality as Rocket decides it: top and sub types compared
   * without regard to ASCII case.
   */
  predicate SameMediaType(a: MediaType, b: MediaType) {
    Lower(a.top) == Lower(b.top) && Lower(a.sub) == Lower(b.sub)
  }

  /** `content_type() == Some(ContentType::SVG)`. */
  predicate IsSvg(ct: Option<MediaType>) {
    ct.Some? && SameMediaType(ct.value, SVG)
  }

  /** The SVG test ignores case: `image/SVG+XML` is SVG, `text/html` is not. */
  lemma IsSvgIgnoresCase()
    ensures IsSvg(Some(SVG)) && IsSvg(Some(MediaType("Image", "SVG+XML")))
    ensures !IsSvg(Some(MediaType("text", "html"))) && !IsSvg(None)
  {
    assert Lower("image") == "image" && Lower("Image") == "image";
    assert Lower("svg+xml") == "svg+xml" && Lower("SVG+XML") == "svg+xml";
    assert |Lower("text")| != |"image"|;
  }

  /** Header names, already normalised, mapped to their one value. */
  type Headers = map<string, string>

  /** A header as a (name, value) pair. */
  type Header = (string, string)

  /** The names that a sequence of headers mentions. */
  function Names(ps: seq<Header>): set<string> {
    set i | 0 <= i < |ps| :: ps[i].0
  }

  /**
   * The header table after `set_header` is called with each pair of `ps`,
   * first to last.
   */
  function SetAll(h: Headers, ps: seq<Header>): (r: Headers)
    ensures r.Keys == h.Keys + Names(ps)
    ensures forall n :: n in h && n !in Names(ps) ==> r[n] == h[n]
    decreases |ps|
  {
    if ps == [] then h
    else
      var last := ps[|ps| - 1];
      var r0 := SetAll(h, ps[..|ps| - 1]);
      assert Names(ps) == Names(ps[..|ps| - 1]) + {last.0} by {
        assert forall i | 0 <= i < |ps| - 1 :: ps[..|ps| - 1][i] == ps[i];
      }
      r0[last.0 := last.1]
  }

  /** The table built from `ps` alone, starting from no headers. */
  function Table(ps: seq<Header>): (t: Headers)
    ensures t.Keys == Names(ps)
  {
    SetAll(map[], ps)
  }

  /** Setting a sequence of headers overlays the table it builds on the old one. */
  lemma {:induction false} SetAllIsOverlay(h: Headers, ps: seq<Header>)
    ensures SetAll(h, ps) == h + Table(ps)
    decreases |ps|
  {
    if ps != [] {
      var init := ps[..|ps| - 1];
      var last := ps[|ps| - 1];
      SetAllIsOverlay(h, init);
      SetAllIsOverlay(map[], init);
      assert map[] + Table(init) == Table(init);
      assert (h + Table(init))[last.0 := last.1] == h + Table(init)[last.0 := last.1];
    }
  }

  /**
   * The value a name ends up with is the one its last pair sets: later
   * pairs with other names leave it alone.
   */
  lemma {:induction false} SetAllLastWins(h: Headers, ps: seq<Header>, j: nat)
    requires j < |ps|
    requires forall k :: j < k < |ps| ==> ps[k].0 != ps[j].0
    ensures ps[j].0 in SetAll(h, ps) && SetAll(h, ps)[ps[j].0] == ps[j].1
    decreases |ps|
  {
    if j < |ps| - 1 {
      var init := ps[..|ps| - 1];
      assert init[j] == ps[j];
      SetAllLastWins(h, init, j);
    }
  }

  /** Setting the same sequence of headers twice is the same as setting it once. */
  lemma SetAllIdempotent(h: Headers, ps: seq<Header>)
    ensures SetAll(SetAll(h, ps), ps) == SetAll(h, ps)
  {
    SetAllIsOverlay(h, ps);
    SetAllIsOverlay(SetAll(h, ps), ps);
    assert (h + Table(ps)) + Table(ps) == h + Table(ps);
  }

  /** A response that Rocket hands to fairings and responders to update in place. */
  class Response {
    var status: nat
    var contentType: Option<MediaType>
    var body: string
    var headers: Headers

    constructor (status: nat, contentType: Option<MediaType>, body: string, headers: Headers)
      ensures this.status == status && this.contentType == contentType
      ensures this.body == body && this.headers == headers
    {
      this.status := status;
      this.contentType := contentType;
      this.body := body;
      this.headers := headers;
    }

    /** `set_header`: the name now holds exactly this value; nothing else changes. */
    method SetHeader(name: string, value: string)
      modifies this`headers
      ensures headers == old(headers)[name := value]
    {
      headers := headers[name := value];
    }
  }
}
