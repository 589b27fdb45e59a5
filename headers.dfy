/**
 * The response fairing that stamps security headers on every outgoing
 * response (src/headers.rs).
 */
module SecurityHeaders {
  import opened Wrappers
  import opened Http

  /** The four fixed security headers, in the order they are set. */
  const HEADERS: seq<Header> := [
    ("x-xss-protection", "1; mode=block"),
    ("strict-transport-security", "max-age=63072000"),
    ("x-content-type-options", "nosniff"),
    ("referrer-policy", "no-referrer, strict-origin-when-cross-origin")
  ]

  const CSP: string := "content-security-policy"

  const HEADER_CSP_NORMAL: string :=
    "default-src 'self'; frame-ancestors 'self'; img-src 'self'; frame-src https://www.google.com https://www.youtube.com"

  /** SVG documents often carry inline styles, so they get a policy that allows them. */
  const HEADER_CSP_SVG: string :=
    "default-src 'self'; style-src 'self' 'unsafe-inline'; script-src 'none'"

  /** The content security policy chosen for a response of content type `ct`. */
  function CspFor(ct: Option<MediaType>): (csp: string)
    ensures csp == HEADER_CSP_SVG || csp == HEADER_CSP_NORMAL
    ensures csp == HEADER_CSP_SVG <==> IsSvg(ct)
    ensures csp == HEADER_CSP_NORMAL <==> !IsSvg(ct)
  {
    assert |HEADER_CSP_SVG| != |HEADER_CSP_NORMAL|;
    if IsSvg(ct) then HEADER_CSP_SVG else HEADER_CSP_NORMAL
  }

  /** Every header the fairing sets, in order: the fixed four, then the policy. */
  function Injections(ct: Option<MediaType>): seq<Header> {
    HEADERS + [(CSP, CspFor(ct))]
  }

  /** The names the fairing writes. */
  function InjectedNames(): set<string> {
    {"x-xss-protection", "strict-transport-security", "x-content-type-options", "referrer-policy", CSP}
  }

  /** The header table after the fairing has run on a table `h` of a response of content type `ct`. */
  function Injected(h: Headers, ct: Option<MediaType>): Headers {
    SetAll(h, Injections(ct))
  }

  /** The headers the fairing sets name exactly the five injected names. */
  lemma InjectionNames(ct: Option<MediaType>)
    ensures Names(Injections(ct)) == InjectedNames()
  {
    var ps := Injections(ct);
    assert ps[0].0 == "x-xss-protection" && ps[1].0 == "strict-transport-security";
    assert ps[2].0 == "x-content-type-options" && ps[3].0 == "referrer-policy" && ps[4].0 == CSP;
  }

  /** The fairing's table is the fixed headers' table with the policy set last. */
  lemma InjectedUnfold(h: Headers, ct: Option<MediaType>)
    ensures Injected(h, ct) == SetAll(h, HEADERS)[CSP := CspFor(ct)]
  {
    var ps := Injections(ct);
    assert ps[..|ps| - 1] == HEADERS;
  }

  /**
   * `InjectHeaders::on_response`: set each fixed header in turn, then the
   * content security policy chosen by the content type.  Status, content
   * type and body are left as they were.
   */
  method OnResponse(response: Response)
    modifies response`headers
    ensures response.headers == Injected(old(response.headers), response.contentType)
    ensures response.status == old(response.status) && response.body == old(response.body)
    ensures response.contentType == old(response.contentType)
  {
    ghost var before := response.headers;
    for i := 0 to |HEADERS|
      invariant response.headers == SetAll(before, HEADERS[..i])
    {
      var (key, value) := HEADERS[i];
      response.SetHeader(key, value);
      assert HEADERS[..i + 1][..i] == HEADERS[..i];
    }
    var csp := if IsSvg(response.contentType) then HEADER_CSP_SVG else HEADER_CSP_NORMAL;
    response.SetHeader(CSP, csp);
    InjectedAfterLoop(before, response.contentType, csp);
  }

  /** The table the loop and the final `set_header` leave is the fairing's table. */
  lemma InjectedAfterLoop(h: Headers, ct: Option<MediaType>, csp: string)
    requires csp == if IsSvg(ct) then HEADER_CSP_SVG else HEADER_CSP_NORMAL
    ensures SetAll(h, HEADERS[..|HEADERS|])[CSP := csp] == Injected(h, ct)
  {
    assert HEADERS[..|HEADERS|] == HEADERS;
    InjectedUnfold(h, ct);
  }

  /**
   * After the fairing, each fixed header holds exactly its table value and
   * the policy header holds the policy for the content type, whatever the
   * table held before.
   */
  lemma InjectedValues(h: Headers, ct: Option<MediaType>)
    ensures forall i :: 0 <= i < |HEADERS| ==> HEADERS[i].0 in Injected(h, ct) && Injected(h, ct)[HEADERS[i].0] == HEADERS[i].1
    ensures CSP in Injected(h, ct) && Injected(h, ct)[CSP] == CspFor(ct)
  {
    var ps := Injections(ct);
    assert ps[0].0 == "x-xss-protection" && ps[1].0 == "strict-transport-security";
    assert ps[2].0 == "x-content-type-options" && ps[3].0 == "referrer-policy" && ps[4].0 == CSP;
    assert "x-xss-protection"[0] == 'x' && "strict-transport-security"[0] == 's';
    assert "x-content-type-options"[2] == 'c' && "referrer-policy"[0] == 'r' && CSP[0] == 'c';
    assert |"x-content-type-options"| != |CSP|;
    forall i | 0 <= i < |HEADERS|
      ensures HEADERS[i].0 in Injected(h, ct) && Injected(h, ct)[HEADERS[i].0] == HEADERS[i].1
    {
      assert ps[i] == HEADERS[i];
      SetAllLastWins(h, ps, i);
    }
    SetAllLastWins(h, ps, 4);
  }

  /** The policy header is the SVG policy exactly when the content type is SVG. */
  lemma InjectedCspIffSvg(h: Headers, ct: Option<MediaType>)
    ensures Injected(h, ct)[CSP] == HEADER_CSP_SVG <==> IsSvg(ct)
    ensures Injected(h, ct)[CSP] == HEADER_CSP_NORMAL <==> !IsSvg(ct)
  {
    InjectedValues(h, ct);
  }

  /**
   * The fairing adds exactly its five names to the table, and headers it
   * does not name are untouched.
   */
  lemma InjectedLeavesOthers(h: Headers, ct: Option<MediaType>, name: string)
    ensures Injected(h, ct).Keys == h.Keys + InjectedNames()
    ensures name !in InjectedNames() ==> (name in Injected(h, ct) <==> name in h)
    ensures name !in InjectedNames() && name in h ==> Injected(h, ct)[name] == h[name]
  {
    InjectionNames(ct);
  }

  /** Running the fairing twice leaves the same header table as running it once. */
  lemma InjectedIdempotent(h: Headers, ct: Option<MediaType>)
    ensures Injected(Injected(h, ct), ct) == Injected(h, ct)
  {
    SetAllIdempotent(h, Injections(ct));
  }
}
