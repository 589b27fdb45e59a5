/**
 * The cache decorator (src/caching.rs): a responder paired with
 * `Cache-Control` directives that are set on its response.
 */
module Caching {
  import opened Wrappers
  import opened Http

  /** `Cache-Control`, in the lower-case form every header name takes here. */
  const CACHE_CONTROL: string := "cache-control"

  /** `Cached<R>`: the wrapped responder and the directives, in order. */
  datatype Cached<R> = Cached(inner: R, directives: seq<string>)

  /** The status a failing responder reports. */
  datatype Status = Status(code: nat)

  /** What a responder yields once asked: a response, or a failure status. */
  type Outcome = Result<Response, Status>

  /** `Caching::cached`: pair a responder with its directives. */
  function Cache<R>(inner: R, directives: seq<string>): (c: Cached<R>)
    ensures c.inner == inner
    ensures |c.directives| == |directives|
    ensures forall i :: 0 <= i < |directives| ==> c.directives[i] == directives[i]
  {
    Cached(inner, directives)
  }

  /** One `Cache-Control` header per directive, in the directives' order. */
  function DirectiveHeaders(directives: seq<string>): (ps: seq<Header>)
    ensures |ps| == |directives|
    ensures Names(ps) == if directives == [] then {} else {CACHE_CONTROL}
  {
    var ps := seq(|directives|, i requires 0 <= i < |directives| => (CACHE_CONTROL, directives[i]));
    assert directives != [] ==> ps[0].0 == CACHE_CONTROL;
    ps
  }

  /** The header table after `set_header` was called with each directive in turn. */
  function WithDirectives(h: Headers, directives: seq<string>): Headers {
    SetAll(h, DirectiveHeaders(directives))
  }

  /**
   * Since `set_header` replaces, only the last directive survives: with no
   * directives the table is the inner one exactly, and otherwise it is the
   * inner one with `Cache-Control` set to the last directive.
   */
  lemma WithDirectivesLastWins(h: Headers, directives: seq<string>)
    ensures directives == [] ==> WithDirectives(h, directives) == h
    ensures directives != [] ==> WithDirectives(h, directives) == h[CACHE_CONTROL := directives[|directives| - 1]]
  {
    var ps := DirectiveHeaders(directives);
    var r := WithDirectives(h, directives);
    if directives != [] {
      var last := |directives| - 1;
      SetAllLastWins(h, ps, last);
      assert r == h[CACHE_CONTROL := directives[last]];
    } else {
      assert ps == [];
    }
  }

  /**
   * Directives are applied in list order: once the first `k + 1` have been
   * set, `Cache-Control` holds the `k`-th.
   */
  lemma WithDirectivesInOrder(h: Headers, directives: seq<string>, k: nat)
    requires k < |directives|
    ensures CACHE_CONTROL in WithDirectives(h, directives[..k + 1])
    ensures WithDirectives(h, directives[..k + 1])[CACHE_CONTROL] == directives[k]
  {
    WithDirectivesLastWins(h, directives[..k + 1]);
  }

  /**
   * `Cached::respond_to`: a failing inner responder's status is passed
   * through and no directive is applied; otherwise each directive is set on
   * the inner response in turn, and only its headers change.
   */
  method RespondTo(c: Cached<Outcome>) returns (r: Outcome)
    modifies if c.inner.Success? then {c.inner.value} else {}
    ensures r == c.inner
    ensures r.Success? ==> r.value.headers == WithDirectives(old(r.value.headers), c.directives)
    ensures r.Success? ==> unchanged(r.value`status, r.value`contentType, r.value`body)
  {
    match c.inner
    case Failure(status) =>
      r := Failure(status);
    case Success(res) =>
      var ps := DirectiveHeaders(c.directives);
      for i := 0 to |c.directives|
        invariant res.headers == SetAll(old(res.headers), ps[..i])
        invariant unchanged(res`status, res`contentType, res`body)
        invariant 0 < i ==> CACHE_CONTROL in res.headers && res.headers[CACHE_CONTROL] == c.directives[i - 1]
      {
        res.SetHeader(CACHE_CONTROL, c.directives[i]);
        assert ps[..i + 1][..i] == ps[..i];
      }
      assert ps[..|c.directives|] == ps;
      r := Success(res);
  }
}
