/**
 * The startup asset pipeline of src/main.rs: cache-busting stylesheet URLs
 * built from a content hash.  Compiling Sass, reading and writing files
 * and the hasher itself are outside the model; their outcomes come in as
 * parameters, and a failed step, which panics in the server, becomes a
 * `Failure` carrying the panic message.
 */
module Assets {
  import opened Wrappers

  /** Rust's `u64`, what `DefaultHasher::finish` returns. */
  newtype U64 = x: int | 0 <= x < 0x1_0000_0000_0000_0000

  /** The public stylesheet URLs that every page render receives. */
  datatype CssFiles = CssFiles(app: string, fonts: string, vendor: string)
  datatype AssetFiles = AssetFiles(css: CssFiles)

  /** A stylesheet written to disk, and the URL under which it is served. */
  datatype Emitted = Emitted(url: string, path: string, contents: string)

  predicate IsDigits(s: string) {
    forall i :: 0 <= i < |s| ==> '0' <= s[i] <= '9'
  }

  function Digit(d: nat): (c: char)
    requires d < 10
    ensures '0' <= c <= '9' && c as int - '0' as int == d
  {
    "0123456789"[d]
  }

  /** Rust's `to_string` on an unsigned integer: its decimal digits. */
  function DecimalString(n: nat): (s: string)
    ensures |s| >= 1 && IsDigits(s)
  {
    if n < 10 then [Digit(n)] else DecimalString(n / 10) + [Digit(n % 10)]
  }

  /** The number a string of decimal digits denotes. */
  function DigitsValue(s: string): nat
    requires IsDigits(s)
    decreases |s|
  {
    if s == [] then 0
    else DigitsValue(s[..|s| - 1]) * 10 + (s[|s| - 1] as int - '0' as int)
  }

  /** Reading back the decimal digits gives the number: `to_string` loses nothing. */
  lemma {:induction false} DecimalStringRoundTrip(n: nat)
    ensures DigitsValue(DecimalString(n)) == n
  {
    var s := DecimalString(n);
    if n < 10 {
      assert s[..0] == [];
    } else {
      assert s[..|s| - 1] == DecimalString(n / 10);
      DecimalStringRoundTrip(n / 10);
    }
  }

  /**
   * `hash_css`: the hasher's 64-bit digest of the CSS, in decimal.  The
   * hasher is a parameter: any deterministic function of the text.
   */
  function HashCss(hash: string -> U64, css: string): (digest: string)
    ensures |digest| >= 1 && IsDigits(digest)
  {
    DecimalString(hash(css) as nat)
  }

  /** `./static/styles/<stem>.css`, the path of a stylesheet on disk. */
  function StylePath(stem: string): string {
    "./static/styles/" + stem + ".css"
  }

  /** The URL a stylesheet of the given name and digest is served under. */
  function AssetUrl(name: string, digest: string): string {
    "/static/styles/" + name + "_" + digest + ".css"
  }

  /**
   * Writing `css` under `name` and its hash: the path is
   * `./static/styles/<name>_<hash>.css` and the URL is that path without its
   * leading `.`.
   */
  function Emit(name: string, css: string, hash: string -> U64): (e: Emitted)
    ensures e.url == AssetUrl(name, HashCss(hash, css))
    ensures e.path == "." + e.url && e.contents == css
  {
    var cssSha := name + "_" + HashCss(hash, css);
    var cssFile := StylePath(cssSha);
    assert cssFile == "." + AssetUrl(name, HashCss(hash, css));
    Emitted(cssFile[1..], cssFile, css)
  }

  /** `./src/styles/<filename>.scss`, the Sass source of a stylesheet. */
  function ScssPath(filename: string): string {
    "./src/styles/" + filename + ".scss"
  }

  /**
   * `compile_sass`: `compiled` is what compiling the Sass source gave (None
   * when it failed) and `written` whether writing the CSS succeeded.
   */
  function CompileSass(filename: string, compiled: Option<string>, written: bool, hash: string -> U64): (r: Result<Emitted, string>)
    ensures compiled.None? ==> r == Failure("couldn't compile sass: " + ScssPath(filename))
    ensures compiled.Some? && !written ==>
      r == Failure("couldn't write css file: " + StylePath(filename + "_" + HashCss(hash, compiled.value)))
    ensures compiled.Some? && written ==>
      && r.Success?
      && r.value.url == AssetUrl(filename, HashCss(hash, compiled.value))
      && r.value.path == "." + r.value.url
      && r.value.contents == compiled.value
  {
    var scssFile := ScssPath(filename);
    match compiled
    case None => Failure("couldn't compile sass: " + scssFile)
    case Some(css) =>
      var cssSha := filename + "_" + HashCss(hash, css);
      var cssFile := StylePath(cssSha);
      if !written then Failure("couldn't write css file: " + cssFile)
      else
        var e := Emit(filename, css, hash);
        assert e.path == cssFile;
        Success(e)
  }

  /**
   * The vendor files' contents concatenated in list order, or None when
   * one of them cannot be read.  `read` gives a path's contents.
   */
  function VendorContents(files: seq<string>, read: string -> Option<string>): (r: Option<string>)
    ensures r.Some? <==> forall i :: 0 <= i < |files| ==> read(StylePath(files[i])).Some?
    decreases |files|
  {
    if files == [] then Some("")
    else
      var init := files[..|files| - 1];
      var last := read(StylePath(files[|files| - 1]));
      assert forall i :: 0 <= i < |init| ==> init[i] == files[i];
      match VendorContents(init, read)
      case None => None
      case Some(prefix) =>
        if last.None? then None else Some(prefix + last.value)
  }

  /** Concatenation keeps list order: the bundle of `a + b` is `a`'s followed by `b`'s. */
  lemma {:induction false} VendorContentsAppend(a: seq<string>, b: seq<string>, read: string -> Option<string>)
    requires VendorContents(a + b, read).Some?
    ensures VendorContents(a, read).Some? && VendorContents(b, read).Some?
    ensures VendorContents(a + b, read).value == VendorContents(a, read).value + VendorContents(b, read).value
    decreases |b|
  {
    var ab := a + b;
    assert forall i :: 0 <= i < |a| ==> a[i] == ab[i];
    assert forall i :: 0 <= i < |b| ==> b[i] == ab[|a| + i];
    if b == [] {
      assert ab == a;
    } else {
      var binit := b[..|b| - 1];
      assert ab[..|ab| - 1] == a + binit;
      VendorContentsAppend(a, binit, read);
    }
  }

  /** A single vendor file's bundle is exactly its contents. */
  lemma VendorContentsSingle(file: string, read: string -> Option<string>)
    ensures VendorContents([file], read) == read(StylePath(file))
  {
    assert [file][..0] == [];
    var contents := read(StylePath(file));
    if contents.Some? {
      assert "" + contents.value == contents.value;
    }
  }

  /**
   * `concat_vendor_css`: read each vendor stylesheet in order and append
   * its contents, then write the bundle under the name `vendor` and its
   * hash.  `read` gives a path's contents and `written` whether the write
   * succeeded.
   */
  method ConcatVendorCss(files: seq<string>, read: string -> Option<string>, written: bool, hash: string -> U64)
    returns (r: Result<Emitted, string>)
    ensures VendorContents(files, read).None? ==> r == Failure("couldn't read vendor css")
    ensures VendorContents(files, read).Some? && !written ==> r == Failure("couldn't write vendor css")
    ensures VendorContents(files, read).Some? && written ==>
      && r.Success?
      && r.value.url == AssetUrl("vendor", HashCss(hash, VendorContents(files, read).value))
      && r.value.path == "." + r.value.url
      && r.value.contents == VendorContents(files, read).value
  {
    var concatted := "";
    for i := 0 to |files|
      invariant VendorContents(files[..i], read) == Some(concatted)
    {
      var contents := read(StylePath(files[i]));
      if contents.None? {
        assert !read(StylePath(files[i])).Some?;
        return Failure("couldn't read vendor css");
      }
      concatted := concatted + contents.value;
      assert files[..i + 1][..i] == files[..i];
    }
    assert files[..|files|] == files;
    var cssSha := "vendor_" + HashCss(hash, concatted);
    var cssPath := StylePath(cssSha);
    if !written {
      return Failure("couldn't write vendor css");
    }
    assert cssPath == "." + AssetUrl("vendor", HashCss(hash, concatted));
    r := Success(Emitted(cssPath[1..], cssPath, concatted));
  }

  /**
   * Splits `<name>_<digits>` at its last `_`: trailing digits are the
   * digest, what precedes the `_` the name.  Without a `_` the digest is
   * empty.
   */
  function SplitDigest(s: string): (string, string)
    decreases |s|
  {
    if s == [] then ("", "")
    else
      var c := s[|s| - 1];
      if '0' <= c <= '9' then
        var (name, digest) := SplitDigest(s[..|s| - 1]);
        (name, digest + [c])
      else if c == '_' then (s[..|s| - 1], "")
      else (s, "")
  }

  /** Recovers the name and digest from a stylesheet URL, or None if it has not that shape. */
  function ParseAssetUrl(url: string): Option<(string, string)> {
    var prefix, suffix := "/static/styles/", ".css";
    if |url| < |prefix| + |suffix| || url[..|prefix|] != prefix || url[|url| - |suffix|..] != suffix then None
    else Some(SplitDigest(url[|prefix|..|url| - |suffix|]))
  }

  lemma {:induction false} SplitDigestRoundTrip(name: string, digest: string)
    requires IsDigits(digest)
    ensures SplitDigest(name + "_" + digest) == (name, digest)
    decreases |digest|
  {
    var s := name + "_" + digest;
    if digest == [] {
      assert s[..|s| - 1] == name;
    } else {
      var init := digest[..|digest| - 1];
      assert s[..|s| - 1] == name + "_" + init;
      assert init + [digest[|digest| - 1]] == digest;
      SplitDigestRoundTrip(name, init);
    }
  }

  /** A URL built from a name and a decimal digest parses back to them. */
  lemma AssetUrlRoundTrip(name: string, digest: string)
    requires IsDigits(digest)
    ensures ParseAssetUrl(AssetUrl(name, digest)) == Some((name, digest))
  {
    var url := AssetUrl(name, digest);
    assert url[..15] == "/static/styles/";
    assert url[|url| - 4..] == ".css";
    assert url[15..|url| - 4] == name + "_" + digest;
    SplitDigestRoundTrip(name, digest);
  }

  /**
   * Distinct names or distinct digests give distinct URLs, which is what
   * makes the hash a cache-buster.
   */
  lemma AssetUrlInjective(n1: string, d1: string, n2: string, d2: string)
    requires IsDigits(d1) && IsDigits(d2)
    requires AssetUrl(n1, d1) == AssetUrl(n2, d2)
    ensures n1 == n2 && d1 == d2
  {
    AssetUrlRoundTrip(n1, d1);
    AssetUrlRoundTrip(n2, d2);
  }

  /**
   * Two stylesheets compiled under the same name get the same URL exactly
   * when the hasher gives their CSS the same digest: the same CSS always
   * gives the same URL, and changed CSS with a changed digest a new one.
   */
  lemma CompileSassUrlTracksHash(filename: string, css1: string, css2: string, hash: string -> U64)
    ensures CompileSass(filename, Some(css1), true, hash).value.url == CompileSass(filename, Some(css2), true, hash).value.url
        <==> hash(css1) == hash(css2)
  {
    var d1, d2 := HashCss(hash, css1), HashCss(hash, css2);
    if AssetUrl(filename, d1) == AssetUrl(filename, d2) {
      AssetUrlInjective(filename, d1, filename, d2);
      DecimalStringRoundTrip(hash(css1) as nat);
      DecimalStringRoundTrip(hash(css2) as nat);
    }
  }
}
