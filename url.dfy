/** The URL normaliser (`ensure_url_prefix` in src/main.rs). */
module Url {

  const Http: string := "http://"
  const Https: string := "https://"

  /** `url.starts_with("http://") || url.starts_with("https://")` */
  predicate HasScheme(url: string) {
    Http <= url || Https <= url
  }

  /** Prepends `http://` unless the URL already names the http or https scheme. */
  function EnsureUrlPrefix(url: string): (r: string)
    ensures HasScheme(r)
    ensures r == url <==> HasScheme(url)
    ensures |r| >= |url| && r[|r| - |url|..] == url
    ensures r != url ==> r == Http + url
  {
    if HasScheme(url) then url else Http + url
  }

  /** Normalising twice is normalising once. */
  lemma EnsureUrlPrefixIdempotent(url: string)
    ensures EnsureUrlPrefix(EnsureUrlPrefix(url)) == EnsureUrlPrefix(url)
  {
  }

  /** A bare host gets `http://`; already-prefixed URLs are left alone. */
  lemma EnsureUrlPrefixExamples()
    ensures EnsureUrlPrefix("example.com") == "http://example.com"
    ensures EnsureUrlPrefix("https://example.com") == "https://example.com"
    ensures EnsureUrlPrefix("ftp://example.com") == "http://ftp://example.com"
  {
    assert !HasScheme("example.com") by { assert "example.com"[0] != Http[0]; }
    assert !HasScheme("ftp://example.com") by { assert "ftp://example.com"[0] != Http[0]; }
    assert Http + "example.com" == "http://example.com";
    assert Http + "ftp://example.com" == "http://ftp://example.com";
  }
}
