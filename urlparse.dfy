/** The part of `urllib.parse.urlparse` the normalisers look at: the scheme
    and the network location (`netloc`) of a URL string.

    The rule is the one CPython 3.11.1 and later apply in `urlsplit` (the
    first-letter test also reached the security releases 3.7.16, 3.8.16,
    3.9.16 and 3.10.9). Up to 3.8, text whose part after the first `:` was
    all digits, such as `localhost:8080`, had no scheme; since 3.9 the part
    after `:` plays no role:
    - the scheme is the text before the first `:` when that text is
      non-empty, starts with an ASCII letter and consists only of ASCII
      letters, digits, `+`, `-` and `.`; it is returned lower-cased and
      removed from the URL; otherwise the scheme is empty and nothing is
      removed;
    - the netloc is present only when what remains starts with `//`: it
      is the text after `//` up to the first `/`, `?` or `#`. */
module UrlParse {
  import opened Wrappers
  import opened Text

  datatype SplitUrl = SplitUrl(scheme: string, netloc: string)

  /** `urllib.parse.scheme_chars`. */
  predicate IsSchemeChar(c: char) {
    IsAsciiAlnum(c) || c == '+' || c == '-' || c == '.'
  }

  predicate IsNetlocDelim(c: char) {
    c == '/' || c == '?' || c == '#'
  }

  /** `s.find(c)`: the first index holding `c`, or nothing. */
  function FindChar(s: string, c: char): (r: Option<nat>)
    ensures r.Some? ==> r.value < |s| && s[r.value] == c
    ensures r.Some? ==> forall k :: 0 <= k < r.value ==> s[k] != c
    ensures r.None? ==> forall k :: 0 <= k < |s| ==> s[k] != c
  {
    if s == [] then None
    else if s[0] == c then Some(0)
    else match FindChar(s[1..], c)
      case None => None
      case Some(i) => Some(i + 1)
  }

  /** The end of the netloc that starts at `start`: the first index from
      `start` on that holds `/`, `?` or `#`, or the length of `s`. */
  function NetlocEnd(s: string, start: nat): (e: nat)
    requires start <= |s|
    ensures start <= e <= |s|
    ensures forall k :: start <= k < e ==> !IsNetlocDelim(s[k])
    ensures e < |s| ==> IsNetlocDelim(s[e])
    decreases |s| - start
  {
    if start == |s| || IsNetlocDelim(s[start]) then start else NetlocEnd(s, start + 1)
  }

  /** The scheme test of `urlsplit` on the text before the first `:`. */
  predicate IsSchemeToken(t: string) {
    |t| > 0 && IsAsciiLetter(t[0]) && forall k :: 0 <= k < |t| ==> IsSchemeChar(t[k])
  }

  /** Splits off the scheme: the lower-cased scheme and the rest of the URL. */
  function SplitScheme(url: string): (string, string) {
    match FindChar(url, ':')
    case Some(i) =>
      if IsSchemeToken(url[..i]) then (Lower(url[..i]), url[i + 1..]) else ("", url)
    case None => ("", url)
  }

  /** The netloc of what follows the scheme. */
  function Netloc(rest: string): (n: string)
    ensures forall k :: 0 <= k < |n| ==> !IsNetlocDelim(n[k])
    ensures n != "" ==> StartsWith(rest, "//")
  {
    if StartsWith(rest, "//") then rest[2..NetlocEnd(rest, 2)] else ""
  }

  /** `urlparse(url)`, reduced to its scheme and netloc. */
  function Parse(url: string): (p: SplitUrl)
    ensures p.scheme != "" ==>
      && |p.scheme| < |url| && url[|p.scheme|] == ':'
      && IsSchemeToken(url[..|p.scheme|]) && p.scheme == Lower(url[..|p.scheme|])
    ensures p.scheme != "" && p.netloc != "" ==>
      |p.scheme| + 3 <= |url| && url[|p.scheme|..|p.scheme| + 3] == "://"
    ensures forall k :: 0 <= k < |p.netloc| ==> !IsNetlocDelim(p.netloc[k])
  {
    var (scheme, rest) := SplitScheme(url);
    assert scheme != "" && Netloc(rest) != "" ==> url[|scheme|..|scheme| + 3] == "://" by {
      if scheme != "" && Netloc(rest) != "" {
        var i := FindChar(url, ':').value;
        assert |scheme| == i && rest == url[i + 1..] && StartsWith(rest, "//");
        assert url[i..i + 3] == [url[i]] + rest[..2];
      }
    }
    SplitUrl(scheme, Netloc(rest))
  }

  /** The check both normalisers make on their result: an `http` or `https`
      scheme and a non-empty netloc. */
  predicate IsHttpUrl(url: string) {
    var p := Parse(url);
    (p.scheme == "http" || p.scheme == "https") && p.netloc != ""
  }

  /** A URL that does not start with an ASCII letter has no scheme. */
  lemma NoSchemeWithoutLetter(url: string)
    requires url == [] || !IsAsciiLetter(url[0])
    ensures Parse(url).scheme == ""
  {
  }

  /** A scheme token followed by `:` is parsed as that scheme, and the
      netloc is taken from what follows the colon. */
  lemma ParseWithScheme(scheme: string, rest: string)
    requires IsSchemeToken(scheme)
    ensures Parse(scheme + ":" + rest) == SplitUrl(Lower(scheme), Netloc(rest))
  {
    var url := scheme + ":" + rest;
    assert url[|scheme|] == ':';
    forall k | 0 <= k < |scheme| ensures url[k] != ':' {
      assert url[k] == scheme[k] && IsSchemeChar(scheme[k]);
    }
    assert FindChar(url, ':') == Some(|scheme|) by {
      FindCharFirst(url, ':', |scheme|);
    }
    assert url[..|scheme|] == scheme;
    assert url[|scheme| + 1..] == rest;
  }

  /** `FindChar` returns the first occurrence. */
  lemma FindCharFirst(s: string, c: char, i: nat)
    requires i < |s| && s[i] == c
    requires forall k :: 0 <= k < i ==> s[k] != c
    ensures FindChar(s, c) == Some(i)
  {
  }

  /** The netloc of `//` followed by `host` is the part of `host` before the
      first `/`, `?` or `#`; it is non-empty exactly when `host` is non-empty
      and does not start with one of those. */
  lemma NetlocAfterSlashes(host: string)
    ensures Netloc("//" + host) == host[..NetlocEnd(host, 0)]
    ensures Netloc("//" + host) != "" <==> host != "" && !IsNetlocDelim(host[0])
  {
    var rest := "//" + host;
    NetlocEndShift(host, rest, 0);
    assert rest[2..2 + NetlocEnd(host, 0)] == host[..NetlocEnd(host, 0)];
  }

  lemma {:induction false} NetlocEndShift(host: string, rest: string, start: nat)
    requires rest == "//" + host && start <= |host|
    ensures NetlocEnd(rest, start + 2) == NetlocEnd(host, start) + 2
    decreases |host| - start
  {
    if start < |host| {
      assert rest[start + 2] == host[start];
      if !IsNetlocDelim(host[start]) {
        NetlocEndShift(host, rest, start + 1);
      }
    }
  }

  /** Prefixing `https://` yields an `https` URL whose netloc is the start of
      the original text, up to the first `/`, `?` or `#`. */
  lemma HttpsPrefix(host: string)
    ensures Parse("https://" + host) == SplitUrl("https", host[..NetlocEnd(host, 0)])
  {
    LowerSchemeLiteral("https");
    assert "https://" + host == "https" + ":" + ("//" + host);
    ParseWithScheme("https", "//" + host);
    NetlocAfterSlashes(host);
  }

  /** Text prefixed with `https://` passes the http(s) check exactly when it
      is non-empty and does not start with `/`, `?` or `#`. */
  lemma HttpsPrefixIsHttpUrl(host: string)
    ensures IsHttpUrl("https://" + host) <==> host != "" && !IsNetlocDelim(host[0])
  {
    HttpsPrefix(host);
    NetlocAfterSlashes(host);
  }

  /** A lower-case letter string is a scheme token that lower-casing keeps. */
  lemma LowerSchemeLiteral(t: string)
    requires |t| > 0 && forall k :: 0 <= k < |t| ==> IsAsciiLower(t[k])
    ensures IsSchemeToken(t) && Lower(t) == t
  {
  }
}
