/**
 * The share-link dispatcher: from a platform name to the URL of the share
 * window, built from the page URL and title after `encodeURIComponent`.
 * The encoder is a parameter `enc`, left uninterpreted; `None` stands for
 * "no window is opened".
 */
module Share {
  import opened Wrappers
  import opened Strings

  /** The platforms that have a URL template. */
  const Platforms: set<string> := {"facebook", "twitter", "whatsapp", "linkedin", "telegram"}

  /**
   * `SocialShare.share`: the URL handed to `window.open`, or `None` for a
   * platform without a template. The description (the page's description
   * meta tag, absent or present) is encoded but used by no template.
   */
  function ShareUrl(platform: string, href: string, title: string,
                    description: Option<string>, enc: string -> string): (r: Option<string>)
    ensures r.Some? <==> platform in Platforms
  {
    var url := enc(href);
    var encTitle := enc(title);
    var text := enc(if description.Some? then description.value else "");
    match platform
    case "facebook" => Some("https://www.facebook.com/sharer/sharer.php?u=" + url)
    case "twitter" => Some("https://twitter.com/intent/tweet?url=" + url + "&text=" + encTitle)
    case "whatsapp" => Some("https://wa.me/?text=" + encTitle + "%20" + url)
    case "linkedin" => Some("https://www.linkedin.com/sharing/share-offsite/?url=" + url)
    case "telegram" => Some("https://t.me/share/url?url=" + url + "&text=" + encTitle)
    case _ => None
  }

  // ---------------------------------------------------------------------
  // Reading a share URL back: the part before '?', and the query split
  // into '&'-separated `name=value` parameters.

  /** The characters `encodeURIComponent` may emit: uriUnescaped of ECMA-262 (letters, digits and uriMark) and '%'. */
  predicate EncodedChar(c: char)
  {
    ('A' <= c <= 'Z') || ('a' <= c <= 'z') || ('0' <= c <= '9') ||
    c in "-_.!~*'()%"
  }

  /** A string as `encodeURIComponent` returns it. */
  predicate IsEncoded(s: string)
  {
    forall k :: 0 <= k < |s| ==> EncodedChar(s[k])
  }

  /** The URL without its query. */
  function EndpointOf(u: string): (e: string)
    ensures '?' !in e
  {
    if '?' in u then u[..IndexOf(u, '?')] else u
  }

  /** The query of a URL: what follows its first '?'. */
  function QueryOf(u: string): string
  {
    if '?' in u then u[IndexOf(u, '?') + 1..] else ""
  }

  /** One query parameter, split at its first '='. */
  function ParamOf(part: string): (string, string)
  {
    if '=' in part then
      var i := IndexOf(part, '=');
      (part[..i], part[i + 1..])
    else (part, "")
  }

  /** The query parameters of a URL, in order. */
  function ParamsOf(u: string): (ps: seq<(string, string)>)
    ensures |ps| >= 1
  {
    var parts := Split(QueryOf(u), '&');
    seq(|parts|, k requires 0 <= k < |parts| => ParamOf(parts[k]))
  }

  /** The endpoint each template opens. */
  function Endpoint(platform: string): string
  {
    match platform
    case "facebook" => "https://www.facebook.com/sharer/sharer.php"
    case "twitter" => "https://twitter.com/intent/tweet"
    case "whatsapp" => "https://wa.me/"
    case "linkedin" => "https://www.linkedin.com/sharing/share-offsite/"
    case "telegram" => "https://t.me/share/url"
    case _ => ""
  }

  /**
   * The parameters each template means to pass, with `url` and `title`
   * already encoded. Facebook and LinkedIn pass only the page URL;
   * WhatsApp passes one text made of the title, an encoded space and the URL.
   */
  function IntendedParams(platform: string, url: string, title: string): seq<(string, string)>
  {
    match platform
    case "facebook" => [("u", url)]
    case "twitter" => [("url", url), ("text", title)]
    case "whatsapp" => [("text", title + "%20" + url)]
    case "linkedin" => [("url", url)]
    case "telegram" => [("url", url), ("text", title)]
    case _ => []
  }

  lemma EncodedHasNoDelimiter(s: string)
    requires IsEncoded(s)
    ensures '?' !in s && '&' !in s && '=' !in s
  {
  }

  /** A URL `e?q` reads back as endpoint `e` and query `q`. */
  lemma ReadUrl(e: string, q: string)
    requires '?' !in e
    ensures EndpointOf(e + "?" + q) == e && QueryOf(e + "?" + q) == q
  {
    IndexOfAfter(e, '?', q);
    var u := e + "?" + q;
    assert u[..|e|] == e;
    assert u[|e| + 1..] == q;
  }

  /** A parameter `n=v` whose name has no '=' reads back as `(n, v)`. */
  lemma ReadParam(n: string, v: string)
    requires '=' !in n
    ensures ParamOf(n + "=" + v) == (n, v)
  {
    IndexOfAfter(n, '=', v);
    var p := n + "=" + v;
    assert p[..|n|] == n;
    assert p[|n| + 1..] == v;
  }

  /** A URL `e?n=v` whose parts hold no delimiters reads back as endpoint `e` and the parameter `(n, v)`. */
  lemma ReadOneParam(e: string, n: string, v: string)
    requires '?' !in e && '=' !in n && '&' !in n && '&' !in v
    ensures EndpointOf(e + "?" + (n + "=" + v)) == e
    ensures ParamsOf(e + "?" + (n + "=" + v)) == [(n, v)]
  {
    var q := n + "=" + v;
    ReadUrl(e, q);
    SplitNone(q, '&');
    ReadParam(n, v);
  }

  /** A URL `e?n1=v1&n2=v2` whose parts hold no delimiters reads back as `e` and the two parameters. */
  lemma ReadTwoParams(e: string, n1: string, v1: string, n2: string, v2: string)
    requires '?' !in e && '=' !in n1 && '=' !in n2
    requires '&' !in n1 && '&' !in v1 && '&' !in n2 && '&' !in v2
    ensures EndpointOf(e + "?" + (n1 + "=" + v1 + "&" + (n2 + "=" + v2))) == e
    ensures ParamsOf(e + "?" + (n1 + "=" + v1 + "&" + (n2 + "=" + v2))) == [(n1, v1), (n2, v2)]
  {
    var p1, p2 := n1 + "=" + v1, n2 + "=" + v2;
    ReadUrl(e, p1 + "&" + p2);
    SplitAfter(p1, '&', p2);
    SplitNone(p2, '&');
    ReadParam(n1, v1);
    ReadParam(n2, v2);
  }

  /** A one-parameter template is the endpoint, '?', and the parameter. */
  lemma OneParamShape(prefix: string, e: string, n: string, v: string)
    requires prefix == e + "?" + n + "="
    ensures prefix + v == e + "?" + (n + "=" + v)
  {
  }

  /** A two-parameter template is the endpoint, '?', and the two parameters joined by '&'. */
  lemma TwoParamShape(prefix: string, e: string, n1: string, v1: string, mid: string, n2: string, v2: string)
    requires prefix == e + "?" + n1 + "=" && mid == "&" + n2 + "="
    ensures prefix + v1 + mid + v2 == e + "?" + (n1 + "=" + v1 + "&" + (n2 + "=" + v2))
  {
    var p1, p2 := n1 + "=" + v1, n2 + "=" + v2;
    assert prefix + v1 == e + "?" + p1;
    assert mid + v2 == "&" + p2;
    assert prefix + v1 + mid + v2 == (e + "?" + p1) + ("&" + p2);
  }

  /** A string none of whose characters is `c` does not contain `c`. */
  lemma Lacks(s: string, c: char)
    requires forall k :: 0 <= k < |s| ==> s[k] != c
    ensures c !in s
  {
  }

  // The two long endpoints are taken apart in lemmas of their own, which keeps
  // the literal reasoning away from the rest.

  lemma FacebookEndpointPlain()
    ensures '?' !in Endpoint("facebook")
  {
    var a, b := "https://www.facebook.com/", "sharer/sharer.php";
    Lacks(a, '?');
    Lacks(b, '?');
    assert Endpoint("facebook") == a + b;
  }

  lemma LinkedInEndpointPlain()
    ensures '?' !in Endpoint("linkedin")
  {
    var a, b := "https://www.linkedin.com/", "sharing/share-offsite/";
    Lacks(a, '?');
    Lacks(b, '?');
    assert Endpoint("linkedin") == a + b;
  }

  // One lemma per template; each only has to take its literal apart.

  lemma FacebookReadsBack(url: string)
    requires IsEncoded(url)
    ensures var u := "https://www.facebook.com/sharer/sharer.php?u=" + url;
            EndpointOf(u) == Endpoint("facebook") && ParamsOf(u) == [("u", url)]
  {
    var e := Endpoint("facebook");
    FacebookEndpointPlain();
    EncodedHasNoDelimiter(url);
    OneParamShape("https://www.facebook.com/sharer/sharer.php?u=", e, "u", url);
    ReadOneParam(e, "u", url);
  }

  lemma TwitterReadsBack(url: string, title: string)
    requires IsEncoded(url) && IsEncoded(title)
    ensures var u := "https://twitter.com/intent/tweet?url=" + url + "&text=" + title;
            EndpointOf(u) == Endpoint("twitter") && ParamsOf(u) == [("url", url), ("text", title)]
  {
    var e := Endpoint("twitter");
    assert '?' !in e;
    EncodedHasNoDelimiter(url);
    EncodedHasNoDelimiter(title);
    TwoParamShape("https://twitter.com/intent/tweet?url=", e, "url", url, "&text=", "text", title);
    ReadTwoParams(e, "url", url, "text", title);
  }

  lemma WhatsAppReadsBack(url: string, title: string)
    requires IsEncoded(url) && IsEncoded(title)
    ensures var u := "https://wa.me/?text=" + title + "%20" + url;
            EndpointOf(u) == Endpoint("whatsapp") && ParamsOf(u) == [("text", title + "%20" + url)]
  {
    var e := Endpoint("whatsapp");
    assert '?' !in e;
    EncodedHasNoDelimiter(url);
    EncodedHasNoDelimiter(title);
    var v := title + "%20" + url;
    assert '&' !in v by {
      assert '&' !in "%20";
    }
    assert "https://wa.me/?text=" + title + "%20" + url == "https://wa.me/?text=" + v;
    OneParamShape("https://wa.me/?text=", e, "text", v);
    ReadOneParam(e, "text", v);
  }

  lemma LinkedInReadsBack(url: string)
    requires IsEncoded(url)
    ensures var u := "https://www.linkedin.com/sharing/share-offsite/?url=" + url;
            EndpointOf(u) == Endpoint("linkedin") && ParamsOf(u) == [("url", url)]
  {
    var e := Endpoint("linkedin");
    LinkedInEndpointPlain();
    EncodedHasNoDelimiter(url);
    OneParamShape("https://www.linkedin.com/sharing/share-offsite/?url=", e, "url", url);
    ReadOneParam(e, "url", url);
  }

  lemma TelegramReadsBack(url: string, title: string)
    requires IsEncoded(url) && IsEncoded(title)
    ensures var u := "https://t.me/share/url?url=" + url + "&text=" + title;
            EndpointOf(u) == Endpoint("telegram") && ParamsOf(u) == [("url", url), ("text", title)]
  {
    var e := Endpoint("telegram");
    assert '?' !in e;
    EncodedHasNoDelimiter(url);
    EncodedHasNoDelimiter(title);
    TwoParamShape("https://t.me/share/url?url=", e, "url", url, "&text=", "text", title);
    ReadTwoParams(e, "url", url, "text", title);
  }

  /**
   * Every share URL is its platform's endpoint followed by exactly the
   * intended parameters: the encoded page URL and title land, unchanged, in
   * the parameters the template names, provided the encoder emits only the
   * characters `encodeURIComponent` emits.
   */
  lemma ShareUrlReadsBack(platform: string, href: string, title: string,
                          description: Option<string>, enc: string -> string)
    requires platform in Platforms
    requires IsEncoded(enc(href)) && IsEncoded(enc(title))
    ensures ShareUrl(platform, href, title, description, enc).Some?
    ensures var u := ShareUrl(platform, href, title, description, enc).value;
            EndpointOf(u) == Endpoint(platform) &&
            ParamsOf(u) == IntendedParams(platform, enc(href), enc(title))
  {
    match platform
    case "facebook" => FacebookReadsBack(enc(href));
    case "twitter" => TwitterReadsBack(enc(href), enc(title));
    case "whatsapp" => WhatsAppReadsBack(enc(href), enc(title));
    case "linkedin" => LinkedInReadsBack(enc(href));
    case "telegram" => TelegramReadsBack(enc(href), enc(title));
  }

  /** The description never reaches a share URL. */
  lemma ShareIgnoresDescription(platform: string, href: string, title: string,
                                d1: Option<string>, d2: Option<string>, enc: string -> string)
    ensures ShareUrl(platform, href, title, d1, enc) == ShareUrl(platform, href, title, d2, enc)
  {
  }
}
