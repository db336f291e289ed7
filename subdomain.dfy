/**
 * `getLandingPageUrl(slug)`: the public address of a landing page, on the
 * configured domain in production and on `localhost` in development.
 */
module Subdomain {
  import opened Wrappers
  import opened JsText
  import Middleware
  import Slug

  /** Where the code runs: on the server, or in a browser page on some port. */
  datatype Context = Server | Browser(port: string)

  /**
   * `getLandingPageUrl(slug)`. `domain` is `NEXT_PUBLIC_DOMAIN`, `""` when
   * unset (both are falsy, so both take the development branches). The
   * address is `https://` with a domain and `http://` without, followed by a
   * host made of the slug, a `.`, and the domain or the local host suffix.
   */
  function LandingPageUrl(slug: string, domain: string, ctx: Context): (url: string)
    ensures url == (if domain != [] then "https" else "http") + "://" + UrlHost(url)
    ensures UrlHost(url) == slug + "." + (if domain != [] then domain else DevelopmentSuffix(ctx))
  {
    if domain != [] then
      var url := "https://" + slug + "." + domain;
      assert url == "https" + "://" + (slug + "." + domain);
      HostAfterScheme("https", slug + "." + domain);
      url
    else
      match ctx
      case Browser(port) =>
        var p := if port != [] then ":" + port else "";
        var url := "http://" + slug + ".localhost" + p;
        assert url == "http" + "://" + (slug + "." + ("localhost" + p));
        HostAfterScheme("http", slug + "." + ("localhost" + p));
        url
      case Server =>
        var url := "http://" + slug + ".localhost:3000";
        assert url == "http" + "://" + (slug + "." + "localhost:3000");
        HostAfterScheme("http", slug + "." + "localhost:3000");
        url
  }

  /** What follows `<slug>.` in a development address. */
  function DevelopmentSuffix(ctx: Context): string {
    match ctx
    case Browser(port) => "localhost" + (if port != [] then ":" + port else "")
    case Server => "localhost:3000"
  }

  /** The authority part of a URL: what follows the first `://`. */
  function UrlHost(url: string): string {
    match IndexOf(url, "://")
    case None => url
    case Some(i) => url[i + 3..]
  }

  lemma HostAfterScheme(scheme: string, rest: string)
    requires ':' !in scheme
    ensures UrlHost(scheme + "://" + rest) == rest
  {
    var url := scheme + "://" + rest;
    assert MatchAt(url, "://", |scheme|);
    var i := IndexOf(url, "://").value;
    if i < |scheme| {
      MatchAtChar(url, "://", i, 0);
      assert false;
    }
    assert url[|scheme| + 3..] == rest;
  }

  /** With a domain configured, the page lives at `https://<slug>.<domain>`. */
  lemma ProductionUrl(slug: string, domain: string, ctx: Context)
    requires domain != []
    ensures LandingPageUrl(slug, domain, ctx) == "https://" + slug + "." + domain
    ensures UrlHost(LandingPageUrl(slug, domain, ctx)) == slug + "." + domain
  {
  }

  /** A configured domain wins over the browser context. */
  lemma DomainTakesPrecedence(slug: string, domain: string, port: string)
    requires domain != []
    ensures LandingPageUrl(slug, domain, Browser(port)) == LandingPageUrl(slug, domain, Server)
  {
  }

  /**
   * Without a domain, a browser page gets `http://<slug>.localhost`, with
   * `:<port>` only for a non-empty port; the server falls back to port 3000.
   */
  lemma DevelopmentUrls(slug: string, port: string)
    ensures port != [] ==> LandingPageUrl(slug, "", Browser(port)) == "http://" + slug + ".localhost:" + port
    ensures port == [] ==> LandingPageUrl(slug, "", Browser(port)) == "http://" + slug + ".localhost"
    ensures LandingPageUrl(slug, "", Server) == "http://" + slug + ".localhost:3000"
  {
    if port != [] {
      assert ".localhost" + (":" + port) == ".localhost:" + port;
      assert "http://" + slug + ".localhost" + (":" + port) == "http://" + slug + (".localhost:" + port);
    }
  }

  /** In every branch the slug is the first label of the URL's host. */
  lemma SlugIsFirstLabel(slug: string, domain: string, ctx: Context)
    requires '.' !in slug
    ensures Middleware.Subdomain(UrlHost(LandingPageUrl(slug, domain, ctx))) == slug
  {
    if domain != [] {
      ProductionUrl(slug, domain, ctx);
      Middleware.SubdomainOfJoin(slug, domain);
    } else {
      Middleware.SubdomainOfJoin(slug, DevelopmentSuffix(ctx));
    }
  }

  /**
   * Routing closes the loop in production: a request to the address built
   * for a slug, on any path outside `/admin` and `/api`, is rewritten to that
   * slug's landing-page route.
   */
  lemma ProductionUrlRoutesToSlug(slug: string, domain: string, ctx: Context, pathname: string)
    requires Slug.IsCanonical(slug) && slug != "www"
    requires domain != []
    requires !Contains(slug, "localhost") && !Contains(domain, "localhost")
    requires !("/admin" <= pathname) && !("/api" <= pathname)
    ensures Middleware.Route(Some(UrlHost(LandingPageUrl(slug, domain, ctx))), pathname, domain)
            == Middleware.Rewrite("/" + slug + pathname)
  {
    var host := slug + "." + domain;
    ProductionUrl(slug, domain, ctx);
    Slug.CanonicalHasNoDot(slug);
    Middleware.SubdomainOfJoin(slug, domain);
    NotContainsJoin(slug, '.', domain, "localhost");
    assert host == slug + ['.'] + domain;
    assert host != domain by { assert |host| > |domain|; }
    Middleware.RewriteIff(host, pathname, domain);
  }

  /**
   * In development the built address names `localhost`, so the middleware
   * lets the request through without rewriting it to the slug's route.
   */
  lemma DevelopmentUrlNotRewritten(slug: string, ctx: Context, pathname: string)
    ensures Middleware.Route(Some(UrlHost(LandingPageUrl(slug, "", ctx))), pathname, "") == Middleware.Next
  {
    var rest := DevelopmentSuffix(ctx);
    var tail := rest[9..];
    assert rest == "localhost" + tail;
    assert slug + "." + rest == (slug + ".") + "localhost" + tail;
    ContainsInfix(slug + ".", "localhost", tail);
    Middleware.PassThroughHosts(slug + "." + rest, pathname, "");
  }
}
