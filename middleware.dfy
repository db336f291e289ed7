/**
 * Host-based routing. A request for `<sub>.<domain><path>` is rewritten to
 * the landing-page route `/<sub><path>`; the main domain, `www`, local
 * development hosts, hosts without a subdomain, and the admin and API paths
 * pass through untouched.
 */
module Middleware {
  import opened Wrappers
  import opened JsText

  /** What the middleware answers: carry on, or serve another path. */
  datatype Outcome = Next | Rewrite(pathname: string)

  /**
   * `hostname.split(".")[0]`: the text before the first `.`, or the whole
   * host when it has none.
   */
  function Subdomain(host: string): (sub: string)
    ensures sub <= host
    ensures '.' !in sub
    ensures sub == host || host[|sub|] == '.'
  {
    if host == [] || host[0] == '.' then [] else [host[0]] + Subdomain(host[1..])
  }

  /** `request.headers.get("host") || ""`. */
  function HostName(header: Option<string>): string {
    header.GetOr("")
  }

  /** The host-based tests that let a request through. */
  predicate HostPassesThrough(host: string, domain: string) {
    Contains(host, "localhost") || host == domain || Subdomain(host) == "www" || Subdomain(host) == host
  }

  /** The path-based test: a plain prefix test, so `/administrator` matches too. */
  predicate PathPassesThrough(pathname: string) {
    "/admin" <= pathname || "/api" <= pathname
  }

  /**
   * `middleware(request)`. `domain` is `NEXT_PUBLIC_DOMAIN`, with `""` for an
   * unset variable: an empty host has no `.` and passes through either way.
   * Only a request with a dotted host, other than the domain itself, `www`
   * and local hosts, on a path outside `/admin` and `/api`, is rewritten, and
   * then to a path that starts with `/<subdomain>` and ends with the
   * original path.
   */
  function Route(hostHeader: Option<string>, pathname: string, domain: string): (out: Outcome)
    ensures hostHeader.None? ==> out == Next
    ensures out.Rewrite? ==>
      var host := hostHeader.value;
      && '.' in host && host != domain && !Contains(host, "localhost") && Subdomain(host) != "www"
      && !("/admin" <= pathname) && !("/api" <= pathname)
      && "/" + Subdomain(host) <= out.pathname
      && |out.pathname| >= |pathname| && out.pathname[|out.pathname| - |pathname|..] == pathname
  {
    var host := HostName(hostHeader);
    SubdomainWholeIffNoDot(host);
    if HostPassesThrough(host, domain) then Next
    else if PathPassesThrough(pathname) then Next
    else
      var p := "/" + Subdomain(host) + pathname;
      assert p[|p| - |pathname|..] == pathname;
      Rewrite(p)
  }

  // ---------------------------------------------------------------------------
  // Properties
  // ---------------------------------------------------------------------------

  /** The subdomain is the whole host exactly when the host holds no `.`. */
  lemma SubdomainWholeIffNoDot(host: string)
    ensures Subdomain(host) == host <==> '.' !in host
  {
    var sub := Subdomain(host);
    if sub != host {
      assert host[|sub|] == '.';
    }
  }

  /** The label before the first `.` is the subdomain of the joined host. */
  lemma SubdomainOfJoin(first: string, rest: string)
    requires '.' !in first
    ensures Subdomain(first + "." + rest) == first
  {
    var host := first + "." + rest;
    var sub := Subdomain(host);
    assert host[|first|] == '.';
    assert sub == host[..|sub|] == first;
  }

  /** A request without a Host header passes through. */
  lemma MissingHostPassesThrough(pathname: string, domain: string)
    ensures Route(None, pathname, domain) == Next
  {
    SubdomainWholeIffNoDot("");
  }

  /**
   * The request passes through when the host mentions `localhost`, is the
   * configured domain, has subdomain `www`, or has no `.` at all.
   */
  lemma PassThroughHosts(host: string, pathname: string, domain: string)
    requires Contains(host, "localhost") || host == domain || Subdomain(host) == "www" || '.' !in host
    ensures Route(Some(host), pathname, domain) == Next
  {
    SubdomainWholeIffNoDot(host);
  }

  /** Admin and API paths pass through whatever the host. */
  lemma PassThroughPaths(hostHeader: Option<string>, pathname: string, domain: string)
    requires "/admin" <= pathname || "/api" <= pathname
    ensures Route(hostHeader, pathname, domain) == Next
  {
  }

  /** The prefix test also lets `/administrator` through. */
  lemma AdministratorPassesThrough(host: string, domain: string)
    ensures Route(Some(host), "/administrator", domain) == Next
  {
    assert "/admin" <= "/administrator";
  }

  /**
   * A request is rewritten exactly when no pass-through condition holds, and
   * then to `/` + subdomain + the original path: the new path starts with
   * `/<subdomain>` and ends with the original path.
   */
  lemma RewriteIff(host: string, pathname: string, domain: string)
    ensures Route(Some(host), pathname, domain).Rewrite? <==>
      !Contains(host, "localhost") && host != domain && Subdomain(host) != "www" && '.' in host
      && !("/admin" <= pathname) && !("/api" <= pathname)
    ensures Route(Some(host), pathname, domain).Rewrite? ==>
      var p := Route(Some(host), pathname, domain).pathname;
      p == "/" + Subdomain(host) + pathname
      && "/" + Subdomain(host) <= p
      && p[|p| - |pathname|..] == pathname
  {
    SubdomainWholeIffNoDot(host);
    var r := Route(Some(host), pathname, domain);
    if r.Rewrite? {
      var p := r.pathname;
      assert p[|p| - |pathname|..] == pathname;
    }
  }
}
