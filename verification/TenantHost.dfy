// The tenant in a host name: printed into QR links, parsed back out of the Host header.
module TenantHost {
  import opened Wrappers
  import opened Text

  predicate EndsWith(s: string, suffix: string) {
    |s| >= |suffix| && s[|s| - |suffix|..] == suffix
  }

  /** The host without its port. */
  function Hostname(host: string): (h: string)
    ensures ':' !in h
  {
    host[..IndexOf(host, ':')]
  }

  function ExtractTenantSlug(host: string, baseDomain: Option<string>): Option<string> {
    if baseDomain.None? || baseDomain.value == "" then None
    else
      var hostname, suffix := Hostname(host), "." + baseDomain.value;
      if !EndsWith(hostname, suffix) then None
      else
        var slug := hostname[..|hostname| - |suffix|];
        if '.' in slug || slug == "" then None else Some(slug)
  }

  /** Where guests are served, when no tenant domain is configured. */
  function GuestOrigin(guestUrl: Option<string>, windowOrigin: Option<string>): string {
    if guestUrl.Some? && guestUrl.value != "" then
      if EndsWith(guestUrl.value, "/") then guestUrl.value[..|guestUrl.value| - 1] else guestUrl.value
    else if windowOrigin.Some? && windowOrigin.value != "" then windowOrigin.value
    else "http://localhost:3000"
  }

  function BuildQRUrl(qrToken: string, tenantSlug: Option<string>, baseDomain: Option<string>,
                      guestUrl: Option<string>, windowOrigin: Option<string>): string {
    if baseDomain.Some? && baseDomain.value != "" && tenantSlug.Some? && tenantSlug.value != ""
    then "https://" + tenantSlug.value + "." + baseDomain.value + "/table/" + qrToken
    else GuestOrigin(guestUrl, windowOrigin) + "/table/" + qrToken
  }

  // ---------------------------------------------------------------- what is parsed

  /** The host, without its port, is a nonempty single label in front of the base domain. */
  predicate IsTenantHost(host: string, baseDomain: Option<string>, slug: string) {
    && baseDomain.Some? && baseDomain.value != ""
    && slug != "" && '.' !in slug
    && Hostname(host) == slug + "." + baseDomain.value
  }

  /** A slug is returned exactly when the host is that tenant's. */
  lemma SlugExactly(host: string, baseDomain: Option<string>, slug: string)
    ensures ExtractTenantSlug(host, baseDomain) == Some(slug) <==> IsTenantHost(host, baseDomain, slug)
  {
    if baseDomain.Some? {
      var hostname, suffix := Hostname(host), "." + baseDomain.value;
      assert slug + "." + baseDomain.value == slug + suffix;
      if hostname == slug + suffix {
        assert hostname[|slug|..] == suffix && hostname[..|slug|] == slug;
      }
      if EndsWith(hostname, suffix) {
        assert hostname == hostname[..|hostname| - |suffix|] + suffix;
      }
    }
  }

  /** The header names a tenant exactly when the request's host is that tenant's, and is left out when
      it is nobody's or the request has no Host header. */
  method Middleware(host: Option<string>, baseDomain: Option<string>) returns (headers: map<string, string>)
    ensures host.None? ==> headers == map[]
    ensures host.Some? ==> forall slug ::
      headers == map["x-tenant-slug" := slug] <==> IsTenantHost(host.value, baseDomain, slug)
    ensures host.Some? ==> (headers == map[] <==> forall slug :: !IsTenantHost(host.value, baseDomain, slug))
  {
    var name := if host.Some? then host.value else "";
    headers := map[];
    var slug := ExtractTenantSlug(name, baseDomain);
    if slug.Some? {
      headers := headers["x-tenant-slug" := slug.value];
    }
    forall other
      ensures headers == map["x-tenant-slug" := other] <==> IsTenantHost(name, baseDomain, other)
      ensures headers == map[] ==> !IsTenantHost(name, baseDomain, other)
    {
      SlugExactly(name, baseDomain, other);
      assert map["x-tenant-slug" := other]["x-tenant-slug"] == other;
    }
    if slug.Some? {
      assert headers["x-tenant-slug"] == slug.value;
      SlugExactly(name, baseDomain, slug.value);
      assert host.None? ==> Hostname(name) == "";
    }
  }

  /** Printing "slug.base", with a port or without, and parsing it gives the slug back exactly when
      neither part is empty or holds a colon and the slug holds no dot. */
  lemma HostRoundTrip(slug: string, base: string, port: Option<string>)
    ensures ExtractTenantSlug(slug + "." + base + (if port.Some? then ":" + port.value else ""), Some(base))
            == Some(slug)
      <==> slug != "" && base != "" && '.' !in slug && ':' !in slug && ':' !in base
  {
    var name := slug + "." + base;
    var host := name + if port.Some? then ":" + port.value else "";
    SlugExactly(host, Some(base), slug);
    if ':' !in slug && ':' !in base {
      assert ':' !in name;
      if port.Some? {
        assert host == name + [':'] + port.value;
        FoundAt(name, ':', port.value);
        assert host[..|name|] == name;
      } else {
        assert host == name;
        NotFound(name, ':');
      }
    } else {
      assert forall c | c in slug || c in base :: c in name;
    }
  }

  /** A base domain written with a port or any other colon never resolves a tenant. */
  lemma ColonInBaseResolvesNothing(host: string, base: string)
    requires ':' in base
    ensures ExtractTenantSlug(host, Some(base)) == None
  {
    forall slug ensures ExtractTenantSlug(host, Some(base)) != Some(slug) {
      SlugExactly(host, Some(base), slug);
      assert (slug + ".") + base == slug + "." + base;
      assert ':' in slug + "." + base;
    }
  }

  const HTTPS := "https://"

  /** The authority of an https link. */
  function HostOf(url: string): string
    requires HTTPS <= url
  {
    url[|HTTPS|..][..IndexOf(url[|HTTPS|..], '/')]
  }

  /** The link in a tenant's QR code opens a page whose host parses back to that tenant. */
  lemma QRLinkResolves(qrToken: string, slug: string, base: string, guestUrl: Option<string>,
                       windowOrigin: Option<string>)
    requires slug != "" && base != "" && '.' !in slug && ':' !in slug && ':' !in base && '/' !in slug && '/' !in base
    ensures var url := BuildQRUrl(qrToken, Some(slug), Some(base), guestUrl, windowOrigin);
      && HTTPS <= url
      && HostOf(url) == slug + "." + base
      && ExtractTenantSlug(HostOf(url), Some(base)) == Some(slug)
      && EndsWith(url, "/table/" + qrToken)
  {
    var url := BuildQRUrl(qrToken, Some(slug), Some(base), guestUrl, windowOrigin);
    var name := slug + "." + base;
    var rest := name + ['/'] + ("table/" + qrToken);
    assert url == HTTPS + rest && url[|HTTPS|..] == rest;
    assert '/' !in name;
    FoundAt(name, '/', "table/" + qrToken);
    assert rest[..|name|] == name;
    assert rest[|name|..] == "/table/" + qrToken;
    HostRoundTrip(slug, base, None);
    assert name + "" == name;
  }

  /** Without a tenant the link starts at the configured guest origin, and one slash at its end is not
      doubled. */
  lemma LinkWithoutTenant(qrToken: string, slug: Option<string>, origin: string, windowOrigin: Option<string>)
    requires origin != "" && !EndsWith(origin, "/")
    ensures BuildQRUrl(qrToken, slug, None, Some(origin), windowOrigin) == origin + "/table/" + qrToken
    ensures BuildQRUrl(qrToken, slug, None, Some(origin + "/"), windowOrigin) == origin + "/table/" + qrToken
  {
    assert (origin + "/")[..|origin|] == origin;
    assert EndsWith(origin + "/", "/");
  }

  /** Without a tenant and a configured origin the link starts where the page was served, and outside a
      browser at the local development server. */
  lemma LinkWithoutOrigin(qrToken: string, slug: Option<string>, origin: string)
    requires origin != ""
    ensures BuildQRUrl(qrToken, slug, None, None, Some(origin)) == origin + "/table/" + qrToken
    ensures BuildQRUrl(qrToken, slug, None, Some(""), Some(origin)) == origin + "/table/" + qrToken
    ensures BuildQRUrl(qrToken, slug, None, None, None) == "http://localhost:3000/table/" + qrToken
    ensures BuildQRUrl(qrToken, slug, None, Some(""), Some("")) == "http://localhost:3000/table/" + qrToken
  {
    assert "http://localhost:3000" + "/table/" == "http://localhost:3000/table/";
  }

  /** A tenant is named only under a base domain: with either missing the link is the plain one. */
  lemma BothOrNeither(qrToken: string, slug: Option<string>, base: Option<string>, guestUrl: Option<string>,
                      windowOrigin: Option<string>)
    requires slug in {None, Some("")} || base in {None, Some("")}
    ensures BuildQRUrl(qrToken, slug, base, guestUrl, windowOrigin)
            == BuildQRUrl(qrToken, None, None, guestUrl, windowOrigin)
  {}
}
