/** backend/config/cors.php: which request origins are echoed back in
    `Access-Control-Allow-Origin`. An origin is allowed when it is on the list,
    or, in development, when it names a local or private-network host. */
module Cors {
  import opened Common

  predicate StartsWith(s: string, prefix: string) {
    |prefix| <= |s| && s[..|prefix|] == prefix
  }

  /** The origin with the scheme `https?://` removed, if it has that scheme. */
  function AfterScheme(origin: string): (rest: Option<string>)
    ensures rest.Some? <==> StartsWith(origin, "http://") || StartsWith(origin, "https://")
  {
    if StartsWith(origin, "http://") then Some(origin[7..])
    else if StartsWith(origin, "https://") then Some(origin[8..])
    else None
  }

  /** The alternatives `localhost|127\.0\.0\.1|192\.168\.|10\.|172\.` of the pattern. */
  predicate LocalHost(rest: string) {
    StartsWith(rest, "localhost") || StartsWith(rest, "127.0.0.1") || StartsWith(rest, "192.168.")
      || StartsWith(rest, "10.") || StartsWith(rest, "172.")
  }

  const Schemes: seq<string> := ["http://", "https://"]
  const LocalHosts: seq<string> := ["localhost", "127.0.0.1", "192.168.", "10.", "172."]

  /** isDomainAllowed: only when `APP_ENV` is exactly 'development', the origin
      matches `^https?://(localhost|127\.0\.0\.1|192\.168\.|10\.|172\.)`. */
  predicate IsDomainAllowed(origin: string, appEnv: Option<string>): (allowed: bool)
    ensures allowed ==> appEnv == Some("development")
    ensures allowed ==> StartsWith(origin, "http://") || StartsWith(origin, "https://")
  {
    appEnv == Some("development") && AfterScheme(origin).Some? && LocalHost(AfterScheme(origin).value)
  }

  lemma StartsWithConcat(s: string, a: string, b: string)
    ensures StartsWith(s, a + b) <==> StartsWith(s, a) && StartsWith(s[|a|..], b)
  {
    if StartsWith(s, a) && StartsWith(s[|a|..], b) {
      assert s[..|a + b|] == s[..|a|] + s[|a|..][..|b|];
    }
    if StartsWith(s, a + b) {
      assert s[..|a|] == (a + b)[..|a|];
      assert s[|a|..][..|b|] == (a + b)[|a|..];
    }
  }

  /** An origin that starts with scheme `i` followed by host prefix `j` matches the pattern. */
  lemma PrefixMatches(origin: string, i: int, j: int)
    requires 0 <= i < |Schemes| && 0 <= j < |LocalHosts|
    requires StartsWith(origin, Schemes[i] + LocalHosts[j])
    ensures AfterScheme(origin) == Some(origin[|Schemes[i]|..])
    ensures LocalHost(origin[|Schemes[i]|..])
  {
    StartsWithConcat(origin, Schemes[i], LocalHosts[j]);
    if i == 1 {
      // "https://" rules out "http://": they differ at index 4
      assert origin[4] == 's';
    }
  }

  /** An origin that matches the pattern starts with some scheme and some host prefix. */
  lemma MatchHasPrefix(origin: string) returns (i: int, j: int)
    requires AfterScheme(origin).Some? && LocalHost(AfterScheme(origin).value)
    ensures 0 <= i < |Schemes| && 0 <= j < |LocalHosts|
    ensures StartsWith(origin, Schemes[i] + LocalHosts[j])
  {
    i := if StartsWith(origin, "http://") then 0 else 1;
    var rest := AfterScheme(origin).value;
    j := if StartsWith(rest, "localhost") then 0 else if StartsWith(rest, "127.0.0.1") then 1
      else if StartsWith(rest, "192.168.") then 2 else if StartsWith(rest, "10.") then 3 else 4;
    StartsWithConcat(origin, Schemes[i], LocalHosts[j]);
  }

  /** The pattern, read as "some scheme followed by some host prefix": the
      development rule allows exactly the origins that start with one of the two
      schemes followed by one of the five host prefixes. */
  lemma DomainAllowedMeansPrefix(origin: string, appEnv: Option<string>)
    ensures IsDomainAllowed(origin, appEnv) <==>
      appEnv == Some("development") &&
      exists i, j :: 0 <= i < |Schemes| && 0 <= j < |LocalHosts| && StartsWith(origin, Schemes[i] + LocalHosts[j])
  {
    if AfterScheme(origin).Some? && LocalHost(AfterScheme(origin).value) {
      var i, j := MatchHasPrefix(origin);
    }
    if exists i, j :: 0 <= i < |Schemes| && 0 <= j < |LocalHosts| && StartsWith(origin, Schemes[i] + LocalHosts[j]) {
      var i, j :| 0 <= i < |Schemes| && 0 <= j < |LocalHosts| && StartsWith(origin, Schemes[i] + LocalHosts[j]);
      PrefixMatches(origin, i, j);
    }
  }

  /** The response-relevant outcome of handleCors: the echoed origin, if any,
      and whether the request was a preflight answered 204 and ended. */
  datatype CorsReply = CorsReply(allowOrigin: Option<string>, preflightStatus: Option<int>)

  class CorsHandler {
    var allowedOrigins: seq<string>
    const allowedMethods: seq<string>
    const maxAge: int

    /** The default list: three localhost origins and the request's host
        (`localhost` when the request names none). */
    constructor (httpHost: Option<string>)
      ensures allowedOrigins == ["http://localhost:3000", "http://localhost", "https://localhost", httpHost.GetOr("localhost")]
      ensures allowedMethods == ["GET", "POST", "PUT", "DELETE", "OPTIONS"] && maxAge == 86400
      ensures "http://localhost:3000" in allowedOrigins
    {
      allowedOrigins := ["http://localhost:3000", "http://localhost", "https://localhost", httpHost.GetOr("localhost")];
      allowedMethods := ["GET", "POST", "PUT", "DELETE", "OPTIONS"];
      maxAge := 86400;
    }

    /** isOriginAllowed: an empty origin ("" or "0") never; otherwise a listed
        origin, or one the development rule allows. */
    predicate IsOriginAllowed(origin: string, appEnv: Option<string>)
      reads this
      // an empty origin is never allowed
      ensures !Truthy(origin) ==> !IsOriginAllowed(origin, appEnv)
      // every listed, non-empty origin is allowed
      ensures Truthy(origin) && origin in allowedOrigins ==> IsOriginAllowed(origin, appEnv)
      // outside development only the list counts
      ensures appEnv != Some("development") ==>
        (IsOriginAllowed(origin, appEnv) <==> Truthy(origin) && origin in allowedOrigins)
    {
      Truthy(origin) && (origin in allowedOrigins || IsDomainAllowed(origin, appEnv))
    }

    /** handleCors: echo an allowed origin back; answer a preflight with 204. */
    function HandleCors(origin: Option<string>, appEnv: Option<string>, verb: Method): (r: CorsReply)
      reads this
      ensures r.allowOrigin.Some? <==> IsOriginAllowed(origin.GetOr(""), appEnv)
      ensures r.allowOrigin.Some? ==> origin == r.allowOrigin
      ensures r.preflightStatus.Some? <==> verb.Options?
      ensures verb.Options? ==> r.preflightStatus == Some(204)
    {
      var o := origin.GetOr("");
      CorsReply(if IsOriginAllowed(o, appEnv) then Some(o) else None,
                if verb.Options? then Some(204) else None)
    }

    predicate NoDuplicates(s: seq<string>) {
      forall i, j :: 0 <= i < j < |s| ==> s[i] != s[j]
    }

    /** addAllowedOrigin: append `origin` unless it is listed already. The list
        only grows, a second call changes nothing, and no duplicate is created. */
    method AddAllowedOrigin(origin: string)
      modifies this
      ensures allowedOrigins == if origin in old(allowedOrigins) then old(allowedOrigins) else old(allowedOrigins) + [origin]
      ensures origin in allowedOrigins
      ensures old(allowedOrigins) <= allowedOrigins
      ensures origin in old(allowedOrigins) ==> allowedOrigins == old(allowedOrigins)
      ensures NoDuplicates(old(allowedOrigins)) ==> NoDuplicates(allowedOrigins)
    {
      if origin !in allowedOrigins {
        allowedOrigins := allowedOrigins + [origin];
      }
    }
  }

  /** In development, any origin that starts with `http://` or `https://` followed
      by one of the local host prefixes is allowed, whatever the list holds. */
  lemma DevelopmentAllowsLocal(h: CorsHandler, origin: string, i: int, j: int)
    requires 0 <= i < |Schemes| && 0 <= j < |LocalHosts|
    requires StartsWith(origin, Schemes[i] + LocalHosts[j])
    ensures h.IsOriginAllowed(origin, Some("development"))
  {
    PrefixMatches(origin, i, j);
    assert |origin| >= 7;
  }

  /** The pattern anchors only the start of the host, so in development a public
      host whose name merely begins with a local prefix is allowed too. */
  lemma DevelopmentAllowsLookalikeHosts(h: CorsHandler)
    ensures h.IsOriginAllowed("http://localhost.example.com", Some("development"))
    ensures h.IsOriginAllowed("http://10.example.com", Some("development"))
  {
    DevelopmentAllowsLocal(h, "http://localhost.example.com", 0, 0);
    DevelopmentAllowsLocal(h, "http://10.example.com", 0, 3);
  }
}
