/** The cross-origin policy of the HTTP boundary (cors.ts): which origin a
    response may name in `Access-Control-Allow-Origin`, the header record every
    response carries, and the 405 refusal when no origin is allowed. The
    environment and the request's headers are plain values here. */
module Cors {
  import opened Options

  /** Request headers by lower-case name (`Headers.get` is case-insensitive). */
  type Headers = map<string, string>

  /** The environment settings cors.ts reads: `DEV` and `OFFICIAL_ORIGIN`. */
  datatype Env = Env(dev: Option<string>, officialOrigin: Option<string>)

  const DefaultOrigin: string := "https://demo.netismic.com"
  const DefaultMethods: string := "GET, POST, OPTIONS"
  const Wildcard: string := "*"

  const ContentType: string := "Content-Type"
  const AllowOrigin: string := "Access-Control-Allow-Origin"
  const AllowHeaders: string := "Access-Control-Allow-Headers"
  const AllowMethods: string := "Access-Control-Allow-Methods"

  /** `headers.get(name)`: the value, or null when the header is absent. */
  function Get(headers: Headers, name: string): (r: Option<string>)
    ensures r.Some? <==> name in headers
    ensures r.Some? ==> r.value == headers[name]
  {
    if name in headers then Some(headers[name]) else None
  }

  predicate IsDev(env: Env) {
    env.dev == Some("1")
  }

  /** The production whitelist: the configured official origin, or the demo
      origin when none is configured (`??` keeps an empty setting). */
  function Whitelist(env: Env): (w: seq<string>)
    ensures env.officialOrigin.None? ==> w == [DefaultOrigin]
    ensures env.officialOrigin.Some? ==> w == [env.officialOrigin.value]
  {
    [env.officialOrigin.GetOr(DefaultOrigin)]
  }

  /** `restrictOriginFromRequest`: in development every origin is allowed
      (`*`); otherwise the request's own `Origin` is echoed when it is present,
      non-empty and whitelisted, and no origin is allowed (null) when not. */
  function RestrictOrigin(env: Env, request: Headers): (r: Option<string>)
    ensures IsDev(env) ==> r == Some(Wildcard)
    ensures !IsDev(env) ==>
      (r.Some? <==> "origin" in request && request["origin"] != "" && request["origin"] in Whitelist(env))
    ensures !IsDev(env) && r.Some? ==> r == Get(request, "origin")
  {
    if IsDev(env) then Some(Wildcard)
    else
      var origin := Get(request, "origin");
      if origin.Some? && origin.value != "" && origin.value in Whitelist(env) then origin
      else None
  }

  /** Outside development the allowed origin is always the whitelisted one. */
  lemma ProductionAllowsOnlyWhitelist(env: Env, request: Headers)
    requires !IsDev(env)
    ensures RestrictOrigin(env, request).Some? ==>
      RestrictOrigin(env, request).value == env.officialOrigin.GetOr(DefaultOrigin)
    ensures env.officialOrigin == Some("") ==> RestrictOrigin(env, request).None?
  {
  }

  /** `makeHeaders(contentType, allowedOrigin, allowedMethods, req)`. An
      omitted `allowedMethods` takes its default; `req` may be undefined. */
  function MakeHeaders(contentType: string, allowedOrigin: Option<string>,
                       allowedMethods: Option<string>, request: Option<Headers>): (h: map<string, string>)
    ensures ContentType in h && h[ContentType] == contentType
    ensures AllowOrigin in h <==> allowedOrigin.Some?
    ensures allowedOrigin.Some? ==> h[AllowOrigin] == allowedOrigin.value
    ensures AllowHeaders in h
    ensures request.Some? && "access-control-request-headers" in request.value ==>
      h[AllowHeaders] == request.value["access-control-request-headers"]
    ensures (request.None? || "access-control-request-headers" !in request.value) ==>
      h[AllowHeaders] == Wildcard
    ensures AllowMethods in h && h[AllowMethods] == allowedMethods.GetOr(DefaultMethods)
    ensures h.Keys <= {ContentType, AllowOrigin, AllowHeaders, AllowMethods}
  {
    var requested := if request.Some? then Get(request.value, "access-control-request-headers") else None;
    var base := map[ContentType := contentType];
    var withOrigin := if allowedOrigin.Some? then base[AllowOrigin := allowedOrigin.value] else base;
    withOrigin[AllowHeaders := requested.GetOr(Wildcard)][AllowMethods := allowedMethods.GetOr(DefaultMethods)]
  }

  datatype Response = Response(body: string, status: int, headers: map<string, string>)

  /** The `string | Response` that `getCORSAllowedOriginOrResponse` returns. */
  datatype OriginOrResponse = Allowed(origin: string) | Refused(response: Response)

  /** `getCORSAllowedOriginOrResponse`: the allowed origin, or a 405 "Not
      allowed" response (whose headers allow no origin) when there is none. */
  function AllowedOriginOrResponse(env: Env, request: Headers, allowedMethods: string): (r: OriginOrResponse)
    ensures r.Refused? <==> RestrictOrigin(env, request).None?
    ensures r.Allowed? ==> RestrictOrigin(env, request) == Some(r.origin)
    ensures r.Refused? ==> r.response.status == 405 && r.response.body == "Not allowed"
    ensures r.Refused? ==> AllowOrigin !in r.response.headers
    ensures r.Refused? ==> r.response.headers == MakeHeaders("text/plain", None, Some(allowedMethods), Some(request))
  {
    match RestrictOrigin(env, request)
    case None =>
      Refused(Response("Not allowed", 405, MakeHeaders("text/plain", None, Some(allowedMethods), Some(request))))
    case Some(origin) => Allowed(origin)
  }

  /** In development no request is refused. */
  lemma DevNeverRefuses(env: Env, request: Headers, allowedMethods: string)
    requires IsDev(env)
    ensures AllowedOriginOrResponse(env, request, allowedMethods) == Allowed(Wildcard)
  {
  }
}
