/**
 * The process state of backend/app.py: the module-level `JWKS` cache that
 * `fetch_jwks` fills (lines 36-45), and the request path through
 * `auth_required` and `verify_token` (lines 47-75) in front of each endpoint
 * (`Depends(auth_required)`, lines 88, 114, 142). The methods are proved
 * against the decision functions of Auth and Handlers.
 */
module Backend {
  import opened Common
  import opened Auth
  import Handlers

  /** One running backend process, configured from its environment at start-up. */
  class Service {
    const cfg: Config
    /** CLUSTER, DOCS_BUCKET and DOCS_KEY, read from the environment at start-up. */
    const cluster: string
    const docsBucket: string
    const docsKey: string
    /** The global `JWKS`: None until a fetch succeeds. */
    var jwks: Option<Jwks>
    /** The URLs requested from the network so far, and how many of those requests failed. */
    ghost var requested: seq<string>
    ghost var failed: nat

    /**
     * Every request went to the configured JWKS URL; while the cache is empty
     * every request so far failed, and once it is filled exactly one succeeded.
     */
    ghost predicate Valid()
      reads this
    {
      && (forall k :: 0 <= k < |requested| ==> JwksUrl(cfg) == Some(requested[k]))
      && (jwks.None? ==> |requested| == failed)
      && (jwks.Some? ==> |requested| == failed + 1)
    }

    constructor (cfg: Config, cluster: string, docsBucket: string, docsKey: string)
      ensures this.cfg == cfg && this.cluster == cluster && this.docsBucket == docsBucket && this.docsKey == docsKey
      ensures jwks == None
      ensures requested == [] && failed == 0
      ensures Valid()
    {
      this.cfg := cfg;
      this.cluster := cluster;
      this.docsBucket := docsBucket;
      this.docsKey := docsKey;
      jwks := None;
      requested := [];
      failed := 0;
    }

    /**
     * fetch_jwks: request the key set only while the cache is empty and a URL is
     * configured; a failed request leaves the cache empty and is raised.
     */
    method FetchJwks(o: Oracles) returns (r: Result<Option<Jwks>, Failure>)
      requires Valid()
      modifies this
      ensures Valid()
      ensures r == FetchResult(cfg, old(jwks), o)
      ensures jwks == CacheAfterFetch(cfg, old(jwks), o)
      ensures requested == old(requested) + (if FetchesKeys(cfg, old(jwks)) then [JwksUrl(cfg).value] else [])
      ensures failed == old(failed) + (if FetchesKeys(cfg, old(jwks)) && o.fetch(JwksUrl(cfg).value).Err? then 1 else 0)
      ensures old(jwks).Some? ==> jwks == old(jwks) && requested == old(requested)
      ensures r.Err? ==> jwks == None
    {
      if jwks.None? && JwksUrl(cfg).Some? {
        var url := JwksUrl(cfg).value;
        requested := requested + [url];
        match o.fetch(url) {
          case Err(f) =>
            failed := failed + 1;
            return Err(f);
          case Ok(doc) =>
            jwks := Some(doc);
        }
      }
      r := Ok(jwks);
    }

    /**
     * verify_token: a 500 outside the try when the pool or client id is unset;
     * inside it, every failure of the fetch, the header parse, the key lookup or
     * the decode becomes a 401.
     */
    method VerifyToken(o: Oracles, token: string) returns (r: Result<Claims, HttpError>)
      requires Valid()
      modifies this
      ensures Valid()
      ensures r == Verify(cfg, old(jwks), o, token)
      ensures jwks == CacheAfterVerify(cfg, old(jwks), o)
      ensures requested == old(requested) + (if VerifyFetches(cfg, old(jwks)) then [JwksUrl(cfg).value] else [])
      ensures failed == old(failed) + (if VerifyFetches(cfg, old(jwks)) && o.fetch(JwksUrl(cfg).value).Err? then 1 else 0)
    {
      if !Configured(cfg) {
        return Err(HttpError(500, NotConfiguredDetail));
      }
      var fetched := FetchJwks(o);
      r := CheckToken(cfg.clientId.value, Issuer(cfg).value, fetched, o, token);
    }

    /**
     * auth_required: the missing-header 401 and the whitespace-only 500 come
     * before any verification, so neither touches the cache or the network.
     */
    method AuthRequired(o: Oracles, authorization: Option<string>) returns (r: Result<Claims, HttpError>)
      requires Valid()
      modifies this
      ensures Valid()
      ensures r == Authorize(cfg, old(jwks), o, authorization)
      ensures jwks == CacheAfterAuthorize(cfg, old(jwks), o, authorization)
      ensures requested == old(requested) + (if AuthorizeFetches(cfg, old(jwks), authorization) then [JwksUrl(cfg).value] else [])
      ensures failed == old(failed) +
        (if AuthorizeFetches(cfg, old(jwks), authorization) && o.fetch(JwksUrl(cfg).value).Err? then 1 else 0)
    {
      match HeaderToken(authorization) {
        case Err(e) =>
          r := Err(e);
        case Ok(token) =>
          r := VerifyToken(o, token);
      }
    }

    /** GET /api/metrics: the handler runs only for an authorized caller. */
    method MetricsEndpoint(o: Oracles, authorization: Option<string>, service: string, now: int,
                           cw: Handlers.StatisticsRequest -> Result<Handlers.StatisticsResponse, string>,
                           round2: real -> real)
      returns (r: Result<map<string, seq<real>>, HttpError>)
      requires Valid()
      modifies this
      ensures Valid()
      ensures jwks == CacheAfterAuthorize(cfg, old(jwks), o, authorization)
      ensures requested == old(requested) + (if AuthorizeFetches(cfg, old(jwks), authorization) then [JwksUrl(cfg).value] else [])
      ensures failed == old(failed) +
        (if AuthorizeFetches(cfg, old(jwks), authorization) && o.fetch(JwksUrl(cfg).value).Err? then 1 else 0)
      ensures Authorize(cfg, old(jwks), o, authorization).Err? ==> r == Err(Authorize(cfg, old(jwks), o, authorization).error)
      ensures Authorize(cfg, old(jwks), o, authorization).Ok? ==>
        (r.Ok? <==> forall k :: 0 <= k < |Handlers.MetricNames| ==>
           Handlers.Answer(cw, cluster, service, now, k).Ok?)
      ensures Authorize(cfg, old(jwks), o, authorization).Ok? && r.Ok? ==>
        && r.value.Keys == (set k | 0 <= k < |Handlers.MetricNames| :: Handlers.MetricNames[k])
        && forall k :: 0 <= k < |Handlers.MetricNames| ==>
             r.value[Handlers.MetricNames[k]]
             == Handlers.Series(Handlers.Answer(cw, cluster, service, now, k).value, round2)
      ensures Authorize(cfg, old(jwks), o, authorization).Ok? && r.Err? ==>
        exists k ::
          && 0 <= k < |Handlers.MetricNames|
          && (forall j :: 0 <= j < k ==> Handlers.Answer(cw, cluster, service, now, j).Ok?)
          && Handlers.Answer(cw, cluster, service, now, k).Err?
          && r.error == HttpError(500, "Metrics fetch failed: "
                                       + Handlers.Answer(cw, cluster, service, now, k).error)
    {
      var user := AuthRequired(o, authorization);
      if user.Err? {
        return Err(user.error);
      }
      r := Handlers.Metrics(cluster, service, now, cw, round2);
    }

    /** GET /api/logs: the handler runs only for an authorized caller. */
    method LogsEndpoint(o: Oracles, authorization: Option<string>, service: string,
                        describe: Handlers.DescribeRequest -> Result<Handlers.DescribeResponse, Handlers.AwsError>,
                        getEvents: Handlers.EventsRequest -> Result<Handlers.EventsResponse, Handlers.AwsError>)
      returns (r: Result<seq<string>, HttpError>)
      requires Valid()
      modifies this
      ensures Valid()
      ensures jwks == CacheAfterAuthorize(cfg, old(jwks), o, authorization)
      ensures requested == old(requested) + (if AuthorizeFetches(cfg, old(jwks), authorization) then [JwksUrl(cfg).value] else [])
      ensures failed == old(failed) +
        (if AuthorizeFetches(cfg, old(jwks), authorization) && o.fetch(JwksUrl(cfg).value).Err? then 1 else 0)
      ensures r == match Authorize(cfg, old(jwks), o, authorization)
        case Err(e) => Err(e)
        case Ok(_) => Handlers.GetLogs(service, describe, getEvents)
    {
      var user := AuthRequired(o, authorization);
      if user.Err? {
        return Err(user.error);
      }
      r := Handlers.GetLogs(service, describe, getEvents);
    }

    /** GET /api/docs/{path}: the handler runs only for an authorized caller. */
    method DocsEndpoint(o: Oracles, authorization: Option<string>, path: string,
                        s3: Handlers.GetObjectRequest -> Result<seq<byte>, Handlers.AwsError>,
                        utf8: seq<byte> -> Result<string, string>)
      returns (r: Result<string, HttpError>)
      requires Valid()
      modifies this
      ensures Valid()
      ensures jwks == CacheAfterAuthorize(cfg, old(jwks), o, authorization)
      ensures requested == old(requested) + (if AuthorizeFetches(cfg, old(jwks), authorization) then [JwksUrl(cfg).value] else [])
      ensures failed == old(failed) +
        (if AuthorizeFetches(cfg, old(jwks), authorization) && o.fetch(JwksUrl(cfg).value).Err? then 1 else 0)
      ensures r == match Authorize(cfg, old(jwks), o, authorization)
        case Err(e) => Err(e)
        case Ok(_) => Handlers.GetDocs(path, docsBucket, docsKey, s3, utf8)
    {
      var user := AuthRequired(o, authorization);
      if user.Err? {
        return Err(user.error);
      }
      r := Handlers.GetDocs(path, docsBucket, docsKey, s3, utf8);
    }
  }
}
