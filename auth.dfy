/**
 * The bearer-token gate of the backend (backend/app.py:20-75), as functions of
 * the configuration, the key-set cache and the outside world: `fetch_jwks`,
 * `verify_token` and `auth_required` decide, for an Authorization header, either
 * the token's claims or the HTTP error that ends the request. The cache itself,
 * a mutable global in the source, is the field of Backend.Service; this module
 * holds what its methods are proved against.
 */
module Auth {
  import opened Common

  // ---------------------------------------------------------------------------
  // Configuration (backend/app.py:21-28)
  // ---------------------------------------------------------------------------

  /** The environment read at start-up; an unset variable is None. */
  datatype Config = Config(region: string, poolId: Option<string>, clientId: Option<string>)

  /** Python truthiness of an os.getenv result: set and not empty. */
  predicate IsSet(v: Option<string>)
  {
    v.Some? && v.value != ""
  }

  /** The check at the top of verify_token. */
  predicate Configured(cfg: Config)
  {
    IsSet(cfg.poolId) && IsSet(cfg.clientId)
  }

  const IssuerScheme := "https://cognito-idp."
  const IssuerDomain := ".amazonaws.com/"
  const JwksPath := "/.well-known/jwks.json"

  /** COGNITO_ISSUER: the user pool's issuer URL, None when no pool id is set. */
  function Issuer(cfg: Config): (r: Option<string>)
    ensures r.Some? <==> IsSet(cfg.poolId)
  {
    if IsSet(cfg.poolId) then Some(IssuerScheme + cfg.region + IssuerDomain + cfg.poolId.value) else None
  }

  /** JWKS_URL: where the pool publishes its signing keys, None when no pool id is set. */
  function JwksUrl(cfg: Config): (r: Option<string>)
    ensures r.Some? <==> IsSet(cfg.poolId)
  {
    if IsSet(cfg.poolId) then Some(Issuer(cfg).value + JwksPath) else None
  }

  /** Reads the pool id back from an issuer URL of the given region. */
  function PoolIdOf(region: string, issuer: string): Option<string>
  {
    var prefix := IssuerScheme + region + IssuerDomain;
    if |prefix| < |issuer| && issuer[..|prefix|] == prefix then Some(issuer[|prefix|..]) else None
  }

  /** Reads the issuer back from a JWKS URL. */
  function IssuerOfJwksUrl(url: string): Option<string>
  {
    if |JwksPath| <= |url| && url[|url| - |JwksPath|..] == JwksPath then Some(url[..|url| - |JwksPath|]) else None
  }

  /**
   * The issuer names the pool: its pool id can be read back from it, and the JWKS
   * URL is the issuer with the well-known path appended.
   */
  lemma IssuerAndJwksUrlDetermineThePool(cfg: Config)
    requires IsSet(cfg.poolId)
    ensures PoolIdOf(cfg.region, Issuer(cfg).value) == cfg.poolId
    ensures IssuerOfJwksUrl(JwksUrl(cfg).value) == Issuer(cfg)
  {
    var prefix := IssuerScheme + cfg.region + IssuerDomain;
    var iss := Issuer(cfg).value;
    assert iss == prefix + cfg.poolId.value;
    assert iss[..|prefix|] == prefix;
    assert iss[|prefix|..] == cfg.poolId.value;
    var url := JwksUrl(cfg).value;
    assert url == iss + JwksPath;
    assert url[|url| - |JwksPath|..] == JwksPath;
    assert url[..|url| - |JwksPath|] == iss;
  }

  /** Two pools of one region never share an issuer, so a token of one pool is never taken for the other's. */
  lemma IssuerIsInjective(a: Config, b: Config)
    requires IsSet(a.poolId) && IsSet(b.poolId) && a.region == b.region
    requires Issuer(a) == Issuer(b)
    ensures a.poolId == b.poolId
  {
    IssuerAndJwksUrlDetermineThePool(a);
    IssuerAndJwksUrlDetermineThePool(b);
  }

  // ---------------------------------------------------------------------------
  // The Authorization header (backend/app.py:71-75)
  // ---------------------------------------------------------------------------

  /** Python's str.isspace for one character. */
  predicate IsSpace(c: char)
  {
    c == ' ' || ('\t' <= c <= '\r') || ('\U{1c}' <= c <= '\U{1f}') || c == '\U{85}' || c == '\U{a0}'
    || c == '\U{1680}' || ('\U{2000}' <= c <= '\U{200a}') || c == '\U{2028}' || c == '\U{2029}'
    || c == '\U{202f}' || c == '\U{205f}' || c == '\U{3000}'
  }

  predicate AllSpace(s: string)
  {
    forall i :: 0 <= i < |s| ==> IsSpace(s[i])
  }

  predicate NoSpace(s: string)
  {
    forall i :: 0 <= i < |s| ==> !IsSpace(s[i])
  }

  /** The length of the run of non-space characters at the start of s. */
  function RunLength(s: string): (n: nat)
    ensures n <= |s| && NoSpace(s[..n])
    ensures n < |s| ==> IsSpace(s[n])
  {
    if s == [] || IsSpace(s[0]) then 0
    else
      var n := 1 + RunLength(s[1..]);
      assert s[..n] == [s[0]] + s[1..][..n - 1];
      n
  }

  /** Python's `s.split()`: the maximal runs of non-space characters, left to right. */
  function Words(s: string): (ws: seq<string>)
    ensures forall k :: 0 <= k < |ws| ==> ws[k] != [] && NoSpace(ws[k])
    decreases |s|
  {
    if s == [] then []
    else if IsSpace(s[0]) then Words(s[1..])
    else
      var n := RunLength(s);
      [s[..n]] + Words(s[n..])
  }

  /** s without its trailing whitespace (Python's rstrip()). */
  function TrimEnd(s: string): (r: string)
    ensures r <= s && AllSpace(s[|r|..])
    ensures r == [] || !IsSpace(r[|r| - 1])
    decreases |s|
  {
    if s != [] && IsSpace(s[|s| - 1]) then
      var r := TrimEnd(s[..|s| - 1]);
      assert s[|r|..] == s[..|s| - 1][|r|..] + [s[|s| - 1]];
      r
    else s
  }

  /** The number of non-space characters at the end of s. */
  function TrailingRun(s: string): (n: nat)
    ensures n <= |s|
    ensures forall i :: |s| - n <= i < |s| ==> !IsSpace(s[i])
    ensures n < |s| ==> IsSpace(s[|s| - n - 1])
    decreases |s|
  {
    if s != [] && !IsSpace(s[|s| - 1]) then 1 + TrailingRun(s[..|s| - 1]) else 0
  }

  /** The longest suffix of s without whitespace. */
  function FinalRun(s: string): (w: string)
    ensures |w| <= |s| && w == s[|s| - |w|..] && NoSpace(w)
    ensures |w| < |s| ==> IsSpace(s[|s| - |w| - 1])
  {
    s[|s| - TrailingRun(s)..]
  }

  /** The last whitespace-delimited segment of s, read from the end. */
  function LastSegment(s: string): string
  {
    FinalRun(TrimEnd(s))
  }

  lemma {:induction false} WordsOfSpaces(s: string)
    requires AllSpace(s)
    ensures Words(s) == []
    decreases |s|
  {
    if s != [] {
      WordsOfSpaces(s[1..]);
    }
  }

  lemma {:induction false} RunLengthAppend(s: string, t: string)
    requires RunLength(s) < |s|
    ensures RunLength(s + t) == RunLength(s)
    decreases |s|
  {
    if !IsSpace(s[0]) {
      assert (s + t)[1..] == s[1..] + t;
      RunLengthAppend(s[1..], t);
    }
  }

  lemma {:induction false} RunLengthAppendSpaces(s: string, t: string)
    requires t == [] || IsSpace(t[0])
    ensures RunLength(s + t) == RunLength(s)
    decreases |s|
  {
    if s == [] {
      assert s + t == t;
    } else if !IsSpace(s[0]) {
      assert (s + t)[1..] == s[1..] + t;
      RunLengthAppendSpaces(s[1..], t);
    }
  }

  /** Trailing whitespace adds no segment. */
  lemma {:induction false} WordsAppendSpaces(s: string, t: string)
    requires AllSpace(t)
    ensures Words(s + t) == Words(s)
    decreases |s|
  {
    if s == [] {
      assert s + t == t;
      WordsOfSpaces(t);
    } else if IsSpace(s[0]) {
      assert (s + t)[1..] == s[1..] + t;
      WordsAppendSpaces(s[1..], t);
    } else {
      var n := RunLength(s);
      RunLengthAppendSpaces(s, t);
      assert (s + t)[..n] == s[..n];
      assert (s + t)[n..] == s[n..] + t;
      WordsAppendSpaces(s[n..], t);
    }
  }

  lemma {:induction false} RunLengthOfNoSpace(w: string)
    requires NoSpace(w)
    ensures RunLength(w) == |w|
    decreases |w|
  {
    if w != [] {
      RunLengthOfNoSpace(w[1..]);
    }
  }

  lemma {:induction false} RunLengthStopsAtSpace(s: string, k: nat)
    requires k < |s| && IsSpace(s[k])
    ensures RunLength(s) <= k
    decreases k
  {
    if k > 0 && !IsSpace(s[0]) {
      RunLengthStopsAtSpace(s[1..], k - 1);
    }
  }

  /** A run of non-space characters after a space (or at the start) is the last segment. */
  lemma {:induction false} WordsAppendWord(p: string, w: string)
    requires w != [] && NoSpace(w)
    requires p == [] || IsSpace(p[|p| - 1])
    ensures Words(p + w) == Words(p) + [w]
    decreases |p|
  {
    if p == [] {
      assert p + w == w;
      RunLengthOfNoSpace(w);
      assert w[|w|..] == [];
      assert w[..|w|] == w;
    } else if IsSpace(p[0]) {
      assert (p + w)[1..] == p[1..] + w;
      WordsAppendWord(p[1..], w);
    } else {
      var n := RunLength(p);
      RunLengthStopsAtSpace(p, |p| - 1);
      RunLengthAppend(p, w);
      assert (p + w)[..n] == p[..n];
      assert (p + w)[n..] == p[n..] + w;
      WordsAppendWord(p[n..], w);
    }
  }

  /** A text that does not end in whitespace has its final run as the last word. */
  lemma {:induction false} WordsOfTrimmed(t: string)
    requires t != [] && !IsSpace(t[|t| - 1])
    ensures Words(t) != [] && Words(t)[|Words(t)| - 1] == FinalRun(t)
  {
    var w := FinalRun(t);
    assert TrailingRun(t) >= 1;
    var p := t[..|t| - |w|];
    assert t == p + w;
    assert p == [] || IsSpace(p[|p| - 1]);
    WordsAppendWord(p, w);
  }

  /**
   * `authorization.split()[-1]` is the last whitespace-delimited segment; split()
   * finds no segment exactly when the header is all whitespace.
   */
  lemma LastOfWords(s: string)
    ensures Words(s) == [] <==> AllSpace(s)
    ensures Words(s) != [] ==> Words(s)[|Words(s)| - 1] == LastSegment(s)
  {
    var t := TrimEnd(s);
    var rest := s[|t|..];
    assert s == t + rest;
    WordsAppendSpaces(t, rest);
    if t == [] {
      WordsOfSpaces(s);
    } else {
      WordsOfTrimmed(t);
      assert s[|t| - 1] == t[|t| - 1];
    }
  }

  /** The final run after a space (or of a whole space-free text) is everything after that space. */
  lemma {:induction false} FinalRunAfterSpace(p: string, w: string)
    requires p == [] || IsSpace(p[|p| - 1])
    requires NoSpace(w)
    ensures FinalRun(p + w) == w
  {
    TrailingRunAfterSpace(p, w);
    assert (p + w)[|p|..] == w;
  }

  lemma {:induction false} TrailingRunAfterSpace(p: string, w: string)
    requires p == [] || IsSpace(p[|p| - 1])
    requires NoSpace(w)
    ensures TrailingRun(p + w) == |w|
    decreases |w|
  {
    var s := p + w;
    if w == [] {
      assert s == p;
    } else {
      var v := w[..|w| - 1];
      assert s[|s| - 1] == w[|w| - 1];
      assert s[..|s| - 1] == p + v;
      TrailingRunAfterSpace(p, v);
    }
  }

  /**
   * A header "Bearer <token>" and a bare "<token>" carry the same token, for any
   * token without whitespace ("Bearer abc123" and "abc123" both give "abc123").
   */
  lemma BearerPrefixIsOptional(token: string)
    requires token != [] && NoSpace(token)
    ensures LastSegment("Bearer " + token) == token
    ensures LastSegment(token) == token
  {
    var p := "Bearer ";
    assert IsSpace(p[|p| - 1]);
    assert TrimEnd(token) == token;
    FinalRunAfterSpace([], token);
    assert [] + token == token;
    assert (p + token)[|p + token| - 1] == token[|token| - 1];
    assert TrimEnd(p + token) == p + token;
    FinalRunAfterSpace(p, token);
  }


  // ---------------------------------------------------------------------------
  // Key lookup (backend/app.py:52-56)
  // ---------------------------------------------------------------------------

  /** One entry of the key set; kid is None when the entry has no "kid" member. */
  datatype Jwk = Jwk(kid: Option<string>, material: string)

  /** The key-set document; keys is None when it has no "keys" member. */
  datatype Jwks = Jwks(keys: Option<seq<Jwk>>)

  /** The header of a token as jwt.get_unverified_header reads it; kid is None when absent. */
  datatype TokenHeader = TokenHeader(kid: Option<string>)

  /** `k["kid"] == kid` for an entry that has a "kid" member. */
  predicate Matches(k: Jwk, kid: Option<string>)
  {
    k.kid.Some? && k.kid == kid
  }

  /** Entry i is the first whose kid equals kid, and every earlier entry has a kid. */
  predicate IsFirstMatch(keys: seq<Jwk>, kid: Option<string>, i: int)
  {
    0 <= i < |keys| && Matches(keys[i], kid)
    && forall j :: 0 <= j < i ==> keys[j].kid.Some? && !Matches(keys[j], kid)
  }

  /** How the generator `next((k for k in keys if k["kid"] == kid), None)` ends. */
  datatype Lookup =
    | Found(index: nat)       // the first match
    | NotFound                // next returned None
    | KidMissing(index: nat)  // k["kid"] raised KeyError on this entry first

  function FindKey(keys: seq<Jwk>, kid: Option<string>): (r: Lookup)
    ensures r.Found? ==> IsFirstMatch(keys, kid, r.index)
    ensures r.NotFound? <==> forall j :: 0 <= j < |keys| ==> keys[j].kid.Some? && !Matches(keys[j], kid)
    ensures r.KidMissing? ==>
      (r.index < |keys| && keys[r.index].kid.None?
       && forall j :: 0 <= j < r.index ==> keys[j].kid.Some? && !Matches(keys[j], kid))
    decreases |keys|
  {
    if keys == [] then NotFound
    else if keys[0].kid.None? then KidMissing(0)
    else if Matches(keys[0], kid) then Found(0)
    else
      match FindKey(keys[1..], kid)
      case Found(i) =>
        assert keys[1..][i] == keys[i + 1];
        Found(i + 1)
      case NotFound => NotFound
      case KidMissing(i) =>
        assert keys[1..][i] == keys[i + 1];
        KidMissing(i + 1)
  }

  /** There is at most one first match. */
  lemma FirstMatchIsUnique(keys: seq<Jwk>, kid: Option<string>, i: int, j: int)
    requires IsFirstMatch(keys, kid, i) && IsFirstMatch(keys, kid, j)
    ensures i == j
  {
  }

  // ---------------------------------------------------------------------------
  // The outside world, as oracles
  // ---------------------------------------------------------------------------

  /** An exception out of a library call: a JWTError, or any other Exception with its str(). */
  datatype Failure = JwtError(message: string) | OtherError(message: string)

  type Claims = map<string, string>

  /** The arguments verify_token gives jwt.construct_rsa_key and jwt.decode. */
  datatype DecodeRequest = DecodeRequest(token: string, key: Jwk, algorithms: seq<string>, audience: string, issuer: string)

  /**
   * fetch: requests.get(url, timeout=5), raise_for_status and json();
   * header: jwt.get_unverified_header;
   * decode: jwt.construct_rsa_key then jwt.decode (signature, expiry, audience and issuer checks).
   */
  datatype Oracles = Oracles(
    fetch: string -> Result<Jwks, Failure>,
    header: string -> Result<TokenHeader, Failure>,
    decode: DecodeRequest -> Result<Claims, Failure>)

  const Algorithms := ["RS256"]

  // The detail texts of the errors.
  const MissingHeaderDetail := "Missing Authorization header"
  const NotConfiguredDetail := "Cognito not configured"
  const NoTokenDetail := "Internal Server Error"              // FastAPI's answer to the IndexError of split()[-1]
  const UnknownKeyDetail := "401: Unknown token key"          // str() of the HTTPException raised inside the try
  const MissingKidDetail := "'kid'"                           // str() of KeyError('kid')
  const MissingKeysDetail := "'keys'"                         // str() of KeyError('keys')
  const NoKeySetDetail := "'NoneType' object is not subscriptable"

  /** The two except clauses of verify_token: every exception becomes a 401. */
  function Rewrap(f: Failure): (e: HttpError)
    ensures e.status == 401
    ensures f.JwtError? ==> e.detail == "Token error: " + f.message
    ensures f.OtherError? ==> e.detail == f.message
  {
    match f
    case JwtError(m) => HttpError(401, "Token error: " + m)
    case OtherError(m) => HttpError(401, m)
  }

  // ---------------------------------------------------------------------------
  // fetch_jwks (backend/app.py:39-45)
  // ---------------------------------------------------------------------------

  /** Whether fetch_jwks goes to the network: only while the cache is None and a URL is configured. */
  predicate FetchesKeys(cfg: Config, cache: Option<Jwks>)
  {
    cache.None? && JwksUrl(cfg).Some?
  }

  /** What fetch_jwks returns, or the exception it raises. */
  function FetchResult(cfg: Config, cache: Option<Jwks>, o: Oracles): (r: Result<Option<Jwks>, Failure>)
    ensures !FetchesKeys(cfg, cache) ==> r == Ok(cache)
    ensures FetchesKeys(cfg, cache) ==> match o.fetch(JwksUrl(cfg).value)
      case Ok(doc) => r == Ok(Some(doc))
      case Err(f) => r == Err(f)
  {
    if FetchesKeys(cfg, cache) then
      match o.fetch(JwksUrl(cfg).value)
      case Ok(doc) => Ok(Some(doc))
      case Err(f) => Err(f)
    else Ok(cache)
  }

  /** The cache after fetch_jwks: filled by a successful fetch, otherwise as it was. */
  function CacheAfterFetch(cfg: Config, cache: Option<Jwks>, o: Oracles): (c: Option<Jwks>)
    ensures cache.Some? ==> c == cache
    ensures c.None? ==> cache.None? && (JwksUrl(cfg).None? || o.fetch(JwksUrl(cfg).value).Err?)
    ensures c.Some? && cache.None? ==> JwksUrl(cfg).Some? && o.fetch(JwksUrl(cfg).value) == Ok(c.value)
  {
    if FetchesKeys(cfg, cache) && o.fetch(JwksUrl(cfg).value).Ok? then Some(o.fetch(JwksUrl(cfg).value).value)
    else cache
  }

  // ---------------------------------------------------------------------------
  // verify_token (backend/app.py:47-69)
  // ---------------------------------------------------------------------------

  /**
   * The try block of verify_token once fetch_jwks has answered `fetched`: parse
   * the token header, look the kid up, decode. Every way it can fail is a 401.
   */
  function CheckToken(audience: string, issuer: string, fetched: Result<Option<Jwks>, Failure>, o: Oracles, token: string)
    : (r: Result<Claims, HttpError>)
    ensures r.Err? ==> r.error.status == 401
    ensures r.Ok? ==>
      && fetched.Ok? && fetched.value.Some? && fetched.value.value.keys.Some?
      && o.header(token).Ok?
      && var keys := fetched.value.value.keys.value;
         exists i :: (IsFirstMatch(keys, o.header(token).value.kid, i)
           && o.decode(DecodeRequest(token, keys[i], Algorithms, audience, issuer)) == Ok(r.value))
    ensures fetched.Err? ==> r == Err(Rewrap(fetched.error))
    ensures fetched.Ok? && o.header(token).Err? ==> r == Err(Rewrap(o.header(token).error))
    ensures fetched.Ok? && o.header(token).Ok? && fetched.value.None? ==>
      r == Err(Rewrap(OtherError(NoKeySetDetail)))
    ensures fetched.Ok? && o.header(token).Ok? && fetched.value.Some? && fetched.value.value.keys.None? ==>
      r == Err(Rewrap(OtherError(MissingKeysDetail)))
    ensures fetched.Ok? && o.header(token).Ok? && fetched.value.Some? && fetched.value.value.keys.Some? ==>
      var keys := fetched.value.value.keys.value;
      var lookup := FindKey(keys, o.header(token).value.kid);
      && (lookup.KidMissing? ==> r == Err(Rewrap(OtherError(MissingKidDetail))))
      && (lookup.NotFound? ==> r == Err(Rewrap(OtherError(UnknownKeyDetail))))
      && (lookup.Found? ==>
            var d := o.decode(DecodeRequest(token, keys[lookup.index], Algorithms, audience, issuer));
            && (d.Err? ==> r == Err(Rewrap(d.error)))
            && (d.Ok? ==> r == Ok(d.value)))
  {
    match fetched
    case Err(f) => Err(Rewrap(f))
    case Ok(cache) =>
      match o.header(token)
      case Err(f) => Err(Rewrap(f))
      case Ok(h) =>
        if cache.None? then Err(Rewrap(OtherError(NoKeySetDetail)))
        else if cache.value.keys.None? then Err(Rewrap(OtherError(MissingKeysDetail)))
        else
          var keys := cache.value.keys.value;
          match FindKey(keys, h.kid)
          case KidMissing(_) => Err(Rewrap(OtherError(MissingKidDetail)))
          case NotFound => Err(Rewrap(OtherError(UnknownKeyDetail)))
          case Found(i) =>
            match o.decode(DecodeRequest(token, keys[i], Algorithms, audience, issuer))
            case Ok(claims) => Ok(claims)
            case Err(f) => Err(Rewrap(f))
  }

  /**
   * verify_token: the configuration check outside the try (a 500), then
   * fetch_jwks and CheckToken inside it.
   */
  function Verify(cfg: Config, cache: Option<Jwks>, o: Oracles, token: string): (r: Result<Claims, HttpError>)
    ensures !Configured(cfg) ==> r == Err(HttpError(500, NotConfiguredDetail))
    ensures r.Err? ==> (r.error.status == 500 <==> !Configured(cfg))
    ensures r.Err? ==> r.error.status == 401 || r.error.status == 500
  {
    if !Configured(cfg) then Err(HttpError(500, NotConfiguredDetail))
    else CheckToken(cfg.clientId.value, Issuer(cfg).value, FetchResult(cfg, cache, o), o, token)
  }

  /** The cache after verify_token: an unconfigured service never reaches fetch_jwks. */
  function CacheAfterVerify(cfg: Config, cache: Option<Jwks>, o: Oracles): Option<Jwks>
  {
    if Configured(cfg) then CacheAfterFetch(cfg, cache, o) else cache
  }

  /** Whether verify_token goes to the network. */
  predicate VerifyFetches(cfg: Config, cache: Option<Jwks>)
  {
    Configured(cfg) && FetchesKeys(cfg, cache)
  }

  /**
   * On success the claims are exactly what jwt.decode returned for the first key
   * whose kid matches, checked with the configured client id as audience, the
   * pool's issuer and RS256.
   */
  lemma VerifySuccess(cfg: Config, cache: Option<Jwks>, o: Oracles, token: string)
    requires Verify(cfg, cache, o, token).Ok?
    ensures Configured(cfg)
    ensures var doc := CacheAfterVerify(cfg, cache, o);
      && doc.Some? && doc.value.keys.Some? && o.header(token).Ok?
      && exists i :: (IsFirstMatch(doc.value.keys.value, o.header(token).value.kid, i)
        && o.decode(DecodeRequest(token, doc.value.keys.value[i], ["RS256"], cfg.clientId.value, Issuer(cfg).value))
           == Ok(Verify(cfg, cache, o, token).value))
  {
  }

  /** A token whose kid no cached key carries is refused with 401, whatever its signature. */
  lemma UnknownKidIsRefused(cfg: Config, doc: Jwks, o: Oracles, token: string)
    requires Configured(cfg) && doc.keys.Some? && o.header(token).Ok?
    requires forall j :: 0 <= j < |doc.keys.value| ==>
      doc.keys.value[j].kid.Some? && doc.keys.value[j].kid != o.header(token).value.kid
    ensures Verify(cfg, Some(doc), o, token) == Err(HttpError(401, UnknownKeyDetail))
    ensures CacheAfterVerify(cfg, Some(doc), o) == Some(doc)
  {
    assert FindKey(doc.keys.value, o.header(token).value.kid).NotFound?;
  }

  /**
   * Conversely, a token whose header's kid has a first match and which decodes
   * is accepted, whether the key set was cached or is fetched by this request;
   * the cache then holds that key set.
   */
  lemma MatchingTokenIsAccepted(cfg: Config, cache: Option<Jwks>, doc: Jwks, o: Oracles, token: string, i: nat, claims: Claims)
    requires Configured(cfg) && FetchResult(cfg, cache, o) == Ok(Some(doc))
    requires doc.keys.Some? && o.header(token).Ok?
    requires IsFirstMatch(doc.keys.value, o.header(token).value.kid, i)
    requires o.decode(DecodeRequest(token, doc.keys.value[i], Algorithms, cfg.clientId.value, Issuer(cfg).value)) == Ok(claims)
    ensures Verify(cfg, cache, o, token) == Ok(claims)
    ensures CacheAfterVerify(cfg, cache, o) == Some(doc)
  {
    var r := FindKey(doc.keys.value, o.header(token).value.kid);
    assert r.Found?;
    FirstMatchIsUnique(doc.keys.value, o.header(token).value.kid, r.index, i);
  }

  // ---------------------------------------------------------------------------
  // auth_required (backend/app.py:71-75)
  // ---------------------------------------------------------------------------

  /**
   * The token auth_required hands to verify_token: absent or empty headers are a
   * 401 before anything else, a header of whitespace only has no segment and the
   * IndexError escapes as a 500; otherwise the last segment.
   */
  function HeaderToken(authorization: Option<string>): (r: Result<string, HttpError>)
    ensures !IsSet(authorization) ==> r == Err(HttpError(401, MissingHeaderDetail))
    ensures IsSet(authorization) && AllSpace(authorization.value) ==> r == Err(HttpError(500, NoTokenDetail))
    ensures IsSet(authorization) && !AllSpace(authorization.value) ==> r == Ok(LastSegment(authorization.value))
  {
    if !IsSet(authorization) then Err(HttpError(401, MissingHeaderDetail))
    else
      var ws := Words(authorization.value);
      LastOfWords(authorization.value);
      if ws == [] then Err(HttpError(500, NoTokenDetail))
      else Ok(ws[|ws| - 1])
  }

  /** auth_required: the claims of the request's bearer token, or the error that ends the request. */
  function Authorize(cfg: Config, cache: Option<Jwks>, o: Oracles, authorization: Option<string>): (r: Result<Claims, HttpError>)
    ensures HeaderToken(authorization).Err? ==> r == Err(HeaderToken(authorization).error)
    ensures HeaderToken(authorization).Ok? ==> r == Verify(cfg, cache, o, HeaderToken(authorization).value)
  {
    match HeaderToken(authorization)
    case Err(e) => Err(e)
    case Ok(token) => Verify(cfg, cache, o, token)
  }

  /** The cache after auth_required: no fetch unless the header carries a token. */
  function CacheAfterAuthorize(cfg: Config, cache: Option<Jwks>, o: Oracles, authorization: Option<string>): Option<Jwks>
  {
    if HeaderToken(authorization).Ok? then CacheAfterVerify(cfg, cache, o) else cache
  }

  /** Whether auth_required goes to the network: the header carries a token and verify_token fetches. */
  predicate AuthorizeFetches(cfg: Config, cache: Option<Jwks>, authorization: Option<string>)
  {
    HeaderToken(authorization).Ok? && VerifyFetches(cfg, cache)
  }

  // ---------------------------------------------------------------------------
  // The cache over a sequence of requests
  // ---------------------------------------------------------------------------

  /** The cache after requests whose outside world behaved as calls[0], calls[1], ... */
  function CacheAfterRun(cfg: Config, cache: Option<Jwks>, calls: seq<Oracles>): Option<Jwks>
    decreases |calls|
  {
    if calls == [] then cache else CacheAfterRun(cfg, CacheAfterVerify(cfg, cache, calls[0]), calls[1..])
  }

  /** How many of those requests went to the JWKS URL. */
  function FetchCount(cfg: Config, cache: Option<Jwks>, calls: seq<Oracles>): nat
    decreases |calls|
  {
    if calls == [] then 0
    else (if VerifyFetches(cfg, cache) then 1 else 0) + FetchCount(cfg, CacheAfterVerify(cfg, cache, calls[0]), calls[1..])
  }

  /** How many of those fetches failed. */
  function FailedFetchCount(cfg: Config, cache: Option<Jwks>, calls: seq<Oracles>): nat
    decreases |calls|
  {
    if calls == [] then 0
    else
      (if VerifyFetches(cfg, cache) && calls[0].fetch(JwksUrl(cfg).value).Err? then 1 else 0)
      + FailedFetchCount(cfg, CacheAfterVerify(cfg, cache, calls[0]), calls[1..])
  }

  /** Once the key set is cached it is never fetched again and never changes. */
  lemma {:induction false} PopulatedCacheIsFinal(cfg: Config, doc: Jwks, calls: seq<Oracles>)
    ensures CacheAfterRun(cfg, Some(doc), calls) == Some(doc)
    ensures FetchCount(cfg, Some(doc), calls) == 0
    decreases |calls|
  {
    if calls != [] {
      PopulatedCacheIsFinal(cfg, doc, calls[1..]);
    }
  }

  /**
   * Every fetch but at most one fails: the key set is fetched successfully at
   * most once per process, and a failed fetch leaves the cache empty.
   */
  lemma {:induction false} AtMostOneSuccessfulFetch(cfg: Config, cache: Option<Jwks>, calls: seq<Oracles>)
    ensures FetchCount(cfg, cache, calls) <= FailedFetchCount(cfg, cache, calls) + 1
    ensures cache.Some? ==> FetchCount(cfg, cache, calls) == 0
    ensures CacheAfterRun(cfg, cache, calls).None? ==> FetchCount(cfg, cache, calls) == FailedFetchCount(cfg, cache, calls)
    decreases |calls|
  {
    if calls != [] {
      var next := CacheAfterVerify(cfg, cache, calls[0]);
      AtMostOneSuccessfulFetch(cfg, next, calls[1..]);
      if cache.Some? {
        PopulatedCacheIsFinal(cfg, cache.value, calls);
      } else if next.Some? {
        PopulatedCacheIsFinal(cfg, next.value, calls[1..]);
      }
    }
  }
}
