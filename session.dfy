/**
 * The browser side of the sign-in session (frontend/src/App.jsx): the tokens
 * and their expiry live in localStorage under four `dp_` keys; on load and
 * then every minute `captureTokens` takes tokens from the URL hash of the
 * implicit-grant redirect, refreshes them near expiry, or reuses the stored
 * one; `logout` removes the four keys. localStorage is a map from strings to
 * strings, time is integer milliseconds, and the token endpoint is an oracle.
 */
module Session {
  import opened Common
  import opened JsNumbers
  import opened Strings

  const IdTokenKey := "dp_id_token"
  const AccessTokenKey := "dp_access_token"
  const RefreshTokenKey := "dp_refresh_token"
  const ExpiryKey := "dp_expiry"
  const SessionKeys: set<string> := {IdTokenKey, AccessTokenKey, RefreshTokenKey, ExpiryKey}

  /** The lifetime assumed when the redirect carries no expires_in, and how early a refresh starts. */
  const DefaultLifetime := 3600 * 1000
  const RefreshMargin := 60000

  type Storage = map<string, string>

  /** `localStorage.getItem(key)`: null for a key that is not stored. */
  function Get(store: Storage, key: string): (v: Option<string>)
    ensures v.Some? <==> key in store
    ensures v.Some? ==> v.value == store[key]
  {
    if key in store then Some(store[key]) else None
  }

  /** JavaScript truthiness of a string that may be null or undefined. */
  predicate Truthy(v: Option<string>)
  {
    v.Some? && v.value != ""
  }

  /** `String(v)` for a JSON member that may be missing, as setItem stores it. */
  function JsString(v: Option<string>): (s: string)
    ensures v.Some? ==> s == v.value
    ensures v.None? ==> s == "undefined"
  {
    if v.Some? then v.value else "undefined"
  }

  // ---------------------------------------------------------------------------
  // The URL hash
  // ---------------------------------------------------------------------------

  /** `s.replace("#", "")`: a string pattern replaces its first occurrence only. */
  function RemoveFirst(s: string, c: char): (r: string)
    ensures c !in s ==> r == s
    ensures c in s ==> r == s[..IndexOf(s, c)] + s[IndexOf(s, c) + 1..]
  {
    if c in s then s[..IndexOf(s, c)] + s[IndexOf(s, c) + 1..] else s
  }

  /** One name=value piece of a query string; a piece without '=' has the empty value. */
  function Pair(piece: string): (p: (string, string))
    ensures '=' !in p.0
    ensures '=' in piece ==> piece == p.0 + "=" + p.1
    ensures '=' !in piece ==> p == (piece, "")
  {
    if '=' in piece then
      var i := IndexOf(piece, '=');
      assert piece == piece[..i] + "=" + piece[i + 1..];
      (piece[..i], piece[i + 1..])
    else (piece, "")
  }

  /**
   * `new URLSearchParams(q)`: a leading '?' is dropped, then the '&'-separated
   * pieces, empty ones skipped, in order.
   */
  function ParseQuery(q: string): (params: seq<(string, string)>)
    ensures forall i :: 0 <= i < |params| ==> '=' !in params[i].0 && '&' !in params[i].0 && '&' !in params[i].1
    ensures params == Pairs(Split(DropMark(q), '&'))
  {
    Pairs(Split(DropMark(q), '&'))
  }

  /** q without its leading '?', if it has one; a second '?' stays. */
  function DropMark(q: string): (r: string)
    ensures q != [] && q[0] == '?' ==> r == q[1..]
    ensures (q == [] || q[0] != '?') ==> r == q
  {
    if q != [] && q[0] == '?' then q[1..] else q
  }

  /** The pairs of the non-empty pieces, in order; a name and value come from within one piece. */
  function Pairs(pieces: seq<string>): (params: seq<(string, string)>)
    ensures |params| <= |pieces|
    ensures forall i :: 0 <= i < |params| ==> '=' !in params[i].0
    ensures (forall j :: 0 <= j < |pieces| ==> '&' !in pieces[j]) ==>
      forall i :: 0 <= i < |params| ==> '&' !in params[i].0 && '&' !in params[i].1
    ensures (forall j :: 0 <= j < |pieces| ==> pieces[j] == "") ==> params == []
    ensures (forall j :: 0 <= j < |pieces| ==> pieces[j] != "") ==>
      |params| == |pieces| && forall i :: 0 <= i < |params| ==> params[i] == Pair(pieces[i])
  {
    if pieces == [] then []
    else if pieces[0] == "" then Pairs(pieces[1..])
    else [Pair(pieces[0])] + Pairs(pieces[1..])
  }

  /** The pieces are parsed one at a time: the pairs of a + b are those of a, then those of b. */
  lemma {:induction false} PairsAppend(a: seq<string>, b: seq<string>)
    ensures Pairs(a + b) == Pairs(a) + Pairs(b)
    decreases |a|
  {
    if a == [] {
      assert a + b == b;
    } else {
      assert (a + b)[0] == a[0] && (a + b)[1..] == a[1..] + b;
      PairsAppend(a[1..], b);
    }
  }

  /** A piece built as name=value gives that pair back when the name holds no '='. */
  lemma PairOfPiece(name: string, value: string)
    requires '=' !in name
    ensures Pair(name + "=" + value) == (name, value)
  {
    var piece := name + "=" + value;
    IndexOfAfter(name, '=', value);
    assert piece[..|name|] == name;
    assert piece[|name| + 1..] == value;
  }

  /** The query string of params: name=value for each pair, joined with '&'. */
  function Query(params: seq<(string, string)>): string
  {
    Join(seq(|params|, i requires 0 <= i < |params| => params[i].0 + "=" + params[i].1), '&')
  }

  /**
   * Parsing a query string built from pairs gives the pairs back, with or
   * without the leading '?', when every name is non-empty and free of '=' and
   * '&', and no value holds '&'. Without the '?', the first name must not
   * start with one, since it would be dropped.
   */
  lemma {:induction false} ParseQueryOfQuery(params: seq<(string, string)>)
    requires forall i :: 0 <= i < |params| ==>
      params[i].0 != "" && '=' !in params[i].0 && '&' !in params[i].0 && '&' !in params[i].1
    ensures ParseQuery("?" + Query(params)) == params
    ensures params == [] || params[0].0[0] != '?' ==> ParseQuery(Query(params)) == params
  {
    var pieces := seq(|params|, i requires 0 <= i < |params| => params[i].0 + "=" + params[i].1);
    var q := Query(params);
    assert ("?" + q)[1..] == q;
    if params == [] {
      assert q == "";
      assert Split(q, '&') == [""];
    } else {
      forall k | 0 <= k < |pieces|
        ensures pieces[k] != "" && '&' !in pieces[k] && Pair(pieces[k]) == params[k]
      {
        assert pieces[k][0] == params[k].0[0];
        assert '&' !in params[k].0 + "=" + params[k].1;
        PairOfPiece(params[k].0, params[k].1);
      }
      SplitJoin(pieces, '&');
      assert Pairs(pieces) == params;
      assert q[0] == pieces[0][0] == params[0].0[0];
    }
  }

  /** The position of the first pair named name, or |params| when there is none. */
  function FirstNamed(params: seq<(string, string)>, name: string): (k: nat)
    ensures k <= |params|
    ensures k < |params| ==> params[k].0 == name
    ensures forall j :: 0 <= j < k ==> params[j].0 != name
  {
    if params == [] || params[0].0 == name then 0 else 1 + FirstNamed(params[1..], name)
  }

  /** `params.get(name)`: the value of the first pair with that name, null when there is none. */
  function Param(params: seq<(string, string)>, name: string): (v: Option<string>)
    ensures v.None? <==> forall k :: 0 <= k < |params| ==> params[k].0 != name
    ensures v.Some? ==> exists k :: (0 <= k < |params| && params[k] == (name, v.value)
                                     && forall j :: 0 <= j < k ==> params[j].0 != name)
  {
    var k := FirstNamed(params, name);
    if k < |params| then Some(params[k].1) else None
  }

  /** `params.get("id_token") || params.get("access_token")`. */
  function HashToken(params: seq<(string, string)>): (t: Option<string>)
    ensures Truthy(Param(params, "id_token")) ==> t == Param(params, "id_token")
    ensures !Truthy(Param(params, "id_token")) ==> t == Param(params, "access_token")
  {
    var id := Param(params, "id_token");
    if Truthy(id) then id else Param(params, "access_token")
  }

  // ---------------------------------------------------------------------------
  // Expiry
  // ---------------------------------------------------------------------------

  /**
   * The expiry captureTokens stores: `now + parseInt(expiresIn) * 1000` when
   * expires_in is present and not empty, an hour from now otherwise.
   */
  function CaptureExpiry(now: int, expiresIn: Option<string>): (e: Num)
    ensures !Truthy(expiresIn) ==> e == Int(now + DefaultLifetime)
    ensures Truthy(expiresIn) ==> e == Add(Int(now), Scale(ParseInt(expiresIn.value), 1000))
  {
    if Truthy(expiresIn) then Add(Int(now), Scale(ParseInt(expiresIn.value), 1000))
    else Int(now + DefaultLifetime)
  }

  /** A whole number of seconds in the redirect gives an expiry that many seconds from now. */
  lemma CaptureExpiryOfSeconds(now: int, seconds: nat)
    ensures CaptureExpiry(now, Some(Decimal(seconds))) == Int(now + seconds * 1000)
  {
    ParseIntOfDecimal(seconds);
  }

  /** The expiry refreshToken stores: `now + data.expires_in * 1000`, NaN when expires_in is missing. */
  function RefreshExpiry(later: int, expiresIn: Option<int>): (e: Num)
    ensures expiresIn.Some? ==> e == Int(later + expiresIn.value * 1000)
    ensures expiresIn.None? ==> e == NaN
  {
    Add(Int(later), Scale(if expiresIn.Some? then Int(expiresIn.value) else NaN, 1000))
  }

  /**
   * `expiry && now > expiry - 60000` on the stored string: a refresh is due
   * when an expiry is stored and now is past it or less than a minute before it.
   */
  predicate RefreshDue(store: Storage, now: int)
    ensures RefreshDue(store, now) ==> ExpiryKey in store && store[ExpiryKey] != ""
  {
    var expiry := Get(store, ExpiryKey);
    Truthy(expiry) && Greater(now, Add(Number(expiry.value), Int(-RefreshMargin)))
  }

  /** An expiry written as a number is read back as that number. */
  lemma {:induction false} StoredExpiryIsDue(store: Storage, expiry: Num, now: int)
    requires Get(store, ExpiryKey) == Some(ToString(expiry))
    ensures RefreshDue(store, now) <==> expiry.Int? && now > expiry.value - RefreshMargin
  {
    NumberOfToString(expiry);
  }

  // ---------------------------------------------------------------------------
  // Storage updates
  // ---------------------------------------------------------------------------

  /** The writes of captureTokens for a token from the hash. */
  function StoreCapture(store: Storage, idToken: string, refresh: Option<string>, expiry: Num): (s: Storage)
    ensures Get(s, IdTokenKey) == Some(idToken) && Get(s, AccessTokenKey) == Some(idToken)
    ensures Get(s, ExpiryKey) == Some(ToString(expiry))
    ensures Truthy(refresh) ==> Get(s, RefreshTokenKey) == refresh
    ensures !Truthy(refresh) ==> Get(s, RefreshTokenKey) == Get(store, RefreshTokenKey)
    ensures forall k :: k !in SessionKeys ==> Get(s, k) == Get(store, k)
  {
    var s := store[IdTokenKey := idToken][AccessTokenKey := idToken];
    var s := if Truthy(refresh) then s[RefreshTokenKey := refresh.value] else s;
    s[ExpiryKey := ToString(expiry)]
  }

  /** The writes of refreshToken for an answer carrying an id token; the refresh token stays. */
  function StoreRefreshed(store: Storage, reply: TokenReply, later: int): (s: Storage)
    requires reply.idToken.Some?
    ensures Get(s, IdTokenKey) == reply.idToken
    ensures Get(s, AccessTokenKey) == Some(JsString(reply.accessToken))
    ensures Get(s, ExpiryKey) == Some(ToString(RefreshExpiry(later, reply.expiresIn)))
    ensures forall k :: k != IdTokenKey && k != AccessTokenKey && k != ExpiryKey ==> Get(s, k) == Get(store, k)
  {
    store[IdTokenKey := reply.idToken.value][AccessTokenKey := JsString(reply.accessToken)]
         [ExpiryKey := ToString(RefreshExpiry(later, reply.expiresIn))]
  }

  /** What logout leaves: every entry except the four session keys. */
  function WithoutSession(store: Storage): (s: Storage)
    ensures forall k :: k in s <==> k in store && k !in SessionKeys
    ensures forall k :: k in s ==> s[k] == store[k]
  {
    store - SessionKeys
  }

  // ---------------------------------------------------------------------------
  // The token endpoint
  // ---------------------------------------------------------------------------

  /** The JSON answer of the token endpoint; members that are missing are None. */
  datatype TokenReply = TokenReply(idToken: Option<string>, accessToken: Option<string>, expiresIn: Option<int>)

  /** The outcome of `fetch(...)` and `res.json()`: an answer, or a rejected promise. */
  datatype Exchange = Answered(reply: TokenReply) | FetchFailed

  /** How the promise returned by refreshToken settles. */
  datatype Settled = Resolved(token: Option<string>) | Rejected

  /**
   * What refreshToken returns: null without a stored refresh token; otherwise the
   * new id token if the answer has one, null if it has none, and a rejection if
   * the request or the JSON parse fails.
   */
  function RefreshResult(store: Storage, endpoint: string -> Exchange): (r: Settled)
    ensures !Truthy(Get(store, RefreshTokenKey)) ==> r == Resolved(None)
    ensures Truthy(Get(store, RefreshTokenKey)) ==>
      (endpoint(store[RefreshTokenKey]) == FetchFailed <==> r == Rejected)
    ensures Truthy(Get(store, RefreshTokenKey)) && endpoint(store[RefreshTokenKey]).Answered? ==>
      var reply := endpoint(store[RefreshTokenKey]).reply;
      r == Resolved(if Truthy(reply.idToken) then reply.idToken else None)
    ensures r == Rejected ==> endpoint(store[RefreshTokenKey]) == FetchFailed
    ensures r.Resolved? && r.token.Some? ==>
      && Truthy(r.token) && Truthy(Get(store, RefreshTokenKey))
      && endpoint(store[RefreshTokenKey]).Answered?
      && endpoint(store[RefreshTokenKey]).reply.idToken == r.token
  {
    var refresh := Get(store, RefreshTokenKey);
    if !Truthy(refresh) then Resolved(None)
    else match endpoint(refresh.value)
      case FetchFailed => Rejected
      case Answered(reply) => if Truthy(reply.idToken) then Resolved(reply.idToken) else Resolved(None)
  }

  /** The storage after refreshToken: changed only when a new id token arrives. */
  function StoreAfterRefresh(store: Storage, endpoint: string -> Exchange, later: int): (s: Storage)
    ensures RefreshResult(store, endpoint).Resolved? && RefreshResult(store, endpoint).token.Some? ==>
      s == StoreRefreshed(store, endpoint(store[RefreshTokenKey]).reply, later)
    ensures !(RefreshResult(store, endpoint).Resolved? && RefreshResult(store, endpoint).token.Some?) ==> s == store
  {
    var refresh := Get(store, RefreshTokenKey);
    if Truthy(refresh) && endpoint(refresh.value).Answered? && Truthy(endpoint(refresh.value).reply.idToken) then
      StoreRefreshed(store, endpoint(refresh.value).reply, later)
    else store
  }

  // ---------------------------------------------------------------------------
  // Properties across calls
  // ---------------------------------------------------------------------------

  /** After a capture with expires_in seconds, a refresh is due exactly from a minute before expiry. */
  lemma CaptureSchedulesRefresh(store: Storage, idToken: string, refresh: Option<string>,
                                now: int, seconds: nat, later: int)
    ensures var s := StoreCapture(store, idToken, refresh, CaptureExpiry(now, Some(Decimal(seconds))));
      RefreshDue(s, later) <==> later > now + seconds * 1000 - RefreshMargin
  {
    CaptureExpiryOfSeconds(now, seconds);
    var expiry := CaptureExpiry(now, Some(Decimal(seconds)));
    StoredExpiryIsDue(StoreCapture(store, idToken, refresh, expiry), expiry, later);
  }

  /** A capture without expires_in schedules the refresh for 59 minutes later. */
  lemma CaptureWithoutLifetimeSchedulesRefresh(store: Storage, idToken: string, refresh: Option<string>,
                                               now: int, later: int)
    ensures var s := StoreCapture(store, idToken, refresh, CaptureExpiry(now, None));
      RefreshDue(s, later) <==> later > now + DefaultLifetime - RefreshMargin
  {
    var expiry := CaptureExpiry(now, None);
    StoredExpiryIsDue(StoreCapture(store, idToken, refresh, expiry), expiry, later);
  }

  /**
   * A refresh answer without expires_in stores the expiry "NaN", and no later
   * call finds a refresh due again: the stored token is reused from then on.
   */
  lemma RefreshWithoutLifetimeIsNeverDue(store: Storage, reply: TokenReply, later: int, now: int)
    requires reply.idToken.Some? && reply.expiresIn.None?
    ensures !RefreshDue(StoreRefreshed(store, reply, later), now)
  {
    StoredExpiryIsDue(StoreRefreshed(store, reply, later), RefreshExpiry(later, reply.expiresIn), now);
  }

  /** After a successful refresh with expires_in, the next refresh is due a minute before the new expiry. */
  lemma RefreshSchedulesRefresh(store: Storage, reply: TokenReply, later: int, now: int)
    requires reply.idToken.Some? && reply.expiresIn.Some?
    ensures RefreshDue(StoreRefreshed(store, reply, later), now)
      <==> now > later + reply.expiresIn.value * 1000 - RefreshMargin
  {
    StoredExpiryIsDue(StoreRefreshed(store, reply, later), RefreshExpiry(later, reply.expiresIn), now);
  }

  // ---------------------------------------------------------------------------
  // The App component's state
  // ---------------------------------------------------------------------------

  /** The page: its localStorage, the `token` state and the URL hash (`location.hash`, "" when none). */
  class Browser {
    var storage: Storage
    var token: Option<string>
    var hash: string
    /** The refresh tokens sent to the token endpoint so far. */
    ghost var posted: seq<string>

    /**
     * The token state is null or a token, never an empty string; and the hash
     * is never a lone "#", which `location.hash` reports as "".
     */
    ghost predicate Valid()
      reads this
    {
      && (token.Some? ==> token.value != "")
      && hash != "#"
    }

    constructor (storage: Storage, hash: string)
      requires hash != "#"
      ensures this.storage == storage && this.hash == hash
      ensures token == None && posted == []
      ensures Valid()
    {
      this.storage := storage;
      this.hash := hash;
      token := None;
      posted := [];
    }

    /**
     * refreshToken: with no stored refresh token, null and no request;
     * otherwise post it and, when the answer has an id token, store the new
     * tokens and expiry. `later` is the clock read after the answer arrives.
     */
    method RefreshToken(endpoint: string -> Exchange, later: int) returns (r: Settled)
      requires Valid()
      modifies this
      ensures Valid()
      ensures r == RefreshResult(old(storage), endpoint)
      ensures storage == StoreAfterRefresh(old(storage), endpoint, later)
      ensures posted == old(posted) + (if Truthy(Get(old(storage), RefreshTokenKey)) then [old(storage)[RefreshTokenKey]] else [])
      ensures token == old(token) && hash == old(hash)
    {
      var refresh := Get(storage, RefreshTokenKey);
      if !Truthy(refresh) {
        return Resolved(None);
      }
      posted := posted + [refresh.value];
      var res := endpoint(refresh.value);
      if res.FetchFailed? {
        return Rejected;
      }
      var data := res.reply;
      if Truthy(data.idToken) {
        var expiryTime := RefreshExpiry(later, data.expiresIn);
        storage := storage[IdTokenKey := data.idToken.value];
        storage := storage[AccessTokenKey := JsString(data.accessToken)];
        storage := storage[ExpiryKey := ToString(expiryTime)];
        return Resolved(data.idToken);
      }
      r := Resolved(None);
    }

    /**
     * The first arm of captureTokens: read the token from the hash and, when
     * there is one, store it with its refresh token and expiry and clear the hash.
     */
    method CaptureFromHash(now: int)
      requires Valid() && hash != ""
      modifies this
      ensures Valid()
      ensures
        var params := ParseQuery(RemoveFirst(old(hash), '#'));
        var idToken := HashToken(params);
        && posted == old(posted)
        && (Truthy(idToken) ==>
              && storage == StoreCapture(old(storage), idToken.value, Param(params, "refresh_token"),
                                         CaptureExpiry(now, Param(params, "expires_in")))
              && token == idToken && hash == "")
        && (!Truthy(idToken) ==> storage == old(storage) && token == old(token) && hash == old(hash))
    {
      var params := ParseQuery(RemoveFirst(hash, '#'));
      StoreHashToken(params, now);
    }

    /** The rest of the hash arm, once the hash is parsed into params. */
    method StoreHashToken(params: seq<(string, string)>, now: int)
      requires Valid()
      modifies this
      ensures Valid()
      ensures
        var idToken := HashToken(params);
        && posted == old(posted)
        && (Truthy(idToken) ==>
              && storage == StoreCapture(old(storage), idToken.value, Param(params, "refresh_token"),
                                         CaptureExpiry(now, Param(params, "expires_in")))
              && token == idToken && hash == "")
        && (!Truthy(idToken) ==> storage == old(storage) && token == old(token) && hash == old(hash))
    {
      var idToken := HashToken(params);
      var refresh := Param(params, "refresh_token");
      var expiresIn := Param(params, "expires_in");
      if Truthy(idToken) {
        var expiryTime := CaptureExpiry(now, expiresIn);
        WriteCapture(idToken.value, refresh, expiryTime);
        token := idToken;
        hash := "";
      }
    }

    /** The localStorage writes of captureTokens for a token read from the hash. */
    method WriteCapture(idToken: string, refresh: Option<string>, expiry: Num)
      modifies this
      ensures storage == StoreCapture(old(storage), idToken, refresh, expiry)
      ensures token == old(token) && hash == old(hash) && posted == old(posted)
    {
      storage := storage[IdTokenKey := idToken];
      storage := storage[AccessTokenKey := idToken];
      if Truthy(refresh) {
        storage := storage[RefreshTokenKey := refresh.value];
      }
      storage := storage[ExpiryKey := ToString(expiry)];
    }

    /**
     * The second arm of captureTokens: refresh when due, clearing all of
     * localStorage if the refresh yields no token; otherwise reuse the stored token.
     */
    method ResumeStored(now: int, endpoint: string -> Exchange, later: int)
      requires Valid()
      modifies this
      ensures Valid()
      ensures hash == old(hash)
      ensures !RefreshDue(old(storage), now) ==>
        && storage == old(storage) && posted == old(posted)
        && token == (if Truthy(Get(old(storage), IdTokenKey)) then Get(old(storage), IdTokenKey) else old(token))
      ensures RefreshDue(old(storage), now) ==>
        && posted == old(posted) + (if Truthy(Get(old(storage), RefreshTokenKey)) then [old(storage)[RefreshTokenKey]] else [])
        && match RefreshResult(old(storage), endpoint)
           case Rejected => storage == old(storage) && token == old(token)
           case Resolved(None) => storage == map[] && token == None
           case Resolved(Some(t)) => storage == StoreAfterRefresh(old(storage), endpoint, later) && token == Some(t)
    {
      var storedToken := Get(storage, IdTokenKey);
      if RefreshDue(storage, now) {
        var newToken := RefreshToken(endpoint, later);
        match newToken {
          case Rejected =>
          case Resolved(t) =>
            if Truthy(t) {
              token := t;
            } else {
              storage := map[];
              token := None;
            }
        }
      } else if Truthy(storedToken) {
        token := storedToken;
      }
    }

    /**
     * captureTokens: with a hash, store the token it carries (if any) and clear
     * the hash; without one, refresh when due, clearing all of localStorage if
     * the refresh yields no token, or else reuse the stored token. A rejected
     * refresh leaves everything as it was.
     */
    method CaptureTokens(now: int, endpoint: string -> Exchange, later: int)
      requires Valid()
      modifies this
      ensures Valid()
      ensures old(hash) != "" ==>
        var params := ParseQuery(RemoveFirst(old(hash), '#'));
        var idToken := HashToken(params);
        && posted == old(posted)
        && (Truthy(idToken) ==>
              && storage == StoreCapture(old(storage), idToken.value, Param(params, "refresh_token"),
                                         CaptureExpiry(now, Param(params, "expires_in")))
              && token == idToken && hash == "")
        && (!Truthy(idToken) ==> storage == old(storage) && token == old(token) && hash == old(hash))
      ensures old(hash) == "" && !RefreshDue(old(storage), now) ==>
        && storage == old(storage) && hash == old(hash) && posted == old(posted)
        && token == (if Truthy(Get(old(storage), IdTokenKey)) then Get(old(storage), IdTokenKey) else old(token))
      ensures old(hash) == "" && RefreshDue(old(storage), now) ==>
        && hash == old(hash)
        && posted == old(posted) + (if Truthy(Get(old(storage), RefreshTokenKey)) then [old(storage)[RefreshTokenKey]] else [])
        && match RefreshResult(old(storage), endpoint)
           case Rejected => storage == old(storage) && token == old(token)
           case Resolved(None) => storage == map[] && token == None
           case Resolved(Some(t)) => storage == StoreAfterRefresh(old(storage), endpoint, later) && token == Some(t)
    {
      if hash != "" {
        CaptureFromHash(now);
      } else {
        ResumeStored(now, endpoint, later);
      }
    }

    /** logout: remove the four session keys, keep every other entry, and forget the token. */
    method Logout()
      requires Valid()
      modifies this
      ensures Valid()
      ensures storage == WithoutSession(old(storage))
      ensures token == None
      ensures hash == old(hash) && posted == old(posted)
    {
      storage := storage - {IdTokenKey};
      storage := storage - {AccessTokenKey};
      storage := storage - {RefreshTokenKey};
      storage := storage - {ExpiryKey};
      assert storage.Keys == old(storage).Keys - SessionKeys;
      token := None;
    }
  }
}
