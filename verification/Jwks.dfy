/** The signing-key cache of the OIDC provider: refresh, lookup, and key
    selection (the JWK members `use`, `alg` and `kid` are those of sections
    4.2, 4.4 and 4.5 of RFC 7517). */
module Jwks {
  import opened Text
  import opened Wrappers

  type Instant = nat

  datatype Algorithm =
    | HS256 | HS384 | HS512 | ES256 | ES384 | RS256 | RS384 | RS512 | PS256 | PS384 | PS512 | EdDSA

  datatype Jwk = Jwk(
    kid: Option<string>,
    alg: Option<string>,
    keyUse: Option<string>,
    kty: string,
    n: Option<string>,
    e: Option<string>,
    x: Option<string>,
    y: Option<string>,
    xOkp: Option<string>
  )

  /** Key material as handed to the signature library. */
  datatype DecodingKey = Rsa(n: string, e: string) | Ec(x: string, y: string) | Ed(point: string)

  datatype CachedKey = CachedKey(kid: Option<string>, algorithm: Algorithm, decoding: DecodingKey)

  datatype Cached = Cached(keys: seq<CachedKey>, fetchedAt: Instant)

  /** What a token's header asks for. */
  datatype Header = Header(kid: Option<string>, alg: Algorithm)

  datatype ValidateError = AlgorithmNotAllowed | UnknownSigningKey

  /** Refresh attempts, oldest first. */
  datatype Attempt = Fetched(keySet: Cached) | FetchFailed(at: Instant)

  datatype DiscoveryDoc = DiscoveryDoc(issuer: string, jwksUri: string)

  predicate IsSlash(c: char) {
    c == '/'
  }

  /** Issuers are compared without their trailing slashes. */
  predicate SameIssuer(configured: string, discovered: string) {
    TrimEnd(IsSlash, discovered) == TrimEnd(IsSlash, configured)
  }

  /** Two issuers are the same exactly when they are one core, not ending in a
      slash, each followed by slashes only. */
  lemma SameIssuerExactly(configured: string, discovered: string)
    ensures SameIssuer(configured, discovered)
       <==> exists core, a, b :: (
         && configured == core + a && discovered == core + b && All(IsSlash, a) && All(IsSlash, b)
         && (core == [] || core[|core| - 1] != '/'))
  {
    if SameIssuer(configured, discovered) {
      var a := TrimEndSplits(IsSlash, configured);
      var b := TrimEndSplits(IsSlash, discovered);
      var core := TrimEnd(IsSlash, configured);
      assert configured == core + a && discovered == core + b;
    }
    forall core, a, b | (
        && configured == core + a && discovered == core + b && All(IsSlash, a) && All(IsSlash, b)
        && (core == [] || core[|core| - 1] != '/'))
      ensures SameIssuer(configured, discovered)
    {
      TrimEndSkips(IsSlash, core, a);
      TrimEndSkips(IsSlash, core, b);
    }
  }

  function DeclaredAlgorithm(alg: Option<string>): Option<Algorithm> {
    match alg
    case None => None
    case Some(a) =>
      if a == "RS256" then Some(RS256)
      else if a == "RS384" then Some(RS384)
      else if a == "RS512" then Some(RS512)
      else if a == "ES256" then Some(ES256)
      else if a == "ES384" then Some(ES384)
      else if a == "EdDSA" then Some(EdDSA)
      else None
  }

  function DefaultAlgorithm(kty: string): Option<Algorithm> {
    if kty == "RSA" then Some(RS256)
    else if kty == "EC" then Some(ES256)
    else if kty == "OKP" then Some(EdDSA)
    else None
  }

  function Material(jwk: Jwk): Option<DecodingKey> {
    if jwk.kty == "RSA" then
      if jwk.n.Some? && jwk.e.Some? then Some(Rsa(jwk.n.value, jwk.e.value)) else None
    else if jwk.kty == "EC" then
      if jwk.x.Some? && jwk.y.Some? then Some(Ec(jwk.x.value, jwk.y.value)) else None
    else if jwk.kty == "OKP" then
      var point := jwk.x.Or(jwk.xOkp);
      if point.Some? then Some(Ed(point.value)) else None
    else None
  }

  /** `decodes` says which material the signature library accepts. */
  function ConvertJwk(jwk: Jwk, decodes: DecodingKey -> bool): Option<CachedKey> {
    var alg := DeclaredAlgorithm(jwk.alg).Or(DefaultAlgorithm(jwk.kty));
    var material := Material(jwk);
    if alg.Some? && material.Some? && decodes(material.value)
    then Some(CachedKey(jwk.kid, alg.value, material.value))
    else None
  }

  /** The key a published JWK contributes to the cache, if any. */
  function UsableKey(jwk: Jwk, algorithms: seq<Algorithm>, decodes: DecodingKey -> bool): Option<CachedKey> {
    if jwk.keyUse.Some? && jwk.keyUse.value != "sig" then None
    else
      match ConvertJwk(jwk, decodes)
      case Some(k) => if k.algorithm in algorithms then Some(k) else None
      case None => None
  }

  function UsableKeys(jwks: seq<Jwk>, algorithms: seq<Algorithm>, decodes: DecodingKey -> bool): seq<CachedKey> {
    if jwks == [] then []
    else
      var n := |jwks| - 1;
      UsableKeys(jwks[..n], algorithms, decodes)
      + match UsableKey(jwks[n], algorithms, decodes) case Some(k) => [k] case None => []
  }

  predicate Answers(k: CachedKey, h: Header) {
    k.algorithm == h.alg && (h.kid.Some? ==> k.kid == h.kid)
  }

  /** A key of the algorithm, and of the identifier if one is asked for. */
  ghost predicate Suits(k: CachedKey, alg: Algorithm, kid: Option<string>) {
    k.algorithm == alg && (kid == None || k.kid == kid)
  }

  /** The first cached key that answers the header. */
  function Find(keys: seq<CachedKey>, h: Header): (r: Option<CachedKey>)
    ensures r.Some? ==> exists i :: (
      && 0 <= i < |keys| && keys[i] == r.value && Suits(keys[i], h.alg, h.kid)
      && forall j :: 0 <= j < i ==> !Suits(keys[j], h.alg, h.kid))
    ensures r.None? ==> forall k :: k in keys ==> !Suits(k, h.alg, h.kid)
  {
    if keys == [] then None
    else if Answers(keys[0], h) then Some(keys[0])
    else Find(keys[1..], h)
  }

  /** The key set of the last successful attempt. */
  function LastFetched(attempts: seq<Attempt>): Option<Cached> {
    if attempts == [] then None
    else
      match attempts[|attempts| - 1]
      case Fetched(c) => Some(c)
      case FetchFailed(_) => LastFetched(attempts[..|attempts| - 1])
  }

  lemma LastFetchedSnoc(attempts: seq<Attempt>, a: Attempt)
    ensures LastFetched(attempts + [a]) ==
      match a case Fetched(c) => Some(c) case FetchFailed(_) => LastFetched(attempts)
  {
    assert (attempts + [a])[..|attempts|] == attempts;
  }

  lemma {:induction false} UsableKeysMeaning(jwks: seq<Jwk>, algorithms: seq<Algorithm>,
                                             decodes: DecodingKey -> bool, k: CachedKey)
    ensures k in UsableKeys(jwks, algorithms, decodes)
       <==> exists j :: j in jwks && UsableKey(j, algorithms, decodes) == Some(k)
  {
    if jwks != [] {
      var n := |jwks| - 1;
      UsableKeysMeaning(jwks[..n], algorithms, decodes, k);
      assert jwks == jwks[..n] + [jwks[n]];
    }
  }

  /** Cached keys keep the published order. */
  lemma {:induction false} UsableKeysInOrder(a: seq<Jwk>, b: seq<Jwk>, algorithms: seq<Algorithm>,
                                             decodes: DecodingKey -> bool)
    ensures UsableKeys(a + b, algorithms, decodes)
         == UsableKeys(a, algorithms, decodes) + UsableKeys(b, algorithms, decodes)
    decreases |b|
  {
    hide UsableKey;
    if b == [] {
      assert a + b == a;
    } else {
      var n := |b| - 1;
      UsableKeysInOrder(a, b[..n], algorithms, decodes);
      assert (a + b)[..|a + b| - 1] == a + b[..n];
      var last := match UsableKey(b[n], algorithms, decodes) case Some(k) => [k] case None => [];
      Associative(UsableKeys(a, algorithms, decodes), UsableKeys(b[..n], algorithms, decodes), last);
    }
  }

  /** The algorithm a published key is for: the one it declares if that is one
      of six, else what its type stands for. */
  const DECLARED: map<string, Algorithm> := map[
    "RS256" := RS256, "RS384" := RS384, "RS512" := RS512, "ES256" := ES256, "ES384" := ES384, "EdDSA" := EdDSA
  ]
  const BY_TYPE: map<string, Algorithm> := map["RSA" := RS256, "EC" := ES256, "OKP" := EdDSA]

  ghost predicate IsFor(j: Jwk, alg: Algorithm) {
    if j.alg.Some? && j.alg.value in DECLARED then alg == DECLARED[j.alg.value]
    else j.kty in BY_TYPE && alg == BY_TYPE[j.kty]
  }

  /** The published members the key material is made of, by key type. */
  ghost predicate Carries(j: Jwk, material: DecodingKey) {
    match material
    case Rsa(n, e) => j.kty == "RSA" && j.n == Some(n) && j.e == Some(e)
    case Ec(x, y) => j.kty == "EC" && j.x == Some(x) && j.y == Some(y)
    case Ed(point) => j.kty == "OKP" && (j.x == Some(point) || (j.x == None && j.xOkp == Some(point)))
  }

  /** A published key is cached exactly when it is not reserved for something
      other than signatures, is for an allowed algorithm, and carries material
      the signature library accepts; it keeps its identifier. */
  lemma UsableExactly(j: Jwk, algorithms: seq<Algorithm>, decodes: DecodingKey -> bool, k: CachedKey)
    ensures UsableKey(j, algorithms, decodes) == Some(k)
       <==> (
         && (j.keyUse == None || j.keyUse == Some("sig"))
         && IsFor(j, k.algorithm) && k.algorithm in algorithms
         && Carries(j, k.decoding) && decodes(k.decoding)
         && k.kid == j.kid)
  {
    AlgorithmIsFor(j, k.algorithm);
    MaterialCarried(j, k.decoding);
    hide DeclaredAlgorithm, DefaultAlgorithm, Material, IsFor, Carries;
  }

  lemma AlgorithmIsFor(j: Jwk, alg: Algorithm)
    ensures DeclaredAlgorithm(j.alg).Or(DefaultAlgorithm(j.kty)) == Some(alg) <==> IsFor(j, alg)
  {
  }

  lemma MaterialCarried(j: Jwk, material: DecodingKey)
    ensures Material(j) == Some(material) <==> Carries(j, material)
  {
  }

  /** Only allow-listed algorithms and only keys not reserved for encryption
      survive the filter. */
  lemma UsableKeysAllowed(jwks: seq<Jwk>, algorithms: seq<Algorithm>, decodes: DecodingKey -> bool)
    ensures forall k :: k in UsableKeys(jwks, algorithms, decodes) ==> k.algorithm in algorithms
  {
    forall k | k in UsableKeys(jwks, algorithms, decodes)
      ensures k.algorithm in algorithms
    {
      UsableKeysMeaning(jwks, algorithms, decodes, k);
    }
  }

  /** A published `alg` is honoured exactly when it is one of the six the
      converter knows; any other value is ignored and the key type's default
      is used, so a key published for `PS256` is cached for `RS256`. */
  lemma DeclaredAlgorithmHonoured(jwk: Jwk, decodes: DecodingKey -> bool)
    requires ConvertJwk(jwk, decodes).Some? && jwk.alg.Some?
    ensures var algorithm := ConvertJwk(jwk, decodes).value.algorithm;
      if jwk.alg.value in {"RS256", "RS384", "RS512", "ES256", "ES384", "EdDSA"}
      then Some(algorithm) == DeclaredAlgorithm(jwk.alg)
      else Some(algorithm) == DefaultAlgorithm(jwk.kty)
  {
  }

  class OidcProvider {
    const algorithms: seq<Algorithm>
    const ttl: nat
    const decodes: DecodingKey -> bool
    var cache: Option<Cached>
    ghost var attempts: seq<Attempt>

    /** The cache is the last fetched set, and never an empty or
        disallowed one. */
    ghost predicate Valid()
      reads this
    {
      && cache == LastFetched(attempts)
      && (cache.Some? ==> (
        && cache.value.keys != []
        && forall k :: k in cache.value.keys ==> k.algorithm in algorithms))
    }

    constructor (algorithms: seq<Algorithm>, ttl: nat, decodes: DecodingKey -> bool)
      ensures Valid() && attempts == [] && cache == None
      ensures this.algorithms == algorithms && this.ttl == ttl && this.decodes == decodes
    {
      this.algorithms, this.ttl, this.decodes := algorithms, ttl, decodes;
      cache := None;
      attempts := [];
    }

    /** `response` is the published key set, or none when the fetch failed. */
    method RefreshKeysInner(response: Option<seq<Jwk>>, now: Instant) returns (ok: bool)
      requires Valid()
      modifies this
      ensures Valid()
      ensures ok <==> response.Some? && UsableKeys(response.value, algorithms, decodes) != []
      ensures ok ==> cache == Some(Cached(UsableKeys(response.value, algorithms, decodes), now))
      ensures !ok ==> cache == old(cache)
      ensures old(cache).Some? ==> cache.Some?
      ensures attempts == old(attempts) + [if ok then Fetched(cache.value) else FetchFailed(now)]
    {
      if response.None? {
        LastFetchedSnoc(attempts, FetchFailed(now));
        attempts := attempts + [FetchFailed(now)];
        return false;
      }
      var jwks := response.value;
      var keys := [];
      for i := 0 to |jwks|
        invariant keys == UsableKeys(jwks[..i], algorithms, decodes)
      {
        var jwk := jwks[i];
        assert jwks[..i + 1][..i] == jwks[..i];
        if jwk.keyUse.Some? && jwk.keyUse.value != "sig" {
          continue;
        }
        var k := ConvertJwk(jwk, decodes);
        if k.Some? && k.value.algorithm in algorithms {
          keys := keys + [k.value];
        }
      }
      assert jwks[..|jwks|] == jwks;
      if keys == [] {
        LastFetchedSnoc(attempts, FetchFailed(now));
        attempts := attempts + [FetchFailed(now)];
        return false;
      }
      UsableKeysAllowed(jwks, algorithms, decodes);
      LastFetchedSnoc(attempts, Fetched(Cached(keys, now)));
      cache := Some(Cached(keys, now));
      attempts := attempts + [Fetched(cache.value)];
      return true;
    }

    /** `connect`: a provider exists exactly when an issuer is configured, its
        discovery document was fetched and names that issuer up to trailing
        slashes, and the key set it leads to has a usable key; its cache is then
        filled for good. */
    static method Connect(issuer: string, algorithms: seq<Algorithm>, ttl: nat, decodes: DecodingKey -> bool,
                          discovery: Option<DiscoveryDoc>, fetch: string -> Option<seq<Jwk>>, now: Instant)
      returns (provider: OidcProvider?)
      ensures provider != null <==> (
        && issuer != [] && discovery.Some? && SameIssuer(issuer, discovery.value.issuer)
        && fetch(discovery.value.jwksUri).Some?
        && UsableKeys(fetch(discovery.value.jwksUri).value, algorithms, decodes) != [])
      ensures provider != null ==> (
        && fresh(provider) && provider.Valid()
        && provider.algorithms == algorithms && provider.ttl == ttl && provider.decodes == decodes
        && provider.cache
             == Some(Cached(UsableKeys(fetch(discovery.value.jwksUri).value, algorithms, decodes), now)))
    {
      if issuer == [] || discovery.None? || !SameIssuer(issuer, discovery.value.issuer) {
        return null;
      }
      var candidate := new OidcProvider(algorithms, ttl, decodes);
      var ok := candidate.RefreshKeysInner(fetch(discovery.value.jwksUri), now);
      if ok {
        provider := candidate;
      } else {
        provider := null;
      }
    }

    function Lookup(h: Header): Option<CachedKey>
      reads this
    {
      match cache case None => None case Some(c) => Find(c.keys, h)
    }

    predicate CacheStale(now: Instant)
      reads this
    {
      match cache case None => true case Some(c) => now - c.fetchedAt > ttl
    }

    /** Key selection of `validate`, up to the signature check. `checked` is
        the time of the staleness test and `fetched` that of the refresh it may
        trigger. */
    method SelectKey(h: Header, response: Option<seq<Jwk>>, checked: Instant, fetched: Instant)
      returns (r: Result<CachedKey, ValidateError>)
      requires Valid() && checked <= fetched
      modifies this
      ensures Valid()
      ensures r == Err(AlgorithmNotAllowed) <==> h.alg !in algorithms
      // at most one refresh, and only when it could help
      ensures attempts == old(attempts)
        || (|attempts| == |old(attempts)| + 1 && attempts[..|old(attempts)|] == old(attempts))
      ensures attempts != old(attempts) <==>
        h.alg in algorithms && (old(cache) == None
          || (forall k :: k in old(cache).value.keys ==> !Suits(k, h.alg, h.kid))
          || checked - old(cache).value.fetchedAt > ttl)
      // the key comes from the cache as it is now, and matches the header
      ensures r.Ok? ==> cache.Some? && r.value in cache.value.keys
      ensures r.Ok? ==> r.value.algorithm == h.alg && r.value.algorithm in algorithms
      ensures r.Ok? && h.kid.Some? ==> r.value.kid == h.kid
      // it is the first such key
      ensures r.Ok? ==> exists i :: (
        && 0 <= i < |cache.value.keys| && cache.value.keys[i] == r.value
        && forall j :: 0 <= j < i ==> !Suits(cache.value.keys[j], h.alg, h.kid))
      ensures old(cache).Some? ==> cache.Some?
      ensures r == Err(UnknownSigningKey) <==>
        h.alg in algorithms && (cache.None? || forall k :: k in cache.value.keys ==> !Suits(k, h.alg, h.kid))
      // freshness, unless a refresh was tried here and failed
      ensures r.Ok? ==> (
        || checked - cache.value.fetchedAt <= ttl
        || (attempts != old(attempts) && attempts[|attempts| - 1].FetchFailed? && cache == old(cache)))
      ensures attempts == old(attempts) ==> cache == old(cache)
      // the refresh itself: it takes the published keys if any is usable
      ensures attempts != old(attempts) && response.Some? && UsableKeys(response.value, algorithms, decodes) != [] ==>
        cache == Some(Cached(UsableKeys(response.value, algorithms, decodes), fetched))
      ensures attempts != old(attempts) && cache != old(cache) ==> response.Some?
    {
      if h.alg !in algorithms {
        return Err(AlgorithmNotAllowed);
      }
      var key := Lookup(h);
      if key.None? || CacheStale(checked) {
        var _ := RefreshKeysInner(response, fetched);
        assert |attempts| == |old(attempts)| + 1;
        key := Lookup(h);
      }
      if key.None? {
        return Err(UnknownSigningKey);
      }
      return Ok(key.value);
    }
  }

  /** A key identifier in the token is not required, although the threat model
      asks for one: a header without it is answered exactly when some key of
      the right algorithm is cached. */
  lemma MissingKidAnswered(keys: seq<CachedKey>, alg: Algorithm)
    ensures Find(keys, Header(None, alg)).Some? <==> exists k :: k in keys && k.algorithm == alg
  {
    if k :| k in keys && k.algorithm == alg {
      assert Suits(k, alg, None);
    }
  }

  /** After the first success the last fetched set never goes away: over any
      continuation of the attempts the cache stays filled. */
  lemma {:induction false} CacheNeverEmpties(attempts: seq<Attempt>, more: seq<Attempt>)
    requires LastFetched(attempts).Some?
    ensures LastFetched(attempts + more).Some?
    ensures (forall a :: a in more ==> a.FetchFailed?) ==> LastFetched(attempts + more) == LastFetched(attempts)
    decreases |more|
  {
    if more == [] {
      assert attempts + more == attempts;
    } else {
      var n := |more| - 1;
      CacheNeverEmpties(attempts, more[..n]);
      assert attempts + more == attempts + more[..n] + [more[n]];
      LastFetchedSnoc(attempts + more[..n], more[n]);
      assert more[n] in more && forall a :: a in more[..n] ==> a in more;
    }
  }
}
