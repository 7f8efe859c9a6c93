/** The values an options extension derives for the rest of the framework,
    through the `ExtensionInfo` object it creates on first use: the 64-bit
    service-provider hash (memoised), the redacted debug-info entries, and the
    log fragment (memoised). */
module CosmosExtensionInfo {
  import opened Wrappers
  import opened DotNet
  import opened CosmosOptions

  /** The `GetHashCode` implementations of types outside this model, as
      functions fixed for the lifetime of the process: `string` (randomised per
      process on .NET Core), the `IWebProxy` instance, and `TimeSpan`. */
  datatype Hashing = Hashing(str: string -> int32, proxy: ProxyRef -> int32, span: TimeSpan -> int32)

  /** `string.IsNullOrEmpty`. */
  predicate IsNullOrEmpty(s: Option<string>) {
    s.None? || s.value == ""
  }

  /** The settings on which the hash and the debug info do not dereference a
      null string: a non-empty connection string, or else both an endpoint and
      a key. */
  predicate HashDefined(o: Options) {
    !IsNullOrEmpty(o.connectionString) || (o.accountEndpoint.Some? && o.accountKey.Some?)
  }

  /** `value?.GetHashCode() ?? 0`. */
  function OrZero<T>(v: Option<T>, hash: T -> int32): int32 {
    match v
    case None => 0
    case Some(x) => hash(x)
  }

  // ---------------------------------------------------------------------------
  // Service-provider hash
  // ---------------------------------------------------------------------------

  /** The three odd constants the fold multiplies by. */
  datatype Multiplier = Times3 | Times131 | Times397

  function Factor(m: Multiplier): nat {
    match m
    case Times3 => 3
    case Times131 => 131
    case Times397 => 397
  }

  /** `h * m` in wrapping `long` arithmetic. */
  function Scale(h: uint64, m: Multiplier): uint64 {
    MulWrap(h, Factor(m))
  }

  /** One step of the fold, `hashCode = (hashCode * m) ^ contribution`, with
      the `int` contribution widened to a `long`. Xor-ing the widened
      contribution back in recovers the scaled running hash. */
  function Step(h: uint64, m: Multiplier, contribution: int32): (r: uint64)
    ensures Xor(r, Widen(contribution)) == Scale(h, m)
  {
    XorCancel(Scale(h, m), Widen(contribution));
    LongXor(Scale(h, m), Widen(contribution))
  }

  /** The seed of the fold: the connection string's hash when it is non-empty,
      otherwise the endpoint's hash folded with the key's. */
  function IdentityHash(o: Options, env: Hashing): (r: uint64)
    requires HashDefined(o)
    ensures !IsNullOrEmpty(o.connectionString) ==> Signed(r) == env.str(o.connectionString.value)
    ensures IsNullOrEmpty(o.connectionString) ==>
              Xor(r, Widen(env.str(o.accountKey.value))) == Scale(Widen(env.str(o.accountEndpoint.value)), Times397)
  {
    if !IsNullOrEmpty(o.connectionString) then
      Widen(env.str(o.connectionString.value))
    else
      Step(Widen(env.str(o.accountEndpoint.value)), Times397, env.str(o.accountKey.value))
  }

  /** `GetServiceProviderHashCode` when nothing is cached: the identity seed,
      then ten settings in a fixed order, which is the left fold of `Step`
      over the multipliers and the settings' contributions. The database name
      and the execution strategy factory take no part. */
  function ServiceProviderHash(o: Options, env: Hashing): (r: uint64)
    requires HashDefined(o)
    ensures r == Fold(IdentityHash(o, env), Multipliers, Contributions(o, env))
  {
    var h := IdentityHash(o, env);
    var h := Step(h, Times397, OrZero(o.region, env.str));
    var h := Step(h, Times3, OrZero(o.connectionMode, IntHash));
    var h := Step(h, Times3, OrZero(o.limitToEndpoint, BoolHash));
    var h := Step(h, Times397, OrZero(o.webProxy, env.proxy));
    var h := Step(h, Times397, OrZero(o.requestTimeout, env.span));
    var h := Step(h, Times397, OrZero(o.openTcpConnectionTimeout, env.span));
    var h := Step(h, Times397, OrZero(o.idleTcpConnectionTimeout, env.span));
    var h := Step(h, Times131, OrZero(o.gatewayModeMaxConnectionLimit, IntHash));
    var h := Step(h, Times397, OrZero(o.maxTcpConnectionsPerEndpoint, IntHash));
    Step(h, Times131, OrZero(o.maxRequestsPerTcpConnection, IntHash))
  }

  /** The multipliers of the ten setting steps, in order. */
  const Multipliers: seq<Multiplier> :=
    [Times397, Times3, Times3, Times397, Times397, Times397, Times397, Times131, Times397, Times131]

  /** The ten settings' contributions, in the order they are folded in. */
  function Contributions(o: Options, env: Hashing): (r: seq<int32>)
    ensures |r| == |Multipliers|
  {
    [ OrZero(o.region, env.str),
      OrZero(o.connectionMode, IntHash),
      OrZero(o.limitToEndpoint, BoolHash),
      OrZero(o.webProxy, env.proxy),
      OrZero(o.requestTimeout, env.span),
      OrZero(o.openTcpConnectionTimeout, env.span),
      OrZero(o.idleTcpConnectionTimeout, env.span),
      OrZero(o.gatewayModeMaxConnectionLimit, IntHash),
      OrZero(o.maxTcpConnectionsPerEndpoint, IntHash),
      OrZero(o.maxRequestsPerTcpConnection, IntHash) ]
  }

  /** Folds `Step` over paired multipliers and contributions, left to right. */
  function Fold(h: uint64, ms: seq<Multiplier>, vs: seq<int32>): uint64
    requires |ms| == |vs|
    decreases |ms|
  {
    if |ms| == 0 then h else Fold(Step(h, ms[0], vs[0]), ms[1..], vs[1..])
  }

  /** The multiplicative inverse of each constant modulo 2^64. */
  function Inverse(m: Multiplier): nat {
    match m
    case Times3 => 0xaaaa_aaaa_aaaa_aaab
    case Times131 => 0x03e8_8cb3_c948_4e2b
    case Times397 => 0x0294_4ff5_aec0_2945
  }

  /** Multiplying by the inverse undoes a scaling. */
  lemma ScaleInverse(a: uint64, m: Multiplier)
    ensures MulWrap(Scale(a, m), Inverse(m)) == a
  {
    var c, d := Factor(m), Inverse(m);
    var k := (c * d - 1) / TwoTo64;
    assert c * d == 1 + k * TwoTo64 by {
      match m
      case Times3 =>
      case Times131 =>
      case Times397 =>
    }
    ModMul(a * c, d);
    assert a * c * d == a + (a * k) * TwoTo64;
    ModAddMultiple(a, a * k);
  }

  /** Multiplying by one of the (odd) constants loses nothing. */
  lemma ScaleInjective(a: uint64, b: uint64, m: Multiplier)
    ensures Scale(a, m) == Scale(b, m) <==> a == b
  {
    ScaleInverse(a, m);
    ScaleInverse(b, m);
  }

  /** A step keeps different running hashes apart. */
  lemma StepInjectiveInHash(h1: uint64, h2: uint64, m: Multiplier, v: int32)
    ensures Step(h1, m, v) == Step(h2, m, v) <==> h1 == h2
  {
    XorInjective(Scale(h1, m), Scale(h2, m), Widen(v));
    ScaleInjective(h1, h2, m);
  }

  /** A step keeps different contributions apart. */
  lemma StepInjectiveInContribution(h: uint64, m: Multiplier, v1: int32, v2: int32)
    ensures Step(h, m, v1) == Step(h, m, v2) <==> v1 == v2
  {
    XorSymmetric(Scale(h, m), Widen(v1));
    XorSymmetric(Scale(h, m), Widen(v2));
    XorInjective(Widen(v1), Widen(v2), Scale(h, m));
    WidenInjective(v1, v2);
  }

  lemma {:induction false} FoldInjectiveInSeed(h1: uint64, h2: uint64, ms: seq<Multiplier>, vs: seq<int32>)
    requires |ms| == |vs|
    ensures Fold(h1, ms, vs) == Fold(h2, ms, vs) <==> h1 == h2
    decreases |ms|
  {
    if |ms| > 0 {
      FoldInjectiveInSeed(Step(h1, ms[0], vs[0]), Step(h2, ms[0], vs[0]), ms[1..], vs[1..]);
      StepInjectiveInHash(h1, h2, ms[0], vs[0]);
    }
  }

  /** Changing exactly one contribution always changes the fold. */
  lemma {:induction false} FoldSeparatesOneContribution(h: uint64, ms: seq<Multiplier>, vs1: seq<int32>, vs2: seq<int32>, k: nat)
    requires |ms| == |vs1| == |vs2|
    requires k < |ms| && vs1[k] != vs2[k]
    requires forall i :: 0 <= i < |ms| && i != k ==> vs1[i] == vs2[i]
    ensures Fold(h, ms, vs1) != Fold(h, ms, vs2)
    decreases |ms|
  {
    if k == 0 {
      StepInjectiveInContribution(h, ms[0], vs1[0], vs2[0]);
      FoldInjectiveInSeed(Step(h, ms[0], vs1[0]), Step(h, ms[0], vs2[0]), ms[1..], vs1[1..]);
      assert vs1[1..] == vs2[1..];
    } else {
      assert vs1[0] == vs2[0];
      FoldSeparatesOneContribution(Step(h, ms[0], vs1[0]), ms[1..], vs1[1..], vs2[1..], k - 1);
    }
  }

  /** Two configurations whose identity seeds agree and whose contributions
      differ in exactly one setting never share a hash. */
  lemma HashSeparatesOneSetting(a: Options, b: Options, env: Hashing, k: nat)
    requires HashDefined(a) && HashDefined(b)
    requires IdentityHash(a, env) == IdentityHash(b, env)
    requires k < |Multipliers| && Contributions(a, env)[k] != Contributions(b, env)[k]
    requires forall i :: 0 <= i < |Multipliers| && i != k ==> Contributions(a, env)[i] == Contributions(b, env)[i]
    ensures ServiceProviderHash(a, env) != ServiceProviderHash(b, env)
  {
    FoldSeparatesOneContribution(IdentityHash(a, env), Multipliers, Contributions(a, env), Contributions(b, env), k);
  }

  /** For instance, two different request limits per TCP connection always
      give two different hashes, everything else being equal. */
  lemma HashSeparatesRequestLimits(o: Options, env: Hashing, limit1: int32, limit2: int32)
    requires HashDefined(o) && limit1 != limit2
    ensures ServiceProviderHash(o.(maxRequestsPerTcpConnection := Some(limit1)), env)
         != ServiceProviderHash(o.(maxRequestsPerTcpConnection := Some(limit2)), env)
  {
    var a, b := o.(maxRequestsPerTcpConnection := Some(limit1)), o.(maxRequestsPerTcpConnection := Some(limit2));
    HashSeparatesOneSetting(a, b, env, 9);
  }

  /** Two configurations with the same ten contributions share a hash exactly
      when their identity seeds agree. */
  lemma HashSeparatesIdentity(a: Options, b: Options, env: Hashing)
    requires HashDefined(a) && HashDefined(b)
    requires Contributions(a, env) == Contributions(b, env)
    ensures ServiceProviderHash(a, env) == ServiceProviderHash(b, env) <==> IdentityHash(a, env) == IdentityHash(b, env)
  {
    FoldInjectiveInSeed(IdentityHash(a, env), IdentityHash(b, env), Multipliers, Contributions(a, env));
  }

  /** The database name and the execution strategy factory never contribute. */
  lemma HashIgnoresDatabaseNameAndFactory(o: Options, env: Hashing, databaseName: Option<string>, factory: Option<StrategyFactoryRef>)
    requires HashDefined(o)
    ensures ServiceProviderHash(o.(databaseName := databaseName, executionStrategyFactory := factory), env)
         == ServiceProviderHash(o, env)
  {
  }

  /** With a non-empty connection string, the endpoint and key do not contribute. */
  lemma HashIgnoresAccountWithConnectionString(o: Options, env: Hashing, endpoint: Option<string>, key: Option<string>)
    requires !IsNullOrEmpty(o.connectionString)
    ensures ServiceProviderHash(o.(accountEndpoint := endpoint, accountKey := key), env) == ServiceProviderHash(o, env)
  {
  }

  /** An empty connection string contributes nothing: it hashes as if unset. */
  lemma HashIgnoresEmptyConnectionString(o: Options, env: Hashing)
    requires HashDefined(o) && IsNullOrEmpty(o.connectionString)
    ensures ServiceProviderHash(o.(connectionString := None), env) == ServiceProviderHash(o, env)
  {
  }

  /** An unset setting contributes 0, the same as a setting whose own hash is 0:
      an unset limit and a limit of 0 share a hash, and so do an unset
      `LimitToEndpoint` and `false`. */
  lemma UnsetHashesLikeZero(o: Options, env: Hashing)
    requires HashDefined(o)
    ensures ServiceProviderHash(o.(maxRequestsPerTcpConnection := None), env)
         == ServiceProviderHash(o.(maxRequestsPerTcpConnection := Some(0)), env)
    ensures ServiceProviderHash(o.(maxTcpConnectionsPerEndpoint := None), env)
         == ServiceProviderHash(o.(maxTcpConnectionsPerEndpoint := Some(0)), env)
    ensures ServiceProviderHash(o.(gatewayModeMaxConnectionLimit := None), env)
         == ServiceProviderHash(o.(gatewayModeMaxConnectionLimit := Some(0)), env)
    ensures ServiceProviderHash(o.(limitToEndpoint := None), env)
         == ServiceProviderHash(o.(limitToEndpoint := Some(false)), env)
  {
  }

  // ---------------------------------------------------------------------------
  // Debug info
  // ---------------------------------------------------------------------------

  const ConnectionStringKey: string := "Cosmos:ConnectionString"
  const AccountEndpointKey: string := "Cosmos:AccountEndpoint"
  const AccountKeyKey: string := "Cosmos:AccountKey"
  const RegionKey: string := "Cosmos:Region"

  /** The entries `PopulateDebugInfo` writes. */
  function DebugKeys(o: Options): set<string> {
    if !IsNullOrEmpty(o.connectionString) then {ConnectionStringKey, RegionKey}
    else {AccountEndpointKey, AccountKeyKey, RegionKey}
  }

  /** `hash.ToString(CultureInfo.InvariantCulture)` of an `int` hash code. */
  function HashText(hash: int32): (s: string)
    ensures IsNumeral(s)
    ensures ParseInt(s) == Some(hash as int)
    ensures s[0] == '-' <==> hash < 0
    ensures hash == 0 ==> s == "0"
  {
    ParseFormatInt(hash);
    FormatInt(hash)
  }

  /** `PopulateDebugInfo`: records the hash of the connection string, or of the
      endpoint and the key, and of the region, each as decimal text; every
      other entry of the map is left as it was. A null map is refused first,
      with `ArgumentNullException`, before any setting is read. */
  function PopulateDebugInfo(o: Options, debugInfo: Option<map<string, string>>, env: Hashing): (r: Result<map<string, string>, Error>)
    requires debugInfo.None? || HashDefined(o)
    ensures r.Failure? <==> debugInfo.None?
    ensures r.Failure? ==> r.error == ArgumentNull("debugInfo")
    ensures r.Success? ==> r.value.Keys == debugInfo.value.Keys + DebugKeys(o)
    ensures r.Success? ==> forall k :: k in debugInfo.value && k !in DebugKeys(o) ==> r.value[k] == debugInfo.value[k]
    ensures r.Success? ==> forall k :: k in DebugKeys(o) ==> IsNumeral(r.value[k])
    ensures r.Success? && !IsNullOrEmpty(o.connectionString) ==>
              ParseInt(r.value[ConnectionStringKey]) == Some(env.str(o.connectionString.value) as int)
    ensures r.Success? && IsNullOrEmpty(o.connectionString) ==>
              && ParseInt(r.value[AccountEndpointKey]) == Some(env.str(o.accountEndpoint.value) as int)
              && ParseInt(r.value[AccountKeyKey]) == Some(env.str(o.accountKey.value) as int)
    ensures r.Success? ==> ParseInt(r.value[RegionKey]) == Some(OrZero(o.region, env.str) as int)
    ensures r.Success? && o.region.None? ==> r.value[RegionKey] == "0"
  {
    match debugInfo
    case None => Failure(ArgumentNull("debugInfo"))
    case Some(sink) =>
      var withIdentity :=
        if !IsNullOrEmpty(o.connectionString) then
          sink[ConnectionStringKey := HashText(env.str(o.connectionString.value))]
        else
          sink[AccountEndpointKey := HashText(env.str(o.accountEndpoint.value))]
              [AccountKeyKey := HashText(env.str(o.accountKey.value))];
      Success(withIdentity[RegionKey := HashText(OrZero(o.region, env.str))])
  }

  /** The debug info never shows a secret verbatim unless the secret itself
      reads as a number. */
  lemma DebugInfoHidesSecrets(o: Options, debugInfo: map<string, string>, env: Hashing, k: string, secret: string)
    requires HashDefined(o) && k in DebugKeys(o)
    requires o.connectionString == Some(secret) || o.accountEndpoint == Some(secret) || o.accountKey == Some(secret)
    requires !IsNumeral(secret)
    ensures PopulateDebugInfo(o, Some(debugInfo), env).value[k] != secret
  {
  }

  /** The debug info sees the secrets only through their hashes: configurations
      whose identity strings hash alike produce the same entries. */
  lemma DebugInfoSeesOnlyHashes(a: Options, b: Options, debugInfo: map<string, string>, env: Hashing)
    requires HashDefined(a) && HashDefined(b)
    requires IsNullOrEmpty(a.connectionString) == IsNullOrEmpty(b.connectionString)
    requires !IsNullOrEmpty(a.connectionString) ==>
               env.str(a.connectionString.value) == env.str(b.connectionString.value)
    requires IsNullOrEmpty(a.connectionString) ==>
               && env.str(a.accountEndpoint.value) == env.str(b.accountEndpoint.value)
               && env.str(a.accountKey.value) == env.str(b.accountKey.value)
    requires OrZero(a.region, env.str) == OrZero(b.region, env.str)
    ensures PopulateDebugInfo(a, Some(debugInfo), env) == PopulateDebugInfo(b, Some(debugInfo), env)
  {
  }

  // ---------------------------------------------------------------------------
  // Log fragment
  // ---------------------------------------------------------------------------

  const EndPointLabel: string := "ServiceEndPoint="
  const DatabaseLabel: string := "Database="

  /** `StringBuilder.Append(string)`: a null string appends nothing. */
  function Append(builder: string, s: Option<string>): string {
    match s
    case None => builder
    case Some(text) => builder + text
  }

  /** The log fragment when nothing is cached: the endpoint and the database
      name, each after its label and followed by a space, unset ones empty. */
  function LogFragmentOf(o: Options): (r: string)
    ensures var endpoint, database := o.accountEndpoint.GetOr(""), o.databaseName.GetOr("");
            var databaseAt := |EndPointLabel| + |endpoint| + 1;
            && |r| == databaseAt + |DatabaseLabel| + |database| + 1
            && r[..|EndPointLabel|] == EndPointLabel
            && r[|EndPointLabel|..databaseAt - 1] == endpoint
            && r[databaseAt - 1] == ' '
            && r[databaseAt..databaseAt + |DatabaseLabel|] == DatabaseLabel
            && r[databaseAt + |DatabaseLabel|..|r| - 1] == database
            && r[|r| - 1] == ' '
  {
    var builder := Append(Append("", Some(EndPointLabel)), o.accountEndpoint) + " ";
    Append(Append(builder, Some(DatabaseLabel)), o.databaseName) + " "
  }

  /** The fragment mentions the endpoint and the database name only. */
  lemma LogFragmentShowsOnlyEndpointAndDatabase(a: Options, b: Options)
    requires a.accountEndpoint.GetOr("") == b.accountEndpoint.GetOr("")
    requires a.databaseName.GetOr("") == b.databaseName.GetOr("")
    ensures LogFragmentOf(a) == LogFragmentOf(b)
  {
  }

  // ---------------------------------------------------------------------------
  // The cached Info and its memoised values
  // ---------------------------------------------------------------------------

  /** The extension after a call, with what the call returned. */
  datatype Memo<T> = Memo(state: Extension, value: T)

  predicate HashCached(e: Extension) {
    e.info.Some? && e.info.value.serviceProviderHash.Some?
  }

  predicate LogFragmentCached(e: Extension) {
    e.info.Some? && e.info.value.logFragment.Some?
  }

  /** Every cached value is the one a fresh computation would give. */
  predicate Coherent(e: Extension, env: Hashing) {
    e.info.Some? ==>
      && (e.info.value.serviceProviderHash.Some? ==>
            HashDefined(e.options) && e.info.value.serviceProviderHash.value == ServiceProviderHash(e.options, env))
      && (e.info.value.logFragment.Some? ==> e.info.value.logFragment.value == LogFragmentOf(e.options))
  }

  /** The `Info` property: the cached `ExtensionInfo`, created empty on first use. */
  function Info(e: Extension): (r: Memo<ExtensionInfo>)
    ensures r.state.options == e.options && r.state.info == Some(r.value)
    ensures e.info.Some? ==> r.state == e
    ensures e.info.None? ==> r.value.logFragment.None? && r.value.serviceProviderHash.None?
    ensures forall env: Hashing :: Coherent(e, env) ==> Coherent(r.state, env)
  {
    match e.info
    case Some(info) => Memo(e, info)
    case None =>
      var info := ExtensionInfo(None, None);
      Memo(e.(info := Some(info)), info)
  }

  /** `Info.GetServiceProviderHashCode()`: computed on the first call, then
      answered from the cache. */
  function GetServiceProviderHashCode(e: Extension, env: Hashing): (r: Memo<uint64>)
    requires HashCached(e) || HashDefined(e.options)
    ensures r.state.options == e.options
    ensures HashCached(r.state) && r.state.info.value.serviceProviderHash == Some(r.value)
    ensures r.state.info.value.logFragment == Info(e).value.logFragment
    ensures HashCached(e) ==> r.state == e
    ensures !HashCached(e) ==> r.value == ServiceProviderHash(e.options, env)
    ensures Coherent(e, env) ==> Coherent(r.state, env) && r.value == ServiceProviderHash(e.options, env)
  {
    var m := Info(e);
    match m.value.serviceProviderHash
    case Some(h) => Memo(m.state, h)
    case None =>
      var h := ServiceProviderHash(e.options, env);
      Memo(m.state.(info := Some(m.value.(serviceProviderHash := Some(h)))), h)
  }

  /** `Info.LogFragment`: built on the first read, then answered from the cache. */
  function LogFragment(e: Extension): (r: Memo<string>)
    ensures r.state.options == e.options
    ensures LogFragmentCached(r.state) && r.state.info.value.logFragment == Some(r.value)
    ensures r.state.info.value.serviceProviderHash == Info(e).value.serviceProviderHash
    ensures LogFragmentCached(e) ==> r.state == e
    ensures !LogFragmentCached(e) ==> r.value == LogFragmentOf(e.options)
    ensures forall env: Hashing :: Coherent(e, env) ==> Coherent(r.state, env) && r.value == LogFragmentOf(e.options)
  {
    var m := Info(e);
    match m.value.logFragment
    case Some(s) => Memo(m.state, s)
    case None =>
      var s := LogFragmentOf(e.options);
      Memo(m.state.(info := Some(m.value.(logFragment := Some(s)))), s)
  }

  /** A second hash request returns the first answer and changes nothing. */
  lemma HashMemoised(e: Extension, env: Hashing)
    requires HashCached(e) || HashDefined(e.options)
    ensures var first := GetServiceProviderHashCode(e, env);
            GetServiceProviderHashCode(first.state, env) == first
  {
  }

  /** A second log-fragment read returns the first answer and changes nothing. */
  lemma LogFragmentMemoised(e: Extension)
    ensures var first := LogFragment(e);
            LogFragment(first.state) == first
  {
  }

  /** Reading the log fragment between two hash requests does not disturb the
      cached hash. */
  lemma HashSurvivesLogFragment(e: Extension, env: Hashing)
    requires HashCached(e) || HashDefined(e.options)
    ensures var first := GetServiceProviderHashCode(e, env);
            GetServiceProviderHashCode(LogFragment(first.state).state, env).value == first.value
  {
  }

  /** The hash is a function of the settings alone: two coherent extensions with
      the same settings, however they were built and whatever they have
      cached, report the same hash. */
  lemma HashIndependentOfHistory(a: Extension, b: Extension, env: Hashing)
    requires a.options == b.options && HashDefined(a.options)
    ensures Coherent(a, env) && Coherent(b, env) ==>
              GetServiceProviderHashCode(a, env).value == GetServiceProviderHashCode(b, env).value
  {
  }

  /** An update discards the cached `Info`, so its result is coherent. */
  lemma UpdatedExtensionIsCoherent(e: Extension, f: Field, v: Value, after: Extension, env: Hashing)
    requires Replaced(e, after, f, v)
    ensures Coherent(after, env) && !HashCached(after) && !LogFragmentCached(after)
  {
  }

  /** The guards test for null while the hash tests for null or empty: an empty
      connection string passes the guard, from the default constructor among
      others, but always leaves a configuration on which the hash and the
      debug info would dereference a null endpoint. */
  lemma EmptyConnectionStringLeavesHashUndefined(e: Extension)
    ensures WithConnectionString(Default(), Some("")).Success?
    ensures var r := WithConnectionString(e, Some(""));
            r.Success? ==> !HashDefined(r.value.options) && !HashCached(r.value)
  {
  }
}
