/** The Cosmos provider's options extension: an immutable record of fifteen
    optional settings, updated copy-on-write by one `With*` operation per
    setting. Four of the updates are guarded: the account endpoint and the
    account key each exclude a connection string, the connection string
    excludes both, and the connection mode must be one of the enum's declared
    values.

    The string and proxy arguments carry JetBrains `[NotNull]` annotations,
    which only inform static analysis: the bodies store whatever they are
    given, so a `null` argument (`None`) clears its field. */
module CosmosOptions {
  import opened Wrappers
  import opened DotNet

  /** An `IWebProxy` instance, known only by its identity. */
  datatype ProxyRef = ProxyRef(id: nat)

  /** A `Func<ExecutionStrategyDependencies, IExecutionStrategy>` delegate, known
      only by its identity. */
  datatype StrategyFactoryRef = StrategyFactoryRef(id: nat)

  /** A `TimeSpan`, as its tick count; two are equal when their counts are. */
  datatype TimeSpan = TimeSpan(ticks: int)

  /** The fifteen settings; `None` is the C# `null` of an unset field. A
      connection mode is the underlying `int` of a `ConnectionMode` value. */
  datatype Options = Options(
    accountEndpoint: Option<string>,
    accountKey: Option<string>,
    connectionString: Option<string>,
    databaseName: Option<string>,
    region: Option<string>,
    connectionMode: Option<int32>,
    limitToEndpoint: Option<bool>,
    executionStrategyFactory: Option<StrategyFactoryRef>,
    webProxy: Option<ProxyRef>,
    requestTimeout: Option<TimeSpan>,
    openTcpConnectionTimeout: Option<TimeSpan>,
    idleTcpConnectionTimeout: Option<TimeSpan>,
    gatewayModeMaxConnectionLimit: Option<int32>,
    maxTcpConnectionsPerEndpoint: Option<int32>,
    maxRequestsPerTcpConnection: Option<int32>)

  /** The lazily created `ExtensionInfo` with its two memoised values. */
  datatype ExtensionInfo = ExtensionInfo(logFragment: Option<string>, serviceProviderHash: Option<uint64>)

  /** An options extension: its settings and the `Info` object cached on it, if
      one has been created yet. */
  datatype Extension = Extension(options: Options, info: Option<ExtensionInfo>)

  /** The exceptions the extension throws: `InvalidOperationException` with the
      conflicting-configuration message and `ArgumentOutOfRangeException` from
      the updates, and `ArgumentNullException` from the debug-info sink check;
      the last two name the offending parameter. */
  datatype Error =
    | ConnectionStringConflictingConfiguration
    | ArgumentOutOfRange(paramName: string)
    | ArgumentNull(paramName: string)

  // ---------------------------------------------------------------------------
  // A uniform view of the fields, for stating what an update leaves alone
  // ---------------------------------------------------------------------------

  datatype Field =
    | AccountEndpoint | AccountKey | ConnectionString | DatabaseName | Region
    | ConnectionMode | LimitToEndpoint | ExecutionStrategyFactory | WebProxy
    | RequestTimeout | OpenTcpConnectionTimeout | IdleTcpConnectionTimeout
    | GatewayModeMaxConnectionLimit | MaxTcpConnectionsPerEndpoint | MaxRequestsPerTcpConnection

  /** The content of one field, whatever its type. */
  datatype Value =
    | Text(text: Option<string>)
    | Mode(mode: Option<int32>)
    | Flag(flag: Option<bool>)
    | Factory(factory: Option<StrategyFactoryRef>)
    | Proxy(proxy: Option<ProxyRef>)
    | Span(span: Option<TimeSpan>)
    | Count(count: Option<int32>)
  {
    predicate IsUnset() {
      match this
      case Text(v) => v.None?
      case Mode(v) => v.None?
      case Flag(v) => v.None?
      case Factory(v) => v.None?
      case Proxy(v) => v.None?
      case Span(v) => v.None?
      case Count(v) => v.None?
    }
  }

  /** The getter of field `f` (`AccountEndpoint`, `AccountKey`, ...). */
  function Get(o: Options, f: Field): Value {
    match f
    case AccountEndpoint => Text(o.accountEndpoint)
    case AccountKey => Text(o.accountKey)
    case ConnectionString => Text(o.connectionString)
    case DatabaseName => Text(o.databaseName)
    case Region => Text(o.region)
    case ConnectionMode => Mode(o.connectionMode)
    case LimitToEndpoint => Flag(o.limitToEndpoint)
    case ExecutionStrategyFactory => Factory(o.executionStrategyFactory)
    case WebProxy => Proxy(o.webProxy)
    case RequestTimeout => Span(o.requestTimeout)
    case OpenTcpConnectionTimeout => Span(o.openTcpConnectionTimeout)
    case IdleTcpConnectionTimeout => Span(o.idleTcpConnectionTimeout)
    case GatewayModeMaxConnectionLimit => Count(o.gatewayModeMaxConnectionLimit)
    case MaxTcpConnectionsPerEndpoint => Count(o.maxTcpConnectionsPerEndpoint)
    case MaxRequestsPerTcpConnection => Count(o.maxRequestsPerTcpConnection)
  }

  /** Every getter other than `f`'s answers the same on `a` and `b`. */
  predicate SameExcept(a: Options, b: Options, f: Field) {
    forall g: Field :: g != f ==> Get(a, g) == Get(b, g)
  }

  /** `after` is a fresh extension (no `Info` cached yet) whose field `f` holds
      `v` and whose every other field is as in `before`. */
  predicate Replaced(before: Extension, after: Extension, f: Field, v: Value) {
    && Get(after.options, f) == v
    && SameExcept(before.options, after.options, f)
    && after.info.None?
  }

  /** The getters see everything: two option records that agree on every field
      are the same record. */
  lemma FieldsDetermineOptions(a: Options, b: Options)
    requires forall f: Field :: Get(a, f) == Get(b, f)
    ensures a == b
  {
    assert Get(a, AccountEndpoint) == Get(b, AccountEndpoint);
    assert Get(a, AccountKey) == Get(b, AccountKey);
    assert Get(a, ConnectionString) == Get(b, ConnectionString);
    assert Get(a, DatabaseName) == Get(b, DatabaseName);
    assert Get(a, Region) == Get(b, Region);
    assert Get(a, ConnectionMode) == Get(b, ConnectionMode);
    assert Get(a, LimitToEndpoint) == Get(b, LimitToEndpoint);
    assert Get(a, ExecutionStrategyFactory) == Get(b, ExecutionStrategyFactory);
    assert Get(a, WebProxy) == Get(b, WebProxy);
    assert Get(a, RequestTimeout) == Get(b, RequestTimeout);
    assert Get(a, OpenTcpConnectionTimeout) == Get(b, OpenTcpConnectionTimeout);
    assert Get(a, IdleTcpConnectionTimeout) == Get(b, IdleTcpConnectionTimeout);
    assert Get(a, GatewayModeMaxConnectionLimit) == Get(b, GatewayModeMaxConnectionLimit);
    assert Get(a, MaxTcpConnectionsPerEndpoint) == Get(b, MaxTcpConnectionsPerEndpoint);
    assert Get(a, MaxRequestsPerTcpConnection) == Get(b, MaxRequestsPerTcpConnection);
  }

  /** The contract every `With*` operation gives on success pins its result
      down completely: no two different extensions both satisfy it. */
  lemma ReplacedIsUnique(before: Extension, a: Extension, b: Extension, f: Field, v: Value)
    requires Replaced(before, a, f, v) && Replaced(before, b, f, v)
    ensures a == b
  {
    forall g: Field ensures Get(a.options, g) == Get(b.options, g) {
      if g != f {
        assert Get(a.options, g) == Get(before.options, g);
      }
    }
    FieldsDetermineOptions(a.options, b.options);
  }

  // ---------------------------------------------------------------------------
  // Construction and copy-on-write updates
  // ---------------------------------------------------------------------------

  /** The parameterless constructor: every setting unset, no `Info` yet. */
  function Default(): (r: Extension)
    ensures forall f: Field :: Get(r.options, f).IsUnset()
    ensures r.info.None?
  {
    Extension(Options(None, None, None, None, None, None, None, None, None, None, None, None, None, None, None), None)
  }

  /** `Clone()`, through the copy constructor: all fifteen settings are
      copied, the cached `Info` is not. */
  function Clone(e: Extension): (r: Extension)
    ensures forall f: Field :: Get(r.options, f) == Get(e.options, f)
    ensures r.info.None?
  {
    Extension(e.options, None)
  }

  /** Endpoint/key and connection string are never configured together. */
  predicate IdentityExclusive(o: Options) {
    !(o.connectionString.Some? && (o.accountEndpoint.Some? || o.accountKey.Some?))
  }

  function WithAccountEndpoint(e: Extension, accountEndpoint: Option<string>): (r: Result<Extension, Error>)
    ensures r.Failure? <==> e.options.connectionString.Some?
    ensures r.Failure? ==> r.error == ConnectionStringConflictingConfiguration
    ensures r.Success? ==> Replaced(e, r.value, AccountEndpoint, Text(accountEndpoint))
    ensures r.Success? && IdentityExclusive(e.options) ==> IdentityExclusive(r.value.options)
  {
    if e.options.connectionString.Some? then
      Failure(ConnectionStringConflictingConfiguration)
    else
      var clone := Clone(e);
      Success(clone.(options := clone.options.(accountEndpoint := accountEndpoint)))
  }

  function WithAccountKey(e: Extension, accountKey: Option<string>): (r: Result<Extension, Error>)
    ensures r.Failure? <==> e.options.connectionString.Some?
    ensures r.Failure? ==> r.error == ConnectionStringConflictingConfiguration
    ensures r.Success? ==> Replaced(e, r.value, AccountKey, Text(accountKey))
    ensures r.Success? && IdentityExclusive(e.options) ==> IdentityExclusive(r.value.options)
  {
    if e.options.connectionString.Some? then
      Failure(ConnectionStringConflictingConfiguration)
    else
      var clone := Clone(e);
      Success(clone.(options := clone.options.(accountKey := accountKey)))
  }

  function WithConnectionString(e: Extension, connectionString: Option<string>): (r: Result<Extension, Error>)
    ensures r.Failure? <==> e.options.accountEndpoint.Some? || e.options.accountKey.Some?
    ensures r.Failure? ==> r.error == ConnectionStringConflictingConfiguration
    ensures r.Success? ==> Replaced(e, r.value, ConnectionString, Text(connectionString))
    ensures r.Success? ==> IdentityExclusive(r.value.options)
  {
    if e.options.accountEndpoint.Some? || e.options.accountKey.Some? then
      Failure(ConnectionStringConflictingConfiguration)
    else
      var clone := Clone(e);
      Success(clone.(options := clone.options.(connectionString := connectionString)))
  }

  function WithDatabaseName(e: Extension, database: Option<string>): (r: Extension)
    ensures Replaced(e, r, DatabaseName, Text(database))
  {
    var clone := Clone(e);
    clone.(options := clone.options.(databaseName := database))
  }

  function WithRegion(e: Extension, region: Option<string>): (r: Extension)
    ensures Replaced(e, r, Region, Text(region))
  {
    var clone := Clone(e);
    clone.(options := clone.options.(region := region))
  }

  function WithLimitToEndpoint(e: Extension, enable: bool): (r: Extension)
    ensures Replaced(e, r, LimitToEndpoint, Flag(Some(enable)))
  {
    var clone := Clone(e);
    clone.(options := clone.options.(limitToEndpoint := Some(enable)))
  }

  /** `Enum.IsDefined(typeof(ConnectionMode), connectionMode)` is membership in
      `definedModes`, the underlying values the enum declares. */
  function WithConnectionMode(e: Extension, connectionMode: int32, definedModes: set<int32>): (r: Result<Extension, Error>)
    ensures r.Failure? <==> connectionMode !in definedModes
    ensures r.Failure? ==> r.error == ArgumentOutOfRange("connectionMode")
    ensures r.Success? ==> Replaced(e, r.value, ConnectionMode, Mode(Some(connectionMode)))
  {
    if connectionMode !in definedModes then
      Failure(ArgumentOutOfRange("connectionMode"))
    else
      var clone := Clone(e);
      Success(clone.(options := clone.options.(connectionMode := Some(connectionMode))))
  }

  function WithWebProxy(e: Extension, proxy: Option<ProxyRef>): (r: Extension)
    ensures Replaced(e, r, WebProxy, Proxy(proxy))
  {
    var clone := Clone(e);
    clone.(options := clone.options.(webProxy := proxy))
  }

  function WithRequestTimeout(e: Extension, timeout: TimeSpan): (r: Extension)
    ensures Replaced(e, r, RequestTimeout, Span(Some(timeout)))
  {
    var clone := Clone(e);
    clone.(options := clone.options.(requestTimeout := Some(timeout)))
  }

  function WithOpenTcpConnectionTimeout(e: Extension, timeout: TimeSpan): (r: Extension)
    ensures Replaced(e, r, OpenTcpConnectionTimeout, Span(Some(timeout)))
  {
    var clone := Clone(e);
    clone.(options := clone.options.(openTcpConnectionTimeout := Some(timeout)))
  }

  function WithIdleTcpConnectionTimeout(e: Extension, timeout: TimeSpan): (r: Extension)
    ensures Replaced(e, r, IdleTcpConnectionTimeout, Span(Some(timeout)))
  {
    var clone := Clone(e);
    clone.(options := clone.options.(idleTcpConnectionTimeout := Some(timeout)))
  }

  function WithGatewayModeMaxConnectionLimit(e: Extension, connectionLimit: int32): (r: Extension)
    ensures Replaced(e, r, GatewayModeMaxConnectionLimit, Count(Some(connectionLimit)))
  {
    var clone := Clone(e);
    clone.(options := clone.options.(gatewayModeMaxConnectionLimit := Some(connectionLimit)))
  }

  function WithMaxTcpConnectionsPerEndpoint(e: Extension, connectionLimit: int32): (r: Extension)
    ensures Replaced(e, r, MaxTcpConnectionsPerEndpoint, Count(Some(connectionLimit)))
  {
    var clone := Clone(e);
    clone.(options := clone.options.(maxTcpConnectionsPerEndpoint := Some(connectionLimit)))
  }

  function WithMaxRequestsPerTcpConnection(e: Extension, requestLimit: int32): (r: Extension)
    ensures Replaced(e, r, MaxRequestsPerTcpConnection, Count(Some(requestLimit)))
  {
    var clone := Clone(e);
    clone.(options := clone.options.(maxRequestsPerTcpConnection := Some(requestLimit)))
  }

  /** The factory is `[CanBeNull]`: `None` removes it. */
  function WithExecutionStrategyFactory(e: Extension, executionStrategyFactory: Option<StrategyFactoryRef>): (r: Extension)
    ensures Replaced(e, r, ExecutionStrategyFactory, Factory(executionStrategyFactory))
  {
    var clone := Clone(e);
    clone.(options := clone.options.(executionStrategyFactory := executionStrategyFactory))
  }
}
