/** Sequences of `With*` calls. A configuration builder applies updates one after
    another; the first one that throws ends the sequence. The lemmas here say
    which sequences succeed, what a successful sequence leaves in each field,
    and that no successful sequence ever pairs a connection string with an
    account endpoint or key. */
module CosmosUpdates {
  import opened Wrappers
  import opened DotNet
  import opened CosmosOptions

  /** One `With*` call and its argument. */
  datatype Update =
    | SetAccountEndpoint(accountEndpoint: Option<string>)
    | SetAccountKey(accountKey: Option<string>)
    | SetConnectionString(connectionString: Option<string>)
    | SetDatabaseName(databaseName: Option<string>)
    | SetRegion(region: Option<string>)
    | SetConnectionMode(connectionMode: int32)
    | SetLimitToEndpoint(enable: bool)
    | SetExecutionStrategyFactory(factory: Option<StrategyFactoryRef>)
    | SetWebProxy(proxy: Option<ProxyRef>)
    | SetRequestTimeout(requestTimeout: TimeSpan)
    | SetOpenTcpConnectionTimeout(openTimeout: TimeSpan)
    | SetIdleTcpConnectionTimeout(idleTimeout: TimeSpan)
    | SetGatewayModeMaxConnectionLimit(gatewayLimit: int32)
    | SetMaxTcpConnectionsPerEndpoint(endpointLimit: int32)
    | SetMaxRequestsPerTcpConnection(requestLimit: int32)

  /** The field an update writes. */
  function Target(u: Update): Field {
    match u
    case SetAccountEndpoint(_) => AccountEndpoint
    case SetAccountKey(_) => AccountKey
    case SetConnectionString(_) => ConnectionString
    case SetDatabaseName(_) => DatabaseName
    case SetRegion(_) => Region
    case SetConnectionMode(_) => ConnectionMode
    case SetLimitToEndpoint(_) => LimitToEndpoint
    case SetExecutionStrategyFactory(_) => ExecutionStrategyFactory
    case SetWebProxy(_) => WebProxy
    case SetRequestTimeout(_) => RequestTimeout
    case SetOpenTcpConnectionTimeout(_) => OpenTcpConnectionTimeout
    case SetIdleTcpConnectionTimeout(_) => IdleTcpConnectionTimeout
    case SetGatewayModeMaxConnectionLimit(_) => GatewayModeMaxConnectionLimit
    case SetMaxTcpConnectionsPerEndpoint(_) => MaxTcpConnectionsPerEndpoint
    case SetMaxRequestsPerTcpConnection(_) => MaxRequestsPerTcpConnection
  }

  /** The value an update writes into its field. */
  function Written(u: Update): Value {
    match u
    case SetAccountEndpoint(s) => Text(s)
    case SetAccountKey(s) => Text(s)
    case SetConnectionString(s) => Text(s)
    case SetDatabaseName(s) => Text(s)
    case SetRegion(s) => Text(s)
    case SetConnectionMode(m) => Mode(Some(m))
    case SetLimitToEndpoint(b) => Flag(Some(b))
    case SetExecutionStrategyFactory(f) => Factory(f)
    case SetWebProxy(p) => Proxy(p)
    case SetRequestTimeout(t) => Span(Some(t))
    case SetOpenTcpConnectionTimeout(t) => Span(Some(t))
    case SetIdleTcpConnectionTimeout(t) => Span(Some(t))
    case SetGatewayModeMaxConnectionLimit(n) => Count(Some(n))
    case SetMaxTcpConnectionsPerEndpoint(n) => Count(Some(n))
    case SetMaxRequestsPerTcpConnection(n) => Count(Some(n))
  }

  predicate SetsEndpointOrKey(u: Update) {
    u.SetAccountEndpoint? || u.SetAccountKey?
  }

  predicate HasEndpointOrKey(o: Options) {
    o.accountEndpoint.Some? || o.accountKey.Some?
  }

  /** The guards of the three identity updates, and of the connection mode. */
  predicate Rejected(o: Options, u: Update, definedModes: set<int32>) {
    || (SetsEndpointOrKey(u) && o.connectionString.Some?)
    || (u.SetConnectionString? && HasEndpointOrKey(o))
    || (u.SetConnectionMode? && u.connectionMode !in definedModes)
  }

  /** Dispatches an update to its `With*` operation. */
  function Apply(e: Extension, u: Update, definedModes: set<int32>): (r: Result<Extension, Error>)
    ensures r.Failure? <==> Rejected(e.options, u, definedModes)
    ensures r.Success? ==> Replaced(e, r.value, Target(u), Written(u))
    ensures r.Success? && IdentityExclusive(e.options) ==> IdentityExclusive(r.value.options)
  {
    match u
    case SetAccountEndpoint(s) => WithAccountEndpoint(e, s)
    case SetAccountKey(s) => WithAccountKey(e, s)
    case SetConnectionString(s) => WithConnectionString(e, s)
    case SetDatabaseName(s) => Success(WithDatabaseName(e, s))
    case SetRegion(s) => Success(WithRegion(e, s))
    case SetConnectionMode(m) => WithConnectionMode(e, m, definedModes)
    case SetLimitToEndpoint(b) => Success(WithLimitToEndpoint(e, b))
    case SetExecutionStrategyFactory(f) => Success(WithExecutionStrategyFactory(e, f))
    case SetWebProxy(p) => Success(WithWebProxy(e, p))
    case SetRequestTimeout(t) => Success(WithRequestTimeout(e, t))
    case SetOpenTcpConnectionTimeout(t) => Success(WithOpenTcpConnectionTimeout(e, t))
    case SetIdleTcpConnectionTimeout(t) => Success(WithIdleTcpConnectionTimeout(e, t))
    case SetGatewayModeMaxConnectionLimit(n) => Success(WithGatewayModeMaxConnectionLimit(e, n))
    case SetMaxTcpConnectionsPerEndpoint(n) => Success(WithMaxTcpConnectionsPerEndpoint(e, n))
    case SetMaxRequestsPerTcpConnection(n) => Success(WithMaxRequestsPerTcpConnection(e, n))
  }

  /** Applies the updates left to right; the first failure is the result. */
  function ApplyAll(e: Extension, us: seq<Update>, definedModes: set<int32>): Result<Extension, Error>
    decreases |us|
  {
    if |us| == 0 then Success(e)
    else
      match Apply(e, us[0], definedModes)
      case Failure(err) => Failure(err)
      case Success(next) => ApplyAll(next, us[1..], definedModes)
  }

  /** What field `f` holds after the updates `us`, starting from `v`: the value
      of the last update that targets `f`, or `v` if none does. */
  function FieldAfter(v: Value, us: seq<Update>, f: Field): Value
    decreases |us|
  {
    if |us| == 0 then v
    else FieldAfter(if Target(us[0]) == f then Written(us[0]) else v, us[1..], f)
  }

  predicate AnySetsConnectionString(us: seq<Update>) {
    exists i :: 0 <= i < |us| && us[i].SetConnectionString?
  }

  predicate AnySetsEndpointOrKey(us: seq<Update>) {
    exists i :: 0 <= i < |us| && SetsEndpointOrKey(us[i])
  }

  predicate ModesDefined(us: seq<Update>, definedModes: set<int32>) {
    forall i :: 0 <= i < |us| && us[i].SetConnectionMode? ==> us[i].connectionMode in definedModes
  }

  /** Each step of a successful sequence keeps endpoint/key and connection
      string apart. */
  lemma {:induction false} ApplyAllKeepsExclusive(e: Extension, us: seq<Update>, definedModes: set<int32>)
    requires IdentityExclusive(e.options)
    ensures ApplyAll(e, us, definedModes).Success? ==> IdentityExclusive(ApplyAll(e, us, definedModes).value.options)
    decreases |us|
  {
    if |us| > 0 {
      var r := Apply(e, us[0], definedModes);
      if r.Success? {
        ApplyAllKeepsExclusive(r.value, us[1..], definedModes);
      }
    }
  }

  /** The reachable-state invariant: starting from the parameterless
      constructor, no sequence of successful updates configures a connection
      string together with an account endpoint or key. */
  lemma ReachableStatesAreExclusive(us: seq<Update>, definedModes: set<int32>)
    ensures ApplyAll(Default(), us, definedModes).Success? ==>
              IdentityExclusive(ApplyAll(Default(), us, definedModes).value.options)
  {
    ApplyAllKeepsExclusive(Default(), us, definedModes);
  }

  /** Which identity fields are set, without their values: all that the
      guards of the three identity updates look at. */
  datatype Identity = Identity(endpoint: bool, key: bool, connectionString: bool)

  function IdentityOf(o: Options): Identity {
    Identity(o.accountEndpoint.Some?, o.accountKey.Some?, o.connectionString.Some?)
  }

  /** Whether an update gets past its guard, judged from the identity bits. */
  predicate Admits(s: Identity, u: Update, definedModes: set<int32>) {
    && !(SetsEndpointOrKey(u) && s.connectionString)
    && !(u.SetConnectionString? && (s.endpoint || s.key))
    && !(u.SetConnectionMode? && u.connectionMode !in definedModes)
  }

  /** The identity bits after an update: an identity update sets its bit when
      its argument is non-null and clears it when the argument is null. */
  function Track(s: Identity, u: Update): Identity {
    match u
    case SetAccountEndpoint(v) => s.(endpoint := v.Some?)
    case SetAccountKey(v) => s.(key := v.Some?)
    case SetConnectionString(v) => s.(connectionString := v.Some?)
    case _ => s
  }

  /** The three-bit automaton that accepts the update sequences the guards
      let through. */
  predicate Accepts(s: Identity, us: seq<Update>, definedModes: set<int32>)
    decreases |us|
  {
    |us| == 0 || (Admits(s, us[0], definedModes) && Accepts(Track(s, us[0]), us[1..], definedModes))
  }

  /** A sequence of updates succeeds exactly when the three-bit automaton,
      started from the extension's identity bits, accepts it: the values of
      the settings never matter to success, only which identity fields are
      set and which connection modes are declared. */
  lemma {:induction false} ApplyAllSucceedsIff(e: Extension, us: seq<Update>, definedModes: set<int32>)
    ensures ApplyAll(e, us, definedModes).Success? <==> Accepts(IdentityOf(e.options), us, definedModes)
    decreases |us|
  {
    if |us| > 0 {
      var u := us[0];
      var r := Apply(e, u, definedModes);
      if r.Success? {
        var next := r.value;
        assert Get(next.options, ConnectionString) == if Target(u) == ConnectionString then Written(u) else Get(e.options, ConnectionString);
        assert Get(next.options, AccountEndpoint) == if Target(u) == AccountEndpoint then Written(u) else Get(e.options, AccountEndpoint);
        assert Get(next.options, AccountKey) == if Target(u) == AccountKey then Written(u) else Get(e.options, AccountKey);
        assert IdentityOf(next.options) == Track(IdentityOf(e.options), u);
        ApplyAllSucceedsIff(next, us[1..], definedModes);
      }
    }
  }

  /** Every endpoint, key and connection-string update in `us` passes a
      non-null argument, as the `[NotNull]` annotations ask of callers. */
  predicate IdentityArgumentsNonNull(us: seq<Update>) {
    forall i :: 0 <= i < |us| ==>
      match us[i]
      case SetAccountEndpoint(v) => v.Some?
      case SetAccountKey(v) => v.Some?
      case SetConnectionString(v) => v.Some?
      case _ => true
  }

  /** With non-null identity arguments nothing is ever cleared, so the
      automaton accepts exactly when every connection mode is declared and
      the two identity groups are never both requested, in whichever order. */
  lemma {:induction false} AcceptsNonNull(s: Identity, us: seq<Update>, definedModes: set<int32>)
    requires !(s.connectionString && (s.endpoint || s.key))
    requires IdentityArgumentsNonNull(us)
    ensures Accepts(s, us, definedModes) <==>
              && ModesDefined(us, definedModes)
              && !((s.connectionString || AnySetsConnectionString(us))
                   && (s.endpoint || s.key || AnySetsEndpointOrKey(us)))
    decreases |us|
  {
    if |us| > 0 {
      var u, rest := us[0], us[1..];
      assert forall i :: 0 <= i < |rest| ==> rest[i] == us[i + 1];
      assert AnySetsConnectionString(us) <==> u.SetConnectionString? || AnySetsConnectionString(rest) by {
        if AnySetsConnectionString(rest) {
          var i :| 0 <= i < |rest| && rest[i].SetConnectionString?;
          assert us[i + 1].SetConnectionString?;
        }
        if AnySetsConnectionString(us) && !u.SetConnectionString? {
          var i :| 0 <= i < |us| && us[i].SetConnectionString?;
          assert rest[i - 1].SetConnectionString?;
        }
      }
      assert AnySetsEndpointOrKey(us) <==> SetsEndpointOrKey(u) || AnySetsEndpointOrKey(rest) by {
        if AnySetsEndpointOrKey(rest) {
          var i :| 0 <= i < |rest| && SetsEndpointOrKey(rest[i]);
          assert SetsEndpointOrKey(us[i + 1]);
        }
        if AnySetsEndpointOrKey(us) && !SetsEndpointOrKey(u) {
          var i :| 0 <= i < |us| && SetsEndpointOrKey(us[i]);
          assert SetsEndpointOrKey(rest[i - 1]);
        }
      }
      assert ModesDefined(us, definedModes) <==>
               (u.SetConnectionMode? ==> u.connectionMode in definedModes) && ModesDefined(rest, definedModes) by {
        if (u.SetConnectionMode? ==> u.connectionMode in definedModes) && ModesDefined(rest, definedModes) {
          forall i | 0 <= i < |us| && us[i].SetConnectionMode? ensures us[i].connectionMode in definedModes {
            if i > 0 {
              assert us[i] == rest[i - 1];
            }
          }
        }
      }
      assert IdentityArgumentsNonNull(rest) by {
        forall i | 0 <= i < |rest| ensures rest[i] == us[i + 1] { }
      }
      if Admits(s, u, definedModes) {
        AcceptsNonNull(Track(s, u), rest, definedModes);
      }
    }
  }

  /** From a consistent state, a sequence with non-null identity arguments
      succeeds exactly when every connection mode it sets is declared and it
      does not end up asking for both identity groups, in whichever order
      they come. */
  lemma NonNullSequenceSucceedsIff(e: Extension, us: seq<Update>, definedModes: set<int32>)
    requires IdentityExclusive(e.options) && IdentityArgumentsNonNull(us)
    ensures ApplyAll(e, us, definedModes).Success? <==>
              && ModesDefined(us, definedModes)
              && !((e.options.connectionString.Some? || AnySetsConnectionString(us))
                   && (HasEndpointOrKey(e.options) || AnySetsEndpointOrKey(us)))
  {
    ApplyAllSucceedsIff(e, us, definedModes);
    AcceptsNonNull(IdentityOf(e.options), us, definedModes);
  }

  /** A successful sequence leaves in each field the value of the last update
      that targets it, and every other field as it was; an updated extension
      carries no cached `Info`. */
  lemma {:induction false} ApplyAllFields(e: Extension, us: seq<Update>, definedModes: set<int32>)
    requires ApplyAll(e, us, definedModes).Success?
    ensures forall f: Field :: Get(ApplyAll(e, us, definedModes).value.options, f) == FieldAfter(Get(e.options, f), us, f)
    ensures |us| > 0 ==> ApplyAll(e, us, definedModes).value.info.None?
    decreases |us|
  {
    if |us| > 0 {
      var next := Apply(e, us[0], definedModes).value;
      ApplyAllFields(next, us[1..], definedModes);
      forall f: Field
        ensures Get(next.options, f) == if Target(us[0]) == f then Written(us[0]) else Get(e.options, f)
      {
      }
    }
  }

  /** Two successful sequences that leave every field with the same value build
      the same settings, whatever order the calls came in. */
  lemma SameFieldsSameOptions(e: Extension, us1: seq<Update>, us2: seq<Update>, definedModes: set<int32>)
    requires ApplyAll(e, us1, definedModes).Success? && ApplyAll(e, us2, definedModes).Success?
    requires forall f: Field :: FieldAfter(Get(e.options, f), us1, f) == FieldAfter(Get(e.options, f), us2, f)
    ensures ApplyAll(e, us1, definedModes).value.options == ApplyAll(e, us2, definedModes).value.options
  {
    ApplyAllFields(e, us1, definedModes);
    ApplyAllFields(e, us2, definedModes);
    FieldsDetermineOptions(ApplyAll(e, us1, definedModes).value.options, ApplyAll(e, us2, definedModes).value.options);
  }

  /** Setting an endpoint and then a connection string throws the conflict
      error, and the configured extension keeps its endpoint and no
      connection string. */
  lemma EndpointThenConnectionStringConflicts(endpoint: string, connectionString: Option<string>)
    ensures var configured := WithAccountEndpoint(Default(), Some(endpoint));
            && configured.Success?
            && WithConnectionString(configured.value, connectionString) == Failure(ConnectionStringConflictingConfiguration)
            && configured.value.options.accountEndpoint == Some(endpoint)
            && configured.value.options.connectionString.None?
  {
  }

  /** A null argument clears its field and so reopens the other identity
      group: after a connection string is set, an endpoint is refused, but
      once the connection string is set to null the same endpoint is accepted,
      and the result still keeps the two groups apart. */
  lemma ClearedConnectionStringAdmitsEndpoint(connectionString: string, endpoint: string)
    ensures var configured := WithConnectionString(Default(), Some(connectionString));
            && configured.Success?
            && WithAccountEndpoint(configured.value, Some(endpoint)).Failure?
            && var cleared := WithConnectionString(configured.value, None);
            && cleared.Success?
            && cleared.value.options.connectionString.None?
            && var reconfigured := WithAccountEndpoint(cleared.value, Some(endpoint));
            && reconfigured.Success?
            && reconfigured.value.options.accountEndpoint == Some(endpoint)
            && IdentityExclusive(reconfigured.value.options)
  {
  }
}
