# Cosmos options extension — a Dafny model

This project models `CosmosOptionsExtension`, the options extension that Entity Framework Core's
Azure Cosmos DB provider attaches to a `DbContextOptions`. The extension is an immutable record of fifteen
optional settings: the account endpoint, account key, connection string, database name, region,
connection mode, limit-to-endpoint flag, execution strategy factory, web proxy, three timeouts and three
connection limits. Each `With*` call returns a modified copy. Four of those calls are guarded:
`WithAccountEndpoint` and `WithAccountKey` refuse when a connection string is set, `WithConnectionString`
refuses when an endpoint or a key is set, and `WithConnectionMode` refuses a value the enum does not declare.
The `[NotNull]` annotations on the string and proxy parameters are JetBrains static-analysis hints. The
bodies do not check them: a `null` argument is stored, and so clears its field. The model therefore takes
those arguments as `Option` values. The extension hands the rest of the framework a lazily created `ExtensionInfo` that has:

- a memoised 64-bit service-provider hash, a multiply/xor fold over the settings;
- redacted debug-info entries, which hold only hash codes of the secrets;
- a memoised log fragment naming the endpoint and the database.

Modules:

- `Wrappers` (`wrappers.dfy`): `Option` and `Result`.
- `DotNet` (`dotnet.dfy`): the .NET primitives involved.
  - `int` as `int32`.
  - A `long` as its 64-bit pattern (`uint64`), with `Signed` giving the number it denotes.
  - Implicit `int`-to-`long` widening (`Widen`, sign extension).
  - Unchecked wrapping multiplication (`MulWrap`) and bitwise exclusive or (`Xor`, `LongXor`).
  - `Int32.GetHashCode` and `Boolean.GetHashCode`.
  - Invariant-culture integer rendering (`FormatInt`) with a parser partner (`ParseInt`).
- `CosmosOptions` (`cosmos_options.dfy`): the fields and the extension.
  - The fifteen fields as the `Options` datatype. A null field is `None`.
  - The extension as `Extension(options, info)`, where `info` is the cached `ExtensionInfo`.
  - A uniform field view (`Field`, `Value`, `Get`) that plays the part of the property getters.
  - The default and copy constructors, `Clone`, and all fifteen `With*` operations.
  - Thrown exceptions become `Failure` values.
- `CosmosUpdates` (`cosmos_updates.dfy`): arbitrary sequences of `With*` calls, such as a
  `CosmosDbContextOptionsBuilder` issues. It states the reachable-state invariant and
  exactly which sequences succeed, through a three-bit automaton over which identity fields are set.
- `CosmosExtensionInfo` (`cosmos_extension_info.dfy`): `ExtensionInfo`.
  - The hash fold, its injectivity properties and what it ignores.
  - `PopulateDebugInfo` and `LogFragment`.
  - The caching of `Info`, of the hash and of the log fragment. Caching is modelled by returning the
    updated extension with each answer (`Memo`). A `Coherent` invariant says that every cached value is
    the one a fresh computation would give.

Some behaviour belongs to code outside this model and enters as parameters:

- `string.GetHashCode`, `IWebProxy.GetHashCode` and `TimeSpan.GetHashCode` form the `Hashing` record of
  functions.
- `Enum.IsDefined(typeof(ConnectionMode), …)` is the set `definedModes` of declared mode values.

The hash and the debug info test the connection string with `string.IsNullOrEmpty`. If it is null or
empty, they call `GetHashCode` on the endpoint and the key without a null check, which throws a
`NullReferenceException` when either is null. The guards in the `With*` operations only test for null,
so a configuration with an empty connection string and no endpoint passes them
(`CosmosExtensionInfo.EmptyConnectionStringLeavesHashUndefined`). So does the default configuration,
and so does one whose connection string was set back to null. The model does not invent a result for
that case. `ServiceProviderHash` and `GetServiceProviderHashCode` require `HashDefined`: a non-empty
connection string, or else both an endpoint and a key. `PopulateDebugInfo` requires it only for a
non-null map, because it rejects a null map with `ArgumentNullException` before it reads any setting.

## Model

All source paths are under `src/EFCore.Cosmos/Infrastructure/Internal/`; the file is `CosmosDbOptionExtension.cs`.

| member | source | states |
|---|---|---|
| CosmosOptions.FieldsDetermineOptions | src/EFCore.Cosmos/Infrastructure/Internal/CosmosDbOptionExtension.cs:27-41 | The fifteen settings are the whole state: two option records that agree on every field are equal. |
| CosmosOptions.Default | src/EFCore.Cosmos/Infrastructure/Internal/CosmosDbOptionExtension.cs:50-52 | The parameterless constructor leaves every one of the fifteen settings unset, with no cached info. |
| CosmosOptions.Clone | src/EFCore.Cosmos/Infrastructure/Internal/CosmosDbOptionExtension.cs:60-77 | The copy constructor, reached through `Clone`, copies all fifteen settings and does not copy the cached info. |
| CosmosOptions.ReplacedIsUnique | src/EFCore.Cosmos/Infrastructure/Internal/CosmosDbOptionExtension.cs:458 | A copy that changes one field to a given value and drops the cache is unique, so every `With*` result is fully determined by its frame contract. |
| CosmosOptions.WithAccountEndpoint | src/EFCore.Cosmos/Infrastructure/Internal/CosmosDbOptionExtension.cs:102-114 | Fails with the conflicting-configuration error exactly when a connection string is set. Otherwise it returns a copy whose endpoint is the argument, with every other field unchanged and no cached info. It keeps the identity settings exclusive. |
| CosmosOptions.WithAccountKey | src/EFCore.Cosmos/Infrastructure/Internal/CosmosDbOptionExtension.cs:130-142 | Fails with the conflicting-configuration error exactly when a connection string is set. Otherwise only the key changes and the cache is dropped. It keeps the identity settings exclusive. |
| CosmosOptions.WithConnectionString | src/EFCore.Cosmos/Infrastructure/Internal/CosmosDbOptionExtension.cs:158-170 | Fails with the conflicting-configuration error exactly when an endpoint or a key is set. Otherwise only the connection string changes and the cache is dropped. A successful result never pairs the connection string with an endpoint or key. |
| CosmosOptions.WithDatabaseName | src/EFCore.Cosmos/Infrastructure/Internal/CosmosDbOptionExtension.cs:186-193 | Only the database name changes, to the argument; the cache is dropped. |
| CosmosOptions.WithRegion | src/EFCore.Cosmos/Infrastructure/Internal/CosmosDbOptionExtension.cs:209-216 | Only the region changes, to the argument; the cache is dropped. |
| CosmosOptions.WithLimitToEndpoint | src/EFCore.Cosmos/Infrastructure/Internal/CosmosDbOptionExtension.cs:232-239 | Only the limit-to-endpoint flag changes, to the argument; the cache is dropped. |
| CosmosOptions.WithConnectionMode | src/EFCore.Cosmos/Infrastructure/Internal/CosmosDbOptionExtension.cs:255-267 | Fails with an out-of-range error naming `connectionMode` exactly when the mode is not a declared value. Otherwise only the mode changes and the cache is dropped. |
| CosmosOptions.WithWebProxy | src/EFCore.Cosmos/Infrastructure/Internal/CosmosDbOptionExtension.cs:283-290 | Only the web proxy changes, to the argument; the cache is dropped. |
| CosmosOptions.WithRequestTimeout | src/EFCore.Cosmos/Infrastructure/Internal/CosmosDbOptionExtension.cs:306-313 | Only the request timeout changes, to the argument; the cache is dropped. |
| CosmosOptions.WithOpenTcpConnectionTimeout | src/EFCore.Cosmos/Infrastructure/Internal/CosmosDbOptionExtension.cs:329-336 | Only the open-TCP-connection timeout changes, to the argument; the cache is dropped. |
| CosmosOptions.WithIdleTcpConnectionTimeout | src/EFCore.Cosmos/Infrastructure/Internal/CosmosDbOptionExtension.cs:352-359 | Only the idle-TCP-connection timeout changes, to the argument; the cache is dropped. |
| CosmosOptions.WithGatewayModeMaxConnectionLimit | src/EFCore.Cosmos/Infrastructure/Internal/CosmosDbOptionExtension.cs:375-382 | Only the gateway-mode connection limit changes, to the argument; the cache is dropped. |
| CosmosOptions.WithMaxTcpConnectionsPerEndpoint | src/EFCore.Cosmos/Infrastructure/Internal/CosmosDbOptionExtension.cs:398-405 | Only the TCP-connections-per-endpoint limit changes, to the argument; the cache is dropped. |
| CosmosOptions.WithMaxRequestsPerTcpConnection | src/EFCore.Cosmos/Infrastructure/Internal/CosmosDbOptionExtension.cs:421-428 | Only the requests-per-TCP-connection limit changes, to the argument; the cache is dropped. |
| CosmosOptions.WithExecutionStrategyFactory | src/EFCore.Cosmos/Infrastructure/Internal/CosmosDbOptionExtension.cs:442-450 | Only the execution strategy factory changes, to the argument, which may be null; the cache is dropped. |
| CosmosUpdates.Apply | src/EFCore.Cosmos/Infrastructure/Internal/CosmosDbOptionExtension.cs:102-450 | Any single `With*` call fails exactly when its guard rejects it. On success it writes its target field and nothing else, and it preserves identity exclusivity. |
| CosmosUpdates.ApplyAllKeepsExclusive | src/EFCore.Cosmos/Infrastructure/Internal/CosmosDbOptionExtension.cs:104-107 | From an exclusive state, every successful sequence of calls ends in an exclusive state. |
| CosmosUpdates.ReachableStatesAreExclusive | src/EFCore.Cosmos/Infrastructure/Internal/CosmosDbOptionExtension.cs:158-170 | Starting from the default constructor, no successful sequence of calls leaves a connection string together with an endpoint or a key. |
| CosmosUpdates.ApplyAllSucceedsIff | src/EFCore.Cosmos/Infrastructure/Internal/CosmosDbOptionExtension.cs:102-267 | A sequence of calls succeeds exactly when an automaton over three bits (endpoint set, key set, connection string set) accepts it. A call is refused when its guard fires on the current bits, and a null identity argument clears its bit. |
| CosmosUpdates.AcceptsNonNull | src/EFCore.Cosmos/Infrastructure/Internal/CosmosDbOptionExtension.cs:102-170 | When no identity argument is null, the automaton accepts exactly when every connection mode is declared and the two identity groups are never both requested. |
| CosmosUpdates.NonNullSequenceSucceedsIff | src/EFCore.Cosmos/Infrastructure/Internal/CosmosDbOptionExtension.cs:102-267 | From an exclusive state, a sequence whose identity arguments are non-null succeeds exactly when every connection mode it sets is declared and it does not request both identity groups, in either order. |
| CosmosUpdates.ApplyAllFields | src/EFCore.Cosmos/Infrastructure/Internal/CosmosDbOptionExtension.cs:60-77 | After a successful sequence each field holds the value of the last call targeting it, or its old value; a non-empty sequence leaves no cached info. |
| CosmosUpdates.SameFieldsSameOptions | src/EFCore.Cosmos/Infrastructure/Internal/CosmosDbOptionExtension.cs:60-77 | Two successful sequences that leave every field alike build equal settings, whatever the order of the calls. |
| CosmosUpdates.EndpointThenConnectionStringConflicts | src/EFCore.Cosmos/Infrastructure/Internal/CosmosDbOptionExtension.cs:158-163 | Setting an endpoint and then a connection string throws the conflict error. |
| CosmosUpdates.ClearedConnectionStringAdmitsEndpoint | src/EFCore.Cosmos/Infrastructure/Internal/CosmosDbOptionExtension.cs:102-114 | After a connection string is set an endpoint is refused. Once the connection string is set to null, the same endpoint is accepted, and the two groups still stay apart. |
| DotNet.Widen | src/EFCore.Cosmos/Infrastructure/Internal/CosmosDbOptionExtension.cs:501 | Assigning an `int` hash code to the `long` accumulator preserves its numeric value. |
| DotNet.WidenInjective | src/EFCore.Cosmos/Infrastructure/Internal/CosmosDbOptionExtension.cs:501-506 | Widening never maps two different `int` hash codes to the same `long`. |
| DotNet.BoolHash | src/EFCore.Cosmos/Infrastructure/Internal/CosmosDbOptionExtension.cs:511 | The hash of the limit-to-endpoint flag is 0 exactly when the flag is false. |
| DotNet.XorCancel | src/EFCore.Cosmos/Infrastructure/Internal/CosmosDbOptionExtension.cs:505-517 | The `^` of each fold step is undone by applying the same operand again. |
| DotNet.XorInjective | src/EFCore.Cosmos/Infrastructure/Internal/CosmosDbOptionExtension.cs:505-517 | A fold step's `^` never merges two accumulators. |
| DotNet.FormatInt | src/EFCore.Cosmos/Infrastructure/Internal/CosmosDbOptionExtension.cs:531-540 | Invariant-culture rendering of an `int` yields a decimal numeral, with a leading minus exactly for negative numbers. |
| DotNet.ParseFormatInt | src/EFCore.Cosmos/Infrastructure/Internal/CosmosDbOptionExtension.cs:531-540 | Reading the rendered hash code back gives the number that was rendered. |
| DotNet.FormatParseInt | src/EFCore.Cosmos/Infrastructure/Internal/CosmosDbOptionExtension.cs:531-540 | Every numeral, meaning canonical decimal text with no leading zero and no `-0`, is the rendering of the number it denotes. |
| DotNet.NumeralUnique | src/EFCore.Cosmos/Infrastructure/Internal/CosmosDbOptionExtension.cs:531-540 | Two numerals denote the same number exactly when they are the same text, so a debug value is pinned down by the hash code it reads back as. |
| DotNet.FormatIntInjective | src/EFCore.Cosmos/Infrastructure/Internal/CosmosDbOptionExtension.cs:531-540 | Distinct hash codes render to distinct debug strings. |
| CosmosExtensionInfo.Step | src/EFCore.Cosmos/Infrastructure/Internal/CosmosDbOptionExtension.cs:505-518 | One fold step `(h * m) ^ c` with the `int` contribution widened: xor-ing the widened contribution back in recovers `h * m` modulo 2^64. |
| CosmosExtensionInfo.IdentityHash | src/EFCore.Cosmos/Infrastructure/Internal/CosmosDbOptionExtension.cs:498-507 | The fold seed is the connection string's hash code, as a `long`, when the connection string is non-empty. Otherwise it is the endpoint's hash times 397, xor the key's hash. |
| CosmosExtensionInfo.ServiceProviderHash | src/EFCore.Cosmos/Infrastructure/Internal/CosmosDbOptionExtension.cs:498-518 | The uncached hash is the left fold of `(h * m) ^ c` from the identity seed over the ten settings, with multipliers 397, 3, 3, 397, 397, 397, 397, 131, 397, 131 and each unset setting contributing 0. |
| CosmosExtensionInfo.ScaleInverse | src/EFCore.Cosmos/Infrastructure/Internal/CosmosDbOptionExtension.cs:505-517 | Wrapping multiplication by 3, 131 or 397 can be undone modulo 2^64. |
| CosmosExtensionInfo.ScaleInjective | src/EFCore.Cosmos/Infrastructure/Internal/CosmosDbOptionExtension.cs:505-517 | Wrapping multiplication by any of the three multipliers never merges two `long` values. |
| CosmosExtensionInfo.StepInjectiveInHash | src/EFCore.Cosmos/Infrastructure/Internal/CosmosDbOptionExtension.cs:505-517 | One fold step maps different accumulators to different results. |
| CosmosExtensionInfo.StepInjectiveInContribution | src/EFCore.Cosmos/Infrastructure/Internal/CosmosDbOptionExtension.cs:509-518 | One fold step maps different setting hash codes to different results. |
| CosmosExtensionInfo.FoldInjectiveInSeed | src/EFCore.Cosmos/Infrastructure/Internal/CosmosDbOptionExtension.cs:509-518 | Over fixed contributions, the fold yields equal hashes exactly when the seeds are equal. |
| CosmosExtensionInfo.FoldSeparatesOneContribution | src/EFCore.Cosmos/Infrastructure/Internal/CosmosDbOptionExtension.cs:509-518 | Two folds from the same seed whose contributions differ in exactly one position give different hashes. |
| CosmosExtensionInfo.HashSeparatesOneSetting | src/EFCore.Cosmos/Infrastructure/Internal/CosmosDbOptionExtension.cs:494-523 | Two configurations with the same identity whose setting hash codes differ in exactly one place get different service-provider hashes. |
| CosmosExtensionInfo.HashSeparatesRequestLimits | src/EFCore.Cosmos/Infrastructure/Internal/CosmosDbOptionExtension.cs:518 | Changing only the requests-per-TCP-connection limit always changes the hash. |
| CosmosExtensionInfo.HashSeparatesIdentity | src/EFCore.Cosmos/Infrastructure/Internal/CosmosDbOptionExtension.cs:498-518 | With equal setting contributions, two configurations hash alike exactly when their identity seeds agree. |
| CosmosExtensionInfo.HashIgnoresDatabaseNameAndFactory | src/EFCore.Cosmos/Infrastructure/Internal/CosmosDbOptionExtension.cs:494-523 | The database name and the execution strategy factory never affect the hash. |
| CosmosExtensionInfo.HashIgnoresAccountWithConnectionString | src/EFCore.Cosmos/Infrastructure/Internal/CosmosDbOptionExtension.cs:499-502 | With a non-empty connection string, the endpoint and key do not affect the hash. |
| CosmosExtensionInfo.HashIgnoresEmptyConnectionString | src/EFCore.Cosmos/Infrastructure/Internal/CosmosDbOptionExtension.cs:499-507 | An empty connection string hashes as if it were unset. |
| CosmosExtensionInfo.UnsetHashesLikeZero | src/EFCore.Cosmos/Infrastructure/Internal/CosmosDbOptionExtension.cs:511-518 | Through `?? 0`, each of the three unset connection limits hashes like a limit of 0, and an unset limit-to-endpoint flag hashes like `false`. |
| CosmosExtensionInfo.HashText | src/EFCore.Cosmos/Infrastructure/Internal/CosmosDbOptionExtension.cs:531-540 | A debug value is a canonical decimal numeral that reads back as the hash code it was made from. It has a leading minus exactly for negative codes, and it is `"0"` for zero. |
| CosmosExtensionInfo.PopulateDebugInfo | src/EFCore.Cosmos/Infrastructure/Internal/CosmosDbOptionExtension.cs:525-542 | A null map fails with `ArgumentNullException` naming `debugInfo`, and only then. Otherwise it writes `Cosmos:ConnectionString` when the connection string is non-empty, else `Cosmos:AccountEndpoint` and `Cosmos:AccountKey`, plus always `Cosmos:Region`. Each value is a canonical numeral that reads back as the corresponding string hash, and an unset region writes exactly `"0"`. Every other entry is left unchanged. |
| CosmosExtensionInfo.DebugInfoHidesSecrets | src/EFCore.Cosmos/Infrastructure/Internal/CosmosDbOptionExtension.cs:525-542 | No written debug entry equals the connection string, endpoint or key verbatim, unless that secret itself reads as a number. |
| CosmosExtensionInfo.DebugInfoSeesOnlyHashes | src/EFCore.Cosmos/Infrastructure/Internal/CosmosDbOptionExtension.cs:525-542 | Configurations whose identity strings and region hash alike produce identical debug info. |
| CosmosExtensionInfo.LogFragmentOf | src/EFCore.Cosmos/Infrastructure/Internal/CosmosDbOptionExtension.cs:548-557 | The fragment is `ServiceEndPoint=`, the endpoint, a space, `Database=`, the database name, a space, with an unset value rendered empty. |
| CosmosExtensionInfo.LogFragmentShowsOnlyEndpointAndDatabase | src/EFCore.Cosmos/Infrastructure/Internal/CosmosDbOptionExtension.cs:544-561 | No setting other than the endpoint and the database name affects the fragment. |
| CosmosExtensionInfo.Info | src/EFCore.Cosmos/Infrastructure/Internal/CosmosDbOptionExtension.cs:85-86 | `Info` returns the cached info if there is one; otherwise it creates an empty one and caches it. The settings never change and coherence is preserved. |
| CosmosExtensionInfo.GetServiceProviderHashCode | src/EFCore.Cosmos/Infrastructure/Internal/CosmosDbOptionExtension.cs:494-523 | The first call computes the hash of the current settings and caches it. A call with a cached hash returns it and changes nothing. On a coherent extension the answer is always the fresh hash. |
| CosmosExtensionInfo.LogFragment | src/EFCore.Cosmos/Infrastructure/Internal/CosmosDbOptionExtension.cs:544-561 | The first read builds the fragment and caches it. Later reads return the cached text and change nothing. On a coherent extension the answer is always the fresh fragment. |
| CosmosExtensionInfo.HashMemoised | src/EFCore.Cosmos/Infrastructure/Internal/CosmosDbOptionExtension.cs:496-522 | A second hash request returns the first answer and leaves the extension as the first request left it. |
| CosmosExtensionInfo.LogFragmentMemoised | src/EFCore.Cosmos/Infrastructure/Internal/CosmosDbOptionExtension.cs:546-559 | A second log-fragment read returns the first answer and changes nothing. |
| CosmosExtensionInfo.HashSurvivesLogFragment | src/EFCore.Cosmos/Infrastructure/Internal/CosmosDbOptionExtension.cs:481-482 | The two caches are independent: reading the log fragment does not disturb a cached hash. |
| CosmosExtensionInfo.HashIndependentOfHistory | src/EFCore.Cosmos/Infrastructure/Internal/CosmosDbOptionExtension.cs:494-523 | Two coherent extensions with equal settings report the same hash, whatever they have cached. |
| CosmosExtensionInfo.UpdatedExtensionIsCoherent | src/EFCore.Cosmos/Infrastructure/Internal/CosmosDbOptionExtension.cs:458 | Because a `With*` result starts without cached info, it is coherent and has nothing cached. |
| CosmosExtensionInfo.EmptyConnectionStringLeavesHashUndefined | src/EFCore.Cosmos/Infrastructure/Internal/CosmosDbOptionExtension.cs:158-170 | An empty connection string passes the null-only guard, from the default constructor among others. Whenever it succeeds, the result satisfies neither branch of the null-or-empty test that the hash relies on. |

## Left out

- `ApplyServices` (lines 466-467) only registers the provider's services in a dependency-injection container. That container is not part of this model.
- `Validate` (lines 475-477) has an empty body, so there is nothing to model.
- The property getters (`AccountEndpoint`, `Region`, …) return their fields. They appear only as the field view `CosmosOptions.Get`.
- `src/EFCore/Extensions/ModelExtensions.cs` is not part of this model. Its members delegate to the framework's model interfaces.
- Thread safety: the caches use unsynchronised lazy initialisation. The model is sequential.
- `string.GetHashCode`, `IWebProxy.GetHashCode`, `TimeSpan.GetHashCode` and `Enum.IsDefined` belong to the runtime. They are parameters (`CosmosExtensionInfo.Hashing` and `definedModes`). A web proxy and an execution strategy factory are opaque tokens compared by identity. A `TimeSpan` is its tick count, compared by value.
- `IsDatabaseProvider` (line 492) is the constant `true`. Nothing in the options or their hash depends on it.
- CosmosExtensionInfo.ServiceProviderHash: the `NullReferenceException` the source raises when the connection string is null or empty and the endpoint or the key is null is not modelled. This member and `GetServiceProviderHashCode` require `HashDefined` instead, and `PopulateDebugInfo` requires it for a non-null map.
- CosmosExtensionInfo.GetServiceProviderHashCode: returns the hash as its 64-bit two's-complement pattern (`uint64`). The `long` it denotes is `DotNet.Signed` of it.
