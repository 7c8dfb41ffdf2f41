# StarRocks: StarOS agent, logical-type classification, SET routing

This project models three pieces of StarRocks in Dafny.

- **The frontend's StarOS agent** (`StarOSAgent`). It is the frontend's client of the StarOS
  placement service (StarManager). It obtains the service id lazily. It registers and removes
  workers. It creates, lists and deletes shard groups and shards. It resolves a shard's replicas
  to StarRocks backends. Along the way it keeps two maps: from a worker's address to its StarOS
  worker id, and from a worker id to the StarRocks backend on the same machine.
  - The class `Lake.StarOSAgent` has the source's three fields: `serviceId`, `workerToId` and
    `workerToBackend`. Its methods update them in place.
  - Every `StarClient` call is a `Reply` parameter: `Ok(value)` or `Err(code)`, where the code
    is `AlreadyExist`, `NotExist` or `Other`.
  - The frontend's lookup of a backend by host and starlet port is a function parameter
    `resolve`. It returns -1 for an unknown node.
  - The frontend's id counter is the class `Lake.IdGenerator`.
  - A thrown exception is a `Throw` outcome.
  - The value view of the two maps and the cache-or-resolve steps live in module `WorkerCache`.
- **The backend's logical-type enumeration** (`logical_type.h`). It is modelled with its
  numeric values and every classification predicate defined there, in module `LogicalTypes`.
- **The SET statement's audit and forwarding decisions** (`SetStmt`), in module `SetStmts`.

The cache invariant the agent actually keeps is `WorkerCache.Valid`:

- every cached address's worker id has a backend;
- no two cached addresses share a worker id.

Every operation preserves `Valid`, subject to the remote-consistency conditions in the lemmas
below. The design describes a stronger invariant: every cached worker id also has a cached
address ("vice versa"). The code does not keep that direction, and the model follows the code.
`WorkerCache.ResolveCanOrphanOldId` proves that resolving a cached address under a new worker
id leaves the old id's backend entry with no address leading to it. Removing a worker whose
address is not cached cannot orphan an id, since the address map is left as it is; it breaks
the other direction instead when the service's id for that address is one a cached address
still uses (`WorkerCache.EvictSharedIdBreaksCoherence`).

The design also says read-path listing failures degrade to empty results. In the code only
`listShardGroup` does that; `listShard` throws a `DdlException`. The model follows the code.

## Model

| member | source | states |
|---|---|---|
| Lake.StarOSAgent.constructor | fe/fe-core/src/main/java/com/starrocks/lake/StarOSAgent.java:71-76 | starts with an empty service id and empty maps, which satisfy the cache invariant |
| Lake.FetchedServiceId | fe/fe-core/src/main/java/com/starrocks/lake/StarOSAgent.java:105-114 | a successful lookup by name yields the service's id; a failed one keeps the old id |
| Lake.PreparedServiceId | fe/fe-core/src/main/java/com/starrocks/lake/StarOSAgent.java:97-103 | a non-empty id is kept with no lookup; an empty one is looked up and stays empty when the lookup fails |
| Lake.PrepareIdempotent | fe/fe-core/src/main/java/com/starrocks/lake/StarOSAgent.java:97-103 | once prepare has produced an id, a second prepare changes nothing, whatever the service answers |
| Lake.StarOSAgent.Prepare | fe/fe-core/src/main/java/com/starrocks/lake/StarOSAgent.java:97-103 | the new service id is the prepared id of the old one |
| Lake.StarOSAgent.GetServiceId | fe/fe-core/src/main/java/com/starrocks/lake/StarOSAgent.java:105-114 | the new service id is the looked-up one, or the old one on failure |
| Lake.StarOSAgent.RegisterAndBootstrapService | fe/fe-core/src/main/java/com/starrocks/lake/StarOSAgent.java:129-153 | an already-registered service counts as registered; any other register failure returns false with the id unchanged; a successful bootstrap sets the id; an already-bootstrapped service falls back to the lookup by name; any other bootstrap failure returns false |
| Lake.StarOSAgent.GetWorker | fe/fe-core/src/main/java/com/starrocks/lake/StarOSAgent.java:162-186 | a cached address gives its cached id; otherwise the service's id; -1 when the service does not know the worker; a DdlException exactly when the address is uncached and the service fails with another code |
| Lake.StarOSAgent.AddWorker | fe/fe-core/src/main/java/com/starrocks/lake/StarOSAgent.java:188-223 | with no service id, or an already-cached address, both maps are unchanged; a new id, or on "already exists" the id looked up by address, is recorded in both maps; any other failure changes nothing; every cached address keeps a backend |
| Lake.StarOSAgent.RemoveWorker | fe/fe-core/src/main/java/com/starrocks/lake/StarOSAgent.java:225-242 | a failed id lookup or a removal failure other than "not exist" throws a DdlException before the maps change; otherwise the worker id and address are evicted; the cache invariant is kept when the address was cached |
| Lake.StarOSAgent.RemoveWorkerFromMap | fe/fe-core/src/main/java/com/starrocks/lake/StarOSAgent.java:244-251 | removes exactly the worker id from the backend map and the address from the id map |
| Lake.StarOSAgent.GetWorkerIdByBackendId | fe/fe-core/src/main/java/com/starrocks/lake/StarOSAgent.java:253-264 | returns a worker id whose backend is the given one, or -1 when no cached worker id has that backend; changes nothing |
| Lake.StarOSAgent.CreateShardGroup | fe/fe-core/src/main/java/com/starrocks/lake/StarOSAgent.java:266-285 | sends one spread-policy request labelled with the database, table and partition ids and the creation time; a failed call is a DdlException; anything but exactly one group back is a failed state check; otherwise the group's id |
| Lake.StarOSAgent.DeleteShardGroup | fe/fe-core/src/main/java/com/starrocks/lake/StarOSAgent.java:287-294 | a failure is swallowed: the only effect is prepare's |
| Lake.StarOSAgent.ListShardGroup | fe/fe-core/src/main/java/com/starrocks/lake/StarOSAgent.java:296-304 | the service's groups, or the empty list when the call fails |
| Lake.IdGenerator.constructor | fe/fe-core/src/main/java/com/starrocks/lake/StarOSAgent.java:319-320 | the counter starts at the given value |
| Lake.IdGenerator.GetNextId | fe/fe-core/src/main/java/com/starrocks/lake/StarOSAgent.java:319-320 | each id handed out is at least the previous counter and below the new one |
| Lake.StarOSAgent.CreateShards | fe/fe-core/src/main/java/com/starrocks/lake/StarOSAgent.java:306-331 | a negative count fails with a DdlException before any id is taken; otherwise the method builds that many requests, each with the given replica count, group, path and cache, and with strictly increasing fresh shard ids; a failed call is a DdlException; a reply of another size is a failed state check; otherwise the reply's shard ids, in order |
| Lake.StarOSAgent.ListShard | fe/fe-core/src/main/java/com/starrocks/lake/StarOSAgent.java:333-343 | a failed call is a DdlException; an empty reply fails on the first element; otherwise the first group's shard ids, in order |
| Lake.StarOSAgent.DeleteShards | fe/fe-core/src/main/java/com/starrocks/lake/StarOSAgent.java:345-353 | a failure is reported as a DdlException, unlike group deletion |
| Lake.ReplicasOf | fe/fe-core/src/main/java/com/starrocks/lake/StarOSAgent.java:355-364 | a failed call is a UserException; a reply that is not about exactly one shard is a failed state check; otherwise that shard's replicas |
| Lake.StarOSAgent.GetShardReplicas | fe/fe-core/src/main/java/com/starrocks/lake/StarOSAgent.java:355-364 | the outcome is the replica list of the reply, as above |
| Lake.StarOSAgent.GetPrimaryBackendIdByShard | fe/fe-core/src/main/java/com/starrocks/lake/StarOSAgent.java:366-396 | the backend of the first primary replica, cached or resolved and then recorded; a shard with no primary, or a primary that resolves to -1, is a UserException with the maps unchanged; the cache invariant is kept |
| Lake.StarOSAgent.GetBackendIdsByShard | fe/fe-core/src/main/java/com/starrocks/lake/StarOSAgent.java:398-429 | the new maps and the result are those of resolving every replica in order (ResolveAll); the cache invariant is kept |
| WorkerCache.Put | fe/fe-core/src/main/java/com/starrocks/lake/StarOSAgent.java:219-220 | afterwards the address maps to the worker id and the worker id to the backend, so the address leads to the backend; each map gains at most one key (the address or the id, when not already present); every other entry is unchanged |
| WorkerCache.Evict | fe/fe-core/src/main/java/com/starrocks/lake/StarOSAgent.java:246-247 | afterwards the address and the worker id are gone and the address leads nowhere; each map loses at most one key (the address or the id, when present); every other entry is unchanged |
| WorkerCache.PutKeepsCoherent | fe/fe-core/src/main/java/com/starrocks/lake/StarOSAgent.java:219-220 | recording a worker never leaves a cached address without a backend |
| WorkerCache.PutKeepsValid | fe/fe-core/src/main/java/com/starrocks/lake/StarOSAgent.java:219-220 | recording a worker whose id no other address uses keeps the full invariant |
| WorkerCache.EvictKeepsValid | fe/fe-core/src/main/java/com/starrocks/lake/StarOSAgent.java:244-251 | evicting an address together with its own cached id keeps the invariant; so does evicting an uncached address with an id no address uses |
| WorkerCache.PutThenEvict | fe/fe-core/src/main/java/com/starrocks/lake/StarOSAgent.java:188-251 | removing a freshly added worker by the id it was added under restores the maps exactly |
| WorkerCache.EvictSharedIdBreaksCoherence | fe/fe-core/src/main/java/com/starrocks/lake/StarOSAgent.java:225-251 | evicting an uncached address under an id that another cached address uses leaves that address without a backend |
| WorkerCache.ResolveWorker | fe/fe-core/src/main/java/com/starrocks/lake/StarOSAgent.java:374-391 | a cached worker id gives its backend with no change; otherwise the resolver's answer; -1 gives nothing and no change; any other answer is recorded in both maps; existing backend entries are never altered |
| WorkerCache.ResolveWorkerKeepsValid | fe/fe-core/src/main/java/com/starrocks/lake/StarOSAgent.java:374-387 | resolving a worker keeps the cache invariant |
| WorkerCache.ResolveAfterPut | fe/fe-core/src/main/java/com/starrocks/lake/StarOSAgent.java:376-391 | once a worker is recorded, resolving it is a cache hit whatever the resolver would say |
| WorkerCache.ResolveCanOrphanOldId | fe/fe-core/src/main/java/com/starrocks/lake/StarOSAgent.java:374-387 | re-resolving a cached address under a new worker id leaves the old id with a backend but no address |
| WorkerCache.ResolveAllBound | fe/fe-core/src/main/java/com/starrocks/lake/StarOSAgent.java:402-426 | there are at most as many backends as replicas |
| WorkerCache.ResolveAllKeepsValid | fe/fe-core/src/main/java/com/starrocks/lake/StarOSAgent.java:402-426 | resolving all replicas keeps the invariant and never alters an existing backend entry |
| WorkerCache.ResolveAllNewKeys | fe/fe-core/src/main/java/com/starrocks/lake/StarOSAgent.java:407-421 | every worker id newly given a backend is one of the replicas' workers |
| WorkerCache.ResolveAllSkipsOnlyUnresolved | fe/fe-core/src/main/java/com/starrocks/lake/StarOSAgent.java:407-418 | a replica whose worker still has no backend afterwards was uncached and resolved to -1 |
| WorkerCache.ResolveAllBackends | fe/fe-core/src/main/java/com/starrocks/lake/StarOSAgent.java:402-426 | the backends returned are exactly the final backends of the replicas' workers |
| WorkerCache.ResolveAllComplete | fe/fe-core/src/main/java/com/starrocks/lake/StarOSAgent.java:402-426 | when every replica is cached or resolvable, every worker ends up cached and the result is the set of their backends |
| WorkerCache.ResolveAll | fe/fe-core/src/main/java/com/starrocks/lake/StarOSAgent.java:403-426 | resolves the replicas in order, each against the cache the earlier ones left, collecting the backends found and skipping workers that resolve to -1; its properties are the ResolveAll lemmas, and GetBackendIdsByShard is proved equal to it |
| WorkerCache.FirstPrimary | fe/fe-core/src/main/java/com/starrocks/lake/StarOSAgent.java:370-371 | the index of the first primary replica, or none when no replica is primary |
| Remote.ShardIds | fe/fe-core/src/main/java/com/starrocks/lake/StarOSAgent.java:330 | the shard ids of the infos, one per info, in order |
| LogicalTypes.Value | be/src/types/logical_type.h:26-77 | each enumerator's numeric value as declared; ValueBelowMax, ValueRoundTrip and ValueInjective state its properties |
| LogicalTypes.FromValue | be/src/types/logical_type.h:26-77 | the enumerator with a given number, if any; it inverts Value (ValueRoundTrip, FromValueRoundTrip) |
| LogicalTypes.ValueBelowMax | be/src/types/logical_type.h:26-77 | every enumerator other than TYPE_MAX_VALUE has a value below 55, the value of TYPE_MAX_VALUE |
| LogicalTypes.ValueRoundTrip | be/src/types/logical_type.h:26-77 | decoding an enumerator's value gives the enumerator back |
| LogicalTypes.FromValueRoundTrip | be/src/types/logical_type.h:26-77 | a number that decodes to an enumerator is that enumerator's value, and lies between 0 and 55 |
| LogicalTypes.ValueInjective | be/src/types/logical_type.h:26-77 | no two enumerators share a value |
| LogicalTypes.IsZoneMapKeyType | be/src/types/logical_type.h:80-83 | every type except CHAR, VARCHAR, JSON, VARBINARY, OBJECT, HLL and PERCENTILE; characterised by ZoneMapKeyCharacterisation |
| LogicalTypes.DelegateTypeConstant | be/src/types/logical_type.h:85-92 | the compile-time delegate: the DECIMAL32, DECIMAL64 and DECIMAL128 specialisations, and the type itself otherwise; DelegateTypeAgreesWithSpecialisations ties it to DelegateType |
| LogicalTypes.IsStringType | be/src/types/logical_type.h:107-109 | CHAR and VARCHAR; disjoint from the object types (StringAndObjectDisjoint) |
| LogicalTypes.IsObjectType | be/src/types/logical_type.h:111-114 | HLL, OBJECT, JSON and PERCENTILE |
| LogicalTypes.IsDecimalV3FieldType | be/src/types/logical_type.h:116-118 | DECIMAL32, DECIMAL64 and DECIMAL128; their classification is DecimalV3Classification |
| LogicalTypes.IsBinaryType | be/src/types/logical_type.h:123-131 | BINARY and VARBINARY; characterised by value in BinaryClassification |
| LogicalTypes.IsEnumerationType | be/src/types/logical_type.h:133-145 | TINYINT, SMALLINT, INT, BIGINT, LARGEINT and DATE; all scalar primitives (EnumerationIsScalarPrimitive) |
| LogicalTypes.IsTypeCompatible | be/src/types/logical_type.h:147-165 | the source's if-chain: no TYPE_FUNCTION, the VARCHAR/CHAR/HLL/OBJECT special cases, equality otherwise; its algebra is stated by the TypeCompatible lemmas |
| LogicalTypes.IsScalarPrimitiveType | be/src/types/logical_type.h:167-195 | the 21 scalar primitive types listed in the source's switch |
| LogicalTypes.DelegateType | be/src/types/logical_type.h:94-105 | a decimal-v3 type is stored as a different, enumeration type; every other type is its own delegate |
| LogicalTypes.DelegateTypeAgreesWithSpecialisations | be/src/types/logical_type.h:85-105 | the run-time delegate agrees with the compile-time specialisations DECIMAL32 to INT, DECIMAL64 to BIGINT, DECIMAL128 to LARGEINT |
| LogicalTypes.DelegateTypeIdempotent | be/src/types/logical_type.h:94-105 | delegating twice is delegating once |
| LogicalTypes.FunctionIsIncompatible | be/src/types/logical_type.h:147-150 | TYPE_FUNCTION is compatible with nothing, on either side |
| LogicalTypes.TypeCompatibleReflexive | be/src/types/logical_type.h:147-165 | every type other than TYPE_FUNCTION is compatible with itself |
| LogicalTypes.TypeCompatibleSymmetric | be/src/types/logical_type.h:147-165 | compatibility is symmetric |
| LogicalTypes.TypeCompatibleConverse | be/src/types/logical_type.h:147-165 | a compatible pair is compatible in the other order too |
| LogicalTypes.TypeCompatibleAcrossFamilyBoundary | be/src/types/logical_type.h:147-165 | a type in the string family and one outside it are never compatible |
| LogicalTypes.TypeCompatibleIsEqualityOutsideStringFamily | be/src/types/logical_type.h:152-164 | outside VARCHAR, CHAR, HLL and OBJECT, compatibility is equality (except for TYPE_FUNCTION) |
| LogicalTypes.TypeCompatibleNotTransitive | be/src/types/logical_type.h:152-162 | compatibility is not transitive: HLL–VARCHAR and VARCHAR–OBJECT are compatible, but HLL–OBJECT is not |
| LogicalTypes.ZoneMapKeyCharacterisation | be/src/types/logical_type.h:80-83 | a type carries a zone map exactly when it is neither a string type nor an object type nor VARBINARY |
| LogicalTypes.StringAndObjectDisjoint | be/src/types/logical_type.h:107-114 | no type is both a string type and an object type |
| LogicalTypes.DecimalV3Classification | be/src/types/logical_type.h:94-118 | a decimal-v3 type is a scalar primitive, and its delegate is a scalar enumeration type that is not decimal-v3 |
| LogicalTypes.BinaryClassification | be/src/types/logical_type.h:123-131 | a type is binary exactly when its value is 45 (BINARY) or 46 (VARBINARY); binary types are scalar primitives and neither strings nor objects |
| LogicalTypes.EnumerationIsScalarPrimitive | be/src/types/logical_type.h:133-145 | every enumeration type is a scalar primitive |
| SetStmts.NeedAuditEncryption | fe/fe-core/src/main/java/com/starrocks/sql/ast/SetStmt.java:35-40 | the scan over a non-null list: true exactly when some assignment is a password assignment |
| SetStmts.StatementNeedsAuditEncryption | fe/fe-core/src/main/java/com/starrocks/sql/ast/SetStmt.java:34-41 | a null list raises a NullPointerException, since the scan does not check for null; otherwise encryption is needed exactly when some assignment is a password assignment |
| SetStmts.RedirectOf | fe/fe-core/src/main/java/com/starrocks/sql/ast/SetStmt.java:46-54 | forward with sync exactly when some assignment is a password or is global |
| SetStmts.GetRedirectStatus | fe/fe-core/src/main/java/com/starrocks/sql/ast/SetStmt.java:44-55 | a null list is not forwarded; otherwise forward with sync exactly when some assignment is a password or is global |
| SetStmts.AuditEncryptionImpliesForward | fe/fe-core/src/main/java/com/starrocks/sql/ast/SetStmt.java:35-48 | a statement whose audit decision is to encrypt is always forwarded |
| SetStmts.EmptyStatement | fe/fe-core/src/main/java/com/starrocks/sql/ast/SetStmt.java:40-54 | an empty list is decided as needing no encryption and is not forwarded |
| SetStmts.DecisionsIgnoreOrder | fe/fe-core/src/main/java/com/starrocks/sql/ast/SetStmt.java:35-54 | permuting the assignments changes neither decision |
| SetStmts.SameElementsSameDecisions | fe/fe-core/src/main/java/com/starrocks/sql/ast/SetStmt.java:35-54 | what either decision finds in a list, it finds in any list that contains all its elements |

## Left out

- The read-write lock around the maps. Methods are sequential here and each locked region is atomic.
- `init`: it reads the configuration and connects to StarManager. So are the StarClient transport, StarManagerServer and all logging.
- `allocateFilePath`: it needs protobuf enum reflection and the configured file-system type. It is not part of this model.
- `getWorkerId`: a test-only accessor that unboxes a possibly null map entry. It is not part of this model.
- Splitting an address string and `Integer.parseInt`. An address is a `(host, port)` pair, and a malformed address string cannot occur.
- The `long` width of ids. Ids are unbounded integers, so the id counter cannot wrap around.
- Label and property values in `createShardGroup` are the numbers themselves, not their decimal strings. The creation time is an input, not a clock read.
- `deleteShardGroup`'s `cascade` flag and the group list `listShard` sends. Neither affects the agent's state or result.
- Lake.IdGenerator.GetNextId: states only that each id is fresh and above the earlier ones. The counter belongs to GlobalStateMgr, which is not part of this model.
- The `VALUE_GUARD` and `UNION_VALUE_GUARD` macros and the functions logical_type.h only declares (`string_to_logical_type`, `logical_type_to_string`, `to_thrift` and others). Their definitions are not part of this model.
- The contents of `SetVar` beyond being a password assignment and its scope. The other `RedirectStatus` values are also left out, because `SetStmt` never returns them.
- `GrantRevokeClause`, `stream_chunk.cpp` and the analyzer tests. They carry no logic of the modelled core.
