/**
  The boundary with the placement service (StarManager) and with the rest of
  the frontend. Nothing here talks to anything: every remote call of the
  agent is given to it as a Reply value, and every exception the agent
  throws comes back as a Throw outcome.
 */
module Remote {

  /** The status codes a failed StarClient call carries that the agent tells apart. */
  datatype StatusCode = AlreadyExist | NotExist | Other

  /** What one StarClient call answered: a value, or a StarClientException with its code. */
  datatype Reply<T> = Ok(value: T) | Err(code: StatusCode)

  /** The exceptions the agent lets escape to its callers. */
  datatype Exception =
    | DdlException
    | UserException
    | IllegalStateException       // a failed Preconditions.checkState
    | IndexOutOfBoundsException   // get(0) on an empty list

  /** The result of an agent operation that may throw. */
  datatype Outcome<T> = Return(value: T) | Throw(exception: Exception)

  /** A worker's "host:port" address, kept as its two parts. */
  datatype WorkerAddr = WorkerAddr(host: string, port: int)

  datatype WorkerInfo = WorkerInfo(workerId: int, ipPort: WorkerAddr)

  datatype ReplicaRole = Primary | Secondary

  datatype ReplicaInfo = ReplicaInfo(role: ReplicaRole, workerInfo: WorkerInfo)

  datatype ShardInfo = ShardInfo(shardId: int, replicas: seq<ReplicaInfo>)

  datatype ShardGroupInfo = ShardGroupInfo(groupId: int)

  datatype PlacementPolicy = Spread

  /** A shard-group creation request: its policy, its labels and its properties. */
  datatype CreateShardGroupInfo =
    CreateShardGroupInfo(policy: PlacementPolicy, labels: map<string, int>, properties: map<string, int>)

  /** Where a shard's files live and how they are cached; both opaque to the agent. */
  datatype FilePathInfo = FilePathInfo(descriptor: string)
  datatype FileCacheInfo = FileCacheInfo(descriptor: string)

  /** A shard creation request; the shard id is chosen by the frontend before the call. */
  datatype CreateShardInfo = CreateShardInfo(
    shardId: int,
    replicaCount: int,
    groupIds: seq<int>,
    pathInfo: FilePathInfo,
    cacheInfo: FileCacheInfo)

  /** The shard ids of a list of shard infos, in order. */
  function ShardIds(infos: seq<ShardInfo>): (ids: seq<int>)
    ensures |ids| == |infos|
    ensures forall i :: 0 <= i < |infos| ==> ids[i] == infos[i].shardId
  {
    seq(|infos|, i requires 0 <= i < |infos| => infos[i].shardId)
  }
}
