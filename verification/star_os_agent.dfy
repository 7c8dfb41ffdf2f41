/**
  The frontend's agent for StarOS: it obtains the service id, registers and
  removes workers, creates, lists and deletes shard groups and shards, and
  resolves a shard's replicas to StarRocks backends, keeping a cache from
  worker address to worker id to backend id.

  Each remote call the agent makes is a Reply parameter (for prepare's lookup
  of the service by name, `svcInfo`); the frontend's lookup of a backend by
  host and starlet port is the `resolve` parameter, -1 meaning unknown.
 */
module Lake {

  import opened Optional
  import opened Remote
  import opened WorkerCache

  /** The service id after a lookup by name: the id found, or the old one when
      the lookup fails. */
  function FetchedServiceId(current: string, svcInfo: Reply<string>): (r: string)
    ensures svcInfo.Ok? ==> r == svcInfo.value
    ensures svcInfo.Err? ==> r == current
  {
    match svcInfo
    case Ok(id) => id
    case Err(_) => current
  }

  /** The service id after prepare: an id already set is kept without a remote
      call; an empty one is looked up, and stays empty if the lookup fails. */
  function PreparedServiceId(current: string, svcInfo: Reply<string>): (r: string)
    ensures current != "" ==> r == current
    ensures current == "" ==> r == FetchedServiceId(current, svcInfo)
    ensures current == "" && svcInfo.Err? ==> r == ""
  {
    if current == "" then FetchedServiceId(current, svcInfo) else current
  }

  /** Preparing twice is preparing once when the first lookup succeeded with a
      non-empty id: the second reply is never consulted. */
  lemma PrepareIdempotent(current: string, first: Reply<string>, second: Reply<string>)
    requires PreparedServiceId(current, first) != ""
    ensures PreparedServiceId(PreparedServiceId(current, first), second) == PreparedServiceId(current, first)
  {
  }

  /** The replica list of the one shard asked about; a failed call is a
      UserException and an answer not about exactly one shard violates the
      protocol. */
  function ReplicasOf(info: Reply<seq<ShardInfo>>): (r: Outcome<seq<ReplicaInfo>>)
    ensures r.Return? <==> info.Ok? && |info.value| == 1
    ensures r.Return? ==> r.value == info.value[0].replicas
    ensures info.Err? ==> r == Throw(UserException)
    ensures info.Ok? && |info.value| != 1 ==> r == Throw(IllegalStateException)
  {
    match info
    case Err(_) => Throw(UserException)
    case Ok(infos) => if |infos| == 1 then Return(infos[0].replicas) else Throw(IllegalStateException)
  }

  /** The frontend's id generator: each id handed out is above all earlier ones. */
  class IdGenerator {
    var nextId: int

    constructor (start: int)
      ensures nextId == start
    {
      nextId := start;
    }

    method GetNextId() returns (id: int)
      modifies this
      ensures old(nextId) <= id < nextId
    {
      id := nextId;
      nextId := nextId + 1;
    }
  }

  class StarOSAgent {
    var serviceId: string
    var workerToId: map<WorkerAddr, int>
    var workerToBackend: map<int, int>

    /** The two maps as one value. */
    function Maps(): Cache
      reads this
    {
      Cache(workerToId, workerToBackend)
    }

    constructor ()
      ensures serviceId == "" && workerToId == map[] && workerToBackend == map[]
      ensures Valid(Maps())
    {
      serviceId := "";
      workerToId := map[];
      workerToBackend := map[];
    }

    method Prepare(svcInfo: Reply<string>)
      modifies this`serviceId
      ensures serviceId == PreparedServiceId(old(serviceId), svcInfo)
    {
      if serviceId == "" {
        GetServiceId(svcInfo);
      }
    }

    method GetServiceId(svcInfo: Reply<string>)
      modifies this`serviceId
      ensures serviceId == FetchedServiceId(old(serviceId), svcInfo)
    {
      match svcInfo {
        case Ok(id) => serviceId := id;
        case Err(_) =>
      }
    }

    /** Register the service (it may already be registered), then bootstrap it;
        if it was already bootstrapped, look its id up by name instead. */
    method RegisterAndBootstrapService(registered: Reply<()>, bootstrapped: Reply<string>, svcInfo: Reply<string>)
      returns (ok: bool)
      modifies this`serviceId
      ensures registered.Err? && registered.code != AlreadyExist ==> !ok && serviceId == old(serviceId)
      ensures registered.Ok? || registered.code == AlreadyExist ==>
        match bootstrapped
        case Ok(id) => ok && serviceId == id
        case Err(AlreadyExist) => ok && serviceId == FetchedServiceId(old(serviceId), svcInfo)
        case Err(_) => !ok && serviceId == old(serviceId)
    {
      if registered.Err? && registered.code != AlreadyExist {
        return false;
      }
      match bootstrapped {
        case Ok(id) =>
          serviceId := id;
        case Err(code) =>
          if code != AlreadyExist {
            return false;
          }
          GetServiceId(svcInfo);
      }
      return true;
    }

    /** The worker id of an address: the cached one, else the service's; -1 when
        the service does not know the address either. */
    function GetWorker(addr: WorkerAddr, workerInfo: Reply<int>): (r: Outcome<int>)
      reads this
      ensures addr in workerToId ==> r == Return(workerToId[addr])
      ensures addr !in workerToId && workerInfo.Ok? ==> r == Return(workerInfo.value)
      ensures addr !in workerToId && workerInfo == Err(NotExist) ==> r == Return(-1)
      ensures r.Throw? <==> addr !in workerToId && workerInfo.Err? && workerInfo.code != NotExist
      ensures r.Throw? ==> r.exception == DdlException
    {
      if addr in workerToId then Return(workerToId[addr])
      else match workerInfo
        case Ok(w) => Return(w)
        case Err(NotExist) => Return(-1)
        case Err(_) => Throw(DdlException)
    }

    /** Register a worker for a backend. Nothing changes when there is still no
        service id or the address is already cached; a worker the service
        already knows is looked up by address; any other failure changes nothing. */
    method AddWorker(backendId: int, addr: WorkerAddr, svcInfo: Reply<string>, added: Reply<int>, workerInfo: Reply<int>)
      modifies this
      ensures serviceId == PreparedServiceId(old(serviceId), svcInfo)
      ensures serviceId == "" || addr in old(workerToId) ==> Maps() == old(Maps())
      ensures serviceId != "" && addr !in old(workerToId) ==>
        match added
        case Ok(w) => Maps() == Put(old(Maps()), addr, w, backendId)
        case Err(AlreadyExist) =>
          Maps() == if workerInfo.Ok? then Put(old(Maps()), addr, workerInfo.value, backendId) else old(Maps())
        case Err(_) => Maps() == old(Maps())
      ensures Coherent(old(Maps())) ==> Coherent(Maps())
    {
      Prepare(svcInfo);
      if serviceId == "" {
        return;
      }
      if addr in workerToId {
        return;
      }
      var workerId := -1;
      match added {
        case Ok(w) =>
          workerId := w;
        case Err(code) =>
          if code != AlreadyExist {
            return;
          }
          match workerInfo {
            case Ok(w) => workerId := w;
            case Err(_) => return;
          }
      }
      ghost var before := Maps();
      workerToId := workerToId[addr := workerId];
      workerToBackend := workerToBackend[workerId := backendId];
      if Coherent(before) {
        PutKeepsCoherent(before, addr, workerId, backendId);
      }
    }

    /** Deregister a worker. The service answering that the worker does not
        exist counts as success; any other failure throws before the cache is
        touched. */
    method RemoveWorker(addr: WorkerAddr, svcInfo: Reply<string>, workerInfo: Reply<int>, removed: Reply<()>)
      returns (r: Outcome<()>)
      modifies this
      ensures serviceId == PreparedServiceId(old(serviceId), svcInfo)
      ensures old(GetWorker(addr, workerInfo)).Throw? ==> r == Throw(DdlException) && Maps() == old(Maps())
      ensures old(GetWorker(addr, workerInfo)).Return? ==>
        if removed.Err? && removed.code != NotExist
        then r == Throw(DdlException) && Maps() == old(Maps())
        else r == Return(()) && Maps() == Evict(old(Maps()), old(GetWorker(addr, workerInfo)).value, addr)
      ensures Valid(old(Maps())) && addr in old(workerToId) ==> Valid(Maps())
    {
      Prepare(svcInfo);
      var found := GetWorker(addr, workerInfo);
      if found.Throw? {
        return Throw(found.exception);
      }
      var workerId := found.value;
      if removed.Err? && removed.code != NotExist {
        return Throw(DdlException);
      }
      ghost var before := Maps();
      RemoveWorkerFromMap(workerId, addr);
      if Valid(before) && addr in before.workerToId {
        EvictKeepsValid(before, workerId, addr);
      }
      return Return(());
    }

    method RemoveWorkerFromMap(workerId: int, addr: WorkerAddr)
      modifies this`workerToId, this`workerToBackend
      ensures Maps() == Evict(old(Maps()), workerId, addr)
    {
      workerToBackend := workerToBackend - {workerId};
      workerToId := workerToId - {addr};
    }

    /** Some worker id whose backend is the given one, or -1 when there is none. */
    method GetWorkerIdByBackendId(backendId: int) returns (workerId: int)
      ensures (workerId in workerToBackend && workerToBackend[workerId] == backendId)
           || (workerId == -1 && forall w :: w in workerToBackend ==> workerToBackend[w] != backendId)
    {
      workerId := -1;
      var unvisited := workerToBackend.Keys;
      while unvisited != {}
        invariant unvisited <= workerToBackend.Keys
        invariant forall w :: w in workerToBackend && w !in unvisited ==> workerToBackend[w] != backendId
        decreases unvisited
      {
        assert exists w :: w in unvisited by {
          if forall w :: w !in unvisited { assert false; }
        }
        var w :| w in unvisited;
        if workerToBackend[w] == backendId {
          workerId := w;
          return;
        }
        unvisited := unvisited - {w};
      }
    }

    /** Create one shard group with the spread policy, labelled with its
        database, table and partition; the service must answer with exactly one
        group, whose id is returned. */
    method CreateShardGroup(dbId: int, tableId: int, partitionId: int, createTime: int,
                            svcInfo: Reply<string>, created: Reply<seq<ShardGroupInfo>>)
      returns (request: seq<CreateShardGroupInfo>, r: Outcome<int>)
      modifies this`serviceId
      ensures serviceId == PreparedServiceId(old(serviceId), svcInfo)
      ensures |request| == 1 && request[0].policy == Spread
      ensures request[0].labels == map["dbId" := dbId, "tableId" := tableId, "partitionId" := partitionId]
      ensures request[0].properties == map["createTime" := createTime]
      ensures created.Err? ==> r == Throw(DdlException)
      ensures created.Ok? && |created.value| != 1 ==> r == Throw(IllegalStateException)
      ensures created.Ok? && |created.value| == 1 ==> r == Return(created.value[0].groupId)
    {
      Prepare(svcInfo);
      request := [CreateShardGroupInfo(
        Spread,
        map["dbId" := dbId, "tableId" := tableId, "partitionId" := partitionId],
        map["createTime" := createTime])];
      match created {
        case Err(_) =>
          r := Throw(DdlException);
        case Ok(groups) =>
          if |groups| != 1 {
            r := Throw(IllegalStateException);
          } else {
            r := Return(groups[0].groupId);
          }
      }
    }

    /** Best effort: `deleted` is the service's answer to the deletion, and a
        failure in it is logged and swallowed, so it affects nothing. */
    method DeleteShardGroup(groupIds: seq<int>, svcInfo: Reply<string>, deleted: Reply<()>)
      modifies this`serviceId
      ensures serviceId == PreparedServiceId(old(serviceId), svcInfo)
    {
      Prepare(svcInfo);
    }

    /** The service's shard groups, or none when the listing fails. */
    method ListShardGroup(svcInfo: Reply<string>, listed: Reply<seq<ShardGroupInfo>>)
      returns (groups: seq<ShardGroupInfo>)
      modifies this`serviceId
      ensures serviceId == PreparedServiceId(old(serviceId), svcInfo)
      ensures listed.Ok? ==> groups == listed.value
      ensures listed.Err? ==> groups == []
    {
      Prepare(svcInfo);
      groups := if listed.Ok? then listed.value else [];
    }

    /**
      Create numShards shards in one group: each request gets a fresh id from
      the generator, so the ids are increasing and distinct; the service must
      answer with exactly numShards shards, whose ids are returned in order.
      A negative count fails when the request list is allocated, before any
      id is taken.
     */
    method CreateShards(numShards: int, replicaNum: int, pathInfo: FilePathInfo, cacheInfo: FileCacheInfo,
                        groupId: int, ids: IdGenerator, svcInfo: Reply<string>, created: Reply<seq<ShardInfo>>)
      returns (requests: seq<CreateShardInfo>, r: Outcome<seq<int>>)
      modifies this`serviceId, ids
      ensures serviceId == PreparedServiceId(old(serviceId), svcInfo)
      ensures numShards < 0 ==> requests == [] && ids.nextId == old(ids.nextId) && r == Throw(DdlException)
      ensures numShards >= 0 ==> |requests| == numShards
      ensures forall i :: 0 <= i < |requests| ==>
        requests[i].replicaCount == replicaNum && requests[i].groupIds == [groupId] &&
        requests[i].pathInfo == pathInfo && requests[i].cacheInfo == cacheInfo
      ensures forall i :: 0 <= i < |requests| ==> old(ids.nextId) <= requests[i].shardId < ids.nextId
      ensures forall i, j :: 0 <= i < j < |requests| ==> requests[i].shardId < requests[j].shardId
      ensures numShards >= 0 && created.Err? ==> r == Throw(DdlException)
      ensures numShards >= 0 && created.Ok? && |created.value| != numShards ==> r == Throw(IllegalStateException)
      ensures numShards >= 0 && created.Ok? && |created.value| == numShards ==> r == Return(ShardIds(created.value))
    {
      Prepare(svcInfo);
      requests := [];
      if numShards < 0 {
        return requests, Throw(DdlException);
      }
      var i := 0;
      while i < numShards
        invariant 0 <= i <= numShards && |requests| == i
        invariant serviceId == PreparedServiceId(old(serviceId), svcInfo)
        invariant old(ids.nextId) <= ids.nextId
        invariant forall k :: 0 <= k < i ==>
          requests[k].replicaCount == replicaNum && requests[k].groupIds == [groupId] &&
          requests[k].pathInfo == pathInfo && requests[k].cacheInfo == cacheInfo
        invariant forall k :: 0 <= k < i ==> old(ids.nextId) <= requests[k].shardId < ids.nextId
        invariant forall k, l :: 0 <= k < l < i ==> requests[k].shardId < requests[l].shardId
      {
        var shardId := ids.GetNextId();
        requests := requests + [CreateShardInfo(shardId, replicaNum, [groupId], pathInfo, cacheInfo)];
        i := i + 1;
      }
      match created {
        case Err(_) =>
          r := Throw(DdlException);
        case Ok(infos) =>
          if |infos| != numShards {
            r := Throw(IllegalStateException);
          } else {
            r := Return(ShardIds(infos));
          }
      }
    }

    /** The ids of the shards in one group, in the service's order. */
    method ListShard(groupId: int, svcInfo: Reply<string>, listed: Reply<seq<seq<ShardInfo>>>)
      returns (r: Outcome<seq<int>>)
      modifies this`serviceId
      ensures serviceId == PreparedServiceId(old(serviceId), svcInfo)
      ensures listed.Err? ==> r == Throw(DdlException)
      ensures listed.Ok? && listed.value == [] ==> r == Throw(IndexOutOfBoundsException)
      ensures listed.Ok? && listed.value != [] ==> r == Return(ShardIds(listed.value[0]))
    {
      Prepare(svcInfo);
      match listed {
        case Err(_) =>
          r := Throw(DdlException);
        case Ok(lists) =>
          if lists == [] {
            r := Throw(IndexOutOfBoundsException);
          } else {
            r := Return(ShardIds(lists[0]));
          }
      }
    }

    /** Unlike group deletion, a failure to delete shards is reported. */
    method DeleteShards(shardIds: set<int>, svcInfo: Reply<string>, deleted: Reply<()>)
      returns (r: Outcome<()>)
      modifies this`serviceId
      ensures serviceId == PreparedServiceId(old(serviceId), svcInfo)
      ensures r == if deleted.Err? then Throw(DdlException) else Return(())
    {
      Prepare(svcInfo);
      r := if deleted.Err? then Throw(DdlException) else Return(());
    }

    method GetShardReplicas(shardId: int, svcInfo: Reply<string>, info: Reply<seq<ShardInfo>>)
      returns (r: Outcome<seq<ReplicaInfo>>)
      modifies this`serviceId
      ensures serviceId == PreparedServiceId(old(serviceId), svcInfo)
      ensures r == ReplicasOf(info)
    {
      Prepare(svcInfo);
      r := ReplicasOf(info);
    }

    /**
      The backend of the shard's first primary replica. A worker without a
      cached backend is resolved by address and recorded in both maps; an
      address that resolves to nothing, or a shard without a primary, throws.
     */
    method GetPrimaryBackendIdByShard(shardId: int, svcInfo: Reply<string>, info: Reply<seq<ShardInfo>>,
                                      resolve: (string, int) -> int)
      returns (r: Outcome<int>)
      modifies this
      ensures serviceId == PreparedServiceId(old(serviceId), svcInfo)
      ensures ReplicasOf(info).Throw? ==> r == Throw(ReplicasOf(info).exception) && Maps() == old(Maps())
      ensures ReplicasOf(info).Return? && FirstPrimary(ReplicasOf(info).value).None? ==>
        r == Throw(UserException) && Maps() == old(Maps())
      ensures ReplicasOf(info).Return? && FirstPrimary(ReplicasOf(info).value).Some? ==>
        var replicas := ReplicasOf(info).value;
        var step := ResolveWorker(old(Maps()), replicas[FirstPrimary(replicas).value].workerInfo, resolve);
        Maps() == step.cache &&
        r == if step.backendId.Some? then Return(step.backendId.value) else Throw(UserException)
      ensures Valid(old(Maps())) ==> Valid(Maps())
    {
      var replicas := GetShardReplicas(shardId, svcInfo, info);
      if replicas.Throw? {
        return Throw(replicas.exception);
      }
      var rs := replicas.value;
      var i := 0;
      while i < |rs|
        invariant 0 <= i <= |rs|
        invariant forall j :: 0 <= j < i ==> rs[j].role != Primary
      {
        if rs[i].role == Primary {
          break;
        }
        i := i + 1;
      }
      if i == |rs| {
        return Throw(UserException);
      }
      var worker := rs[i].workerInfo;
      ghost var before := Maps();
      if Valid(before) {
        ResolveWorkerKeepsValid(before, worker, resolve);
      }
      if worker.workerId !in workerToBackend {
        var backendId := resolve(worker.ipPort.host, worker.ipPort.port);
        if backendId == -1 {
          return Throw(UserException);
        }
        workerToId := workerToId[worker.ipPort := worker.workerId];
        workerToBackend := workerToBackend[worker.workerId := backendId];
        return Return(backendId);
      }
      return Return(workerToBackend[worker.workerId]);
    }

    /**
      The backends of all the shard's replicas. Each worker is looked up in the
      cache or resolved and recorded, in replica order; a worker whose address
      resolves to nothing is skipped.
     */
    method GetBackendIdsByShard(shardId: int, svcInfo: Reply<string>, info: Reply<seq<ShardInfo>>,
                                resolve: (string, int) -> int)
      returns (r: Outcome<set<int>>)
      modifies this
      ensures serviceId == PreparedServiceId(old(serviceId), svcInfo)
      ensures ReplicasOf(info).Throw? ==> r == Throw(ReplicasOf(info).exception) && Maps() == old(Maps())
      ensures ReplicasOf(info).Return? ==>
        var resolved := ResolveAll(old(Maps()), ReplicasOf(info).value, resolve);
        Maps() == resolved.cache && r == Return(resolved.backendIds)
      ensures Valid(old(Maps())) ==> Valid(Maps())
    {
      var replicas := GetShardReplicas(shardId, svcInfo, info);
      if replicas.Throw? {
        return Throw(replicas.exception);
      }
      var rs := replicas.value;
      ghost var start := Maps();
      ghost var target := ResolveAll(start, rs, resolve);
      ResolveAllKeepsValid(start, rs, resolve);
      var backendIds: set<int> := {};
      var i := 0;
      while i < |rs|
        invariant 0 <= i <= |rs|
        invariant serviceId == PreparedServiceId(old(serviceId), svcInfo)
        invariant ResolveAll(Maps(), rs[i..], resolve).cache == target.cache
        invariant backendIds + ResolveAll(Maps(), rs[i..], resolve).backendIds == target.backendIds
      {
        var worker := rs[i].workerInfo;
        assert rs[i..][0] == rs[i] && rs[i..][1..] == rs[i + 1..];
        if worker.workerId !in workerToBackend {
          var backendId := resolve(worker.ipPort.host, worker.ipPort.port);
          if backendId == -1 {
            i := i + 1;
            continue;
          }
          workerToId := workerToId[worker.ipPort := worker.workerId];
          workerToBackend := workerToBackend[worker.workerId := backendId];
          backendIds := backendIds + {backendId};
        } else {
          backendIds := backendIds + {workerToBackend[worker.workerId]};
        }
        i := i + 1;
      }
      assert rs[i..] == [];
      return Return(backendIds);
    }
  }
}
