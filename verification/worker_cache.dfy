/**
  The agent's cache of workers as a value: the map from a worker's address to
  its StarOS worker id and the map from a worker id to the StarRocks backend
  id on the same machine. The agent's methods change these two maps only
  through Put and Evict, and the replica resolvers through ResolveWorker.
 */
module WorkerCache {

  import opened Optional
  import opened Remote

  datatype Cache = Cache(workerToId: map<WorkerAddr, int>, workerToBackend: map<int, int>)

  /** Every cached address leads, through its worker id, to a backend. */
  ghost predicate Coherent(c: Cache) {
    forall a :: a in c.workerToId ==> c.workerToId[a] in c.workerToBackend
  }

  /** No two cached addresses share a worker id. */
  ghost predicate Injective(c: Cache) {
    forall a, b :: a in c.workerToId && b in c.workerToId && a != b ==> c.workerToId[a] != c.workerToId[b]
  }

  ghost predicate Valid(c: Cache) {
    Coherent(c) && Injective(c)
  }

  /** The backend an address leads to through both maps, if it leads anywhere. */
  function BackendOf(c: Cache, addr: WorkerAddr): Option<int> {
    if addr in c.workerToId && c.workerToId[addr] in c.workerToBackend
    then Some(c.workerToBackend[c.workerToId[addr]])
    else None
  }

  /** The common entries of the two maps are untouched and the backend map only grows. */
  ghost predicate Extends(c: Cache, d: Cache) {
    forall w :: w in c.workerToBackend ==> w in d.workerToBackend && d.workerToBackend[w] == c.workerToBackend[w]
  }

  /** Record a worker: its address now leads to its id and its id to the backend. */
  function Put(c: Cache, addr: WorkerAddr, workerId: int, backendId: int): (r: Cache)
    ensures addr in r.workerToId && r.workerToId[addr] == workerId
    ensures workerId in r.workerToBackend && r.workerToBackend[workerId] == backendId
    ensures BackendOf(r, addr) == Some(backendId)
    ensures r.workerToId.Keys == c.workerToId.Keys + {addr}
    ensures r.workerToBackend.Keys == c.workerToBackend.Keys + {workerId}
    ensures forall a :: a in c.workerToId && a != addr ==> r.workerToId[a] == c.workerToId[a]
    ensures forall w :: w in c.workerToBackend && w != workerId ==> r.workerToBackend[w] == c.workerToBackend[w]
  {
    Cache(c.workerToId[addr := workerId], c.workerToBackend[workerId := backendId])
  }

  /** Forget a worker: drop its id from the backend map and its address from the id map. */
  function Evict(c: Cache, workerId: int, addr: WorkerAddr): (r: Cache)
    ensures addr !in r.workerToId && workerId !in r.workerToBackend
    ensures BackendOf(r, addr) == None
    ensures r.workerToId.Keys == c.workerToId.Keys - {addr}
    ensures r.workerToBackend.Keys == c.workerToBackend.Keys - {workerId}
    ensures forall a :: a in r.workerToId ==> r.workerToId[a] == c.workerToId[a]
    ensures forall w :: w in r.workerToBackend ==> r.workerToBackend[w] == c.workerToBackend[w]
  {
    Cache(c.workerToId - {addr}, c.workerToBackend - {workerId})
  }

  /** Recording a worker never leaves a cached address without a backend. */
  lemma PutKeepsCoherent(c: Cache, addr: WorkerAddr, workerId: int, backendId: int)
    requires Coherent(c)
    ensures Coherent(Put(c, addr, workerId, backendId))
  {
  }

  /** Recording a worker whose id no other cached address uses keeps the cache valid. */
  lemma PutKeepsValid(c: Cache, addr: WorkerAddr, workerId: int, backendId: int)
    requires Valid(c)
    requires forall a :: a in c.workerToId && a != addr ==> c.workerToId[a] != workerId
    ensures Valid(Put(c, addr, workerId, backendId))
  {
  }

  /** Forgetting an address together with the id it is cached under (or, for an
      uncached address, an id no cached address uses) keeps the cache valid. */
  lemma EvictKeepsValid(c: Cache, workerId: int, addr: WorkerAddr)
    requires Valid(c)
    requires addr in c.workerToId ==> c.workerToId[addr] == workerId
    requires addr !in c.workerToId ==> forall a :: a in c.workerToId ==> c.workerToId[a] != workerId
    ensures Valid(Evict(c, workerId, addr))
  {
    var r := Evict(c, workerId, addr);
    forall a | a in r.workerToId
      ensures r.workerToId[a] in r.workerToBackend
    {
      assert a != addr && a in c.workerToId;
      if addr in c.workerToId {
        assert c.workerToId[a] != c.workerToId[addr];
      }
    }
  }

  /** Removing a freshly added worker by the id it was added under restores the cache. */
  lemma PutThenEvict(c: Cache, addr: WorkerAddr, workerId: int, backendId: int)
    requires addr !in c.workerToId && workerId !in c.workerToBackend
    ensures Evict(Put(c, addr, workerId, backendId), workerId, addr) == c
  {
  }

  /** Evicting by the wrong id breaks the cache: an address whose worker id
      is shared with the evicted address loses its backend. */
  lemma EvictSharedIdBreaksCoherence(c: Cache, workerId: int, addr: WorkerAddr, other: WorkerAddr)
    requires other != addr && other in c.workerToId && c.workerToId[other] == workerId
    ensures !Coherent(Evict(c, workerId, addr))
  {
    assert other in Evict(c, workerId, addr).workerToId;
  }

  /** What resolving one worker produced: the cache afterwards and the backend found, if any. */
  datatype Resolution = Resolution(cache: Cache, backendId: Option<int>)

  /**
    Cache-or-resolve: a worker id with a cached backend gives that backend;
    otherwise the address is resolved to a backend id (-1: unknown) and a
    resolved worker is recorded in both maps.
   */
  function ResolveWorker(c: Cache, worker: WorkerInfo, resolve: (string, int) -> int): (r: Resolution)
    ensures worker.workerId in c.workerToBackend ==>
      r == Resolution(c, Some(c.workerToBackend[worker.workerId]))
    ensures r.backendId.None? <==>
      worker.workerId !in c.workerToBackend && resolve(worker.ipPort.host, worker.ipPort.port) == -1
    ensures r.backendId.None? ==> r.cache == c
    ensures r.backendId.Some? ==>
      worker.workerId in r.cache.workerToBackend &&
      r.cache.workerToBackend[worker.workerId] == r.backendId.value
    ensures worker.workerId !in c.workerToBackend && r.backendId.Some? ==>
      r.backendId.value == resolve(worker.ipPort.host, worker.ipPort.port) &&
      r.cache == Put(c, worker.ipPort, worker.workerId, r.backendId.value)
    ensures Extends(c, r.cache)
  {
    if worker.workerId in c.workerToBackend then
      Resolution(c, Some(c.workerToBackend[worker.workerId]))
    else
      var backendId := resolve(worker.ipPort.host, worker.ipPort.port);
      if backendId == -1 then Resolution(c, None)
      else Resolution(Put(c, worker.ipPort, worker.workerId, backendId), Some(backendId))
  }

  /** A resolution only records a worker whose id had no backend, so no cached
      address can have been using that id: the cache stays valid. */
  lemma ResolveWorkerKeepsValid(c: Cache, worker: WorkerInfo, resolve: (string, int) -> int)
    requires Valid(c)
    ensures Valid(ResolveWorker(c, worker, resolve).cache)
  {
    var r := ResolveWorker(c, worker, resolve);
    if worker.workerId !in c.workerToBackend && r.backendId.Some? {
      PutKeepsValid(c, worker.ipPort, worker.workerId, r.backendId.value);
    }
  }

  /** Once a worker is recorded, resolving it is a cache hit whatever the resolver says. */
  lemma ResolveAfterPut(c: Cache, worker: WorkerInfo, backendId: int, resolve: (string, int) -> int)
    ensures var d := Put(c, worker.ipPort, worker.workerId, backendId);
      ResolveWorker(d, worker, resolve) == Resolution(d, Some(backendId))
  {
  }

  /** The backend map may hold ids no address leads to: when a cached address
      shows up in a replica under a new worker id, resolving it re-points the
      address and leaves the old id's backend entry behind. */
  lemma ResolveCanOrphanOldId(c: Cache, worker: WorkerInfo, resolve: (string, int) -> int)
    requires Valid(c)
    requires worker.ipPort in c.workerToId && c.workerToId[worker.ipPort] != worker.workerId
    requires worker.workerId !in c.workerToBackend
    requires resolve(worker.ipPort.host, worker.ipPort.port) != -1
    ensures var d := ResolveWorker(c, worker, resolve).cache;
      var stale := c.workerToId[worker.ipPort];
      stale in d.workerToBackend && forall a :: a in d.workerToId ==> d.workerToId[a] != stale
  {
    var d := ResolveWorker(c, worker, resolve).cache;
    var stale := c.workerToId[worker.ipPort];
    forall a | a in d.workerToId
      ensures d.workerToId[a] != stale
    {
      if a != worker.ipPort {
        assert d.workerToId[a] == c.workerToId[a];
      }
    }
  }

  /** What resolving every replica of a shard produced. */
  datatype Resolved = Resolved(cache: Cache, backendIds: set<int>)

  /** Resolve the replicas' workers in order, each against the cache the previous ones left,
      collecting the backends found and skipping the workers that resolve to nothing. */
  function ResolveAll(c: Cache, replicas: seq<ReplicaInfo>, resolve: (string, int) -> int): Resolved
    decreases |replicas|
  {
    if replicas == [] then Resolved(c, {})
    else
      var step := ResolveWorker(c, replicas[0].workerInfo, resolve);
      var rest := ResolveAll(step.cache, replicas[1..], resolve);
      Resolved(rest.cache, (if step.backendId.Some? then {step.backendId.value} else {}) + rest.backendIds)
  }

  /** The backends a cache gives for the replicas whose worker id it knows. */
  ghost function BackendsOf(d: Cache, replicas: seq<ReplicaInfo>): set<int> {
    set rep | rep in replicas && rep.workerInfo.workerId in d.workerToBackend :: d.workerToBackend[rep.workerInfo.workerId]
  }

  /** At most one backend per replica. */
  lemma {:induction false} ResolveAllBound(c: Cache, replicas: seq<ReplicaInfo>, resolve: (string, int) -> int)
    ensures |ResolveAll(c, replicas, resolve).backendIds| <= |replicas|
    decreases |replicas|
  {
    if replicas != [] {
      var step := ResolveWorker(c, replicas[0].workerInfo, resolve);
      ResolveAllBound(step.cache, replicas[1..], resolve);
      var rest := ResolveAll(step.cache, replicas[1..], resolve).backendIds;
      var first: set<int> := if step.backendId.Some? then {step.backendId.value} else {};
      assert |first + rest| <= |first| + |rest|;
    }
  }

  /** Resolution keeps the cache valid and never changes a backend it already knew. */
  lemma {:induction false} ResolveAllKeepsValid(c: Cache, replicas: seq<ReplicaInfo>, resolve: (string, int) -> int)
    ensures Valid(c) ==> Valid(ResolveAll(c, replicas, resolve).cache)
    ensures Extends(c, ResolveAll(c, replicas, resolve).cache)
    decreases |replicas|
  {
    if replicas != [] {
      var step := ResolveWorker(c, replicas[0].workerInfo, resolve);
      if Valid(c) {
        ResolveWorkerKeepsValid(c, replicas[0].workerInfo, resolve);
      }
      ResolveAllKeepsValid(step.cache, replicas[1..], resolve);
    }
  }

  /** A worker id that gains a backend belongs to one of the replicas. */
  lemma {:induction false} ResolveAllNewKeys(c: Cache, replicas: seq<ReplicaInfo>, resolve: (string, int) -> int)
    ensures forall w :: w in ResolveAll(c, replicas, resolve).cache.workerToBackend && w !in c.workerToBackend ==>
      exists rep :: rep in replicas && rep.workerInfo.workerId == w
    decreases |replicas|
  {
    if replicas != [] {
      var step := ResolveWorker(c, replicas[0].workerInfo, resolve);
      ResolveAllNewKeys(step.cache, replicas[1..], resolve);
      forall w | w in ResolveAll(c, replicas, resolve).cache.workerToBackend && w !in c.workerToBackend
        ensures exists rep :: rep in replicas && rep.workerInfo.workerId == w
      {
        if w in step.cache.workerToBackend {
          assert replicas[0].workerInfo.workerId == w;
        } else {
          var rep :| rep in replicas[1..] && rep.workerInfo.workerId == w;
          assert rep in replicas;
        }
      }
    }
  }

  /** A replica is skipped only when its worker had no backend and its address
      resolved to nothing. */
  lemma {:induction false} ResolveAllSkipsOnlyUnresolved(c: Cache, replicas: seq<ReplicaInfo>, resolve: (string, int) -> int)
    ensures forall rep :: rep in replicas && rep.workerInfo.workerId !in ResolveAll(c, replicas, resolve).cache.workerToBackend ==>
      rep.workerInfo.workerId !in c.workerToBackend &&
      resolve(rep.workerInfo.ipPort.host, rep.workerInfo.ipPort.port) == -1
    decreases |replicas|
  {
    if replicas != [] {
      var step := ResolveWorker(c, replicas[0].workerInfo, resolve);
      ResolveAllSkipsOnlyUnresolved(step.cache, replicas[1..], resolve);
      ResolveAllKeepsValid(step.cache, replicas[1..], resolve);
      forall rep | rep in replicas && rep.workerInfo.workerId !in ResolveAll(c, replicas, resolve).cache.workerToBackend
        ensures rep.workerInfo.workerId !in c.workerToBackend
        ensures resolve(rep.workerInfo.ipPort.host, rep.workerInfo.ipPort.port) == -1
      {
        if rep != replicas[0] {
          assert rep in replicas[1..];
        }
      }
    }
  }

  /** The backends returned are exactly those the final cache gives for the
      replicas: a skipped replica adds nothing unless a later replica on the
      same worker resolved it. */
  lemma {:induction false} ResolveAllBackends(c: Cache, replicas: seq<ReplicaInfo>, resolve: (string, int) -> int)
    ensures var r := ResolveAll(c, replicas, resolve); r.backendIds == BackendsOf(r.cache, replicas)
    decreases |replicas|
  {
    if replicas != [] {
      var r0 := replicas[0];
      var rest := replicas[1..];
      var step := ResolveWorker(c, r0.workerInfo, resolve);
      var tail := ResolveAll(step.cache, rest, resolve);
      var d := tail.cache;
      ResolveAllBackends(step.cache, rest, resolve);
      ResolveAllKeepsValid(step.cache, rest, resolve);
      ResolveAllNewKeys(step.cache, rest, resolve);
      var w0 := r0.workerInfo.workerId;
      assert BackendsOf(d, replicas) ==
        (if w0 in d.workerToBackend then {d.workerToBackend[w0]} else {}) + BackendsOf(d, rest)
      by {
        assert forall rep :: rep in replicas <==> rep == r0 || rep in rest;
      }
      if step.backendId.None? && w0 in d.workerToBackend {
        var rep :| rep in rest && rep.workerInfo.workerId == w0;
        assert d.workerToBackend[w0] in BackendsOf(d, rest);
      }
    }
  }

  /** When every replica's worker is cached or resolvable, every replica
      contributes its backend and there is no more than one backend per replica. */
  lemma ResolveAllComplete(c: Cache, replicas: seq<ReplicaInfo>, resolve: (string, int) -> int)
    requires forall rep :: rep in replicas ==>
      rep.workerInfo.workerId in c.workerToBackend ||
      resolve(rep.workerInfo.ipPort.host, rep.workerInfo.ipPort.port) != -1
    ensures var r := ResolveAll(c, replicas, resolve);
      && (forall rep :: rep in replicas ==> rep.workerInfo.workerId in r.cache.workerToBackend)
      && r.backendIds == (set rep | rep in replicas :: r.cache.workerToBackend[rep.workerInfo.workerId])
      && |r.backendIds| <= |replicas|
  {
    ResolveAllSkipsOnlyUnresolved(c, replicas, resolve);
    ResolveAllBackends(c, replicas, resolve);
    ResolveAllBound(c, replicas, resolve);
  }

  /** The position of the first primary replica, if any. */
  function FirstPrimary(replicas: seq<ReplicaInfo>): (r: Option<nat>)
    ensures r.Some? ==>
      r.value < |replicas| && replicas[r.value].role == Primary &&
      forall j :: 0 <= j < r.value ==> replicas[j].role != Primary
    ensures r.None? ==> forall j :: 0 <= j < |replicas| ==> replicas[j].role != Primary
  {
    if replicas == [] then None
    else if replicas[0].role == Primary then Some(0)
    else match FirstPrimary(replicas[1..])
      case None => None
      case Some(i) => Some(i + 1)
  }
}
