/** A pool of reusable client handles with a bounded FIFO queue of waiting
    requests (src/client_pool.c).

    The pool never looks inside a client: it asks the client implementation
    whether a client is ready, how to describe it and how to destroy it.
    Those capabilities are pure function parameters here. The callback a
    caller hands to Acquire is not run; each invocation of it is recorded
    as a Handoff in the ghost log `handoffs`. */
module ClientPool {

  datatype Option<T> = None | Some(value: T)

  /** An opaque client handle, made by the client implementation's factory. */
  type Handle = nat
  /** Identifies the on-client-ready function a caller passes to Acquire. */
  type Callback = nat
  /** The caller's opaque context, passed back to its callback unchanged. */
  type Context = nat

  /** A queued request: the callback to run once a client is free, and its context. */
  datatype Waiter = Waiter(onClientReady: Callback, ctx: Context)

  /** One invocation of `waiter`'s callback with the client in position `slot`. */
  datatype Handoff = Handoff(waiter: Waiter, slot: nat)

  /** The pool's wrapper around one client handle. */
  datatype PoolClient = PoolClient(client: Handle)

  /** The release notification of `client` is wired to the pool, with the
      wrapper in position `slot` as its context. */
  datatype Registration = Registration(client: Handle, slot: nat)

  /** The record the client implementation returns when asked to describe a client. */
  datatype ClientInfo = ClientInfo(details: string, poolName: string)

  /** The waiter in each hand-off, in order. */
  function Waiters(hs: seq<Handoff>): (ws: seq<Waiter>)
    ensures |ws| == |hs|
    ensures forall k :: 0 <= k < |hs| ==> ws[k] == hs[k].waiter
  {
    if hs == [] then [] else [hs[0].waiter] + Waiters(hs[1..])
  }

  /** `i` is the first position whose client is ready. */
  ghost predicate IsFirstReady(ready: seq<bool>, i: nat)
  {
    i < |ready| && ready[i] && forall j :: 0 <= j < i ==> !ready[j]
  }

  ghost predicate NoneReady(ready: seq<bool>)
  {
    forall j :: 0 <= j < |ready| ==> !ready[j]
  }

  /** The readiness scan: the first ready client in creation order, if any. */
  function FirstReady(ready: seq<bool>): (r: Option<nat>)
    ensures r.Some? ==> IsFirstReady(ready, r.value)
    ensures r.None? <==> NoneReady(ready)
  {
    if ready == [] then None
    else if ready[0] then Some(0)
    else match FirstReady(ready[1..])
      case None => None
      case Some(k) => Some(k + 1)
  }

  /** What the readiness capability answers for each client, in creation order. */
  function Readiness(clients: seq<PoolClient>, isReady: Handle -> bool): (ready: seq<bool>)
    ensures |ready| == |clients|
    ensures forall i :: 0 <= i < |clients| ==> ready[i] == isReady(clients[i].client)
  {
    seq(|clients|, i requires 0 <= i < |clients| => isReady(clients[i].client))
  }

  /** The outcome of one pool operation: whether the request was accepted,
      the new wait queue, and the callbacks it invoked (none or one). */
  datatype Effect = Effect(accepted: bool, queue: seq<Waiter>, handoffs: seq<Handoff>)

  /** Acquire: reject when the queue is full, else serve the first ready
      client at once, else queue the request at the tail. */
  function AfterAcquire(queue: seq<Waiter>, maxQueue: nat, ready: seq<bool>, w: Waiter): (e: Effect)
    ensures e.accepted <==> |queue| < maxQueue
    ensures !e.accepted ==> e.queue == queue && e.handoffs == []
    ensures e.accepted && !NoneReady(ready) ==>
      e.queue == queue && |e.handoffs| == 1 &&
      e.handoffs[0].waiter == w && IsFirstReady(ready, e.handoffs[0].slot)
    ensures e.accepted && NoneReady(ready) ==> e.queue == queue + [w] && e.handoffs == []
  {
    if |queue| >= maxQueue then Effect(false, queue, [])
    else match FirstReady(ready)
      case Some(i) => Effect(true, queue, [Handoff(w, i)])
      case None => Effect(true, queue + [w], [])
  }

  /** Release of the client in `slot`: the oldest waiter, if any, gets that
      client; nothing else is scanned. */
  function AfterRelease(queue: seq<Waiter>, slot: nat): (e: Effect)
    ensures Waiters(e.handoffs) + e.queue == queue
    ensures |e.handoffs| == (if queue == [] then 0 else 1)
    ensures forall k :: 0 <= k < |e.handoffs| ==> e.handoffs[k].slot == slot
  {
    if queue == [] then Effect(true, queue, [])
    else Effect(true, queue[1..], [Handoff(queue[0], slot)])
  }

  class Pool {
    /** pool.max_requests_per_pool, read from the configuration. */
    const maxQueue: nat
    /** The wrapped clients, in creation order. */
    var clients: seq<PoolClient>
    /** The waiting requests, oldest first. */
    var queue: seq<Waiter>
    /** Every callback invocation the pool has made, in order. */
    ghost var handoffs: seq<Handoff>
    /** The release notifications the pool wired at creation. */
    ghost var registered: seq<Registration>

    ghost predicate Valid()
      reads this
    {
      |queue| <= maxQueue
    }

    /** client_pool_create: `create(i)` is the handle the factory returns on its i-th call. */
    constructor (clientCount: int, maxQueue: nat, create: nat -> Handle)
      ensures Valid()
      ensures this.maxQueue == maxQueue && queue == [] && handoffs == []
      ensures |clients| == (if clientCount < 0 then 0 else clientCount)
      ensures forall i :: 0 <= i < |clients| ==> clients[i] == PoolClient(create(i))
      ensures |registered| == |clients|
      ensures forall i :: 0 <= i < |clients| ==> registered[i] == Registration(create(i), i)
    {
      this.maxQueue := maxQueue;
      clients := [];
      queue := [];
      handoffs := [];
      registered := [];
      new;
      var i := 0;
      while i < clientCount
        invariant 0 <= i <= (if clientCount < 0 then 0 else clientCount)
        invariant |clients| == i && |registered| == i
        invariant forall j :: 0 <= j < i ==> clients[j] == PoolClient(create(j))
        invariant forall j :: 0 <= j < i ==> registered[j] == Registration(create(j), j)
        invariant queue == [] && handoffs == [] && this.maxQueue == maxQueue
      {
        var pc := PoolClient(create(i));
        clients := clients + [pc];
        registered := registered + [Registration(pc.client, i)];
        i := i + 1;
      }
    }

    /** client_pool_destroy: frees the queue without running any waiter's
        callback, then destroys every client in list order. */
    method Destroy() returns (destroyed: seq<Handle>, dropped: seq<Waiter>)
      requires Valid()
      modifies this
      ensures Valid()
      ensures dropped == old(queue) && queue == []
      ensures |destroyed| == |old(clients)|
      ensures forall i :: 0 <= i < |destroyed| ==> destroyed[i] == old(clients)[i].client
      ensures clients == [] && registered == [] && handoffs == old(handoffs)
    {
      dropped := queue;
      queue := [];
      destroyed := [];
      var i := 0;
      while i < |clients|
        invariant 0 <= i <= |clients| && clients == old(clients)
        invariant |destroyed| == i
        invariant forall j :: 0 <= j < i ==> destroyed[j] == clients[j].client
      {
        destroyed := destroyed + [clients[i].client];
        i := i + 1;
      }
      clients := [];
      registered := [];
    }

    /** client_pool_on_client_released, for the client in position `slot`. */
    method OnClientReleased(slot: nat)
      requires Valid() && slot < |clients|
      modifies this
      ensures Valid() && clients == old(clients) && registered == old(registered)
      ensures var e := AfterRelease(old(queue), slot);
        queue == e.queue && handoffs == old(handoffs) + e.handoffs
      ensures old(queue) == [] ==> queue == [] && handoffs == old(handoffs)
      ensures old(queue) != [] ==>
        queue == old(queue)[1..] && handoffs == old(handoffs) + [Handoff(old(queue)[0], slot)]
    {
      if queue != [] {
        var data := queue[0];
        queue := queue[1..];
        handoffs := handoffs + [Handoff(data, slot)];
      }
    }

    /** What an acquire for `w` does to the pool, as AfterAcquire says:
        the clients stay as they are, the queue and the callback log change. */
    twostate predicate Acquired(w: Waiter, isReady: Handle -> bool)
      reads this
    {
      var e := AfterAcquire(old(queue), maxQueue, Readiness(old(clients), isReady), w);
      clients == old(clients) && registered == old(registered) &&
      queue == e.queue && handoffs == old(handoffs) + e.handoffs
    }

    /** client_pool_get_client: `isReady` is the client implementation's
        readiness check, as it answers at the time of the call. */
    method Acquire(onClientReady: Callback, ctx: Context, isReady: Handle -> bool) returns (accepted: bool)
      requires Valid()
      modifies this
      ensures Valid() && Acquired(Waiter(onClientReady, ctx), isReady)
      ensures accepted <==> |old(queue)| < maxQueue
    {
      if |queue| >= maxQueue {
        return false;
      }
      ghost var ready := Readiness(clients, isReady);
      var i := 0;
      while i < |clients|
        invariant 0 <= i <= |clients|
        invariant forall j :: 0 <= j < i ==> !ready[j]
        invariant queue == old(queue) && handoffs == old(handoffs)
      {
        if isReady(clients[i].client) {
          assert IsFirstReady(ready, i);
          handoffs := handoffs + [Handoff(Waiter(onClientReady, ctx), i)];
          return true;
        }
        i := i + 1;
      }
      queue := queue + [Waiter(onClientReady, ctx)];
      return true;
    }

    /** client_pool_get_task_list: appends one description per client, in
        client order, each stamped with `poolName`; the pool is not changed. */
    method TaskList(tasks: seq<ClientInfo>, poolName: string, describe: Handle -> ClientInfo)
      returns (r: seq<ClientInfo>)
      ensures |r| == |tasks| + |clients|
      ensures r[..|tasks|] == tasks
      ensures forall i :: 0 <= i < |clients| ==>
        r[|tasks| + i] == describe(clients[i].client).(poolName := poolName)
    {
      r := tasks;
      var i := 0;
      while i < |clients|
        invariant 0 <= i <= |clients|
        invariant |r| == |tasks| + i
        invariant r[..|tasks|] == tasks
        invariant forall j :: 0 <= j < i ==> r[|tasks| + j] == describe(clients[j].client).(poolName := poolName)
      {
        var info := describe(clients[i].client);
        r := r + [info.(poolName := poolName)];
        i := i + 1;
      }
    }
  }
}
