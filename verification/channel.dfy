/** The pool of channel.go as a sequential state machine over a bounded FIFO:
    construction, Get, put, Stop and Len, each one atomic step. */
module Channel {
  import opened PoolTypes

  /** The capacity pair the constructor accepts. */
  predicate ValidCapacity(initialCap: int, maxCap: int) {
    !(initialCap < 0 || maxCap <= 0 || initialCap > maxCap)
  }

  /** The pool invariant: an open pool has a positive capacity and never
      holds more idle connections than that capacity. */
  predicate Valid(p: Pool) {
    p.Open? ==> 0 < p.maxCap && |p.queue| <= p.maxCap
  }

  /** No connection marked unusable sits in the idle queue. */
  predicate NoUnusableIdle(p: Pool) {
    p.Open? ==> forall i :: 0 <= i < |p.queue| ==> !p.queue[i].unusable
  }

  /** The connection ids held in a queue. */
  function Ids(q: seq<NatsConn>): set<ConnId> {
    set i | 0 <= i < |q| :: q[i].id
  }

  /** The number of idle connections; a closed pool has a nil queue, whose
      length is zero. */
  function Len(p: Pool): (n: nat)
    ensures p.Closed? ==> n == 0
    ensures Valid(p) && p.Open? ==> n <= p.maxCap
  {
    match p
    case Open(_, q, _) => |q|
    case Closed(_) => 0
  }

  /** The factory answered the first n calls with connections. */
  predicate AllMade(factory: seq<Made>, n: nat)
    requires n <= |factory|
  {
    forall i :: 0 <= i < n ==> factory[i].Made?
  }

  /** The k-th call is the first of the first n calls the factory failed. */
  predicate FirstFailure(factory: seq<Made>, k: nat, n: nat)
    requires n <= |factory|
  {
    k < n && factory[k].Failed? && AllMade(factory, k)
  }

  /** The connection the constructor enqueues for a factory answer. */
  function Fresh(id: ConnId): NatsConn {
    NatsConn(id, None, false)
  }

  /** NewChannelPool: validate the capacities, then pre-fill the queue from
      the factory; when a fill fails, stop the partial pool (closing every
      connection created so far) and report the wrapped factory error. */
  method NewChannelPool(id: PoolId, initialCap: int, maxCap: int, factory: seq<Made>, closed: set<ConnId>)
    returns (r: Result<Pool>, closed': set<ConnId>, rest: seq<Made>)
    requires ValidCapacity(initialCap, maxCap) ==> initialCap <= |factory|
    ensures !ValidCapacity(initialCap, maxCap) ==>
              r == Err(InvalidCapacity) && closed' == closed && rest == factory
    ensures ValidCapacity(initialCap, maxCap) && AllMade(factory, initialCap) ==>
              && r.Ok? && r.value.Open? && r.value.id == id && r.value.maxCap == maxCap
              && |r.value.queue| == initialCap && Len(r.value) == initialCap
              && (forall i :: 0 <= i < initialCap ==> r.value.queue[i] == Fresh(factory[i].id))
              && closed' == closed && rest == factory[initialCap..]
    ensures forall k: nat :: ValidCapacity(initialCap, maxCap) && FirstFailure(factory, k, initialCap) ==>
              && r == Err(FillFailed(factory[k].cause))
              && rest == factory[k + 1..]
              && closed <= closed'
              && (forall i :: 0 <= i < k ==> factory[i].id in closed')
              && (forall x :: x in closed' ==> x in closed || exists i :: 0 <= i < k && factory[i].id == x)
    ensures r.Ok? ==> Valid(r.value) && NoUnusableIdle(r.value)
  {
    if !ValidCapacity(initialCap, maxCap) {
      return Err(InvalidCapacity), closed, factory;
    }
    var q: seq<NatsConn> := [];
    var i := 0;
    while i < initialCap
      invariant 0 <= i <= initialCap
      invariant AllMade(factory, i)
      invariant |q| == i
      invariant forall j :: 0 <= j < i ==> q[j] == Fresh(factory[j].id)
    {
      match factory[i]
      case Failed(cause) =>
        var s := Stop(Open(id, q, maxCap), closed);
        return Err(FillFailed(cause)), s.closed, factory[i + 1..];
      case Made(cid) =>
        q := q + [Fresh(cid)];
        i := i + 1;
    }
    return Ok(Open(id, q, maxCap)), closed, factory[initialCap..];
  }

  /** Get: fail on a closed pool; otherwise take the head of the queue
      (failing fast when it is already closed, and rebinding its pool
      back-reference otherwise), or, when the queue is empty, call the
      factory once for an overflow connection with no back-reference. */
  function Get(p: Pool, factory: seq<Made>, closed: set<ConnId>): (r: Got)
    requires p.Open? && p.queue == [] ==> factory != []
    ensures p.Closed? ==> r == Got(Err(ErrClosed), p, factory)
    ensures p.Open? ==> r.pool.Open? && r.pool.id == p.id && r.pool.maxCap == p.maxCap
    ensures p.Open? && p.queue != [] ==>
              && [p.queue[0]] + r.pool.queue == p.queue
              && Len(r.pool) == Len(p) - 1
              && r.factory == factory
              && (p.queue[0].id in closed <==> r.out == Err(ErrClosed))
              && (p.queue[0].id !in closed ==> r.out.Ok?)
              && (r.out.Ok? ==> r.out.value.id == p.queue[0].id
                                && r.out.value.unusable == p.queue[0].unusable
                                && r.out.value.pool == Some(p.id))
    ensures p.Open? && p.queue == [] ==>
              && r.pool == p
              && r.factory == factory[1..]
              && (factory[0].Failed? <==> r.out.Err?)
              && (r.out.Err? ==> r.out.error == FactoryError(factory[0].cause))
              && (r.out.Ok? ==> r.out.value == NatsConn(factory[0].id, None, false))
    ensures Valid(p) ==> Valid(r.pool)
  {
    match p
    case Closed(_) => Got(Err(ErrClosed), p, factory)
    case Open(id, q, maxCap) =>
      if q != [] then
        var head := q[0];
        var p' := Open(id, q[1..], maxCap);
        if head.id in closed then Got(Err(ErrClosed), p', factory)
        else Got(Ok(head.(pool := Some(id))), p', factory)
      else
        match factory[0]
        case Failed(cause) => Got(Err(FactoryError(cause)), p, factory[1..])
        case Made(cid) => Got(Ok(NatsConn(cid, None, false)), p, factory[1..])
  }

  /** put: reject a connection that is already closed; append it at the tail
      when the queue has room; otherwise close it and drop it. A closed pool
      is only reachable with an already closed connection (see README). */
  function Put(p: Pool, c: NatsConn, closed: set<ConnId>): (r: Returned)
    requires c.id in closed || p.Open?
    ensures c.id in closed ==> r == Returned(Err(Rejected), p, closed)
    ensures c.id !in closed ==> r.out == Ok(()) && r.pool.Open? && r.pool.id == p.id && r.pool.maxCap == p.maxCap
    ensures c.id !in closed && |p.queue| < p.maxCap ==>
              r.pool.queue == p.queue + [c] && Len(r.pool) == Len(p) + 1 && r.closed == closed
    ensures c.id !in closed && |p.queue| >= p.maxCap ==>
              r.pool == p && c.id in r.closed && r.closed - {c.id} == closed - {c.id}
    ensures Valid(p) ==> Valid(r.pool)
  {
    if c.id in closed then Returned(Err(Rejected), p, closed)
    else if |p.queue| < p.maxCap then Returned(Ok(()), p.(queue := p.queue + [c]), closed)
    else Returned(Ok(()), p, closed + {c.id})
  }

  /** Stop: swap the queue out (the pool becomes Closed) and close every
      connection that was idle; on a closed pool it does nothing. */
  function Stop(p: Pool, closed: set<ConnId>): (r: Stopped)
    ensures r.pool == Closed(p.id) && Len(r.pool) == 0
    ensures p.Closed? ==> r.closed == closed
    ensures p.Open? ==> forall i :: 0 <= i < |p.queue| ==> p.queue[i].id in r.closed
    ensures p.Open? ==> forall x :: x in r.closed <==> x in closed || exists i :: 0 <= i < |p.queue| && p.queue[i].id == x
  {
    match p
    case Closed(_) => Stopped(p, closed)
    case Open(id, q, _) => Stopped(Closed(id), closed + Ids(q))
  }

  /** A second Stop changes nothing. */
  lemma StopIdempotent(p: Pool, closed: set<ConnId>)
    ensures Stop(Stop(p, closed).pool, Stop(p, closed).closed) == Stop(p, closed)
  {
  }

  /** Once Closed, a pool stays Closed: Get, put and Stop all leave it so. */
  lemma ClosedIsFinal(p: Pool, c: NatsConn, factory: seq<Made>, closed: set<ConnId>)
    requires p.Closed?
    ensures Get(p, factory, closed).pool == p
    ensures c.id in closed ==> Put(p, c, closed).pool == p
    ensures Stop(p, closed).pool == p
  {
  }
}
