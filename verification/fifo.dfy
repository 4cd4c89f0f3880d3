/** FIFO order of the idle queue: connections handed back through put come
    out of Get in the order they went in, behind those already idle. */
module Fifo {
  import opened PoolTypes
  import Channel

  /** Successive puts of open connections into a pool with room for all of them. */
  function PutAll(p: Pool, cs: seq<NatsConn>, closed: set<ConnId>): (r: Pool)
    requires p.Open? && |p.queue| + |cs| <= p.maxCap
    requires forall i :: 0 <= i < |cs| ==> cs[i].id !in closed
    ensures r.Open? && r.id == p.id && r.maxCap == p.maxCap
    ensures r.queue == p.queue + cs
    decreases |cs|
  {
    if cs == [] then p
    else
      var p' := Channel.Put(p, cs[0], closed).pool;
      assert p'.queue + cs[1..] == p.queue + cs;
      PutAll(p', cs[1..], closed)
  }

  /** Successive Gets until the queue is empty; the factory is never called. */
  function TakeAll(p: Pool, closed: set<ConnId>): (outs: seq<Result<NatsConn>>)
    requires p.Open?
    ensures |outs| == |p.queue|
    ensures forall i :: 0 <= i < |outs| ==>
              outs[i] == if p.queue[i].id in closed then Err(ErrClosed)
                         else Ok(p.queue[i].(pool := Some(p.id)))
    decreases |p.queue|
  {
    if p.queue == [] then []
    else
      var g := Channel.Get(p, [], closed);
      assert forall i :: 0 <= i < |g.pool.queue| ==> g.pool.queue[i] == p.queue[i + 1];
      [g.out] + TakeAll(g.pool, closed)
  }

  /** Draining the pool after a run of puts returns the idle connections
      first and then the returned ones, each in its original order, each
      with its back-reference bound to the pool. */
  lemma FifoOrder(p: Pool, cs: seq<NatsConn>, closed: set<ConnId>)
    requires p.Open? && |p.queue| + |cs| <= p.maxCap
    requires forall i :: 0 <= i < |cs| ==> cs[i].id !in closed
    ensures |TakeAll(PutAll(p, cs, closed), closed)| == |p.queue| + |cs|
    ensures forall i :: 0 <= i < |cs| ==>
              TakeAll(PutAll(p, cs, closed), closed)[|p.queue| + i] == Ok(cs[i].(pool := Some(p.id)))
  {
  }
}
