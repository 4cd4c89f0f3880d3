/** The wrapped connection of natsconn.go: the unusable flag and the Close
    that either destroys the connection or hands it back to its pool. */
module Conn {
  import opened PoolTypes
  import Channel

  /** MarkUnusable: the caller saw a fault; from now on Close destroys the
      connection instead of recycling it. */
  function MarkUnusable(c: NatsConn): (r: NatsConn)
    ensures r.unusable
    ensures r.id == c.id && r.pool == c.pool
  {
    c.(unusable := true)
  }

  /** What Close needs from its caller: either it destroys the connection
      directly, or put rejects an already closed connection before touching
      the pool, or the back-reference names the open pool it returns to (see
      README on a nil back-reference and on put after Stop). */
  predicate CanClose(c: NatsConn, p: Pool, closed: set<ConnId>) {
    || (c.unusable && c.id !in closed)
    || c.id in closed
    || (c.pool == Some(p.id) && p.Open?)
  }

  /** Close: an unusable connection that is still open is closed and never
      re-enters the pool; every other connection goes through the pool's put. */
  function Close(c: NatsConn, p: Pool, closed: set<ConnId>): (r: Returned)
    requires CanClose(c, p, closed)
    ensures c.unusable ==> r.pool == p
    ensures c.unusable && c.id !in closed ==> r == Returned(Ok(()), p, closed + {c.id})
    ensures c.id in closed ==> r == Returned(Err(Rejected), p, closed)
    ensures !c.unusable && c.id !in closed && |p.queue| < p.maxCap ==>
              && r.out == Ok(()) && r.pool.Open? && r.pool.id == p.id && r.pool.maxCap == p.maxCap
              && r.pool.queue == p.queue + [c]
              && Channel.Len(r.pool) == Channel.Len(p) + 1 && r.closed == closed
    ensures !c.unusable && c.id !in closed && |p.queue| >= p.maxCap ==>
              r == Returned(Ok(()), p, closed + {c.id})
    ensures c.id in r.closed <==> (c.id in closed || c.unusable || Channel.Len(r.pool) == Channel.Len(p))
    ensures Channel.Valid(p) ==> Channel.Valid(r.pool)
  {
    if c.unusable && c.id !in closed then Returned(Ok(()), p, closed + {c.id})
    else Channel.Put(p, c, closed)
  }

  /** A usable connection's Close is exactly the pool's put. */
  lemma CloseUsableIsPut(c: NatsConn, p: Pool, closed: set<ConnId>)
    requires !c.unusable && (c.id in closed || (c.pool == Some(p.id) && p.Open?))
    ensures Close(c, p, closed) == Channel.Put(p, c, closed)
  {
  }

  /** After MarkUnusable, Close never grows the queue and always leaves the
      provider connection closed, whatever room the pool has. */
  lemma MarkedCloseDestroys(c: NatsConn, p: Pool, closed: set<ConnId>)
    requires CanClose(MarkUnusable(c), p, closed)
    ensures Close(MarkUnusable(c), p, closed).pool == p
    ensures c.id in Close(MarkUnusable(c), p, closed).closed
    ensures c.id !in closed ==> Close(MarkUnusable(c), p, closed).out == Ok(())
  {
  }
}
