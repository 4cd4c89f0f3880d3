/** Any interleaving of the atomic steps, as callers on many goroutines may
    issue them: Get, a connection's Close, and Stop. */
module Trace {
  import opened PoolTypes
  import Channel
  import Conn

  /** The whole system: the pool, the closed provider connections and the
      factory answers still to come. */
  datatype Sys = Sys(pool: Pool, closed: set<ConnId>, factory: seq<Made>)

  datatype Op = GetOp | CloseOp(c: NatsConn) | StopOp

  /** The invariant every step keeps: the capacity bound, and no unusable
      connection in the idle queue. */
  predicate Inv(p: Pool) {
    Channel.Valid(p) && Channel.NoUnusableIdle(p)
  }

  predicate Enabled(s: Sys, op: Op) {
    match op
    case GetOp => s.pool.Open? && s.pool.queue == [] ==> s.factory != []
    case CloseOp(c) => Conn.CanClose(c, s.pool, s.closed)
    case StopOp => true
  }

  function Step(s: Sys, op: Op): Sys
    requires Enabled(s, op)
  {
    match op
    case GetOp =>
      var g := Channel.Get(s.pool, s.factory, s.closed);
      Sys(g.pool, s.closed, g.factory)
    case CloseOp(c) =>
      var r := Conn.Close(c, s.pool, s.closed);
      Sys(r.pool, r.closed, s.factory)
    case StopOp =>
      var r := Channel.Stop(s.pool, s.closed);
      Sys(r.pool, r.closed, s.factory)
  }

  /** Each operation of the sequence is enabled in the state it meets. */
  predicate Runs(s: Sys, ops: seq<Op>)
    decreases |ops|
  {
    ops == [] || (Enabled(s, ops[0]) && Runs(Step(s, ops[0]), ops[1..]))
  }

  function Run(s: Sys, ops: seq<Op>): Sys
    requires Runs(s, ops)
    decreases |ops|
  {
    if ops == [] then s else Run(Step(s, ops[0]), ops[1..])
  }

  /** One step keeps the invariant, never reopens a pool, never changes the
      pool's identity or capacity and never reopens a provider connection. */
  lemma StepKeeps(s: Sys, op: Op)
    requires Enabled(s, op) && Inv(s.pool)
    ensures Inv(Step(s, op).pool)
    ensures Step(s, op).pool.id == s.pool.id
    ensures s.pool.Closed? ==> Step(s, op).pool == s.pool
    ensures s.closed <= Step(s, op).closed
    ensures s.pool.Open? && Step(s, op).pool.Open? ==> Step(s, op).pool.maxCap == s.pool.maxCap
  {
  }

  /** Under any interleaving of Get, Close and Stop: Len never exceeds the
      capacity the pool started with, no unusable connection is ever idle, Closed is final and a
      closed provider connection stays closed. */
  lemma {:induction false} RunKeeps(s: Sys, ops: seq<Op>)
    requires Runs(s, ops) && Inv(s.pool)
    ensures Inv(Run(s, ops).pool)
    ensures Run(s, ops).pool.Open? ==> Channel.Len(Run(s, ops).pool) <= Run(s, ops).pool.maxCap
    ensures Run(s, ops).pool.id == s.pool.id
    ensures s.pool.Closed? ==> Run(s, ops).pool == s.pool
    ensures s.closed <= Run(s, ops).closed
    ensures s.pool.Open? && Run(s, ops).pool.Open? ==> Run(s, ops).pool.maxCap == s.pool.maxCap
    ensures s.pool.Open? ==> Channel.Len(Run(s, ops).pool) <= s.pool.maxCap
    decreases |ops|
  {
    if ops != [] {
      StepKeeps(s, ops[0]);
      RunKeeps(Step(s, ops[0]), ops[1..]);
    }
  }

  /** After Stop, whatever interleaving follows, the pool stays Closed, so
      every Get fails with ErrClosed and Len reports zero. */
  lemma {:induction false} StopIsFinal(s: Sys, ops: seq<Op>)
    requires Runs(s, [StopOp] + ops)
    ensures Run(s, [StopOp] + ops).pool == Closed(s.pool.id)
    ensures Channel.Len(Run(s, [StopOp] + ops).pool) == 0
    ensures forall closed :: Channel.Get(Run(s, [StopOp] + ops).pool, [], closed).out == Err(ErrClosed)
  {
    assert ([StopOp] + ops)[1..] == ops;
    var s' := Step(s, StopOp);
    RunKeeps(s', ops);
  }
}
