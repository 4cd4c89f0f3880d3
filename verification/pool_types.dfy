/** Data model shared by the pool and the wrapped connection.

    A provider (NATS) connection is an opaque id; whether it is closed is
    recorded in a set of closed ids that every step takes and returns. The
    factory is an oracle: a sequence of answers, one consumed per call. */
module PoolTypes {

  type ConnId = nat
  type PoolId = nat

  datatype Option<+T> = None | Some(value: T)

  /** A wrapped connection: the provider connection it decorates, the
      non-owning back-reference to its pool (None for connections that the
      factory minted outside the queue) and the unusable flag. */
  datatype NatsConn = NatsConn(id: ConnId, pool: Option<PoolId>, unusable: bool)

  /** The errors the pool and its connections report. */
  datatype Error =
    | InvalidCapacity          // "invalid capacity settings"
    | FillFailed(cause: string) // the factory failed while pre-filling the pool
    | FactoryError(cause: string) // the factory failed during an overflow Get
    | ErrClosed                 // "pool is closed", or a dequeued connection was closed
    | Rejected                  // put of a connection that is already closed

  datatype Result<+T> = Ok(value: T) | Err(error: Error)

  /** One answer of the connection factory: a newly established connection,
      or a failure with its cause. */
  datatype Made = Made(id: ConnId) | Failed(cause: string)

  /** The pool: Open with its bounded FIFO of idle connections, or Closed
      after Stop has swapped the queue out. */
  datatype Pool =
    | Open(id: PoolId, queue: seq<NatsConn>, maxCap: nat)
    | Closed(id: PoolId)

  /** The outcome of a Get: the caller's result, the pool afterwards and the
      factory answers not yet consumed. Get never closes a connection. */
  datatype Got = Got(out: Result<NatsConn>, pool: Pool, factory: seq<Made>)

  /** The outcome of returning a connection (put, or a connection's Close). */
  datatype Returned = Returned(out: Result<()>, pool: Pool, closed: set<ConnId>)

  /** The outcome of Stop. */
  datatype Stopped = Stopped(pool: Pool, closed: set<ConnId>)
}
