# natsPool: a bounded pool of NATS connections, modelled in Dafny

The library keeps idle NATS connections in a bounded Go channel. `Get` borrows
one. A connection's `Close` either hands it back (`put`) or destroys it when
it was marked unusable. `Stop` shuts the pool down. Without its mutexes this
is a small sequential state machine. The model has these parts:

- `PoolTypes` (pool_types.dfy) holds the data model. A pool is
  `Open(id, queue, maxCap)` or `Closed(id)`. A wrapped connection is
  `NatsConn(id, pool back-reference, unusable)`. A provider connection is an
  opaque id; a `set<ConnId>` of closed ids is passed into and out of every
  step. The connection factory is an oracle: a sequence of
  `Made(id) | Failed(cause)` answers, one used per call.
- `Channel` (channel.dfy) models channel.go: the constructor (a method with a
  loop), `Get`, `put` (as `Put`), `Stop` and `Len`. Each is one atomic step.
- `Conn` (natsconn.dfy) models natsconn.go: `MarkUnusable` and `Close`.
- `Fifo` (fifo.dfy) states the FIFO order of the idle queue.
- `Trace` (trace.dfy) covers any interleaving of Get, Close and Stop, as
  callers on many goroutines may issue them, each taken as one atomic step.
  It proves the invariants that such runs keep.

Where the code does not compile or would fail at run time, the model follows
the evident intent:
- `put` receives the wrapper and enqueues it. natsconn.go:25 passes the
  unwrapped `nats.Conn`, which does not type-check against channel.go:97.
- The `conn.Close()` calls in Stop's drain loop (channel.go:135-137) and in
  put's full branch (channel.go:114-116) are taken as closing the provider
  connection. Read literally, they resolve to the wrapper's own `Close`, which
  routes back into `put`.
- Len on a closed pool is 0, since the length of a nil Go channel is zero.

## Model

| member | source | states |
|---|---|---|
| Channel.NewChannelPool | channel.go:33-52 | Bad capacities (`initialCap < 0`, `maxCap <= 0`, `initialCap > maxCap`) give InvalidCapacity, call the factory zero times and close nothing. When every fill succeeds, the pool is Open with exactly `initialCap` connections in factory order, each with no back-reference and usable. Len equals initialCap, nothing is closed, and exactly initialCap factory answers are used. When fill k fails first, the result is the wrapped factory error. The k earlier connections are all closed, nothing else is closed, no connection is reopened, and k+1 answers are used. A constructed pool is valid and has no unusable connection idle, so the interleaving lemmas of `Trace` apply to it. |
| Channel.Get | channel.go:69-91 | A Closed pool gives ErrClosed and changes nothing. A non-empty queue loses exactly its head, so Len drops by one, and the factory is not called. The result is ErrClosed exactly when the head was closed. When the head is open, the result is Ok: the head with the same id and unusable flag and its back-reference bound to this pool. An empty queue is left unchanged and exactly one factory answer is used. That answer's failure is returned as the error; otherwise the result is a new usable connection with no back-reference. Valid is preserved. |
| Channel.Put | channel.go:97-119 | An already closed connection is rejected with the pool and the closed set unchanged. Otherwise the result is success. With room, the connection is appended at the tail, Len grows by one and nothing is closed. With a full queue, the queue is unchanged and only that connection is closed. Valid (Len ≤ maxCap) is preserved. |
| Channel.Stop | channel.go:124-138 | The pool becomes Closed with Len 0. The newly closed ids are exactly the ids that were idle, and every idle connection is closed. On an already Closed pool, nothing changes. |
| Channel.StopIdempotent | channel.go:131-133 | A second Stop is a no-op. |
| Channel.ClosedIsFinal | channel.go:70-73 | Get, put (of a closed connection) and Stop all leave a Closed pool Closed. |
| Channel.Len | channel.go:143-146 | A Closed pool reports 0. A valid Open pool reports at most maxCap. |
| Conn.MarkUnusable | natsconn.go:31-35 | The unusable flag becomes true. The id and back-reference are unchanged. |
| Conn.Close | natsconn.go:18-26 | An unusable connection never changes the queue. An open unusable connection is closed with success. A usable open connection is enqueued when there is room: Len grows by one and nothing is closed. It is closed and dropped when the queue is full. An already closed connection is rejected with nothing changed. This holds whatever its back-reference is, and also when it is unusable. The connection ends up closed exactly when it was already closed, was unusable, or the queue did not grow. Valid is preserved. |
| Conn.CloseUsableIsPut | natsconn.go:25 | Close on a usable connection is the pool's put on that connection. |
| Conn.MarkedCloseDestroys | natsconn.go:21-24 | After MarkUnusable, Close leaves the pool unchanged and the connection closed, whatever room the queue has. It succeeds when the connection was still open. |
| Fifo.PutAll | channel.go:110-112 | Successive puts into a pool with room leave the old queue followed by the returned connections, in order. |
| Fifo.TakeAll | channel.go:75-81 | Successive Gets yield the queue's connections in queue order. A closed one gives ErrClosed; the others come back with the back-reference bound. |
| Fifo.FifoOrder | channel.go:38 | Draining after a run of puts returns the returned connections in the order they were put, after those already idle. |
| Trace.StepKeeps | channel.go:69-138 | Each Get, Close or Stop step keeps Len ≤ maxCap and keeps unusable connections out of the queue. It keeps the pool's identity and, while the pool stays Open, its maxCap. It never reopens a Closed pool and never reopens a closed connection. |
| Trace.RunKeeps | channel.go:38 | The facts of StepKeeps hold under any interleaving of these steps. In particular, Len never exceeds the maxCap the pool started the run with. |
| Trace.StopIsFinal | channel.go:124-129 | After Stop, under any interleaving that follows, the pool stays Closed, Len is 0 and every Get fails with ErrClosed. |

## Left out

- Locks: the pool's RWMutex (channel.go:25) and the connection's mutex (natsconn.go:10) are left out. So is the race in which a Get that captured the queue before Stop still succeeds. Every operation is one atomic step.
- The NATS protocol and `nats.Conn` internals: a connection is an id, and closing it adds the id to the closed set.
- The factory's I/O is left out; its answers are the oracle sequence. The oracle must hold an answer for every call the operation could make. The constructor asks for `initialCap` answers even when an earlier failure stops the fill; the answers after the failure are never used.
- Channel.Put: put on a Closed pool with an open connection is not modelled. There (channel.go:104-107) the source calls `p.Stop()` while holding `p.mux`, which self-deadlocks because RWMutex is not reentrant. Put requires an Open pool unless the connection is already closed, since the closed check comes before the lock.
- Conn.Close: for an open connection not marked unusable, Close requires the back-reference to name an open pool. Factory-minted connections (channel.go:87-89) have a nil reference. `put` on a nil pool rejects an already closed connection before it uses the pool (channel.go:98-100), and the model covers that case. For an open connection it would dereference nil at `p.mux.Lock()` (channel.go:101).
- The type mismatch at natsconn.go:25 and the import cycle between the `natsPool` and `interfacer` packages are not modelled. The model follows the evident intent.
- interfacer/ipool.go and ipool.go only declare interfaces and are not part of this model.
