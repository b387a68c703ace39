/** The bounded first-in first-out queue that both views of the message queue are written over: the ring in memory (module
    RingQueue) and the queue under many threads (module QueueProtocol). */
module QueueCore {

  predicate HasRoom<M>(max: nat, held: seq<M>) {
    |held| < max
  }

  function Stored<M>(held: seq<M>, m: M): seq<M> {
    held + [m]
  }

  function Oldest<M>(held: seq<M>): M
    requires held != []
  {
    held[0]
  }

  function Rest<M>(held: seq<M>): seq<M>
    requires held != []
  {
    held[1..]
  }

  /** Handing over the oldest message moves it from what is held to what has been received. */
  lemma HandOver<M>(received: seq<M>, held: seq<M>)
    requires held != []
    ensures received + held == (received + [Oldest(held)]) + Rest(held)
  {
  }
}
