/** The callback triple of a gRPC `StreamObserver` (`onNext`, `onError`,
    `onCompleted`), recorded as a sequence of events: what a handler receives
    from its caller, and what it sends to the response observer. */
module Observer {

  /** The exceptions the core raises or receives. */
  datatype Throwable =
    | NoSuchElement              // `Optional.get()` on an empty optional
    | Interrupted                // the pacing sleep was interrupted
    | Peer(message: string)      // an error signalled by the other side of the call

  /** One call on an observer. */
  datatype Event<T> = Next(value: T) | Completed | Error(cause: Throwable)
  {
    predicate Terminal() { !Next? }
  }

  /** What a handler does when the runtime invokes it: it returns normally
      after making the calls in `emitted`, or it throws before making any. */
  datatype Outcome<T> = Returned(emitted: seq<Event<T>>) | Threw(exception: Throwable)

  /** `onNext` once per value, in order. */
  function Nexts<T>(xs: seq<T>): (r: seq<Event<T>>)
    ensures |r| == |xs|
    ensures forall i :: 0 <= i < |xs| ==> r[i] == Next(xs[i])
  {
    seq(|xs|, i requires 0 <= i < |xs| => Next(xs[i]))
  }

  /** The observer contract: zero or more `onNext` calls followed by exactly one
      terminal call (`onCompleted` or `onError`). */
  predicate Closed<T>(s: seq<Event<T>>)
  {
    |s| > 0 && s[|s| - 1].Terminal() && forall i :: 0 <= i < |s| - 1 ==> s[i].Next?
  }

  /** A stream that is still open: only `onNext` calls so far. */
  predicate Open<T>(s: seq<Event<T>>)
  {
    forall i :: 0 <= i < |s| ==> s[i].Next?
  }

  /** The number of `onNext` calls in a stream. */
  function CountNext<T>(s: seq<Event<T>>): (n: nat)
    ensures n <= |s|
    ensures n == |s| <==> Open(s)
  {
    if s == [] then 0
    else CountNext(s[..|s| - 1]) + (if s[|s| - 1].Next? then 1 else 0)
  }
}
