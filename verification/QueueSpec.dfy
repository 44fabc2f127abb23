/** What an audio queue is to its callers: a sequence of unread bytes and a few flags.
    Chunk boundaries do not appear here. */
module QueueSpec {
  import opened Bytes

  datatype Queue = Queue(
    content: seq<byte>,     // put but not yet taken
    ended: bool,
    terminating: bool,
    busy: bool,             // a blockingGet is in progress, or one returned early
    requestedSize: nat,     // what that blockingGet asked for
    processed: nat)         // bytes handed out so far

  const EMPTY := Queue([], false, false, false, 0, 0)

  /** The assertion at the head of put. */
  predicate CanPut(q: Queue) {
    !q.ended && !q.terminating
  }

  function Put(q: Queue, bytes: seq<byte>): Queue
    requires CanPut(q)
  {
    q.(content := q.content + bytes)
  }

  /** How many bytes a request for n takes: all that is there, up to n. */
  function Taken(q: Queue, n: nat): (k: nat)
    ensures k <= n && k <= |q.content|
    ensures k == n || k == |q.content|
  {
    if n <= |q.content| then n else |q.content|
  }

  function Drop(q: Queue, k: nat): Queue
    requires k <= |q.content|
  {
    q.(content := q.content[k..], processed := q.processed + k)
  }

  /** The return value of get. */
  function GetCode(q: Queue, n: nat): int {
    if q.content != [] then Taken(q, n) else if q.ended then -1 else 0
  }

  function Get(q: Queue, n: nat): Queue {
    Drop(q, Taken(q, n))
  }

  /** The loop condition of blockingGet. */
  predicate MustWait(q: Queue, n: nat) {
    |q.content| < n && !q.terminating && !q.ended
  }

  function BlockingBegin(q: Queue, n: nat): Queue
    requires !q.busy
  {
    q.(busy := true, requestedSize := n)
  }

  /** The two early returns of blockingGet. */
  predicate ReturnsEarly(q: Queue) {
    q.terminating || (q.ended && q.content == [])
  }

  /** How many bytes blockingGet returns once its loop condition is false. */
  function BlockingTaken(q: Queue, n: nat): (k: nat)
    requires !MustWait(q, n)
    ensures k <= |q.content|
  {
    if ReturnsEarly(q) then 0 else Taken(q, n)
  }

  /** The rest of blockingGet; an early return leaves busy and requestedSize as they are. */
  function BlockingFinish(q: Queue, n: nat): Queue
    requires !MustWait(q, n)
  {
    if ReturnsEarly(q) then q
    else Drop(q, Taken(q, n)).(busy := false, requestedSize := 0)
  }
}
