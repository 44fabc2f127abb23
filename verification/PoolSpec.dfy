/** The connection pool as a value, and the steps its lock makes atomic. R stands for a
    RecognitionSession (one connection), M for the MSSpeechSession handle of one checkout. */
module PoolSpec {
  import opened Wrappers

  /** The fields of a RecognitionSession. */
  datatype Entry<M> = Entry(uri: string, requestId: string, connected: bool, session: Option<M>, checkedOut: bool)

  /** A caller blocked on sessionCondition inside getSession, and whether it has been notified. */
  datatype Waiter = Waiter(uri: string, notified: bool)

  datatype Pool<R(==), M(==)> = Pool(
    entries: map<R, Entry<M>>,          // every RecognitionSession created, closed ones included
    available: map<string, set<R>>,     // availableSessionsByUri
    pending: set<R>,                    // pendingSessions
    busy: set<R>,                       // busySesssions
    sessions: set<R>,
    bySession: map<M, R>,               // sessionsBySession
    waiting: map<string, Waiter>,       // by request id
    // history
    ready: set<R>,                      // client_ready has fired
    closed: set<R>,                     // connection_closed has run
    issued: set<M>)                     // every handle given out

  function Empty<R, M>(): Pool<R, M> {
    Pool(map[], map[], {}, {}, {}, map[], map[], {}, {}, {})
  }

  /** One atomic step: a stretch of code under the lock, up to its release. */
  datatype Step<R, M> =
    | GetFast(id: string, uri: string, r: R, m: M)  // getSession finds r available
    | GetSlow(id: string, uri: string, r: R)        // getSession creates r and waits
    | WakeTake(id: string, r: R, m: M)              // a waiting getSession wakes and finds r
    | WakeWait(id: string)                          // a waiting getSession wakes and finds none
    | Connect(r: R)                                 // the run loop connects a pending session
    | ConnectFail(r: R)
    | ClientReady(r: R)
    | PutBack(m: M)                                 // putSession
    | Close(r: R)                                   // connection_closed

  function Avail<R, M>(s: Pool<R, M>, uri: string): set<R> {
    if uri in s.available then s.available[uri] else {}
  }

  predicate Enabled<R, M>(s: Pool<R, M>, step: Step<R, M>) {
    match step
    case GetFast(id, uri, r, m) => id !in s.waiting && r in Avail(s, uri) && r in s.entries && m !in s.issued
    case GetSlow(id, uri, r) => id !in s.waiting && Avail(s, uri) == {} && r !in s.entries
    case WakeTake(id, r, m) =>
      id in s.waiting && r in Avail(s, s.waiting[id].uri) && r in s.entries && m !in s.issued
    case WakeWait(id) => id in s.waiting && Avail(s, s.waiting[id].uri) == {}
    case Connect(r) => r in s.pending && r in s.entries
    case ConnectFail(r) => r in s.pending
    // at most once for each connection
    case ClientReady(r) => r in s.sessions && r in s.entries && r !in s.ready
    case PutBack(m) => CanPutBack(s, m)
    case Close(r) => r in s.sessions && r in s.entries
  }

  /** The two assertions of putSession. */
  predicate CanPutBack<R, M>(s: Pool<R, M>, m: M) {
    m in s.bySession && s.bySession[m] in s.busy && s.bySession[m] in s.entries
  }

  function NotifyAll(waiting: map<string, Waiter>): map<string, Waiter> {
    map id | id in waiting :: waiting[id].(notified := true)
  }

  /** The tail of getSession: r is checked out under the fresh handle m. */
  function Take<R, M>(s: Pool<R, M>, id: string, uri: string, r: R, m: M): Pool<R, M>
    requires r in s.entries
  {
    s.(entries := s.entries[r := s.entries[r].(session := Some(m), requestId := id, checkedOut := true)],
       bySession := s.bySession[m := r],
       available := s.available[uri := Avail(s, uri) - {r}],
       busy := s.busy + {r},
       issued := s.issued + {m})
  }

  /** r becomes available and every waiting caller is notified. */
  function Offer<R, M>(s: Pool<R, M>, r: R): Pool<R, M>
    requires r in s.entries
  {
    var uri := s.entries[r].uri;
    s.(available := s.available[uri := Avail(s, uri) + {r}], waiting := NotifyAll(s.waiting))
  }

  /** Erasing a possibly null handle from sessionsBySession. */
  function EraseHandle<R, M>(bySession: map<M, R>, session: Option<M>): map<M, R> {
    if session.Some? then bySession - {session.value} else bySession
  }

  function Release<R, M>(s: Pool<R, M>, r: R): Pool<R, M>
    requires r in s.entries
  {
    s.(bySession := EraseHandle(s.bySession, s.entries[r].session),
       entries := s.entries[r := s.entries[r].(requestId := "", session := None, checkedOut := false)])
  }

  function Remove<R, M>(s: Pool<R, M>, r: R): Pool<R, M>
    requires r in s.entries
  {
    var e := s.entries[r];
    s.(available := s.available[e.uri := Avail(s, e.uri) - {r}],
       bySession := EraseHandle(s.bySession, e.session),
       sessions := s.sessions - {r},
       closed := s.closed + {r})
  }

  function After<R, M>(s: Pool<R, M>, step: Step<R, M>): Pool<R, M>
    requires Enabled(s, step)
  {
    match step
    case GetFast(id, uri, r, m) => Take(s, id, uri, r, m)
    case GetSlow(id, uri, r) =>
      s.(entries := s.entries[r := Entry(uri, "", false, None, false)],
         pending := s.pending + {r},
         available := s.available[uri := {}],
         waiting := s.waiting[id := Waiter(uri, false)])
    case WakeTake(id, r, m) => Take(s, id, s.waiting[id].uri, r, m).(waiting := s.waiting - {id})
    case WakeWait(id) => s.(waiting := s.waiting[id := s.waiting[id].(notified := false)])
    case Connect(r) =>
      s.(entries := s.entries[r := s.entries[r].(connected := true)],
         pending := s.pending - {r}, sessions := s.sessions + {r})
    case ConnectFail(r) => s
    case ClientReady(r) => Offer(s, r).(ready := s.ready + {r})
    case PutBack(m) => Offer(Release(s, s.bySession[m]), s.bySession[m])
    case Close(r) => Remove(s, r)
  }

  predicate Run<R, M>(s: Pool<R, M>, steps: seq<Step<R, M>>)
    decreases steps
  {
    steps == [] || (Enabled(s, steps[0]) && Run(After(s, steps[0]), steps[1..]))
  }

  function Final<R, M>(s: Pool<R, M>, steps: seq<Step<R, M>>): Pool<R, M>
    requires Run(s, steps)
    decreases steps
  {
    if steps == [] then s else Final(After(s, steps[0]), steps[1..])
  }
}
