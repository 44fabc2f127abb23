/** The connection pool on the heap. Each method is one stretch of code under the factory's lock;
    getSession is cut where it waits. All of them are proved against the steps of PoolSpec. */
module SessionFactoryModule {
  import opened Wrappers
  import opened PoolSpec
  import opened PoolInvariant
  import opened MSSpeechSessionModule
  import SessionSpec

  class RecognitionSession {
    var uri: string
    var requestId: string
    var connected: bool
    var session: MSSpeechSession?
    var checkedOut: bool

    ghost function View(): Entry<MSSpeechSession>
      reads this
    {
      var handle: Option<MSSpeechSession> :=
        if session == null then None else var m: MSSpeechSession := session; Some(m);
      Entry(uri, requestId, connected, handle, checkedOut)
    }

    constructor (uri: string)
      ensures View() == Entry(uri, "", false, None, false)
    {
      this.uri, requestId, connected, session, checkedOut := uri, "", false, null, false;
    }
  }

  class MSSpeechSessionFactory {
    var availableSessionsByUri: map<string, set<RecognitionSession>>
    var pendingSessions: set<RecognitionSession>
    var busySesssions: set<RecognitionSession>
    var sessions: set<RecognitionSession>
    var sessionsBySession: map<MSSpeechSession, RecognitionSession>
    var sessionCondition: map<string, Waiter>

    // history
    ghost var entries: map<RecognitionSession, Entry<MSSpeechSession>>  // every session created, as it is now
    ghost var ready: set<RecognitionSession>
    ghost var closed: set<RecognitionSession>
    ghost var issued: set<MSSpeechSession>

    ghost function View(): Pool<RecognitionSession, MSSpeechSession>
      reads this
    {
      Pool(entries, availableSessionsByUri, pendingSessions, busySesssions, sessions, sessionsBySession,
           sessionCondition, ready, closed, issued)
    }

    ghost predicate Tracked()
      reads this, entries.Keys
    {
      forall r | r in entries :: entries[r] == r.View()
    }

    ghost predicate Valid()
      reads this, entries.Keys
    {
      Tracked() && Inv(View())
    }

    constructor ()
      ensures Valid() && View() == Empty() == Pool(map[], map[], {}, {}, {}, map[], map[], {}, {}, {})
    {
      availableSessionsByUri, pendingSessions, busySesssions, sessions := map[], {}, {}, {};
      sessionsBySession, sessionCondition := map[], map[];
      entries, ready, closed, issued := map[], {}, {}, {};
    }

    /** getSession up to its return or its first wait (session == null). */
    method GetSession(uri: string, requestId: string)
      returns (session: MSSpeechSession?, ghost r: RecognitionSession)
      requires Valid() && requestId !in sessionCondition
      modifies this, entries.Keys
      ensures Valid() && fresh(entries.Keys - old(entries.Keys))
      ensures session == null <==> Avail(old(View()), uri) == {}
      ensures session == null ==>
                var step := GetSlow(requestId, uri, r);
                Enabled(old(View()), step) && View() == After(old(View()), step)
      ensures session != null ==>
                var step := GetFast(requestId, uri, r, session);
                && Enabled(old(View()), step) && View() == After(old(View()), step)
                && fresh(session) && session.Valid() && session.View() == SessionSpec.Fresh(requestId)
      // that is: a connection is created, nothing else is available, and the caller waits
      ensures session == null ==>
                && r !in old(entries) && entries == old(entries)[r := Entry(uri, "", false, None, false)]
                && pendingSessions == old(pendingSessions) + {r}
                && availableSessionsByUri == old(availableSessionsByUri)[uri := {}]
                && sessionCondition == old(sessionCondition)[requestId := Waiter(uri, false)]
                && sessionsBySession == old(sessionsBySession)
                && busySesssions == old(busySesssions) && sessions == old(sessions)
      // or an available one of the URI is checked out under the new handle
      ensures session != null ==>
                && uri in old(availableSessionsByUri) && r in old(availableSessionsByUri)[uri]
                && CheckedOut(old(View()), View(), uri, requestId, r, session)
                && sessionCondition == old(sessionCondition)
    {
      ghost var was := View();
      if uri !in availableSessionsByUri || availableSessionsByUri[uri] == {} {
        r := CreateAndWait(uri, requestId);
        InvStep(was, GetSlow(requestId, uri, r));
        session := null;
      } else {
        AvailableKnownOf(was, uri);
        session, r := CheckOut(uri, requestId);
        TakeChecksOut(was, uri, requestId, r, session);
        InvStep(was, GetFast(requestId, uri, r, session));
      }
    }

    /** A new session is created for the caller, which waits; looking the URI up made it a key. */
    method CreateAndWait(uri: string, requestId: string) returns (r: RecognitionSession)
      requires Tracked() && Avail(View(), uri) == {}
      modifies this`pendingSessions, this`entries, this`availableSessionsByUri, this`sessionCondition
      ensures Tracked() && fresh(r)
      ensures entries == old(entries)[r := Entry(uri, "", false, None, false)]
      ensures pendingSessions == old(pendingSessions) + {r}
      ensures availableSessionsByUri == old(availableSessionsByUri)[uri := {}]
      ensures sessionCondition == old(sessionCondition)[requestId := Waiter(uri, false)]
    {
      r := CreateNewSession(uri);
      availableSessionsByUri := availableSessionsByUri[uri := {}];
      sessionCondition := sessionCondition[requestId := Waiter(uri, false)];
    }

    /** getSession from a wake-up to its return or its next wait (session == null). */
    method ResumeGetSession(requestId: string)
      returns (session: MSSpeechSession?, ghost r: Option<RecognitionSession>)
      requires Valid() && requestId in sessionCondition
      modifies this, entries.Keys
      ensures Valid() && entries.Keys == old(entries.Keys)
      ensures session == null <==> Enabled(old(View()), WakeWait(requestId))
      ensures session == null ==> View() == After(old(View()), WakeWait(requestId))
      ensures session != null ==>
                && r.Some?
                && var step := WakeTake(requestId, r.value, session);
                && Enabled(old(View()), step) && View() == After(old(View()), step)
                && fresh(session) && session.Valid() && session.View() == SessionSpec.Fresh(requestId)
      ensures var uri := old(sessionCondition)[requestId].uri;
              if session == null then
                View() == old(View()).(waiting := old(sessionCondition)[requestId := Waiter(uri, false)])
              else
                && uri in old(availableSessionsByUri) && r.value in old(availableSessionsByUri)[uri]
                && CheckedOut(old(View()), View(), uri, requestId, r.value, session)
                && sessionCondition == old(sessionCondition) - {requestId}
    {
      ghost var was := View();
      var uri := sessionCondition[requestId].uri;
      if uri !in availableSessionsByUri || availableSessionsByUri[uri] == {} {
        sessionCondition := sessionCondition[requestId := sessionCondition[requestId].(notified := false)];
        InvStep(was, WakeWait(requestId));
        session, r := null, None;
      } else {
        AvailableKnownOf(was, uri);
        var taken;
        session, taken := CheckOutWoken(requestId);
        TakeChecksOut(was, uri, requestId, taken, session);
        InvStep(was, WakeTake(requestId, taken, session));
        r := Some(taken);
      }
    }

    method CheckOutWoken(requestId: string) returns (session: MSSpeechSession, r: RecognitionSession)
      requires Tracked() && requestId in sessionCondition
      requires var found := Avail(View(), sessionCondition[requestId].uri); found != {} && found <= entries.Keys
      modifies this, entries.Keys
      ensures Tracked() && fresh(session) && session.Valid() && session.View() == SessionSpec.Fresh(requestId)
      ensures var uri := old(sessionCondition)[requestId].uri;
              && r in Avail(old(View()), uri) && session !in old(issued)
              && View() == Take(old(View()), requestId, uri, r, session).(
                   waiting := old(sessionCondition) - {requestId})
    {
      session, r := CheckOut(sessionCondition[requestId].uri, requestId);
      sessionCondition := sessionCondition - {requestId};
    }

    /** The tail of getSession. */
    method CheckOut(uri: string, requestId: string)
      returns (session: MSSpeechSession, r: RecognitionSession)
      requires Tracked() && Avail(View(), uri) != {} && Avail(View(), uri) <= entries.Keys
      modifies this, entries.Keys
      ensures Tracked() && fresh(session) && session.Valid() && session.View() == SessionSpec.Fresh(requestId)
      ensures r in Avail(old(View()), uri) && session !in old(issued)
      ensures View() == Take(old(View()), requestId, uri, r, session)
    {
      r :| r in availableSessionsByUri[uri];
      session := new MSSpeechSession(requestId);
      Assign(uri, requestId, r, session);
    }

    method Assign(uri: string, requestId: string, entry: RecognitionSession, session: MSSpeechSession)
      requires Tracked() && entry in entries && uri in availableSessionsByUri
      modifies entry, this`entries, this`sessionsBySession, this`availableSessionsByUri
      modifies this`busySesssions, this`issued
      ensures Tracked()
      ensures View() == Take(old(View()), requestId, uri, entry, session)
    {
      AssignEntry(requestId, entry, session);
      AssignContainers(uri, entry, session);
    }

    /** The fields of the session taken. */
    method AssignEntry(requestId: string, entry: RecognitionSession, session: MSSpeechSession)
      requires Tracked() && entry in entries
      modifies entry, this`entries
      ensures Tracked()
      ensures entries == old(entries)[entry := old(entries[entry]).(session := Some(session), requestId := requestId, checkedOut := true)]
    {
      entry.session := session;
      entry.requestId := requestId;
      entry.checkedOut := true;
      entries := entries[entry := entry.View()];
    }

    /** The containers of the factory. */
    method AssignContainers(uri: string, entry: RecognitionSession, session: MSSpeechSession)
      requires Tracked() && uri in availableSessionsByUri
      modifies this`sessionsBySession, this`availableSessionsByUri, this`busySesssions, this`issued
      ensures Tracked()
      ensures View() == old(View()).(
                bySession := old(sessionsBySession)[session := entry],
                available := old(availableSessionsByUri)[uri := old(availableSessionsByUri)[uri] - {entry}],
                busy := old(busySesssions) + {entry},
                issued := old(issued) + {session})
    {
      sessionsBySession := sessionsBySession[session := entry];
      availableSessionsByUri := availableSessionsByUri[uri := availableSessionsByUri[uri] - {entry}];
      busySesssions := busySesssions + {entry};
      issued := issued + {session};
    }

    method CreateNewSession(uri: string) returns (entry: RecognitionSession)
      requires Tracked()
      modifies this`pendingSessions, this`entries
      ensures Tracked() && fresh(entry)
      ensures entries == old(entries)[entry := Entry(uri, "", false, None, false)]
      ensures pendingSessions == old(pendingSessions) + {entry}
    {
      entry := new RecognitionSession(uri);
      pendingSessions := pendingSessions + {entry};
      entries := entries[entry := entry.View()];
    }

    method PutSession(session: MSSpeechSession)
      requires Valid() && CanPutBack(View(), session)
      modifies this, sessionsBySession[session]
      ensures Valid() && entries.Keys == old(entries.Keys)
      ensures View() == After(old(View()), PutBack(session))
      // that is: the handle is forgotten, the connection is available again under its URI and
      // every waiting caller is notified; it stays in busySesssions
      ensures var r := old(sessionsBySession)[session];
              && r in old(entries)
              && entries == old(entries)[r := Entry(r.uri, "", old(r.connected), None, false)]
              && sessionsBySession == old(sessionsBySession) - {session}
              && Offered(old(View()), View(), r)
              && busySesssions == old(busySesssions)
    {
      ghost var was := View();
      var entry := sessionsBySession[session];
      IndexKnownOf(was, session);
      ReleaseEntry(entry);
      MakeAvailable(entry);
      InvStep(was, PutBack(session));
    }

    /** The body of putSession up to the insertion into the available set. */
    method ReleaseEntry(entry: RecognitionSession)
      requires Tracked() && entry in entries
      modifies entry, this`sessionsBySession, this`entries
      ensures Tracked() && View() == Release(old(View()), entry)
    {
      if entry.session != null {
        sessionsBySession := sessionsBySession - {entry.session};
      }
      entry.requestId := "";
      entry.session := null;
      entry.checkedOut := false;
      entries := entries[entry := entry.View()];
    }

    method MakeAvailable(entry: RecognitionSession)
      requires Tracked() && entry in entries
      modifies this`availableSessionsByUri, this`sessionCondition
      ensures Tracked() && View() == Offer(old(View()), entry)
    {
      var same := if entry.uri in availableSessionsByUri then availableSessionsByUri[entry.uri] else {};
      availableSessionsByUri := availableSessionsByUri[entry.uri := same + {entry}];
      sessionCondition := NotifyAll(sessionCondition);
    }

    /** What processPendingSessions does for one pending session, given whether the connect works. */
    method ProcessPending(entry: RecognitionSession, connects: bool)
      requires Valid() && entry in pendingSessions
      modifies this, entry
      ensures Valid() && entries.Keys == old(entries.Keys)
      ensures View() == After(old(View()), if connects then Connect(entry) else ConnectFail(entry))
      ensures !connects ==> View() == old(View())
      ensures connects ==>
                && entry in old(entries) && entries == old(entries)[entry := old(entries[entry]).(connected := true)]
                && pendingSessions == old(pendingSessions) - {entry} && sessions == old(sessions) + {entry}
                && availableSessionsByUri == old(availableSessionsByUri) && sessionCondition == old(sessionCondition)
                && busySesssions == old(busySesssions) && sessionsBySession == old(sessionsBySession)
    {
      assert entry in entries;
      if connects {
        InvStep(View(), Connect(entry));
        MoveToSessions(entry);
      }
    }

    method MoveToSessions(entry: RecognitionSession)
      requires Tracked() && entry in entries && entry in pendingSessions
      modifies entry, this`entries, this`pendingSessions, this`sessions
      ensures Tracked() && View() == After(old(View()), Connect(entry))
    {
      entry.connected := true;
      entries := entries[entry := entry.View()];
      pendingSessions, sessions := pendingSessions - {entry}, sessions + {entry};
    }

    /** It asserts no more than that the session is live. Called once for each connection it keeps
        the pool in order; called again it does so exactly when the session is not checked out. */
    method ClientReady(entry: RecognitionSession)
      requires Valid() && entry in sessions
      modifies this
      ensures Tracked() && entries == old(entries)
      ensures View() == Offer(old(View()), entry).(ready := old(ready) + {entry})
      ensures entry !in old(ready) ==> Valid() && View() == After(old(View()), PoolSpec.ClientReady(entry))
      ensures Valid() <==> !entry.checkedOut
      ensures entry in entries && Offered(old(View()), View(), entry)
      ensures busySesssions == old(busySesssions) && sessionsBySession == old(sessionsBySession)
    {
      ghost var was := View();
      assert entry in entries;
      MakeAvailable(entry);
      ready := ready + {entry};
      ReadyExactly(was, entry);
    }

    method ConnectionClosed(entry: RecognitionSession)
      requires Valid() && entry in sessions
      modifies this
      ensures Valid() && entries == old(entries)
      ensures View() == After(old(View()), Close(entry))
      // that is: gone from the available sets, the index and the live set, and nothing else
      ensures forall uri ::
                Avail(View(), uri) == if uri == entry.uri then Avail(old(View()), uri) - {entry} else Avail(old(View()), uri)
      ensures sessionsBySession ==
              if entry.session == null then old(sessionsBySession) else old(sessionsBySession) - {entry.session}
      ensures sessions == old(sessions) - {entry} && pendingSessions == old(pendingSessions)
      ensures busySesssions == old(busySesssions) && sessionCondition == old(sessionCondition)
    {
      assert entry in entries;
      InvStep(View(), Close(entry));
      Erase(entry);
    }

    /** The three erases at the end of connection_closed. */
    method Erase(entry: RecognitionSession)
      requires Tracked() && entry in entries && entry in sessions
      modifies this`availableSessionsByUri, this`sessionsBySession, this`sessions, this`closed
      ensures Tracked() && View() == Remove(old(View()), entry)
    {
      var same := if entry.uri in availableSessionsByUri then availableSessionsByUri[entry.uri] else {};
      availableSessionsByUri := availableSessionsByUri[entry.uri := same - {entry}];
      if entry.session != null {
        sessionsBySession := sessionsBySession - {entry.session};
      }
      sessions, closed := sessions - {entry}, closed + {entry};
    }
  }

  /** What a checkout does, field by field, except to the waiting callers. */
  ghost predicate CheckedOut<R, M>(s: Pool<R, M>, t: Pool<R, M>, uri: string, requestId: string, r: R, m: M) {
    && r in s.entries
    && t.entries == s.entries[r := Entry(s.entries[r].uri, requestId, s.entries[r].connected, Some(m), true)]
    && (forall u: string :: Avail(t, u) == if u == uri then Avail(s, u) - {r} else Avail(s, u))
    && m !in s.issued && t.bySession == s.bySession[m := r] && t.busy == s.busy + {r}
    && t.pending == s.pending && t.sessions == s.sessions
  }

  lemma TakeChecksOut<R, M>(s: Pool<R, M>, uri: string, requestId: string, r: R, m: M)
    requires r in s.entries && uri in s.available && m !in s.issued
    ensures CheckedOut(s, Take(s, requestId, uri, r, m), uri, requestId, r, m)
    ensures forall waiting :: CheckedOut(s, Take(s, requestId, uri, r, m).(waiting := waiting), uri, requestId, r, m)
  {
  }

  /** What an insertion into the available sets does, with the notification. */
  ghost predicate Offered<R, M>(s: Pool<R, M>, t: Pool<R, M>, r: R)
    requires r in s.entries
  {
    && (forall u: string :: Avail(t, u) == if u == s.entries[r].uri then Avail(s, u) + {r} else Avail(s, u))
    && t.waiting.Keys == s.waiting.Keys
    && (forall id | id in s.waiting :: t.waiting[id] == Waiter(s.waiting[id].uri, true))
    && t.pending == s.pending && t.sessions == s.sessions
  }

  lemma AvailableKnownOf<R, M>(s: Pool<R, M>, uri: string)
    requires Inv(s)
    ensures Avail(s, uri) <= s.entries.Keys
  {
  }

  lemma ReadyExactly<R, M>(s: Pool<R, M>, r: R)
    requires Inv(s) && r in s.entries && r in s.sessions
    ensures Inv(Offer(s, r).(ready := s.ready + {r})) <==> !s.entries[r].checkedOut
    ensures r !in s.ready ==> !s.entries[r].checkedOut
  {
    if r !in s.ready {
      InvStep(s, PoolSpec.ClientReady(r));
      assert s.entries[r].checkedOut ==> r in s.busy;
    } else {
      SecondReadyExactly(s, r);
      assert s.ready + {r} == s.ready;
    }
  }

  lemma IndexKnownOf<R, M>(s: Pool<R, M>, m: M)
    requires Inv(s) && m in s.bySession
    ensures s.bySession[m] in s.entries && s.entries[s.bySession[m]].session == Some(m)
  {
  }
}
