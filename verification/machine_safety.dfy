/** Safety and progress of every run of the manager, for any limit and either reading of evict's guard. */
module MachineSafety {
  import opened Basics
  import opened Shared
  import opened Machine
  import opened MachineInv

  ghost predicate Reachable(c: Config, w: World) {
    exists es: seq<Event> :: Runs(c, Start(), es) && After(c, Start(), es) == w
  }

  lemma ReachableBase(c: Config, w: World)
    requires Reachable(c, w)
    ensures Base(w)
  {
    var es :| Runs(c, Start(), es) && After(c, Start(), es) == w;
    BaseStart();
    BaseRun(c, Start(), es);
  }

  lemma {:induction false} RunConcat(c: Config, w: World, es: seq<Event>, e: Event)
    requires Runs(c, w, es) && Enabled(After(c, w, es), e.t, e.a)
    ensures Runs(c, w, es + [e]) && After(c, w, es + [e]) == Next(c, After(c, w, es), e.t, e.a)
    decreases |es|
  {
    if es == [] {
      assert [e][1..] == [];
      assert es + [e] == [e];
    } else {
      assert (es + [e])[1..] == es[1..] + [e];
      RunConcat(c, Next(c, w, es[0].t, es[0].a), es[1..], e);
    }
  }

  lemma ReachableNext(c: Config, w: World, t: Tid, a: Action)
    requires Reachable(c, w) && Enabled(w, t, a)
    ensures Reachable(c, Next(c, w, t, a))
  {
    var es :| Runs(c, Start(), es) && After(c, Start(), es) == w;
    RunConcat(c, Start(), es, Event(t, a));
    assert Runs(c, Start(), es + [Event(t, a)]);
  }

  /** `refs` is exactly the number of handles out, plus the reference a running Get holds; a socket is closed
      for good only when there are none and the cache gave up its own. */
  lemma RefsExact(c: Config, w: World, i: Id)
    requires Reachable(c, w) && i < |w.objs|
    ensures w.objs[i].st.refs == |Holders(w.threads, i)|
    ensures Closed(w.objs[i].st) <==> Holders(w.threads, i) == {} && !w.objs[i].st.cached
  {
    ReachableBase(c, w);
    var hs := Holders(w.threads, i);
    assert |hs| == 0 <==> hs == {};
  }

  // ---------- closed is absorbing ----------

  lemma {:induction false} ClosedAbsorbing(c: Config, w: World, es: seq<Event>, i: Id)
    requires Base(w) && Runs(c, w, es) && i < |w.objs|
    ensures i < |After(c, w, es).objs|
    ensures Closed(w.objs[i].st) ==> Closed(After(c, w, es).objs[i].st)
    decreases |es|
  {
    if es != [] {
      var t, a := es[0].t, es[0].a;
      BaseReady(w, t);
      StepRespects(c, w, t, a);
      BaseNext(c, w, t, a);
      ClosedAbsorbing(c, Next(c, w, t, a), es[1..], i);
    }
  }

  /** Every write of `cached` happens with `mu` held by the writer, so evict and store may read it under `mu` alone. */
  lemma CachedWrittenUnderMu(c: Config, w: World, t: Tid, a: Action, i: Id)
    requires Reachable(c, w) && Enabled(w, t, a) && i < |w.objs|
    ensures Next(c, w, t, a).objs[i].st.cached != w.objs[i].st.cached ==> w.mu == Some(t)
  {
    ReachableBase(c, w);
    BaseReady(w, t);
    StepRespects(c, w, t, a);
  }

  // ---------- panics ----------

  ghost predicate Blamed(w: World) {
    match w.panic
    case None => true
    case Some(ClosedInStore) => false
    case Some(NilSocket(i, held)) => i < |w.objs| && (w.objs[i].broken || (!held && Closed(w.objs[i].st)))
  }

  lemma SendBlamed(c: Config, w: World, t: Tid, a: Action)
    requires Enabled(w, t, a) && ReadyRef(w, t) && ReadySmu(w, t)
    requires t in w.threads && (w.threads[t].Sending? || w.threads[t].Resending?)
    requires Gap(w, w.threads[t].id)
    ensures Blamed(Next(c, w, t, a))
  {
  }

  lemma CloseBlamed(c: Config, w: World, t: Tid)
    requires Enabled(w, t, Go) && ReadyRef(w, t) && ReadyFmu(w, t) && (w.threads[t].Closing? || w.threads[t].Dropping?)
    requires var pc := w.threads[t]; Gap(w, if pc.Closing? then pc.id else pc.v)
    ensures Blamed(Next(c, w, t, Go))
  {
  }

  /** The other steps that run in a thread of their own call no method of a Socket, and store finds its socket open. */
  lemma QuietBlamed(c: Config, w: World, t: Tid, a: Action)
    requires Enabled(w, t, a) && ReadyRef(w, t)
    requires t in w.threads ==> var pc := w.threads[t]; !pc.Sending? && !pc.Resending? && !pc.Closing? && !pc.Dropping?
    ensures Blamed(Next(c, w, t, a))
  {
  }

  lemma BlamedNext(c: Config, w: World, t: Tid, a: Action)
    requires Base(w) && Enabled(w, t, a)
    ensures Blamed(Next(c, w, t, a))
  {
    hide Next, Blamed, Gap;
    BaseReady(w, t);
    if t in w.threads && (w.threads[t].Sending? || w.threads[t].Resending?) {
      SendBlamed(c, w, t, a);
    } else if t in w.threads && (w.threads[t].Closing? || w.threads[t].Dropping?) {
      CloseBlamed(c, w, t);
    } else {
      QuietBlamed(c, w, t, a);
    }
  }

  lemma {:induction false} BlamedRun(c: Config, w: World, es: seq<Event>)
    requires Base(w) && Blamed(w) && Runs(c, w, es)
    ensures Blamed(After(c, w, es))
    decreases |es|
  {
    if es != [] {
      BaseNext(c, w, es[0].t, es[0].a);
      BlamedNext(c, w, es[0].t, es[0].a);
      BlamedRun(c, Next(c, w, es[0].t, es[0].a), es[1..]);
    }
  }

  /**
   * The panic written in store never fires. A call through a nil Socket happens to the owner of a
   * handle, to Close, or to evict only after a reconnect of that very socket failed; to a stray
   * sender also when the socket was closed under it.
   */
  lemma PanicsOnlyAfterFailedReconnect(c: Config, w: World)
    requires Reachable(c, w)
    ensures w.panic != Some(ClosedInStore)
    ensures forall i: Id, held: bool :: w.panic == Some(NilSocket(i, held)) ==>
              i < |w.objs| && (w.objs[i].broken || (!held && Closed(w.objs[i].st)))
  {
    var es :| Runs(c, Start(), es) && After(c, Start(), es) == w;
    BaseStart();
    BlamedRun(c, Start(), es);
  }

  /** No use after close: while a thread holds a reference, `s` is nil only if a reconnect failed or one is under way. */
  lemma HeldIsConnected(c: Config, w: World, t: Tid)
    requires Reachable(c, w) && t in w.threads && RefOf(w.threads[t]).Some?
    ensures var i := RefOf(w.threads[t]).value;
      && i < |w.objs|
      && !Closed(w.objs[i].st)
      && (w.objs[i].st.conn.None? ==> w.objs[i].broken || Repairing(w, i))
  {
    ReachableBase(c, w);
    BaseReady(w, t);
    assert Gap(w, RefOf(w.threads[t]).value);
  }

  // ---------- connections ----------

  /**
   * Conservation: connections opened minus connections closed is the number of sockets with non-nil `s`.
   * No connection serves two sockets, and none that was closed is ever used again.
   */
  lemma ConnectionsConserved(c: Config, w: World)
    requires Reachable(c, w)
    ensures w.opens - |w.dead| == |Connected(w.objs)|
    ensures forall i, j :: i in Connected(w.objs) && j in Connected(w.objs) && w.objs[i].st.conn == w.objs[j].st.conn ==> i == j
    ensures forall i :: i in Connected(w.objs) ==> w.objs[i].st.conn.value !in w.dead
  {
    ReachableBase(c, w);
  }

  /** A connection is closed once: a step that closes one closes a connection that was open until then. */
  lemma ClosedOnce(c: Config, w: World, t: Tid, a: Action)
    requires Reachable(c, w) && Enabled(w, t, a)
    ensures var w' := Next(c, w, t, a);
      && w.dead <= w'.dead
      && (w'.dead == w.dead || exists i :: i in Connected(w.objs) && i !in Connected(w'.objs)
                                          && w'.dead == w.dead + {w.objs[i].st.conn.value})
  {
    ReachableBase(c, w);
    BaseReady(w, t);
    StepMovesConn(c, w, t, a);
    var e, w' := Step(c, w, t, a), Next(c, w, t, a);
    if w'.dead != w.dead {
      assert e.write.id in Connected(w.objs) && e.write.id !in Connected(w'.objs);
    }
  }

  /** Requests on one socket are serialized: at most one thread is between taking and releasing its `smu`. */
  lemma RequestsSerialized(c: Config, w: World, t: Tid, u: Tid)
    requires Reachable(c, w) && t in w.threads && u in w.threads
    requires SmuOf(w.threads[t]).Some? && SmuOf(w.threads[t]) == SmuOf(w.threads[u])
    ensures t == u
  {
    ReachableBase(c, w);
    var i := SmuOf(w.threads[t]).value;
    assert OwnsSmu(w, t, i) && OwnsSmu(w, u, i);
  }

  // ---------- deadlock freedom ----------

  datatype Lock = Mu | Fmu(id: Id) | Smu(id: Id)

  /** The order in which the code takes its locks. */
  function Rank(l: Lock): nat {
    match l
    case Mu => 0
    case Fmu(_) => 1
    case Smu(_) => 2
  }

  /** The lock the thread needs for its next step. */
  function Wanted(w: World, pc: Pc): Option<Lock> {
    match pc
    case WantMu(_) => Some(Mu)
    case Lookup(name) => if name in w.sockets then Some(Fmu(w.sockets[name])) else None
    case Checking(_, _, _, _, v) => Some(Fmu(v))
    case Uncaching(_, _, _, _, v) => Some(Fmu(v))
    case Dropping(_, _, _, _, v) => Some(Smu(v))
    case Caching(_, id) => Some(Fmu(id))
    case WantSend(id, _) => Some(Smu(id))
    case WantClose(id) => Some(Fmu(id))
    case Closing(id) => Some(Smu(id))
    case _ => None
  }

  predicate Held(w: World, t: Tid, l: Lock)
    requires t in w.threads
  {
    match l
    case Mu => w.mu == Some(t)
    case Fmu(i) => i < |w.objs| && w.objs[i].fmu == Some(t)
    case Smu(i) => i < |w.objs| && w.objs[i].smu == Some(t)
  }

  function Owner(w: World, l: Lock): Option<Tid> {
    match l
    case Mu => w.mu
    case Fmu(i) => if i < |w.objs| then w.objs[i].fmu else None
    case Smu(i) => if i < |w.objs| then w.objs[i].smu else None
  }

  /** In the middle of Get, SendRawCmd or Close, as opposed to holding a handle between calls. */
  predicate InCall(w: World, t: Tid) {
    t in w.threads && !w.threads[t].Holding?
  }

  predicate Begins(a: Action) {
    a.BeginGet? || a.BeginSend? || a.BeginStray? || a.BeginClose?
  }

  /** A thread in a call whose lock is free, or that needs none, can take a step of that call. */
  lemma Unblocked(w: World, t: Tid) returns (a: Action)
    requires Base(w) && w.panic.None? && InCall(w, t)
    requires Wanted(w, w.threads[t]).Some? ==> Owner(w, Wanted(w, w.threads[t]).value).None?
    ensures Enabled(w, t, a) && !Begins(a)
  {
    BaseReady(w, t);
    var pc := w.threads[t];
    match pc {
      case Opening(_) => a := Opened;
      case Reopening(_, _) => a := Opened;
      case Sending(_, _) => a := SendOk;
      case Resending(_, _) => a := SendOk;
      case Visit(_, _, todo) =>
        if todo == {} { a := Go; } else { var k :| k in todo; a := Pick(k); }
      case _ => a := Go;
    }
  }

  lemma OwnerHolds(w: World, l: Lock)
    requires Base(w) && Owner(w, l).Some?
    ensures var u := Owner(w, l).value; InCall(w, u) && Held(w, u, l)
    ensures var u := Owner(w, l).value; Wanted(w, w.threads[u]).Some? ==> Rank(l) < Rank(Wanted(w, w.threads[u]).value)
  {
    var u := Owner(w, l).value;
    match l {
      case Mu =>
      case Fmu(i) => assert OwnsFmu(w, u, i);
      case Smu(i) => assert OwnsSmu(w, u, i);
    }
  }

  /** Locks are taken in the order mu, fmu, smu: whoever waits for a lock holds only locks of lower rank. */
  lemma LockOrder(c: Config, w: World, t: Tid, l: Lock)
    requires Reachable(c, w) && t in w.threads && Held(w, t, l) && Wanted(w, w.threads[t]).Some?
    ensures Rank(l) < Rank(Wanted(w, w.threads[t]).value)
  {
    ReachableBase(c, w);
    OwnerHolds(w, l);
  }

  /** `u` is `t`, or owns the lock `t` waits for, or is reached from `t` by more such links. */
  ghost predicate WaitsOn(w: World, t: Tid, u: Tid, links: nat)
    decreases links
  {
    t == u || (links > 0 && t in w.threads && Wanted(w, w.threads[t]).Some?
               && Owner(w, Wanted(w, w.threads[t]).value).Some?
               && WaitsOn(w, Owner(w, Wanted(w, w.threads[t]).value).value, u, links - 1))
  }

  lemma {:induction false} Chase(w: World, t: Tid, rank: nat) returns (u: Tid, a: Action)
    requires Base(w) && w.panic.None? && InCall(w, t) && rank <= 3
    requires Wanted(w, w.threads[t]).Some? ==> rank <= Rank(Wanted(w, w.threads[t]).value)
    ensures InCall(w, u) && Enabled(w, u, a) && !Begins(a) && WaitsOn(w, t, u, 3 - rank)
    decreases 3 - rank
  {
    var want := Wanted(w, w.threads[t]);
    if want.None? || Owner(w, want.value).None? {
      u := t;
      a := Unblocked(w, t);
    } else {
      OwnerHolds(w, want.value);
      u, a := Chase(w, Owner(w, want.value).value, rank + 1);
    }
  }

  /**
   * Deadlock freedom. Whenever a thread is inside a call, it can step, or some thread at the end
   * of the at most three locks it transitively waits for can.
   */
  lemma NoDeadlock(c: Config, w: World, t: Tid)
    requires Reachable(c, w) && w.panic.None? && InCall(w, t)
    ensures exists u, a :: InCall(w, u) && Enabled(w, u, a) && !Begins(a) && WaitsOn(w, t, u, 3)
  {
    ReachableBase(c, w);
    var u, a := Chase(w, t, 0);
  }
}
