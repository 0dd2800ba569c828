/**
 * What a failed reconnect costs: the socket stays without a connection for good, and every later
 * call through it panics. These are all the panics there are, but for stray sends on closed sockets.
 */
module MachineBroken {
  import opened Basics
  import opened Shared
  import opened Machine
  import opened MachineInv
  import opened MachineSafety
  import opened MachineTidy
  import opened MachineGuard

  // ---------- broken stays broken ----------

  /** A broken socket has no connection and nobody is reopening it. */
  ghost predicate Stuck(w: World) {
    && (forall i: Id | i < |w.objs| && w.objs[i].broken :: w.objs[i].st.conn.None?)
    && (forall t | t in w.threads && w.threads[t].Reopening? && w.threads[t].id < |w.objs| :: !w.objs[w.threads[t].id].broken)
  }

  /** A step breaks only the socket its thread was reopening, and reopens only a socket that is not broken. */
  ghost predicate MovesBroken(w: World, t: Tid, e: Effect) {
    && (e.write.At? ==>
          var i, o := e.write.id, e.write.o;
          if i < |w.objs| then
            && (o.broken ==> w.objs[i].broken || SmuBefore(w, t) == Some(i)) && (w.objs[i].broken ==> o.broken)
            && (o.broken ==> o.st.conn.None?)
          else i == |w.objs| && !o.broken)
    && (e.pc.Some? && e.pc.value.Reopening? ==>
          e.write.At? && e.write.id == e.pc.value.id && !e.write.o.broken)
  }

  lemma GoMovesBroken(c: Config, w: World, t: Tid)
    requires Enabled(w, t, Go) && ReadyRef(w, t) && Stuck(w)
    ensures MovesBroken(w, t, Step(c, w, t, Go))
  {
  }

  lemma StepMovesBroken(c: Config, w: World, t: Tid, a: Action)
    requires Enabled(w, t, a) && ReadyRef(w, t) && Stuck(w)
    ensures MovesBroken(w, t, Step(c, w, t, a))
  {
    if a.Go? {
      GoMovesBroken(c, w, t);
    }
  }

  lemma StuckApply(w: World, t: Tid, e: Effect)
    requires Base(w) && Stuck(w) && MovesBroken(w, t, e)
    requires forall u | u in w.threads && u != t && SmuOf(w.threads[u]).Some? :: SmuOf(w.threads[u]) != SmuBefore(w, t)
    ensures Stuck(Apply(w, t, e))
  {
  }

  lemma StuckNext(c: Config, w: World, t: Tid, a: Action)
    requires Base(w) && Stuck(w) && Enabled(w, t, a)
    ensures Stuck(Next(c, w, t, a))
  {
    BaseReady(w, t);
    StepMovesBroken(c, w, t, a);
    forall u | u in w.threads && u != t && SmuOf(w.threads[u]).Some? ensures SmuOf(w.threads[u]) != SmuBefore(w, t) {
      var i := SmuOf(w.threads[u]).value;
      assert OwnsSmu(w, u, i);
      assert SmuBefore(w, t) == Some(i) ==> OwnsSmu(w, t, i);
    }
    hide Step;
    StuckApply(w, t, Step(c, w, t, a));
  }

  lemma {:induction false} StuckRun(c: Config, w: World, es: seq<Event>)
    requires Base(w) && Stuck(w) && Runs(c, w, es)
    ensures var w' := After(c, w, es);
      && Base(w') && Stuck(w') && |w.objs| <= |w'.objs|
      && forall i: Id | i < |w.objs| && w.objs[i].broken :: w'.objs[i].broken
    decreases |es|
  {
    if es != [] {
      var t, a := es[0].t, es[0].a;
      BaseReady(w, t);
      StepMovesBroken(c, w, t, a);
      StuckNext(c, w, t, a);
      BaseNext(c, w, t, a);
      StuckRun(c, Next(c, w, t, a), es[1..]);
    }
  }

  lemma ReachableStuck(c: Config, w: World)
    requires Reachable(c, w)
    ensures Base(w) && Stuck(w)
  {
    var es :| Runs(c, Start(), es) && After(c, Start(), es) == w;
    BaseStart();
    StuckRun(c, Start(), es);
  }

  /** Once a reconnect of a socket failed, the socket has no connection in any later state. */
  lemma BrokenForever(c: Config, w: World, es: seq<Event>, i: Id)
    requires Reachable(c, w) && Runs(c, w, es) && i < |w.objs| && w.objs[i].broken
    ensures var w' := After(c, w, es); i < |w'.objs| && w'.objs[i].broken && w'.objs[i].st.conn.None?
  {
    hide Reachable;
    ReachableStuck(c, w);
    StuckRun(c, w, es);
  }

  // ---------- which steps panic ----------

  /** The socket whose `s` the step calls a method of: a request, or the close at the end of Close or uncache. */
  function Called(w: World, t: Tid, a: Action): Option<Id> {
    if t !in w.threads then None
    else match w.threads[t]
      case Sending(id, _) => Some(id)
      case Resending(id, _) => Some(id)
      case Closing(id) => Some(id)
      case Dropping(_, _, _, _, v) => Some(v)
      case _ => None
  }

  predicate Stray(pc: Pc) {
    (pc.Sending? || pc.Resending?) && !pc.held
  }

  /** A socket lacks its connection exactly when it is broken, or closed to the end, or being reopened. */
  lemma NilIff(w: World, i: Id)
    requires Base(w) && Stuck(w) && i < |w.objs|
    ensures w.objs[i].st.conn.None? <==> w.objs[i].broken || (Closed(w.objs[i].st) && w.objs[i].fmu.None?) || Repairing(w, i)
  {
    assert Gap(w, i);
    if Repairing(w, i) {
      assert OwnsSmu(w, w.objs[i].smu.value, i);
    }
  }

  lemma CallPanics(c: Config, w: World, t: Tid, a: Action)
    requires Enabled(w, t, a) && ReadyRef(w, t) && ReadySmu(w, t) && ReadyFmu(w, t) && Called(w, t, a).Some?
    ensures var i := Called(w, t, a).value;
      i < |w.objs| && (Next(c, w, t, a).panic.Some? <==> w.objs[i].st.conn.None?)
  {
  }

  lemma OtherPanics(c: Config, w: World, t: Tid, a: Action)
    requires Enabled(w, t, a) && ReadyRef(w, t) && Called(w, t, a).None?
    ensures Next(c, w, t, a).panic.None?
  {
  }

  lemma StepPanics(c: Config, w: World, t: Tid, a: Action)
    requires Base(w) && Enabled(w, t, a)
    ensures var i := Called(w, t, a);
      && (i.Some? ==> i.value < |w.objs|)
      && (Next(c, w, t, a).panic.Some? <==> i.Some? && w.objs[i.value].st.conn.None?)
  {
    hide Next, Called, Enabled;
    BaseReady(w, t);
    if Called(w, t, a).Some? {
      CallPanics(c, w, t, a);
    } else {
      OtherPanics(c, w, t, a);
    }
  }

  lemma CalledIsNil(w: World, t: Tid, a: Action)
    requires Base(w) && Stuck(w) && Enabled(w, t, a) && Called(w, t, a).Some?
    ensures var i := Called(w, t, a).value;
      && i < |w.objs|
      && (w.objs[i].st.conn.None? <==>
            w.objs[i].broken || (Stray(w.threads[t]) && Closed(w.objs[i].st) && w.objs[i].fmu.None?))
  {
    BaseReady(w, t);
    var i := Called(w, t, a).value;
    NilIff(w, i);
    if SmuOf(w.threads[t]) == Some(i) {
      assert OwnsSmu(w, t, i);
    }
  }

  /**
   * Exactly which steps panic. A request of a handle owner, the close at the end of the last Close and
   * the one at the end of uncache do so if and only if a reconnect of their socket has failed before;
   * a stray request also when the socket has been closed to the end. No other step does.
   */
  lemma PanicsIff(c: Config, w: World, t: Tid, a: Action)
    requires Reachable(c, w) && Enabled(w, t, a)
    ensures Next(c, w, t, a).panic.Some? <==>
      var i := Called(w, t, a);
      && i.Some? && i.value < |w.objs|
      && (w.objs[i.value].broken || (Stray(w.threads[t]) && Closed(w.objs[i.value].st) && w.objs[i.value].fmu.None?))
  {
    hide Reachable;
    ReachableStuck(c, w);
    StepPanics(c, w, t, a);
    if Called(w, t, a).Some? {
      CalledIsNil(w, t, a);
    }
  }

  // ---------- and some do ----------

  /** The state after the first Get of a run and a request of its handle that found the socket dead. */
  lemma FirstGetBreaks(c: Config, name: Name) returns (w: World)
    ensures Reachable(c, w) && w.panic.None? && |w.objs| == 1 && w.objs[0].broken && w.objs[0].smu.None?
    ensures 0 in w.threads && w.threads[0] == Holding(0)
  {
    hide Reachable;
    var start := StartReachable(c);
    GetMisses(c, start, 0, name);
    var w0 := Missed(c, start, 0, name);
    ReachableNext(c, w0, 0, BeginSend);
    var w1 := Next(c, w0, 0, BeginSend);
    ReachableNext(c, w1, 0, Go);
    var w2 := Next(c, w1, 0, Go);
    ReachableNext(c, w2, 0, SendDead);
    var w3 := Next(c, w2, 0, SendDead);
    ReachableNext(c, w3, 0, OpenFailed);
    w := Next(c, w3, 0, OpenFailed);
  }

  lemma StartReachable(c: Config) returns (w: World)
    ensures w == Start() && Reachable(c, w)
  {
    w := Start();
    assert Runs(c, w, []) && After(c, w, []) == w;
  }

  /** In every configuration a handle owner can be brought to call through nil: Get, a failed reconnect, and one more request. */
  lemma NilCallHappens(c: Config, name: Name) returns (w: World)
    ensures Reachable(c, w) && w.panic == Some(NilSocket(0, true))
  {
    hide Reachable;
    var w0 := FirstGetBreaks(c, name);
    ReachableStuck(c, w0);
    ReachableNext(c, w0, 0, BeginSend);
    var w1 := Next(c, w0, 0, BeginSend);
    ReachableNext(c, w1, 0, Go);
    var w2 := Next(c, w1, 0, Go);
    ReachableNext(c, w2, 0, SendOk);
    w := Next(c, w2, 0, SendOk);
  }
}
