/** Every call finishes: without new calls, no run of the manager goes on for ever. */
module MachineProgress {
  import opened Basics
  import opened Shared
  import opened Machine
  import opened MachineInv
  import opened MachineSafety

  predicate InGet(pc: Pc) {
    pc.WantMu? || HasMu(pc)
  }

  function Gets(threads: map<Tid, Pc>): set<Tid> {
    set t | t in threads && InGet(threads[t])
  }

  /** The most entries an evict still to come can meet: what is in the map, and what running Gets may add. */
  function Room(w: World): nat {
    |w.sockets| + |Gets(w.threads)|
  }

  /** An upper bound on the steps the thread's call still takes, when evict meets at most `room` entries. */
  function Weight(pc: Pc, room: nat): nat {
    match pc
    case WantMu(_) => 5 * room + 8
    case Lookup(_) => 5 * room + 7
    case Opening(_) => 5 * room + 6
    case Storing(_, _) => 5 * room + 5
    case Visit(_, _, todo) => 5 * |todo| + 4
    case Checking(_, _, todo, k, _) => 5 * |todo - {k}| + 8
    case Judged(_, _, todo, k, _) => 5 * |todo - {k}| + 7
    case Uncaching(_, _, todo, k, _) => 5 * |todo - {k}| + 6
    case Dropping(_, _, todo, k, _) => 5 * |todo - {k}| + 5
    case Recheck(_, _) => 3
    case Caching(_, _) => 2
    case Inserting(_, _, _) => 1
    case Holding(_) => 0
    case WantSend(_, _) => 4
    case Sending(_, _) => 3
    case Reopening(_, _) => 2
    case Resending(_, _) => 1
    case WantClose(_) => 2
    case Closing(_) => 1
  }

  ghost function Total(threads: map<Tid, Pc>, room: nat): nat
    decreases |threads|
  {
    if threads == map[] then 0
    else
      var t :| t in threads;
      Weight(threads[t], room) + Total(threads - {t}, room)
  }

  lemma {:induction false} TotalTake(threads: map<Tid, Pc>, room: nat, t: Tid)
    requires t in threads
    ensures Total(threads, room) == Weight(threads[t], room) + Total(threads - {t}, room)
    decreases |threads|
  {
    var u :| u in threads && Total(threads, room) == Weight(threads[u], room) + Total(threads - {u}, room);
    if u != t {
      TotalTake(threads - {u}, room, t);
      TotalTake(threads - {t}, room, u);
      assert threads - {u} - {t} == threads - {t} - {u};
    }
  }

  lemma {:induction false} TotalMonotone(threads: map<Tid, Pc>, room: nat, room': nat)
    requires room' <= room
    ensures Total(threads, room') <= Total(threads, room)
    decreases |threads|
  {
    if threads != map[] {
      var t :| t in threads;
      TotalTake(threads, room, t);
      TotalTake(threads, room', t);
      TotalMonotone(threads - {t}, room, room');
    }
  }

  /** Changing or removing one thread changes the total by that thread's weight. */
  lemma TotalReplace(threads: map<Tid, Pc>, threads': map<Tid, Pc>, room: nat, room': nat, t: Tid)
    requires t in threads && threads' - {t} == threads - {t} && room' <= room
    ensures Total(threads', room') + Weight(threads[t], room)
         <= Total(threads, room) + if t in threads' then Weight(threads'[t], room) else 0
  {
    hide Weight, Total;
    TotalMonotone(threads', room, room');
    TotalTake(threads, room, t);
    if t in threads' {
      TotalTake(threads', room, t);
    } else {
      assert threads' == threads' - {t};
    }
  }

  /** A bound on the steps all running calls can still take together. */
  ghost function Measure(w: World): nat {
    Total(w.threads, Room(w)) + if w.panic.None? then 1 else 0
  }

  /** The call's own weight goes down with its step; only a panic leaves it where it was. */
  predicate Lightens(w: World, t: Tid, e: Effect)
    requires t in w.threads
  {
    var room := Room(w);
    if e.g.panic.Some? then e.pc == Some(w.threads[t])
    else 0 < Weight(w.threads[t], room) && (e.pc.Some? ==> Weight(e.pc.value, room) < Weight(w.threads[t], room))
  }

  lemma VisitLightens(c: Config, w: World, t: Tid)
    requires Enabled(w, t, Go) && w.threads[t].Visit?
    ensures Lightens(w, t, Step(c, w, t, Go))
  {
    hide Room;
  }

  lemma CheckLightens(c: Config, w: World, t: Tid)
    requires Enabled(w, t, Go) && w.threads[t].Checking?
    ensures Lightens(w, t, Step(c, w, t, Go))
  {
    hide Room;
  }

  lemma JudgeLightens(c: Config, w: World, t: Tid)
    requires Enabled(w, t, Go) && w.threads[t].Judged?
    ensures Lightens(w, t, Step(c, w, t, Go))
  {
    hide Room;
  }

  lemma UncacheLightens(c: Config, w: World, t: Tid)
    requires Enabled(w, t, Go) && (w.threads[t].Uncaching? || w.threads[t].Dropping?)
    ensures Lightens(w, t, Step(c, w, t, Go))
  {
    hide Room;
  }

  lemma GetLightens(c: Config, w: World, t: Tid)
    requires Enabled(w, t, Go) && InGet(w.threads[t]) && !Evicts(w.threads[t])
    ensures Lightens(w, t, Step(c, w, t, Go))
  {
    assert |w.sockets.Keys| == |w.sockets|;
  }

  lemma ClientLightens(c: Config, w: World, t: Tid)
    requires Enabled(w, t, Go) && !InGet(w.threads[t])
    ensures Lightens(w, t, Step(c, w, t, Go))
  {
  }

  lemma PickLightens(c: Config, w: World, t: Tid, k: Name)
    requires Enabled(w, t, Pick(k))
    ensures Lightens(w, t, Step(c, w, t, Pick(k)))
  {
    hide Room;
    var todo := w.threads[t].todo;
    assert todo == (todo - {k}) + {k};
  }

  lemma OtherLightens(c: Config, w: World, t: Tid, a: Action)
    requires Enabled(w, t, a) && !Begins(a) && !a.Go? && !a.Pick?
    ensures Lightens(w, t, Step(c, w, t, a))
  {
    hide Room;
  }

  lemma StepLightens(c: Config, w: World, t: Tid, a: Action)
    requires Enabled(w, t, a) && !Begins(a)
    ensures Lightens(w, t, Step(c, w, t, a))
  {
    hide Lightens, Step;
    if a.Pick? {
      PickLightens(c, w, t, a.k);
    } else if !a.Go? {
      OtherLightens(c, w, t, a);
    } else if w.threads[t].Uncaching? || w.threads[t].Dropping? {
      UncacheLightens(c, w, t);
    } else if w.threads[t].Visit? {
      VisitLightens(c, w, t);
    } else if w.threads[t].Checking? {
      CheckLightens(c, w, t);
    } else if w.threads[t].Judged? {
      JudgeLightens(c, w, t);
    } else if InGet(w.threads[t]) {
      GetLightens(c, w, t);
    } else {
      ClientLightens(c, w, t);
    }
  }

  /** Entries come only from a Get that ends with adding one. */
  predicate KeepsRoom(w: World, t: Tid, e: Effect) {
    && |e.g.sockets| <= |w.sockets| + One(t in w.threads && InGet(w.threads[t]) && !(e.pc.Some? && InGet(e.pc.value)))
    && (e.pc.Some? && InGet(e.pc.value) ==> t in w.threads && InGet(w.threads[t]))
  }

  /** A step leaves the map alone, takes entries away, or enters the name of a Get that ends with it. */
  predicate MovesMap(w: World, t: Tid, e: Effect)
    requires t in w.threads
  {
    && (e.g.sockets.Keys <= w.sockets.Keys
        || (w.threads[t].Inserting? && e.g.sockets.Keys == w.sockets.Keys + {w.threads[t].name}))
    && (w.threads[t].Inserting? ==> !(e.pc.Some? && InGet(e.pc.value)))
    && (e.pc.Some? && InGet(e.pc.value) ==> InGet(w.threads[t]))
  }

  lemma GoMovesMap(c: Config, w: World, t: Tid)
    requires Enabled(w, t, Go)
    ensures MovesMap(w, t, Step(c, w, t, Go))
  {
  }

  lemma StepMovesMap(c: Config, w: World, t: Tid, a: Action)
    requires Enabled(w, t, a) && !Begins(a)
    ensures MovesMap(w, t, Step(c, w, t, a))
  {
    if a.Go? {
      GoMovesMap(c, w, t);
    }
  }

  lemma StepKeepsRoom(c: Config, w: World, t: Tid, a: Action)
    requires Enabled(w, t, a) && !Begins(a)
    ensures KeepsRoom(w, t, Step(c, w, t, a))
  {
    hide Step;
    var e := Step(c, w, t, a);
    StepMovesMap(c, w, t, a);
    assert |e.g.sockets| == |e.g.sockets.Keys| && |w.sockets| == |w.sockets.Keys|;
    if e.g.sockets.Keys <= w.sockets.Keys {
      SubsetSize(e.g.sockets.Keys, w.sockets.Keys);
    }
  }

  lemma RoomApply(w: World, t: Tid, e: Effect)
    requires KeepsRoom(w, t, e) && t in w.threads
    ensures Room(Apply(w, t, e)) <= Room(w)
  {
    SizeMove(Gets(w.threads), Gets(Apply(w, t, e).threads), t);
  }

  lemma MeasureApply(w: World, t: Tid, e: Effect)
    requires t in w.threads && w.panic.None? && Lightens(w, t, e) && KeepsRoom(w, t, e)
    ensures Measure(Apply(w, t, e)) < Measure(w)
  {
    hide Weight, KeepsRoom, Room, Total;
    var w' := Apply(w, t, e);
    RoomApply(w, t, e);
    assert w'.threads - {t} == w.threads - {t};
    TotalReplace(w.threads, w'.threads, Room(w), Room(w'), t);
  }

  lemma MeasureNext(c: Config, w: World, t: Tid, a: Action)
    requires Enabled(w, t, a) && !Begins(a)
    ensures Measure(Next(c, w, t, a)) < Measure(w)
  {
    hide Step, Measure, Apply;
    StepLightens(c, w, t, a);
    StepKeepsRoom(c, w, t, a);
    MeasureApply(w, t, Step(c, w, t, a));
  }

  /** A run in which no new call begins is no longer than the measure of its start. */
  lemma {:induction false} RunsEnd(c: Config, w: World, es: seq<Event>)
    requires Runs(c, w, es) && forall e | e in es :: !Begins(e.a)
    ensures |es| + Measure(After(c, w, es)) <= Measure(w)
    decreases |es|
  {
    if es != [] {
      assert es[0] in es;
      MeasureNext(c, w, es[0].t, es[0].a);
      RunsEnd(c, Next(c, w, es[0].t, es[0].a), es[1..]);
    }
  }

  /** Nobody is in a call, or the process died. */
  ghost predicate AtRest(w: World) {
    w.panic.Some? || forall t :: !InCall(w, t)
  }

  /**
   * Every call finishes, whatever the scheduler does: without new calls a run has a bounded length,
   * and one that cannot be continued has left nobody inside a call.
   */
  lemma CallsFinish(c: Config, w: World, es: seq<Event>)
    requires Reachable(c, w) && Runs(c, w, es) && forall e | e in es :: !Begins(e.a)
    ensures |es| <= Measure(w)
    ensures (forall t, a :: Enabled(After(c, w, es), t, a) ==> Begins(a)) ==> AtRest(After(c, w, es))
  {
    ReachableBase(c, w);
    RunsEnd(c, w, es);
    BaseRun(c, w, es);
    var end := After(c, w, es);
    if end.panic.None? && exists t :: InCall(end, t) {
      var t :| InCall(end, t);
      var u, a := Chase(end, t, 0);
    }
  }
}
