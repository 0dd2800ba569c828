/**
 * When the manager keeps one open socket a name: exactly when the limit is 0 or evict's first guard
 * means what the code around it expects. With the guard as written and any other limit, a run
 * opens a name twice; with limit 0 a name keeps its first socket for ever.
 */
module MachineGuard {
  import opened Basics
  import opened Shared
  import opened Machine
  import opened MachineInv
  import opened MachineSafety
  import opened MachineTidy

  // ---------- limit 0: the shipped configuration ----------

  ghost predicate Pinned(w: World) {
    forall k | k in w.sockets :: w.sockets[k] < |w.objs| && w.objs[w.sockets[k]].st.cached
  }

  predicate Extends(m: map<Name, Id>, m': map<Name, Id>) {
    forall k | k in m :: k in m' && m'[k] == m[k]
  }

  lemma GetPinned(c: Config, w: World, t: Tid)
    requires Enabled(w, t, Go) && ReadyRef(w, t) && Claims(c, w, w.threads[t]) && Pinned(w) && c.limit == 0
    requires HasMu(w.threads[t])
    ensures Pinned(Next(c, w, t, Go)) && Extends(w.sockets, Next(c, w, t, Go).sockets)
  {
  }

  lemma ClientPinned(c: Config, w: World, t: Tid)
    requires Enabled(w, t, Go) && ReadyRef(w, t) && Pinned(w) && !HasMu(w.threads[t])
    ensures Pinned(Next(c, w, t, Go)) && Extends(w.sockets, Next(c, w, t, Go).sockets)
  {
  }

  lemma GoPinned(c: Config, w: World, t: Tid)
    requires Enabled(w, t, Go) && ReadyRef(w, t) && Claims(c, w, w.threads[t]) && Pinned(w) && c.limit == 0
    ensures Pinned(Next(c, w, t, Go)) && Extends(w.sockets, Next(c, w, t, Go).sockets)
  {
    hide Pinned, Extends, Next, Claims;
    if HasMu(w.threads[t]) {
      GetPinned(c, w, t);
    } else {
      ClientPinned(c, w, t);
    }
  }

  lemma StepPinned(c: Config, w: World, t: Tid, a: Action)
    requires Enabled(w, t, a) && ReadyRef(w, t) && (t in w.threads ==> Claims(c, w, w.threads[t])) && Pinned(w) && c.limit == 0
    ensures Pinned(Next(c, w, t, a)) && Extends(w.sockets, Next(c, w, t, a).sockets)
  {
    if a.Go? {
      GoPinned(c, w, t);
    }
  }

  lemma {:induction false} PinnedRun(c: Config, w: World, es: seq<Event>)
    requires Base(w) && Tidy(c, w) && Pinned(w) && Runs(c, w, es) && c.limit == 0
    ensures var w' := After(c, w, es); Base(w') && Tidy(c, w') && Pinned(w') && Extends(w.sockets, w'.sockets)
    decreases |es|
  {
    if es != [] {
      BaseNext(c, w, es[0].t, es[0].a);
      TidyNext(c, w, es[0].t, es[0].a);
      BaseReady(w, es[0].t);
      StepPinned(c, w, es[0].t, es[0].a);
      PinnedRun(c, Next(c, w, es[0].t, es[0].a), es[1..]);
    }
  }

  /**
   * Limit 0: once a Get of `n` has stored a socket, the map keeps it, open and cached, through every
   * later run, and every later Get of `n` has that same socket in hand.
   */
  lemma SameSocketForever(c: Config, w: World, es: seq<Event>, n: Name)
    requires Reachable(c, w) && c.limit == 0 && n in w.sockets && Runs(c, w, es)
    ensures var w' := After(c, w, es);
      && n in w'.sockets && w'.sockets[n] == w.sockets[n] < |w'.objs| && w'.objs[w.sockets[n]].st.cached
      && (forall t | t in w'.threads && HasMu(w'.threads[t]) && !w'.threads[t].Lookup? && w'.threads[t].name == n ::
            !w'.threads[t].Opening? && w'.threads[t].id == w.sockets[n])
  {
    var before :| Runs(c, Start(), before) && After(c, Start(), before) == w;
    BaseStart();
    PinnedRun(c, Start(), before);
    PinnedRun(c, w, es);
    var w' := After(c, w, es);
    forall t | t in w'.threads && HasMu(w'.threads[t]) && !w'.threads[t].Lookup? && w'.threads[t].name == n
      ensures !w'.threads[t].Opening? && w'.threads[t].id == w.sockets[n]
    {
      assert Claims(c, w', w'.threads[t]);
    }
  }

  /** And that is the socket it returns: the step that ends a Get hands out the first socket of the name. */
  lemma SameSocketReturned(c: Config, w: World, es: seq<Event>, n: Name, t: Tid)
    requires Reachable(c, w) && c.limit == 0 && n in w.sockets && Runs(c, w, es)
    requires var w' := After(c, w, es);
      w'.panic.None? && t in w'.threads && w'.threads[t].Inserting? && w'.threads[t].name == n
    ensures Enabled(After(c, w, es), t, Go)
    ensures Next(c, After(c, w, es), t, Go).threads[t] == Holding(w.sockets[n])
  {
    hide Reachable;
    SameSocketForever(c, w, es, n);
  }

  // ---------- the guard as written ----------

  /** Nobody is in a call, and every socket there is has handles out. */
  ghost predicate Quiet(w: World) {
    w.mu.None? && w.panic.None? && forall i: Id | i < |w.objs| :: w.objs[i].fmu.None? && w.objs[i].st.refs > 0
  }

  lemma TwoSteps(c: Config, w: World, t: Tid, a: Action, b: Action)
    requires Reachable(c, w) && Enabled(w, t, a) && Enabled(Next(c, w, t, a), t, b)
    ensures Reachable(c, Next(c, Next(c, w, t, a), t, b))
  {
    ReachableNext(c, w, t, a);
    ReachableNext(c, Next(c, w, t, a), t, b);
  }

  function At(w: World, t: Tid, pc: Pc): World {
    w.(threads := w.threads[t := pc])
  }

  lemma SkipOpen(c: Config, w: World, t: Tid, k: Name)
    requires c.guard.Verbatim? && w.panic.None? && ReadyRef(w, t)
    requires t in w.threads && w.threads[t].Visit? && k in w.threads[t].todo
    requires forall i: Id | i < |w.objs| :: w.objs[i].fmu.None? && w.objs[i].st.refs > 0
    ensures Enabled(w, t, Pick(k)) && Enabled(Next(c, w, t, Pick(k)), t, Go)
    ensures var pc := w.threads[t];
      Next(c, Next(c, w, t, Pick(k)), t, Go) == At(w.(sockets := w.sockets - {k}), t, Visit(pc.name, pc.id, pc.todo - {k}))
  {
    var pc := w.threads[t];
    assert w.threads[t := Checking(pc.name, pc.id, pc.todo, k, w.sockets[k])][t := Visit(pc.name, pc.id, pc.todo - {k})]
        == w.threads[t := Visit(pc.name, pc.id, pc.todo - {k})];
  }

  lemma VisitOpen(c: Config, w: World, t: Tid, k: Name)
    requires Reachable(c, w) && c.guard.Verbatim? && w.panic.None?
    requires t in w.threads && w.threads[t].Visit? && k in w.threads[t].todo
    requires forall i: Id | i < |w.objs| :: w.objs[i].fmu.None? && w.objs[i].st.refs > 0
    ensures var pc := w.threads[t];
      Reachable(c, At(w.(sockets := w.sockets - {k}), t, Visit(pc.name, pc.id, pc.todo - {k})))
  {
    hide Reachable;
    ReachableBase(c, w);
    BaseReady(w, t);
    SkipOpen(c, w, t, k);
    TwoSteps(c, w, t, Pick(k), Go);
  }

  /** With the guard as written, evict deletes every open entry it visits and uncaches nothing. */
  lemma {:induction false} EvictDropsOpen(c: Config, w: World, t: Tid)
    requires Reachable(c, w) && w.panic.None?
    requires t in w.threads && w.threads[t].Visit? && (c.guard.Verbatim? || w.threads[t].todo == {})
    requires forall i: Id | i < |w.objs| :: w.objs[i].fmu.None? && w.objs[i].st.refs > 0
    ensures var pc := w.threads[t];
      Reachable(c, At(w.(sockets := w.sockets - pc.todo), t, Visit(pc.name, pc.id, {})))
    decreases w.threads[t].todo
  {
    hide Reachable;
    var pc := w.threads[t];
    var end := At(w.(sockets := w.sockets - pc.todo), t, Visit(pc.name, pc.id, {}));
    if pc.todo == {} {
      assert w.threads == end.threads && w.sockets == end.sockets;
    } else {
      var k :| k in pc.todo;
      VisitOpen(c, w, t, k);
      var w' := At(w.(sockets := w.sockets - {k}), t, Visit(pc.name, pc.id, pc.todo - {k}));
      EvictDropsOpen(c, w', t);
      assert w'.sockets - (pc.todo - {k}) == end.sockets;
      assert w'.threads[t := Visit(pc.name, pc.id, {})] == end.threads;
    }
  }

  /** The world after a Get that missed: a new open cached socket, alone in the map if evict ran. */
  function Missed(c: Config, w: World, t: Tid, name: Name): World {
    w.(sockets := (if Full(c, w) then map[] else w.sockets)[name := |w.objs|],
       cached := w.cached + 1,
       objs := w.objs + [Object(name, Shared(1, true, Some(w.opens)), None, None, false)],
       threads := w.threads[t := Holding(|w.objs|)],
       opens := w.opens + 1)
  }

  function New(w: World, name: Name): World {
    w.(objs := w.objs + [Object(name, Shared(1, false, Some(w.opens)), None, None, false)], opens := w.opens + 1)
  }

  lemma BeginMiss(c: Config, w: World, t: Tid, name: Name)
    requires Reachable(c, w) && Quiet(w) && t !in w.threads && name !in w.sockets
    ensures Reachable(c, At(w.(mu := Some(t)), t, Lookup(name)))
  {
    assert w.threads[t := WantMu(name)][t := Lookup(name)] == w.threads[t := Lookup(name)];
    TwoSteps(c, w, t, BeginGet(name), Go);
  }

  lemma OpenMiss(c: Config, w: World, t: Tid, name: Name)
    requires Reachable(c, w) && w.panic.None? && t in w.threads && w.threads[t] == Lookup(name) && name !in w.sockets
    ensures Reachable(c, At(New(w, name), t, Storing(name, |w.objs|)))
  {
    assert w.threads[t := Opening(name)][t := Storing(name, |w.objs|)] == w.threads[t := Storing(name, |w.objs|)];
    TwoSteps(c, w, t, Go, Opened);
  }

  lemma MakeRoom(c: Config, w: World, t: Tid, name: Name, id: Id)
    requires Reachable(c, w) && (c.guard.Verbatim? || w.sockets == map[])
    requires w.panic.None? && t in w.threads && w.threads[t] == Storing(name, id)
    requires forall i: Id | i < |w.objs| :: w.objs[i].fmu.None? && w.objs[i].st.refs > 0
    ensures Reachable(c, At(w.(sockets := if Full(c, w) then map[] else w.sockets), t, Recheck(name, id)))
  {
    hide Reachable;
    ReachableNext(c, w, t, Go);
    if Full(c, w) {
      var v := At(w, t, Visit(name, id, w.sockets.Keys));
      EvictDropsOpen(c, v, t);
      var v' := At(w.(sockets := map[]), t, Visit(name, id, {}));
      assert v.threads[t := Visit(name, id, {})] == v'.threads;
      assert w.sockets - w.sockets.Keys == map[];
      ReachableNext(c, v', t, Go);
      assert v'.threads[t := Recheck(name, id)] == w.threads[t := Recheck(name, id)];
    }
  }

  lemma CacheNew(c: Config, w: World, t: Tid, name: Name, id: Id)
    requires Reachable(c, w) && w.panic.None? && t in w.threads && w.threads[t] == Recheck(name, id) && id < |w.objs|
    requires w.objs[id].fmu.None? && w.objs[id].st.refs > 0 && !w.objs[id].st.cached
    ensures Reachable(c, At(w.(objs := w.objs[id := w.objs[id].(st := Cache(w.objs[id].st))]), t, Inserting(name, id, true)))
  {
    assert w.threads[t := Caching(name, id)][t := Inserting(name, id, true)] == w.threads[t := Inserting(name, id, true)];
    TwoSteps(c, w, t, Go, Go);
  }

  lemma ArriveMiss(c: Config, w: World, t: Tid, name: Name)
    requires Reachable(c, w) && Quiet(w) && t !in w.threads && name !in w.sockets
    ensures Reachable(c, At(New(w.(mu := Some(t)), name), t, Storing(name, |w.objs|)))
  {
    hide Reachable;
    BeginMiss(c, w, t, name);
    var w1 := At(w.(mu := Some(t)), t, Lookup(name));
    OpenMiss(c, w1, t, name);
    assert At(w1, t, Storing(name, |w.objs|)).threads == w.threads[t := Storing(name, |w.objs|)];
  }

  lemma StoreMiss(c: Config, w: World, t: Tid, name: Name, id: Id) returns (w': World)
    requires Reachable(c, w) && (c.guard.Verbatim? || w.sockets == map[])
    requires w.panic.None? && t in w.threads && w.threads[t] == Storing(name, id)
    requires forall i: Id | i < |w.objs| :: w.objs[i].fmu.None? && w.objs[i].st.refs > 0
    requires id < |w.objs| && !w.objs[id].st.cached
    ensures Reachable(c, w')
    ensures w' == At(w.(sockets := (if Full(c, w) then map[] else w.sockets)[name := id], cached := w.cached + 1, mu := None,
                        objs := w.objs[id := w.objs[id].(st := Cache(w.objs[id].st))]), t, Holding(id))
  {
    hide Reachable;
    MakeRoom(c, w, t, name, id);
    var w2 := At(w.(sockets := if Full(c, w) then map[] else w.sockets), t, Recheck(name, id));
    CacheNew(c, w2, t, name, id);
    var o := w2.objs[id];
    var w3 := At(w2.(objs := w2.objs[id := o.(st := Cache(o.st))]), t, Inserting(name, id, true));
    ReachableNext(c, w3, t, Go);
    w' := Next(c, w3, t, Go);
    assert w3.threads[t := Holding(id)] == w.threads[t := Holding(id)];
  }

  lemma GetMisses(c: Config, w: World, t: Tid, name: Name)
    requires Reachable(c, w) && Quiet(w) && t !in w.threads && name !in w.sockets
    requires c.guard.Verbatim? || w.sockets == map[]
    ensures Reachable(c, Missed(c, w, t, name)) && Quiet(Missed(c, w, t, name))
  {
    hide Reachable;
    var id, end := |w.objs|, Missed(c, w, t, name);
    ArriveMiss(c, w, t, name);
    var w1 := At(New(w.(mu := Some(t)), name), t, Storing(name, id));
    var w' := StoreMiss(c, w1, t, name, id);
    assert w'.threads == end.threads;
    assert w'.objs == end.objs;
  }

  function Tick(n: nat): (s: Name)
    ensures |s.text| == n
  {
    if n == 0 then Name("") else Name(Tick(n - 1).text + "x")
  }

  /** Some run fills the map with `n` names, each fetched by a thread of its own, without evicting. */
  lemma {:induction false} FillMap(c: Config, n: nat) returns (w: World)
    requires c.guard.Verbatim? && 0 < n && (1 < n ==> n <= c.limit)
    ensures Reachable(c, w) && Quiet(w)
    ensures |w.sockets| == n && |w.objs| == n && w.objs[0].name == Tick(0) && w.cached == n
    ensures forall k | k in w.sockets :: |k.text| < n
    ensures forall t | t in w.threads :: t < n
  {
    var before := Start();
    if n == 1 {
      assert Runs(c, before, []) && After(c, before, []) == before;
    } else {
      before := FillMap(c, n - 1);
    }
    GetMisses(c, before, n - 1, Tick(n - 1));
    w := Missed(c, before, n - 1, Tick(n - 1));
    assert w.sockets.Keys == before.sockets.Keys + {Tick(n - 1)};
    assert |w.sockets| == |w.sockets.Keys| && |before.sockets| == |before.sockets.Keys|;
  }

  ghost predicate OneOpenPerName(w: World) {
    forall i, j :: i in Opens(w) && j in Opens(w) && w.objs[i].name == w.objs[j].name ==> i == j
  }

  /** Fill the map, fetch one name more (evict empties the map), and fetch the first name again: it is opened twice. */
  lemma GuardAsWrittenOpensTwice(c: Config) returns (w: World)
    requires c.guard.Verbatim? && c.limit != 0
    ensures Reachable(c, w) && w.mu.None? && !OneOpenPerName(w)
  {
    hide Reachable;
    var n: nat := if c.limit > 0 then c.limit else 1;
    var w0 := FillMap(c, n);
    GetMisses(c, w0, n, Tick(n));
    var w1 := Missed(c, w0, n, Tick(n));
    assert w1.sockets.Keys == {Tick(n)};
    GetMisses(c, w1, n + 1, Tick(0));
    w := Missed(c, w1, n + 1, Tick(0));
    assert w.objs[0].name == w.objs[n + 1].name == Tick(0);
    assert 0 in Opens(w) && n + 1 in Opens(w);
  }

  /** After the eviction `m.cached` still counts the entries evict deleted: it exceeds the limit and the flags that are set. */
  lemma GuardAsWrittenMiscounts(c: Config) returns (w: World)
    requires c.guard.Verbatim? && c.limit != 0
    ensures Reachable(c, w) && w.mu.None? && Entries(w)
    ensures w.cached > |CachedKeys(w)| && w.cached > c.limit
  {
    hide Reachable;
    var n: nat := if c.limit > 0 then c.limit else 1;
    var w0 := FillMap(c, n);
    GetMisses(c, w0, n, Tick(n));
    w := Missed(c, w0, n, Tick(n));
    ReachableBase(c, w);
    assert w.sockets.Keys == {Tick(n)};
    SubsetSize(CachedKeys(w), {Tick(n)});
  }

  /** A full map of open entries: evict as written ends without having made room. */
  lemma GuardAsWrittenMakesNoRoom(c: Config) returns (w: World, t: Tid)
    requires c.guard.Verbatim? && c.limit > 0
    ensures Reachable(c, w) && t in w.threads && w.threads[t].Visit? && w.threads[t].todo == {} && w.cached == c.limit
  {
    hide Reachable;
    var w0 := FillMap(c, c.limit);
    t := c.limit;
    var name := Tick(t);
    ArriveMiss(c, w0, t, name);
    var w1 := At(New(w0.(mu := Some(t)), name), t, Storing(name, |w0.objs|));
    ReachableNext(c, w1, t, Go);
    var w2 := At(w1, t, Visit(name, |w0.objs|, w1.sockets.Keys));
    assert Next(c, w1, t, Go) == w2;
    EvictDropsOpen(c, w2, t);
    w := At(w2.(sockets := w2.sockets - w1.sockets.Keys), t, Visit(name, |w0.objs|, {}));
  }

  /** The exact condition for evict's room, for a positive limit. */
  lemma EvictMakesRoomIff(c: Config)
    requires c.limit > 0
    ensures (forall w, t | Reachable(c, w) && t in w.threads && w.threads[t].Visit? && w.threads[t].todo == {} :: w.cached <= c.limit - 1)
       <==> c.guard.Intended?
  {
    if c.guard.Intended? {
      forall w, t | Reachable(c, w) && t in w.threads && w.threads[t].Visit? && w.threads[t].todo == {} ensures w.cached <= c.limit - 1 {
        EvictMakesRoom(c, w, t);
      }
    } else {
      var w, t := GuardAsWrittenMakesNoRoom(c);
    }
  }

  /** The exact condition for the count: `m.cached` is the number of set flags between Gets if and only if the limit is 0 or the guard is the intended one. */
  lemma CountExactIff(c: Config)
    ensures (forall w | Reachable(c, w) && w.mu.None? :: Entries(w) && w.cached == |CachedKeys(w)|)
       <==> c.limit == 0 || c.guard.Intended?
  {
    if c.limit == 0 || c.guard.Intended? {
      forall w | Reachable(c, w) && w.mu.None? ensures Entries(w) && w.cached == |CachedKeys(w)| {
        CachedIsExact(c, w);
      }
    } else {
      var w := GuardAsWrittenMiscounts(c);
    }
  }

  /** And for a positive limit: the count stays within it if and only if the guard is the intended one. */
  lemma LimitKeptIff(c: Config)
    requires c.limit > 0
    ensures (forall w | Reachable(c, w) && w.mu.None? :: w.cached <= c.limit) <==> c.guard.Intended?
  {
    if c.guard.Intended? {
      forall w | Reachable(c, w) && w.mu.None? ensures w.cached <= c.limit {
        CachedIsExact(c, w);
      }
    } else {
      var w := GuardAsWrittenMiscounts(c);
    }
  }

  /** The exact condition: one open socket a name, in every state between Gets, if and only if the limit is 0 or the guard is the intended one. */
  lemma OneOpenPerNameIff(c: Config)
    ensures (forall w | Reachable(c, w) && w.mu.None? :: OneOpenPerName(w)) <==> c.limit == 0 || c.guard.Intended?
  {
    if c.limit == 0 || c.guard.Intended? {
      forall w | Reachable(c, w) && w.mu.None? ensures OneOpenPerName(w) {
        OneOpenSocketPerName(c, w);
      }
    } else {
      var w := GuardAsWrittenOpensTwice(c);
    }
  }
}
