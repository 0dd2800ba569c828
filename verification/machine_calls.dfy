/**
 * Each call of the machine from beginning to end when no other thread steps in between, and each turn
 * of evict: the schedule of its steps and the exact state it ends in, in plain fields.
 */
module MachineCalls {
  import opened Basics
  import opened Shared
  import opened Machine
  import opened MachineInv
  import opened MachineSafety

  /** From `w`, these actions of thread `t` one after the other, each enabled in its turn, end in `w'`. */
  ghost predicate Alone(c: Config, w: World, t: Tid, acts: seq<Action>, w': World)
    decreases |acts|
  {
    if acts == [] then w == w'
    else Enabled(w, t, acts[0]) && Alone(c, Next(c, w, t, acts[0]), t, acts[1..], w')
  }

  lemma AloneNone(c: Config, w: World, t: Tid)
    ensures Alone(c, w, t, [], w)
  {
  }

  lemma AloneCons(c: Config, w: World, t: Tid, a: Action, w1: World, acts: seq<Action>, w': World)
    requires Enabled(w, t, a) && Next(c, w, t, a) == w1 && Alone(c, w1, t, acts, w')
    ensures Alone(c, w, t, [a] + acts, w')
  {
    assert ([a] + acts)[1..] == acts;
  }

  /** Such a call is a run like any other. */
  lemma {:induction false} AloneReaches(c: Config, w: World, t: Tid, acts: seq<Action>, w': World)
    requires Reachable(c, w) && Alone(c, w, t, acts, w')
    ensures Reachable(c, w')
    decreases |acts|
  {
    hide Reachable;
    if acts != [] {
      ReachableNext(c, w, t, acts[0]);
      AloneReaches(c, Next(c, w, t, acts[0]), t, acts[1..], w');
    }
  }

  function Put(w: World, t: Tid, pc: Pc): World {
    w.(threads := w.threads[t := pc])
  }

  function SetObject(w: World, id: Id, o: Object): World
    requires id < |w.objs|
  {
    w.(objs := w.objs[id := o])
  }

  // ---------- SendRawCmd ----------

  ghost predicate CanSend(w: World, t: Tid, id: Id) {
    && w.panic.None? && t in w.threads && w.threads[t] == Holding(id) && id < |w.objs|
    && w.objs[id].smu.None? && w.objs[id].st.conn.Some?
  }

  /** The state in which the request is under way. */
  lemma SendBegins(c: Config, w: World, t: Tid, id: Id) returns (w2: World)
    requires CanSend(w, t, id)
    ensures w2 == Put(SetObject(w, id, w.objs[id].(smu := Some(t))), t, Sending(id, true))
    ensures forall acts: seq<Action>, w': World :: Alone(c, w2, t, acts, w') ==> Alone(c, w, t, [BeginSend, Go] + acts, w')
  {
    hide Alone;
    var w1 := Put(w, t, WantSend(id, true));
    w2 := Put(SetObject(w, id, w.objs[id].(smu := Some(t))), t, Sending(id, true));
    assert w.threads[t := WantSend(id, true)][t := Sending(id, true)] == w.threads[t := Sending(id, true)];
    assert Next(c, w, t, BeginSend) == w1 && Next(c, w1, t, Go) == w2;
    forall acts: seq<Action>, w': World | Alone(c, w2, t, acts, w') ensures Alone(c, w, t, [BeginSend, Go] + acts, w') {
      AloneCons(c, w1, t, Go, w2, acts, w');
      AloneCons(c, w, t, BeginSend, w1, [Go] + acts, w');
      assert [BeginSend] + ([Go] + acts) == [BeginSend, Go] + acts;
    }
  }

  /** A request that spares its socket leaves everything as it was. */
  lemma SendSpares(c: Config, w: World, t: Tid, id: Id)
    requires CanSend(w, t, id)
    ensures Alone(c, w, t, [BeginSend, Go, SendOk], w)
  {
    hide Alone;
    var w2 := SendBegins(c, w, t, id);
    assert w2.threads[t := Holding(id)] == w.threads && w2.objs[id := w.objs[id]] == w.objs;
    AloneNone(c, w, t);
    AloneCons(c, w2, t, SendOk, w, [], w);
    assert [BeginSend, Go] + ([SendOk] + []) == [BeginSend, Go, SendOk];
  }

  lemma DeadIsClosed(c: Config, w: World, t: Tid, id: Id, w2: World, w3: World)
    requires CanSend(w, t, id)
    requires w2 == Put(SetObject(w, id, w.objs[id].(smu := Some(t))), t, Sending(id, true))
    requires var o := w.objs[id];
      w3 == Put(SetObject(w, id, o.(smu := Some(t), st := o.st.(conn := None))).(dead := w.dead + {o.st.conn.value}), t, Reopening(id, true))
    ensures Enabled(w2, t, SendDead) && Next(c, w2, t, SendDead) == w3
  {
    assert w2.threads[t := Reopening(id, true)] == w3.threads;
  }

  lemma SendDies(c: Config, w: World, t: Tid, id: Id) returns (w3: World)
    requires CanSend(w, t, id)
    ensures var o := w.objs[id];
      w3 == Put(SetObject(w, id, o.(smu := Some(t), st := o.st.(conn := None))).(dead := w.dead + {o.st.conn.value}), t, Reopening(id, true))
    ensures forall acts: seq<Action>, w': World :: Alone(c, w3, t, acts, w') ==> Alone(c, w, t, [BeginSend, Go, SendDead] + acts, w')
  {
    hide Alone;
    var o := w.objs[id];
    var w2 := SendBegins(c, w, t, id);
    w3 := Put(SetObject(w, id, o.(smu := Some(t), st := o.st.(conn := None))).(dead := w.dead + {o.st.conn.value}), t, Reopening(id, true));
    DeadIsClosed(c, w, t, id, w2, w3);
    forall acts: seq<Action>, w': World | Alone(c, w3, t, acts, w') ensures Alone(c, w, t, [BeginSend, Go, SendDead] + acts, w') {
      AloneCons(c, w2, t, SendDead, w3, acts, w');
      assert [BeginSend, Go] + ([SendDead] + acts) == [BeginSend, Go, SendDead] + acts;
    }
  }

  /** A dead socket is closed, reopened once, and asked once more: its connection is a new one, and the old one is closed. */
  lemma SendReconnects(c: Config, w: World, t: Tid, id: Id)
    requires CanSend(w, t, id)
    ensures var o := w.objs[id];
      Alone(c, w, t, [BeginSend, Go, SendDead, Opened, SendOk],
            SetObject(w, id, o.(st := o.st.(conn := Some(w.opens)))).(opens := w.opens + 1, dead := w.dead + {o.st.conn.value}))
  {
    hide Alone;
    var o := w.objs[id];
    var w3 := SendDies(c, w, t, id);
    var end := SetObject(w, id, o.(st := o.st.(conn := Some(w.opens)))).(opens := w.opens + 1, dead := w.dead + {o.st.conn.value});
    var w4 := Put(SetObject(end, id, end.objs[id].(smu := Some(t))), t, Resending(id, true));
    assert w3.threads[t := Resending(id, true)] == w4.threads && w4.threads[t := Holding(id)] == w.threads;
    assert Next(c, w3, t, Opened) == w4;
    assert w4.objs[id := end.objs[id]] == end.objs;
    AloneNone(c, end, t);
    AloneCons(c, w4, t, SendOk, end, [], end);
    AloneCons(c, w3, t, Opened, w4, [SendOk] + [], end);
    assert [BeginSend, Go, SendDead] + ([Opened] + ([SendOk] + [])) == [BeginSend, Go, SendDead, Opened, SendOk];
  }

  /** If it cannot be reopened, the call ends there, and the socket is broken. */
  lemma SendBreaks(c: Config, w: World, t: Tid, id: Id)
    requires CanSend(w, t, id)
    ensures var o := w.objs[id];
      Alone(c, w, t, [BeginSend, Go, SendDead, OpenFailed],
            SetObject(w, id, o.(st := o.st.(conn := None), broken := true)).(dead := w.dead + {o.st.conn.value}))
  {
    hide Alone;
    var o := w.objs[id];
    var w3 := SendDies(c, w, t, id);
    var end := SetObject(w, id, o.(st := o.st.(conn := None), broken := true)).(dead := w.dead + {o.st.conn.value});
    assert w3.threads[t := Holding(id)] == w.threads && w3.objs[id := end.objs[id]] == end.objs;
    AloneNone(c, end, t);
    AloneCons(c, w3, t, OpenFailed, end, [], end);
    assert [BeginSend, Go, SendDead] + ([OpenFailed] + []) == [BeginSend, Go, SendDead, OpenFailed];
  }

  // ---------- Close ----------

  ghost predicate CanClose(w: World, t: Tid, id: Id) {
    && w.panic.None? && t in w.threads && w.threads[t] == Holding(id) && id < |w.objs|
    && w.objs[id].fmu.None? && w.objs[id].smu.None? && w.objs[id].st.refs > 0
  }

  /** A Close that is not the last, or of a socket the cache holds, gives up one reference and no more. */
  lemma CloseKeeps(c: Config, w: World, t: Tid, id: Id)
    requires CanClose(w, t, id) && (w.objs[id].st.refs > 1 || w.objs[id].st.cached)
    ensures var o := w.objs[id];
      Alone(c, w, t, [BeginClose, Go], SetObject(w, id, o.(st := o.st.(refs := o.st.refs - 1))).(threads := w.threads - {t}))
  {
    hide Alone;
    var o := w.objs[id];
    var w1, end := Put(w, t, WantClose(id)), SetObject(w, id, o.(st := o.st.(refs := o.st.refs - 1))).(threads := w.threads - {t});
    assert w1.threads - {t} == end.threads;
    AloneNone(c, end, t);
    AloneCons(c, w1, t, Go, end, [], end);
    AloneCons(c, w, t, BeginClose, w1, [Go] + [], end);
    assert [BeginClose] + ([Go] + []) == [BeginClose, Go];
  }

  lemma CloseEmpties(c: Config, w: World, t: Tid, id: Id) returns (w2: World)
    requires CanClose(w, t, id) && w.objs[id].st.refs == 1 && !w.objs[id].st.cached
    ensures var o := w.objs[id];
      w2 == Put(SetObject(w, id, o.(st := Shared(0, false, o.st.conn), fmu := Some(t))), t, Closing(id))
    ensures forall acts: seq<Action>, w': World :: Alone(c, w2, t, acts, w') ==> Alone(c, w, t, [BeginClose, Go] + acts, w')
  {
    hide Alone;
    var o := w.objs[id];
    var w1 := Put(w, t, WantClose(id));
    w2 := Put(SetObject(w, id, o.(st := Shared(0, false, o.st.conn), fmu := Some(t))), t, Closing(id));
    assert w1.threads[t := Closing(id)] == w2.threads;
    assert Next(c, w1, t, Go) == w2;
    forall acts: seq<Action>, w': World | Alone(c, w2, t, acts, w') ensures Alone(c, w, t, [BeginClose, Go] + acts, w') {
      AloneCons(c, w1, t, Go, w2, acts, w');
      AloneCons(c, w, t, BeginClose, w1, [Go] + acts, w');
      assert [BeginClose] + ([Go] + acts) == [BeginClose, Go] + acts;
    }
  }

  /** The last Close of a socket the cache does not hold closes its connection. */
  lemma CloseReleases(c: Config, w: World, t: Tid, id: Id)
    requires CanClose(w, t, id) && w.objs[id].st.refs == 1 && !w.objs[id].st.cached && w.objs[id].st.conn.Some?
    ensures var o := w.objs[id];
      Alone(c, w, t, [BeginClose, Go, Go],
            SetObject(w, id, o.(st := Shared(0, false, None))).(threads := w.threads - {t}, dead := w.dead + {o.st.conn.value}))
  {
    hide Alone;
    var o := w.objs[id];
    var end := SetObject(w, id, o.(st := Shared(0, false, None))).(threads := w.threads - {t}, dead := w.dead + {o.st.conn.value});
    var w2 := CloseEmpties(c, w, t, id);
    assert w2.threads - {t} == end.threads && w2.objs[id := end.objs[id]] == end.objs;
    AloneNone(c, end, t);
    AloneCons(c, w2, t, Go, end, [], end);
    assert [BeginClose, Go] + ([Go] + []) == [BeginClose, Go, Go];
  }

  // ---------- Get ----------

  ghost predicate CanGet(w: World, t: Tid, name: Name) {
    && w.panic.None? && w.mu.None? && t !in w.threads
    && (name in w.sockets ==> w.sockets[name] < |w.objs| && w.objs[w.sockets[name]].fmu.None?)
  }

  /** The name's entry is there and not closed. */
  predicate Hits(w: World, name: Name) {
    name in w.sockets && w.sockets[name] < |w.objs| && (w.objs[w.sockets[name]].st.cached || w.objs[w.sockets[name]].st.refs > 0)
  }

  lemma GetLocks(c: Config, w: World, t: Tid, name: Name) returns (w2: World)
    requires CanGet(w, t, name)
    ensures w2 == Put(w.(mu := Some(t)), t, Lookup(name))
    ensures forall acts: seq<Action>, w': World :: Alone(c, w2, t, acts, w') ==> Alone(c, w, t, [BeginGet(name), Go] + acts, w')
  {
    hide Alone;
    var w1 := Put(w, t, WantMu(name));
    w2 := Put(w.(mu := Some(t)), t, Lookup(name));
    assert w1.threads[t := Lookup(name)] == w2.threads;
    assert Next(c, w, t, BeginGet(name)) == w1 && Next(c, w1, t, Go) == w2;
    forall acts: seq<Action>, w': World | Alone(c, w2, t, acts, w') ensures Alone(c, w, t, [BeginGet(name), Go] + acts, w') {
      AloneCons(c, w1, t, Go, w2, acts, w');
      AloneCons(c, w, t, BeginGet(name), w1, [Go] + acts, w');
      assert [BeginGet(name)] + ([Go] + acts) == [BeginGet(name), Go] + acts;
    }
  }

  /** The end of a Get, in the middle of `store`, whose socket is cached already. */
  lemma StoresCached(c: Config, w: World, t: Tid, name: Name, id: Id)
    requires w.panic.None? && t in w.threads && w.threads[t] == Recheck(name, id) && id < |w.objs| && w.objs[id].st.cached
    ensures Alone(c, w, t, [Go, Go], Put(w.(sockets := w.sockets[name := id], mu := None), t, Holding(id)))
  {
    hide Alone;
    var w1, end := Put(w, t, Inserting(name, id, false)), Put(w.(sockets := w.sockets[name := id], mu := None), t, Holding(id));
    assert w1.threads[t := Holding(id)] == end.threads;
    AloneNone(c, end, t);
    AloneCons(c, w1, t, Go, end, [], end);
    AloneCons(c, w, t, Go, w1, [Go] + [], end);
    assert [Go] + ([Go] + []) == [Go, Go];
  }

  /** The same for a socket the cache does not hold yet: it takes its reference, and counts it. */
  lemma StoresUncached(c: Config, w: World, t: Tid, name: Name, id: Id)
    requires w.panic.None? && t in w.threads && w.threads[t] == Recheck(name, id) && id < |w.objs|
    requires !w.objs[id].st.cached && w.objs[id].st.refs > 0 && w.objs[id].fmu.None?
    ensures var o := w.objs[id];
      Alone(c, w, t, [Go, Go, Go],
            Put(SetObject(w, id, o.(st := o.st.(cached := true))).(sockets := w.sockets[name := id], cached := w.cached + 1, mu := None), t, Holding(id)))
  {
    hide Alone;
    var o := w.objs[id];
    var w1 := Put(w, t, Caching(name, id));
    var w2 := Put(SetObject(w, id, o.(st := o.st.(cached := true))), t, Inserting(name, id, true));
    var end := Put(SetObject(w, id, o.(st := o.st.(cached := true))).(sockets := w.sockets[name := id], cached := w.cached + 1, mu := None), t, Holding(id));
    assert w1.threads[t := w2.threads[t]] == w2.threads && w2.threads[t := Holding(id)] == end.threads;
    assert Next(c, w1, t, Go) == w2;
    AloneNone(c, end, t);
    AloneCons(c, w2, t, Go, end, [], end);
    AloneCons(c, w1, t, Go, w2, [Go] + [], end);
    AloneCons(c, w, t, Go, w1, [Go] + ([Go] + []), end);
    assert [Go] + ([Go] + ([Go] + [])) == [Go, Go, Go];
  }

  /** Below the limit nothing is evicted. */
  lemma StoreBegins(c: Config, w: World, t: Tid, name: Name, id: Id) returns (w1: World)
    requires w.panic.None? && t in w.threads && w.threads[t] == Storing(name, id) && (c.limit == 0 || |w.sockets| < c.limit)
    ensures w1 == Put(w, t, Recheck(name, id))
    ensures forall acts: seq<Action>, w': World :: Alone(c, w1, t, acts, w') ==> Alone(c, w, t, [Go] + acts, w')
  {
    hide Alone;
    w1 := Put(w, t, Recheck(name, id));
    assert Next(c, w, t, Go) == w1;
    forall acts: seq<Action>, w': World | Alone(c, w1, t, acts, w') ensures Alone(c, w, t, [Go] + acts, w') {
      AloneCons(c, w, t, Go, w1, acts, w');
    }
  }

  /** At the limit evict begins, with every entry to visit. */
  lemma FullStoreEvicts(c: Config, w: World, t: Tid, name: Name, id: Id)
    requires w.panic.None? && t in w.threads && w.threads[t] == Storing(name, id) && c.limit != 0 && |w.sockets| >= c.limit
    ensures Alone(c, w, t, [Go], Put(w, t, Visit(name, id, w.sockets.Keys)))
  {
    hide Alone;
    var end := Put(w, t, Visit(name, id, w.sockets.Keys));
    AloneNone(c, end, t);
    AloneCons(c, w, t, Go, end, [], end);
    assert [Go] + [] == [Go];
  }

  lemma HitStores(c: Config, w: World, t: Tid, name: Name) returns (w4: World)
    requires CanGet(w, t, name) && Hits(w, name) && (c.limit == 0 || |w.sockets| < c.limit)
    ensures var id := w.sockets[name]; var o := w.objs[id];
      w4 == Put(SetObject(w, id, o.(st := o.st.(refs := o.st.refs + 1))).(mu := Some(t)), t, Recheck(name, id))
    ensures forall acts: seq<Action>, w': World :: Alone(c, w4, t, acts, w') ==> Alone(c, w, t, [BeginGet(name), Go, Go, Go] + acts, w')
  {
    hide Alone;
    var id := w.sockets[name];
    var o := w.objs[id];
    var w2 := GetLocks(c, w, t, name);
    var w3 := Put(SetObject(w, id, o.(st := o.st.(refs := o.st.refs + 1))).(mu := Some(t)), t, Storing(name, id));
    assert w2.threads[t := w3.threads[t]] == w3.threads;
    assert Next(c, w2, t, Go) == w3;
    w4 := StoreBegins(c, w3, t, name, id);
    assert w3.threads[t := Recheck(name, id)] == w.threads[t := Recheck(name, id)];
    forall acts: seq<Action>, w': World | Alone(c, w4, t, acts, w') ensures Alone(c, w, t, [BeginGet(name), Go, Go, Go] + acts, w') {
      AloneCons(c, w2, t, Go, w3, [Go] + acts, w');
      assert [BeginGet(name), Go] + ([Go] + ([Go] + acts)) == [BeginGet(name), Go, Go, Go] + acts;
    }
  }

  /** Get of a name whose entry is open and cached hands that socket out with one more reference. */
  lemma GetHits(c: Config, w: World, t: Tid, name: Name)
    requires CanGet(w, t, name) && Hits(w, name) && (c.limit == 0 || |w.sockets| < c.limit)
    requires w.objs[w.sockets[name]].st.cached
    ensures var id := w.sockets[name]; var o := w.objs[id];
      Alone(c, w, t, [BeginGet(name), Go, Go, Go, Go, Go],
            Put(SetObject(w, id, o.(st := o.st.(refs := o.st.refs + 1))), t, Holding(id)))
  {
    hide Alone;
    var id := w.sockets[name];
    var w4 := HitStores(c, w, t, name);
    assert w.sockets[name := id] == w.sockets;
    assert w4.threads[t := Holding(id)] == w.threads[t := Holding(id)];
    StoresCached(c, w4, t, name, id);
    assert [BeginGet(name), Go, Go, Go] + [Go, Go] == [BeginGet(name), Go, Go, Go, Go, Go];
  }

  lemma Recached(w: World, t: Tid, name: Name, id: Id, w4: World)
    requires t !in w.threads && w.mu.None? && name in w.sockets && w.sockets[name] == id < |w.objs|
    requires var o := w.objs[id]; w4 == Put(SetObject(w, id, o.(st := o.st.(refs := o.st.refs + 1))).(mu := Some(t)), t, Recheck(name, id))
    ensures var o, o4 := w.objs[id], w4.objs[id];
      Put(SetObject(w4, id, o4.(st := o4.st.(cached := true))).(sockets := w4.sockets[name := id], cached := w4.cached + 1, mu := None), t, Holding(id))
      == Put(SetObject(w, id, o.(st := Shared(o.st.refs + 1, true, o.st.conn))).(cached := w.cached + 1), t, Holding(id))
  {
    assert w.sockets[name := id] == w.sockets;
    assert w4.threads[t := Holding(id)] == w.threads[t := Holding(id)];
  }

  /** If evict had uncached it, it is cached again, and counted. */
  lemma GetRecaches(c: Config, w: World, t: Tid, name: Name)
    requires CanGet(w, t, name) && Hits(w, name) && (c.limit == 0 || |w.sockets| < c.limit)
    requires !w.objs[w.sockets[name]].st.cached
    ensures var id := w.sockets[name]; var o := w.objs[id];
      Alone(c, w, t, [BeginGet(name), Go, Go, Go, Go, Go, Go],
            Put(SetObject(w, id, o.(st := Shared(o.st.refs + 1, true, o.st.conn))).(cached := w.cached + 1), t, Holding(id)))
  {
    hide Alone;
    var id := w.sockets[name];
    var w4 := HitStores(c, w, t, name);
    Recached(w, t, name, id, w4);
    StoresUncached(c, w4, t, name, id);
    assert [BeginGet(name), Go, Go, Go] + [Go, Go, Go] == [BeginGet(name), Go, Go, Go, Go, Go, Go];
  }

  lemma MissOpens(c: Config, w: World, t: Tid, name: Name) returns (w3: World)
    requires CanGet(w, t, name) && !Hits(w, name)
    ensures w3 == Put(w.(mu := Some(t)), t, Opening(name))
    ensures forall acts: seq<Action>, w': World :: Alone(c, w3, t, acts, w') ==> Alone(c, w, t, [BeginGet(name), Go, Go] + acts, w')
  {
    hide Alone;
    var w2 := GetLocks(c, w, t, name);
    w3 := Put(w.(mu := Some(t)), t, Opening(name));
    assert w2.threads[t := Opening(name)] == w3.threads;
    assert Next(c, w2, t, Go) == w3;
    forall acts: seq<Action>, w': World | Alone(c, w3, t, acts, w') ensures Alone(c, w, t, [BeginGet(name), Go, Go] + acts, w') {
      AloneCons(c, w2, t, Go, w3, acts, w');
      assert [BeginGet(name), Go] + ([Go] + acts) == [BeginGet(name), Go, Go] + acts;
    }
  }

  /** Get that finds no open entry and cannot open the socket changes nothing. */
  lemma GetFails(c: Config, w: World, t: Tid, name: Name)
    requires CanGet(w, t, name) && !Hits(w, name)
    ensures Alone(c, w, t, [BeginGet(name), Go, Go, OpenFailed], w)
  {
    hide Alone;
    var w3 := MissOpens(c, w, t, name);
    assert w3.threads - {t} == w.threads;
    AloneNone(c, w, t);
    AloneCons(c, w3, t, OpenFailed, w, [], w);
    assert [BeginGet(name), Go, Go] + ([OpenFailed] + []) == [BeginGet(name), Go, Go, OpenFailed];
  }

  /** A new socket, connected and with one reference. */
  function Grown(w: World, name: Name): World {
    w.(objs := w.objs + [Object(name, Shared(1, false, Some(w.opens)), None, None, false)], opens := w.opens + 1)
  }

  lemma MissOpened(c: Config, w: World, t: Tid, name: Name) returns (w4: World)
    requires CanGet(w, t, name) && !Hits(w, name)
    ensures w4 == Put(Grown(w.(mu := Some(t)), name), t, Storing(name, |w.objs|))
    ensures forall acts: seq<Action>, w': World :: Alone(c, w4, t, acts, w') ==> Alone(c, w, t, [BeginGet(name), Go, Go, Opened] + acts, w')
  {
    hide Alone;
    var w3 := MissOpens(c, w, t, name);
    w4 := Put(Grown(w.(mu := Some(t)), name), t, Storing(name, |w.objs|));
    assert w3.threads[t := Storing(name, |w.objs|)] == w4.threads;
    assert Next(c, w3, t, Opened) == w4;
    forall acts: seq<Action>, w': World | Alone(c, w4, t, acts, w') ensures Alone(c, w, t, [BeginGet(name), Go, Go, Opened] + acts, w') {
      AloneCons(c, w3, t, Opened, w4, acts, w');
      assert [BeginGet(name), Go, Go] + ([Opened] + acts) == [BeginGet(name), Go, Go, Opened] + acts;
    }
  }

  lemma MissStores(c: Config, w: World, t: Tid, name: Name) returns (w5: World)
    requires CanGet(w, t, name) && !Hits(w, name) && (c.limit == 0 || |w.sockets| < c.limit)
    ensures w5 == Put(Grown(w.(mu := Some(t)), name), t, Recheck(name, |w.objs|))
    ensures forall acts: seq<Action>, w': World :: Alone(c, w5, t, acts, w') ==> Alone(c, w, t, [BeginGet(name), Go, Go, Opened, Go] + acts, w')
  {
    hide Alone;
    var w4 := MissOpened(c, w, t, name);
    w5 := StoreBegins(c, w4, t, name, |w.objs|);
    assert w4.threads[t := Recheck(name, |w.objs|)] == w.threads[t := Recheck(name, |w.objs|)];
    forall acts: seq<Action>, w': World | Alone(c, w5, t, acts, w') ensures Alone(c, w, t, [BeginGet(name), Go, Go, Opened, Go] + acts, w') {
      assert [BeginGet(name), Go, Go, Opened] + ([Go] + acts) == [BeginGet(name), Go, Go, Opened, Go] + acts;
    }
  }

  lemma StoredNew(w: World, t: Tid, name: Name, w5: World)
    requires t !in w.threads && w.mu.None? && w5 == Put(Grown(w.(mu := Some(t)), name), t, Recheck(name, |w.objs|))
    ensures var id := |w.objs|; var o := w5.objs[id];
      Put(SetObject(w5, id, o.(st := o.st.(cached := true))).(sockets := w5.sockets[name := id], cached := w5.cached + 1, mu := None), t, Holding(id))
      == Put(w.(objs := w.objs + [Object(name, Shared(1, true, Some(w.opens)), None, None, false)], opens := w.opens + 1,
                sockets := w.sockets[name := id], cached := w.cached + 1), t, Holding(id))
  {
    var id := |w.objs|;
    assert w5.threads[t := Holding(id)] == w.threads[t := Holding(id)];
    assert w5.objs[id := w5.objs[id].(st := w5.objs[id].st.(cached := true))]
        == w.objs + [Object(name, Shared(1, true, Some(w.opens)), None, None, false)];
  }

  /** Otherwise it opens one connection and hands out a new socket, cached, entered under its name and counted. */
  lemma GetOpens(c: Config, w: World, t: Tid, name: Name)
    requires CanGet(w, t, name) && !Hits(w, name) && (c.limit == 0 || |w.sockets| < c.limit)
    ensures Alone(c, w, t, [BeginGet(name), Go, Go, Opened, Go, Go, Go, Go],
                  Put(w.(objs := w.objs + [Object(name, Shared(1, true, Some(w.opens)), None, None, false)], opens := w.opens + 1,
                         sockets := w.sockets[name := |w.objs|], cached := w.cached + 1), t, Holding(|w.objs|)))
  {
    hide Alone;
    var id := |w.objs|;
    var w5 := MissStores(c, w, t, name);
    StoredNew(w, t, name, w5);
    StoresUncached(c, w5, t, name, id);
    assert [BeginGet(name), Go, Go, Opened, Go] + [Go, Go, Go] == [BeginGet(name), Go, Go, Opened, Go, Go, Go, Go];
  }

  // ---------- evict ----------

  ghost predicate CanVisit(w: World, t: Tid, k: Name) {
    && w.panic.None? && t in w.threads && w.threads[t].Visit? && k in w.threads[t].todo && k in w.sockets
    && w.sockets[k] < |w.objs| && w.objs[w.sockets[k]].fmu.None? && w.objs[w.sockets[k]].smu.None?
  }

  /** The thread has done with `k`. */
  function Visited(w: World, t: Tid, k: Name): World
    requires t in w.threads && w.threads[t].Visit?
  {
    var pc := w.threads[t];
    Put(w, t, Visit(pc.name, pc.id, pc.todo - {k}))
  }

  lemma PickFirst(c: Config, w: World, t: Tid, k: Name) returns (w1: World)
    requires CanVisit(w, t, k)
    ensures var pc := w.threads[t]; w1 == Put(w, t, Checking(pc.name, pc.id, pc.todo, k, w.sockets[k]))
    ensures forall acts: seq<Action>, w': World :: Alone(c, w1, t, acts, w') ==> Alone(c, w, t, [Pick(k)] + acts, w')
  {
    hide Alone;
    var pc := w.threads[t];
    w1 := Put(w, t, Checking(pc.name, pc.id, pc.todo, k, w.sockets[k]));
    assert Next(c, w, t, Pick(k)) == w1;
    forall acts: seq<Action>, w': World | Alone(c, w1, t, acts, w') ensures Alone(c, w, t, [Pick(k)] + acts, w') {
      AloneCons(c, w, t, Pick(k), w1, acts, w');
    }
  }

  /** What the first guard of evict says of an entry: as written it deletes the open ones, as intended the closed ones. */
  predicate Deletes(c: Config, w: World, k: Name)
    requires k in w.sockets && w.sockets[k] < |w.objs|
  {
    var st := w.objs[w.sockets[k]].st;
    if c.guard.Verbatim? then st.cached || st.refs > 0 else !st.cached && st.refs == 0
  }

  lemma TurnDeletes(c: Config, w: World, t: Tid, k: Name)
    requires CanVisit(w, t, k) && Deletes(c, w, k)
    ensures Alone(c, w, t, [Pick(k), Go], Visited(w.(sockets := w.sockets - {k}), t, k))
  {
    hide Alone;
    var w1 := PickFirst(c, w, t, k);
    var end := Visited(w.(sockets := w.sockets - {k}), t, k);
    assert w1.threads[t := end.threads[t]] == end.threads;
    AloneNone(c, end, t);
    AloneCons(c, w1, t, Go, end, [], end);
    assert [Pick(k)] + ([Go] + []) == [Pick(k), Go];
  }

  lemma TurnJudges(c: Config, w: World, t: Tid, k: Name) returns (w2: World)
    requires CanVisit(w, t, k) && !Deletes(c, w, k)
    ensures var pc := w.threads[t]; w2 == Put(w, t, Judged(pc.name, pc.id, pc.todo, k, w.sockets[k]))
    ensures forall acts: seq<Action>, w': World :: Alone(c, w2, t, acts, w') ==> Alone(c, w, t, [Pick(k), Go] + acts, w')
  {
    hide Alone;
    var pc := w.threads[t];
    var w1 := PickFirst(c, w, t, k);
    w2 := Put(w, t, Judged(pc.name, pc.id, pc.todo, k, w.sockets[k]));
    assert w1.threads[t := w2.threads[t]] == w2.threads;
    assert Next(c, w1, t, Go) == w2;
    forall acts: seq<Action>, w': World | Alone(c, w2, t, acts, w') ensures Alone(c, w, t, [Pick(k), Go] + acts, w') {
      AloneCons(c, w1, t, Go, w2, acts, w');
      assert [Pick(k)] + ([Go] + acts) == [Pick(k), Go] + acts;
    }
  }

  /** An entry is left alone if it is not cached, or if no more are cached than there may be. */
  lemma TurnSpares(c: Config, w: World, t: Tid, k: Name)
    requires CanVisit(w, t, k) && !Deletes(c, w, k)
    requires w.cached <= c.limit - 1 || !w.objs[w.sockets[k]].st.cached
    ensures Alone(c, w, t, [Pick(k), Go, Go], Visited(w, t, k))
  {
    hide Alone;
    var w2 := TurnJudges(c, w, t, k);
    var end := Visited(w, t, k);
    assert w2.threads[t := end.threads[t]] == end.threads;
    AloneNone(c, end, t);
    AloneCons(c, w2, t, Go, end, [], end);
    assert [Pick(k), Go] + ([Go] + []) == [Pick(k), Go, Go];
  }

  lemma TurnUncaches(c: Config, w: World, t: Tid, k: Name) returns (w3: World)
    requires CanVisit(w, t, k) && !Deletes(c, w, k)
    requires w.cached > c.limit - 1 && w.objs[w.sockets[k]].st.cached
    ensures var pc := w.threads[t]; w3 == Put(w.(cached := w.cached - 1), t, Uncaching(pc.name, pc.id, pc.todo, k, w.sockets[k]))
    ensures forall acts: seq<Action>, w': World :: Alone(c, w3, t, acts, w') ==> Alone(c, w, t, [Pick(k), Go, Go] + acts, w')
  {
    hide Alone;
    var pc := w.threads[t];
    var w2 := TurnJudges(c, w, t, k);
    w3 := Put(w.(cached := w.cached - 1), t, Uncaching(pc.name, pc.id, pc.todo, k, w.sockets[k]));
    assert w2.threads[t := w3.threads[t]] == w3.threads;
    assert Next(c, w2, t, Go) == w3;
    forall acts: seq<Action>, w': World | Alone(c, w3, t, acts, w') ensures Alone(c, w, t, [Pick(k), Go, Go] + acts, w') {
      AloneCons(c, w2, t, Go, w3, acts, w');
      assert [Pick(k), Go] + ([Go] + acts) == [Pick(k), Go, Go] + acts;
    }
  }

  /** Otherwise it is uncached: with handles out it stays in the map. */
  lemma TurnKeeps(c: Config, w: World, t: Tid, k: Name)
    requires CanVisit(w, t, k) && !Deletes(c, w, k)
    requires var st := w.objs[w.sockets[k]].st; w.cached > c.limit - 1 && st.cached && st.refs > 0
    ensures var v := w.sockets[k]; var o := w.objs[v];
      Alone(c, w, t, [Pick(k), Go, Go, Go],
            Visited(SetObject(w, v, o.(st := o.st.(cached := false))).(cached := w.cached - 1), t, k))
  {
    hide Alone;
    var v := w.sockets[k];
    var o := w.objs[v];
    var w3 := TurnUncaches(c, w, t, k);
    var end := Visited(SetObject(w, v, o.(st := o.st.(cached := false))).(cached := w.cached - 1), t, k);
    assert w3.threads[t := end.threads[t]] == end.threads;
    AloneNone(c, end, t);
    AloneCons(c, w3, t, Go, end, [], end);
    assert [Pick(k), Go, Go] + ([Go] + []) == [Pick(k), Go, Go, Go];
  }

  /** Without handles its connection is closed and it leaves the map. */
  lemma TurnReleases(c: Config, w: World, t: Tid, k: Name)
    requires CanVisit(w, t, k) && !Deletes(c, w, k)
    requires var st := w.objs[w.sockets[k]].st; w.cached > c.limit - 1 && st.cached && st.refs == 0 && st.conn.Some?
    ensures var v := w.sockets[k]; var o := w.objs[v];
      Alone(c, w, t, [Pick(k), Go, Go, Go, Go],
            Visited(SetObject(w, v, o.(st := Shared(0, false, None)))
                      .(cached := w.cached - 1, sockets := w.sockets - {k}, dead := w.dead + {o.st.conn.value}), t, k))
  {
    hide Alone;
    var v, pc := w.sockets[k], w.threads[t];
    var o := w.objs[v];
    var w3 := TurnUncaches(c, w, t, k);
    var end := Visited(SetObject(w, v, o.(st := Shared(0, false, None)))
                         .(cached := w.cached - 1, sockets := w.sockets - {k}, dead := w.dead + {o.st.conn.value}), t, k);
    var w4 := Put(SetObject(w3, v, o.(st := Shared(0, false, o.st.conn), fmu := Some(t))), t, Dropping(pc.name, pc.id, pc.todo, k, v));
    assert Next(c, w3, t, Go) == w4;
    assert w4.threads[t := end.threads[t]] == end.threads && w4.objs[v := end.objs[v]] == end.objs;
    AloneNone(c, end, t);
    AloneCons(c, w4, t, Go, end, [], end);
    AloneCons(c, w3, t, Go, w4, [Go] + [], end);
    assert [Pick(k), Go, Go] + ([Go] + ([Go] + [])) == [Pick(k), Go, Go, Go, Go];
  }

  /** With nothing left to visit evict is over and store goes on. */
  lemma EvictEnds(c: Config, w: World, t: Tid, name: Name, id: Id)
    requires w.panic.None? && t in w.threads && w.threads[t] == Visit(name, id, {})
    ensures Alone(c, w, t, [Go], Put(w, t, Recheck(name, id)))
  {
    hide Alone;
    var end := Put(w, t, Recheck(name, id));
    AloneNone(c, end, t);
    AloneCons(c, w, t, Go, end, [], end);
    assert [Go] + [] == [Go];
  }

  // ---------- locks ----------

  /** A step that needs a lock is taken only while the lock is free. */
  lemma LockedOut(w: World, t: Tid)
    requires t in w.threads && Wanted(w, w.threads[t]).Some? && Owner(w, Wanted(w, w.threads[t]).value).Some?
    ensures forall a: Action | Enabled(w, t, a) :: Begins(a)
  {
  }
}
