/**
 * What the guard as written does to connections: evict drops open entries from the map with the
 * cache's reference still on them, so nobody is left to close them, and their number has no bound.
 */
module MachineLeak {
  import opened Basics
  import opened Shared
  import opened Machine
  import opened MachineInv
  import opened MachineSafety
  import opened MachineTidy
  import opened MachineGuard

  /** `n` Gets have each opened a connection of their own, and their handles are out. */
  ghost predicate Opened(w: World, n: nat) {
    && Quiet(w) && w.opens == n && w.dead == {} && |w.objs| == n
    && (forall t: Tid :: t in w.threads <==> t < n)
    && (forall i | 0 <= i < n :: w.threads[i] == Holding(i) && w.objs[i].st == Shared(1, true, Some(i)) && w.objs[i].smu.None?)
  }

  function Ticks(m: nat): (names: set<Name>)
    ensures |names| == m + 1 && forall k | k in names :: |k.text| <= m
  {
    if m == 0 then {Tick(0)} else
      assert Tick(m) !in Ticks(m - 1);
      Ticks(m - 1) + {Tick(m)}
  }

  /** Among m + 1 names there is one that a map of at most m entries lacks. */
  lemma AbsentTick(sockets: map<Name, Id>, m: nat) returns (name: Name)
    requires |sockets| <= m
    ensures name !in sockets && |name.text| <= m
  {
    assert |sockets.Keys| == |sockets|;
    if Ticks(m) <= sockets.Keys {
      SubsetSize(Ticks(m), sockets.Keys);
    }
    name :| name in Ticks(m) && name !in sockets;
  }

  lemma MissedSize(c: Config, w: World, name: Name, n: nat, m: nat)
    requires name !in w.sockets && |w.sockets| <= m && (!Full(c, w) ==> |w.sockets| < m) && m > 0
    ensures |Missed(c, w, n, name).sockets| <= m
    ensures !Full(c, w) ==> |Missed(c, w, n, name).sockets| == |w.sockets| + 1
  {
    OneEntryMore(if Full(c, w) then map[] else w.sockets, name, |w.objs|);
  }

  lemma MissedOpened(c: Config, w: World, name: Name, n: nat)
    requires Opened(w, n) && Quiet(Missed(c, w, n, name))
    ensures Opened(Missed(c, w, n, name), n + 1)
  {
    hide Full, Quiet;
  }

  lemma OneEntryMore(sockets: map<Name, Id>, name: Name, id: Id)
    requires name !in sockets
    ensures |sockets[name := id]| == |sockets| + 1
  {
    assert sockets[name := id].Keys == sockets.Keys + {name};
    assert |sockets[name := id]| == |sockets[name := id].Keys| && |sockets| == |sockets.Keys|;
  }

  lemma StartOpened(c: Config) returns (w: World)
    ensures w == Start() && Reachable(c, w) && Opened(w, 0)
  {
    w := Start();
    assert Runs(c, w, []) && After(c, w, []) == w;
  }

  lemma OpenedQuiet(w: World, n: nat)
    requires Opened(w, n)
    ensures Quiet(w) && n !in w.threads && |w.objs| == n
  {
  }

  /** Any number of Gets, over m + 1 names if evict ever runs, each opening a connection. */
  lemma {:induction false} OpenMany(c: Config, n: nat, m: nat) returns (w: World)
    requires c.guard.Verbatim? && m > 0 && (if c.limit == 0 then n <= m else c.limit <= m)
    ensures Reachable(c, w) && Opened(w, n) && |w.sockets| <= m && (c.limit == 0 ==> |w.sockets| <= n)
    ensures forall i | 0 <= i < n :: |w.objs[i].name.text| <= m
  {
    hide Reachable, Opened;
    if n == 0 {
      w := StartOpened(c);
    } else {
      var before := OpenMany(c, n - 1, m);
      OpenedQuiet(before, n - 1);
      var name := AbsentTick(before.sockets, m);
      GetMisses(c, before, n - 1, name);
      w := Missed(c, before, n - 1, name);
      MissedOpened(c, before, name, n - 1);
      MissedSize(c, before, name, n - 1, m);
    }
  }

  /** The first `k` of the handles have been given up again; the cache's reference keeps every connection. */
  ghost predicate Returned(w: World, was: World, n: nat, k: nat)
    requires |was.objs| == n
  {
    && w.mu.None? && w.panic.None? && w.opens == n && w.dead == {} && |w.objs| == n && w.sockets == was.sockets
    && (forall t: Tid :: t in w.threads <==> k <= t < n)
    && (forall t: Tid | k <= t < n :: w.threads[t] == Holding(t))
    && (forall i | 0 <= i < n ::
          && w.objs[i].st == Shared(if i < k then 0 else 1, true, Some(i))
          && w.objs[i].fmu.None? && w.objs[i].name == was.objs[i].name)
  }

  lemma ReturnOne(c: Config, w: World, was: World, n: nat, k: nat) returns (w': World)
    requires Reachable(c, w) && |was.objs| == n && Returned(w, was, n, k) && k < n
    ensures Reachable(c, w') && Returned(w', was, n, k + 1)
  {
    hide Reachable, Returned;
    CloseOne(c, w, was, n, k);
    ReachableNext(c, w, k, BeginClose);
    ReachableNext(c, MachineGuard.At(w, k, WantClose(k)), k, Go);
    w' := w.(threads := w.threads - {k}, objs := w.objs[k := Uncounted(w.objs[k])]);
    OneFewer(w, was, n, k);
  }

  function Uncounted(o: Object): Object {
    o.(st := Shared(0, true, o.st.conn))
  }

  lemma CloseOne(c: Config, w: World, was: World, n: nat, k: nat)
    requires |was.objs| == n && Returned(w, was, n, k) && k < n
    ensures Enabled(w, k, BeginClose) && Next(c, w, k, BeginClose) == MachineGuard.At(w, k, WantClose(k))
    ensures Enabled(MachineGuard.At(w, k, WantClose(k)), k, Go)
    ensures Next(c, MachineGuard.At(w, k, WantClose(k)), k, Go) == w.(threads := w.threads - {k}, objs := w.objs[k := Uncounted(w.objs[k])])
  {
    assert w.threads[k] == Holding(k) && w.objs[k].st.refs == 1;
    assert w.threads[k := WantClose(k)] - {k} == w.threads - {k};
  }

  lemma OneFewer(w: World, was: World, n: nat, k: nat)
    requires |was.objs| == n && Returned(w, was, n, k) && k < n
    ensures Returned(w.(threads := w.threads - {k}, objs := w.objs[k := Uncounted(w.objs[k])]), was, n, k + 1)
  {
  }

  lemma {:induction false} ReturnAll(c: Config, w: World, was: World, n: nat, k: nat) returns (w': World)
    requires Reachable(c, w) && |was.objs| == n && Returned(w, was, n, k) && k <= n
    ensures Reachable(c, w') && Returned(w', was, n, n)
    decreases n - k
  {
    if k == n {
      w' := w;
    } else {
      var next := ReturnOne(c, w, was, n, k);
      w' := ReturnAll(c, next, was, n, k + 1);
    }
  }

  /**
   * With the guard as written there are runs of any length after which every handle was closed, no
   * call is running, and every connection that was ever opened is still open. With a limit, a fixed
   * stock of names (one more than the limit) is enough for that, and the map holds no more than the limit.
   */
  lemma ConnectionsLeak(c: Config, n: nat) returns (w: World)
    requires c.guard.Verbatim?
    ensures Reachable(c, w) && w.mu.None? && w.threads == map[] && Referenced(w.objs) == {}
    ensures w.opens == n && w.dead == {}
    ensures c.limit != 0 ==>
      var m := if c.limit > 0 then c.limit else 1;
      |w.sockets| <= m && forall i | 0 <= i < |w.objs| :: |w.objs[i].name.text| <= m
  {
    hide Reachable;
    var m: nat := if c.limit > 0 then c.limit else if c.limit < 0 then 1 else n + 1;
    var was := OpenMany(c, n, m);
    w := ReturnAll(c, was, was, n, 0);
    assert w.threads.Keys == {};
  }

  /** The bound of ConnectionsBounded, for a positive limit: it holds if and only if the guard is the intended one. */
  lemma ConnectionsBoundedIff(c: Config)
    requires c.limit > 0
    ensures (forall w | Reachable(c, w) && w.mu.None? && NoneClosing(w) :: w.opens - |w.dead| <= c.limit + |Referenced(w.objs)|)
       <==> c.guard.Intended?
  {
    if c.guard.Intended? {
      forall w | Reachable(c, w) && w.mu.None? && NoneClosing(w) ensures w.opens - |w.dead| <= c.limit + |Referenced(w.objs)| {
        ConnectionsBounded(c, w);
      }
    } else {
      var w := ConnectionsLeak(c, c.limit + 1);
      assert NoneClosing(w);
    }
  }

  /** For any limit, no more connections than entries: if and only if the limit is 0 or the guard is the intended one. */
  lemma ConnectionsListedIff(c: Config)
    ensures (forall w | Reachable(c, w) && w.mu.None? && NoneClosing(w) :: w.opens - |w.dead| <= |w.sockets|)
       <==> c.limit == 0 || c.guard.Intended?
  {
    if c.limit == 0 || c.guard.Intended? {
      forall w | Reachable(c, w) && w.mu.None? && NoneClosing(w) ensures w.opens - |w.dead| <= |w.sockets| {
        ConnectionsListed(c, w);
      }
    } else {
      var w := ConnectionsLeak(c, if c.limit > 0 then c.limit + 1 else 2);
      assert NoneClosing(w);
    }
  }
}
