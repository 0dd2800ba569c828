/**
 * The cache proper: one open socket a name, every open socket in the map, `m.cached` exact and
 * within the limit. All of it holds with the intended guard; with the code's own guard it holds
 * when the limit is 0, where evict never runs.
 */
module MachineTidy {
  import opened Basics
  import opened Shared
  import opened Machine
  import opened MachineInv
  import opened MachineSafety

  predicate Careful(c: Config) {
    c.limit == 0 || c.guard.Intended?
  }

  function CachedIds(objs: seq<Object>): set<Id> {
    set i: Id | i < |objs| && objs[i].st.cached
  }

  /** The program counter of the thread that holds `mu`. */
  function Keeper(w: World): Option<Pc> {
    if w.mu.Some? && w.mu.value in w.threads then Some(w.threads[w.mu.value]) else None
  }

  /** Between uncache and its `m.cached--`, or cache and its `m.cached++`, the count is off by one. */
  function Owed(pc: Option<Pc>): nat {
    One(pc.Some? && (pc.value.Uncaching? || (pc.value.Inserting? && pc.value.counted)))
  }

  ghost predicate Counted(w: World) {
    w.cached + Owed(Keeper(w)) == |CachedIds(w.objs)|
  }

  predicate Listed(w: World, i: Id)
    requires i < |w.objs|
  {
    w.objs[i].name in w.sockets && w.sockets[w.objs[i].name] == i
  }

  /** A running Get has its socket in hand and is about to store it. */
  predicate InHand(pc: Option<Pc>, i: Id) {
    pc.Some? && HasMu(pc.value) && !pc.value.Lookup? && !pc.value.Opening? && pc.value.id == i
  }

  ghost predicate AllListed(w: World) {
    forall i: Id | i < |w.objs| && !Closed(w.objs[i].st) :: Listed(w, i) || InHand(Keeper(w), i)
  }

  /** What Get relies on: the entry it will overwrite is its own socket or a closed one; no limit, no eviction. */
  predicate Claims(c: Config, w: World, pc: Pc) {
    && (HasMu(pc) && !pc.Lookup? && pc.name in w.sockets && w.sockets[pc.name] < |w.objs| ==>
          Closed(w.objs[w.sockets[pc.name]].st) || (!pc.Opening? && w.sockets[pc.name] == pc.id))
    && (c.limit == 0 ==> !Evicts(pc))
  }

  lemma EvictClaims(c: Config, w: World, t: Tid)
    requires Enabled(w, t, Go) && ReadyRef(w, t) && Claims(c, w, w.threads[t]) && Evicts(w.threads[t])
    ensures var w' := Next(c, w, t, Go); t in w'.threads ==> Claims(c, w', w'.threads[t])
  {
  }

  lemma GetClaims(c: Config, w: World, t: Tid)
    requires Enabled(w, t, Go) && ReadyRef(w, t) && Claims(c, w, w.threads[t]) && HasMu(w.threads[t]) && !Evicts(w.threads[t])
    ensures var w' := Next(c, w, t, Go); t in w'.threads ==> Claims(c, w', w'.threads[t])
  {
  }

  lemma GoClaims(c: Config, w: World, t: Tid)
    requires Enabled(w, t, Go) && ReadyRef(w, t) && Claims(c, w, w.threads[t])
    ensures var w' := Next(c, w, t, Go); t in w'.threads ==> Claims(c, w', w'.threads[t])
  {
    hide Claims, Next;
    if Evicts(w.threads[t]) {
      EvictClaims(c, w, t);
    } else if HasMu(w.threads[t]) {
      GetClaims(c, w, t);
    } else {
      ClientClaims(c, w, t);
    }
  }

  lemma ClientClaims(c: Config, w: World, t: Tid)
    requires Enabled(w, t, Go) && ReadyRef(w, t) && !HasMu(w.threads[t])
    ensures var w' := Next(c, w, t, Go); t in w'.threads ==> Claims(c, w', w'.threads[t])
  {
  }

  lemma OtherClaims(c: Config, w: World, t: Tid, a: Action)
    requires Enabled(w, t, a) && ReadyRef(w, t) && (t in w.threads ==> Claims(c, w, w.threads[t])) && !a.Go?
    ensures var w' := Next(c, w, t, a); t in w'.threads ==> Claims(c, w', w'.threads[t])
  {
  }

  lemma StepClaims(c: Config, w: World, t: Tid, a: Action)
    requires Enabled(w, t, a) && ReadyRef(w, t) && (t in w.threads ==> Claims(c, w, w.threads[t]))
    ensures var w' := Next(c, w, t, a); t in w'.threads ==> Claims(c, w', w'.threads[t])
  {
    hide Claims, Next;
    if a.Go? {
      GoClaims(c, w, t);
    } else {
      OtherClaims(c, w, t, a);
    }
  }

  lemma ClaimsApply(c: Config, w: World, t: Tid, e: Effect, u: Tid)
    requires Locks(w) && Typed(w) && Respects(w, t, e) && u != t && u in w.threads && Claims(c, w, w.threads[u])
    ensures Claims(c, Apply(w, t, e), w.threads[u])
  {
  }

  // ---------- counting ----------

  predicate MovesCached(w: World, t: Tid, e: Effect) {
    var delta := e.g.cached + Owed(e.pc) - w.cached - Owed(if t in w.threads then Some(w.threads[t]) else None);
    if e.write.Nowhere? then delta == 0 else
      var i := e.write.id;
      i <= |w.objs| && delta == One(e.write.o.st.cached) - One(i < |w.objs| && w.objs[i].st.cached)
  }

  lemma EvictMovesCached(c: Config, w: World, t: Tid)
    requires Enabled(w, t, Go) && ReadyRef(w, t) && Evicts(w.threads[t])
    ensures MovesCached(w, t, Step(c, w, t, Go))
  {
  }

  lemma GoMovesCached(c: Config, w: World, t: Tid)
    requires Enabled(w, t, Go) && ReadyRef(w, t) && !Evicts(w.threads[t])
    ensures MovesCached(w, t, Step(c, w, t, Go))
  {
  }

  lemma OtherMovesCached(c: Config, w: World, t: Tid, a: Action)
    requires Enabled(w, t, a) && ReadyRef(w, t) && !a.Go?
    ensures MovesCached(w, t, Step(c, w, t, a))
  {
  }

  lemma StepMovesCached(c: Config, w: World, t: Tid, a: Action)
    requires Enabled(w, t, a) && ReadyRef(w, t)
    ensures MovesCached(w, t, Step(c, w, t, a))
  {
    hide MovesCached, Step;
    if !a.Go? {
      OtherMovesCached(c, w, t, a);
    } else if Evicts(w.threads[t]) {
      EvictMovesCached(c, w, t);
    } else {
      GoMovesCached(c, w, t);
    }
  }

  lemma CountedApply(w: World, t: Tid, e: Effect)
    requires MuLock(w) && MovesMu(w, t, e) && MovesCached(w, t, e) && Counted(w)
    ensures Counted(Apply(w, t, e))
  {
    var was, now := CachedIds(w.objs), CachedIds(Apply(w, t, e).objs);
    if e.write.At? {
      SizeMove(was, now, e.write.id);
    }
  }

  // ---------- listing ----------

  /** A step drops or overwrites only entries of sockets that are closed. */
  ghost predicate DropsClosed(w: World, t: Tid, e: Effect) {
    forall k | k in w.sockets && w.sockets[k] < |w.objs| ::
      (k in e.g.sockets && e.g.sockets[k] == w.sockets[k]) || Closed(w.objs[w.sockets[k]].st)
  }

  /** A running Get keeps its socket in hand until the socket is in the map; a new one is in hand at once. */
  predicate KeepsInHand(w: World, t: Tid, e: Effect) {
    && (e.write.At? && e.write.id == |w.objs| ==> InHand(e.pc, |w.objs|))
    && (t in w.threads && HasMu(w.threads[t]) && !w.threads[t].Lookup? && !w.threads[t].Opening? ==>
          var pc := w.threads[t];
          InHand(e.pc, pc.id) || (pc.name in e.g.sockets && e.g.sockets[pc.name] == pc.id))
  }

  lemma GoDropsClosed(c: Config, w: World, t: Tid)
    requires Enabled(w, t, Go) && ReadyRef(w, t) && Claims(c, w, w.threads[t]) && Careful(c)
    ensures DropsClosed(w, t, Step(c, w, t, Go))
  {
  }

  lemma StepDropsClosed(c: Config, w: World, t: Tid, a: Action)
    requires Enabled(w, t, a) && ReadyRef(w, t) && (t in w.threads ==> Claims(c, w, w.threads[t])) && Careful(c)
    ensures DropsClosed(w, t, Step(c, w, t, a))
  {
    if a.Go? {
      GoDropsClosed(c, w, t);
    }
  }

  lemma StepKeepsInHand(c: Config, w: World, t: Tid, a: Action)
    requires Enabled(w, t, a) && ReadyRef(w, t)
    ensures KeepsInHand(w, t, Step(c, w, t, a))
  {
  }

  lemma ListedApply(w: World, t: Tid, e: Effect)
    requires Locks(w) && Typed(w) && AllListed(w)
    requires MovesMu(w, t, e) && Respects(w, t, e) && DropsClosed(w, t, e) && KeepsInHand(w, t, e)
    ensures AllListed(Apply(w, t, e))
  {
    var w' := Apply(w, t, e);
    forall i: Id | i < |w'.objs| && !Closed(w'.objs[i].st) ensures Listed(w', i) || InHand(Keeper(w'), i) {
      if i < |w.objs| {
        assert !Closed(w.objs[i].st);
      }
    }
  }

  // ---------- the limit ----------

  predicate Roomy(c: Config, w: World) {
    w.cached <= c.limit - 1
  }

  /** Until it is stored, a socket that a running Get has in hand is cached only if it came from the map and is still there. */
  predicate Kept(w: World, pc: Pc) {
    HasMu(pc) && !pc.Lookup? && !pc.Opening? && !pc.Inserting? && pc.id < |w.objs| && w.objs[pc.id].st.cached ==> Listed(w, pc.id)
  }

  lemma EvictKept(c: Config, w: World, t: Tid)
    requires Enabled(w, t, Go) && ReadyRef(w, t) && Kept(w, w.threads[t]) && Claims(c, w, w.threads[t]) && Careful(c)
    requires Evicts(w.threads[t])
    ensures var w' := Next(c, w, t, Go); t in w'.threads ==> Kept(w', w'.threads[t])
  {
  }

  lemma GetKept(c: Config, w: World, t: Tid)
    requires Enabled(w, t, Go) && ReadyRef(w, t) && Kept(w, w.threads[t]) && Claims(c, w, w.threads[t]) && Careful(c)
    requires HasMu(w.threads[t]) && !Evicts(w.threads[t])
    ensures var w' := Next(c, w, t, Go); t in w'.threads ==> Kept(w', w'.threads[t])
  {
  }

  lemma ClientKept(c: Config, w: World, t: Tid)
    requires Enabled(w, t, Go) && !HasMu(w.threads[t])
    ensures var w' := Next(c, w, t, Go); t in w'.threads ==> Kept(w', w'.threads[t])
  {
  }

  lemma GoKept(c: Config, w: World, t: Tid)
    requires Enabled(w, t, Go) && ReadyRef(w, t) && Kept(w, w.threads[t]) && Claims(c, w, w.threads[t]) && Careful(c)
    ensures var w' := Next(c, w, t, Go); t in w'.threads ==> Kept(w', w'.threads[t])
  {
    hide Kept, Claims, Next;
    if Evicts(w.threads[t]) {
      EvictKept(c, w, t);
    } else if HasMu(w.threads[t]) {
      GetKept(c, w, t);
    } else {
      ClientKept(c, w, t);
    }
  }

  lemma OtherKept(c: Config, w: World, t: Tid, a: Action)
    requires Enabled(w, t, a) && ReadyRef(w, t) && (t in w.threads ==> Kept(w, w.threads[t])) && !a.Go?
    ensures var w' := Next(c, w, t, a); t in w'.threads ==> Kept(w', w'.threads[t])
  {
  }

  lemma StepKept(c: Config, w: World, t: Tid, a: Action)
    requires Enabled(w, t, a) && ReadyRef(w, t) && Careful(c)
    requires t in w.threads ==> Kept(w, w.threads[t]) && Claims(c, w, w.threads[t])
    ensures var w' := Next(c, w, t, a); t in w'.threads ==> Kept(w', w'.threads[t])
  {
    hide Kept, Claims, Next;
    if a.Go? {
      GoKept(c, w, t);
    } else {
      OtherKept(c, w, t, a);
    }
  }

  lemma KeptApply(w: World, t: Tid, e: Effect, u: Tid)
    requires Locks(w) && Typed(w) && Respects(w, t, e) && u != t && u in w.threads && Kept(w, w.threads[u])
    ensures Kept(Apply(w, t, e), w.threads[u])
  {
  }

  /** What Get knows about the limit where it stands; evict has judged the entries outside `todo`. */
  ghost predicate PcQuota(c: Config, w: World, pc: Pc) {
    && (Evicts(pc) ==> forall k | k in w.sockets && k !in pc.todo ::
          w.sockets[k] < |w.objs| && w.objs[w.sockets[k]].st.cached ==> Roomy(c, w))
    && (pc.Recheck? || pc.Caching? || (pc.Inserting? && pc.counted) ==> Roomy(c, w))
  }

  ghost predicate Quota(c: Config, w: World) {
    c.limit > 0 ==> w.cached <= c.limit && forall t | t in w.threads :: PcQuota(c, w, w.threads[t])
  }

  /** If evict is over, or was not needed, there is room for one more cached socket. */
  lemma RoomToStore(c: Config, w: World, t: Tid)
    requires Locks(w) && Typed(w) && Counted(w) && AllListed(w) && c.limit > 0 && t in w.threads
    requires PcQuota(c, w, w.threads[t]) && Kept(w, w.threads[t])
    ensures var pc := w.threads[t]; (pc.Visit? && pc.todo == {}) || (pc.Storing? && !Full(c, w)) ==> Roomy(c, w)
  {
    var pc := w.threads[t];
    if (pc.Visit? && pc.todo == {}) || (pc.Storing? && !Full(c, w)) {
      var ids := CachedIds(w.objs);
      forall i | i in ids ensures Listed(w, i) {
        assert !Closed(w.objs[i].st);
      }
      if pc.Storing? {
        InjectionSize(ids, w.sockets.Keys, i requires i in ids => w.objs[i].name);
      } else if ids != {} {
        var i :| i in ids;
        assert w.objs[i].name in w.sockets;
      }
    }
  }

  lemma EvictQuota(c: Config, w: World, t: Tid)
    requires Enabled(w, t, Go) && ReadyRef(w, t) && c.limit > 0 && w.cached <= c.limit && Evicts(w.threads[t])
    requires PcQuota(c, w, w.threads[t])
    requires w.threads[t].Visit? ==> Roomy(c, w)
    ensures var w' := Next(c, w, t, Go); w'.cached <= c.limit && (t in w'.threads ==> PcQuota(c, w', w'.threads[t]))
  {
  }

  lemma GoQuota(c: Config, w: World, t: Tid)
    requires Enabled(w, t, Go) && ReadyRef(w, t) && c.limit > 0 && w.cached <= c.limit && !Evicts(w.threads[t])
    requires PcQuota(c, w, w.threads[t])
    requires w.threads[t].Storing? && !Full(c, w) ==> Roomy(c, w)
    ensures var w' := Next(c, w, t, Go); w'.cached <= c.limit && (t in w'.threads ==> PcQuota(c, w', w'.threads[t]))
  {
  }

  lemma OtherQuota(c: Config, w: World, t: Tid, a: Action)
    requires Enabled(w, t, a) && ReadyRef(w, t) && w.cached <= c.limit && !a.Go?
    requires t in w.threads ==> PcQuota(c, w, w.threads[t])
    ensures var w' := Next(c, w, t, a); w'.cached <= c.limit && (t in w'.threads ==> PcQuota(c, w', w'.threads[t]))
  {
  }

  lemma QuotaApply(c: Config, w: World, t: Tid, e: Effect, u: Tid)
    requires Locks(w) && Typed(w) && Respects(w, t, e) && MovesMu(w, t, e) && u != t && u in w.threads
    requires PcQuota(c, w, w.threads[u])
    ensures PcQuota(c, Apply(w, t, e), w.threads[u])
  {
  }

  lemma QuotaNext(c: Config, w: World, t: Tid, a: Action)
    requires Base(w) && Counted(w) && AllListed(w) && Quota(c, w) && Enabled(w, t, a)
    requires t in w.threads ==> Kept(w, w.threads[t])
    ensures Quota(c, Next(c, w, t, a))
  {
    if c.limit > 0 {
      BaseReady(w, t);
      if !a.Go? {
        OtherQuota(c, w, t, a);
      } else {
        RoomToStore(c, w, t);
        if Evicts(w.threads[t]) {
          EvictQuota(c, w, t);
        } else {
          GoQuota(c, w, t);
        }
      }
      var e, w' := Step(c, w, t, a), Next(c, w, t, a);
      StepRespects(c, w, t, a);
      StepMovesMu(c, w, t, a);
      forall u | u in w'.threads && u != t ensures PcQuota(c, w', w'.threads[u]) {
        QuotaApply(c, w, t, e, u);
      }
    }
  }

  // ---------- whole runs ----------

  ghost predicate Tidy(c: Config, w: World) {
    && Counted(w)
    && (forall t | t in w.threads :: Claims(c, w, w.threads[t]))
    && (Careful(c) ==> AllListed(w) && Quota(c, w) && forall t | t in w.threads :: Kept(w, w.threads[t]))
  }

  lemma TidyNext(c: Config, w: World, t: Tid, a: Action)
    requires Base(w) && Tidy(c, w) && Enabled(w, t, a)
    ensures Tidy(c, Next(c, w, t, a))
  {
    var e, w' := Step(c, w, t, a), Next(c, w, t, a);
    BaseReady(w, t);
    StepMovesMu(c, w, t, a);
    StepMovesCached(c, w, t, a);
    CountedApply(w, t, e);
    StepRespects(c, w, t, a);
    StepClaims(c, w, t, a);
    forall u | u in w'.threads && u != t ensures Claims(c, w', w'.threads[u]) {
      ClaimsApply(c, w, t, e, u);
    }
    if Careful(c) {
      StepDropsClosed(c, w, t, a);
      StepKeepsInHand(c, w, t, a);
      ListedApply(w, t, e);
      QuotaNext(c, w, t, a);
      StepKept(c, w, t, a);
      forall u | u in w'.threads && u != t ensures Kept(w', w'.threads[u]) {
        KeptApply(w, t, e, u);
      }
    }
  }

  lemma {:induction false} TidyRun(c: Config, w: World, es: seq<Event>)
    requires Base(w) && Tidy(c, w) && Runs(c, w, es)
    ensures Base(After(c, w, es)) && Tidy(c, After(c, w, es))
    decreases |es|
  {
    if es != [] {
      BaseNext(c, w, es[0].t, es[0].a);
      TidyNext(c, w, es[0].t, es[0].a);
      TidyRun(c, Next(c, w, es[0].t, es[0].a), es[1..]);
    }
  }

  lemma ReachableTidy(c: Config, w: World)
    requires Reachable(c, w)
    ensures Base(w) && Tidy(c, w)
  {
    var es :| Runs(c, Start(), es) && After(c, Start(), es) == w;
    BaseStart();
    TidyRun(c, Start(), es);
  }

  function Opens(w: World): set<Id> {
    set i: Id | i < |w.objs| && !Closed(w.objs[i].st)
  }

  function CachedKeys(w: World): set<Name>
    requires Entries(w)
  {
    set k | k in w.sockets && w.objs[w.sockets[k]].st.cached
  }

  /**
   * Between calls of Get, under every interleaving: every open shared socket is the map's entry for
   * its own name, so no name has two.
   */
  lemma OneOpenSocketPerName(c: Config, w: World)
    requires Reachable(c, w) && Careful(c) && w.mu.None?
    ensures forall i :: i in Opens(w) ==> Listed(w, i)
    ensures forall i, j :: i in Opens(w) && j in Opens(w) && w.objs[i].name == w.objs[j].name ==> i == j
  {
    ReachableTidy(c, w);
  }

  /**
   * Between calls of Get `m.cached` is the number of map entries whose `cached` flag is set, and it
   * stays within a positive limit whatever order evict visits the map in.
   */
  lemma CachedIsExact(c: Config, w: World)
    requires Reachable(c, w) && Careful(c) && w.mu.None?
    ensures Entries(w) && w.cached == |CachedKeys(w)|
    ensures c.limit > 0 ==> w.cached <= c.limit
  {
    ReachableTidy(c, w);
    forall i | i in CachedIds(w.objs) ensures w.objs[i].name in CachedKeys(w) {
      assert Listed(w, i);
    }
    forall k | k in CachedKeys(w) ensures w.sockets[k] in CachedIds(w.objs) {
    }
    ImageSize(CachedKeys(w), CachedIds(w.objs), k requires k in w.sockets => w.sockets[k]);
  }

  /** The key step: when evict is done there is room for the socket being stored, even if evict uncached that very one. */
  lemma EvictMakesRoom(c: Config, w: World, t: Tid)
    requires Reachable(c, w) && Careful(c) && c.limit > 0
    requires t in w.threads && w.threads[t].Visit? && w.threads[t].todo == {}
    ensures w.cached <= c.limit - 1
  {
    ReachableTidy(c, w);
    RoomToStore(c, w, t);
  }

  function Referenced(objs: seq<Object>): set<Id> {
    set i: Id | i < |objs| && objs[i].st.refs > 0
  }

  /** No Close or evict is between giving up the last reference and closing the connection. */
  predicate NoneClosing(w: World) {
    forall t | t in w.threads :: FmuOf(w.threads[t]).None?
  }

  lemma FmuOwner(w: World, i: Id)
    requires Base(w) && i < |w.objs| && w.objs[i].fmu.Some?
    ensures OwnsFmu(w, w.objs[i].fmu.value, i)
  {
  }

  /** A connected socket is open, and so is the map's entry for its name. */
  lemma ConnectedIsListed(c: Config, w: World, i: Id)
    requires Careful(c) && Base(w) && Tidy(c, w) && w.mu.None? && NoneClosing(w) && i in Connected(w.objs)
    ensures !Closed(w.objs[i].st) && Listed(w, i)
  {
    assert Gap(w, i);
    if w.objs[i].fmu.Some? {
      FmuOwner(w, i);
    }
  }

  /** Every open connection belongs to an entry of the map, so there are no more of them than names in it. */
  lemma ConnectionsListed(c: Config, w: World)
    requires Reachable(c, w) && Careful(c) && w.mu.None? && NoneClosing(w)
    ensures w.opens - |w.dead| <= |w.sockets|
  {
    ReachableTidy(c, w);
    forall i | i in Connected(w.objs) ensures Listed(w, i) {
      ConnectedIsListed(c, w, i);
    }
    InjectionSize(Connected(w.objs), w.sockets.Keys, i requires i in Connected(w.objs) => w.objs[i].name);
    assert |w.sockets.Keys| == |w.sockets|;
  }

  /** Open connections are bounded by the limit plus the sockets that have handles out. */
  lemma ConnectionsBounded(c: Config, w: World)
    requires Reachable(c, w) && Careful(c) && c.limit > 0 && w.mu.None? && NoneClosing(w)
    ensures w.opens - |w.dead| <= c.limit + |Referenced(w.objs)|
  {
    ReachableTidy(c, w);
    var live, cached, refd := Connected(w.objs), CachedIds(w.objs), Referenced(w.objs);
    forall i | i in live ensures i in cached + refd {
      ConnectedIsListed(c, w, i);
    }
    SubsetSize(live, cached + refd);
    assert |cached + refd| == |cached| + |refd| - |cached * refd|;
  }
}
