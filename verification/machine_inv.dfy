/** What every step of the machine keeps, whatever the limit and whichever guard evict uses. */
module MachineInv {
  import opened Basics
  import opened Shared
  import opened Machine

  predicate HasMu(pc: Pc) {
    pc.Lookup? || pc.Opening? || pc.Storing? || pc.Visit? || pc.Checking? || pc.Judged? || pc.Uncaching? || pc.Dropping?
    || pc.Recheck? || pc.Caching? || pc.Inserting?
  }

  /** The socket whose `fmu` is held across the step to come. */
  function FmuOf(pc: Pc): Option<Id> {
    match pc
    case Dropping(_, _, _, _, v) => Some(v)
    case Closing(id) => Some(id)
    case _ => None
  }

  function SmuOf(pc: Pc): Option<Id> {
    match pc
    case Sending(id, _) => Some(id)
    case Reopening(id, _) => Some(id)
    case Resending(id, _) => Some(id)
    case _ => None
  }

  /** The socket this thread holds a counted reference to: a handle, or the one Get is about to hand out. */
  function RefOf(pc: Pc): Option<Id> {
    match pc
    case WantMu(_) => None
    case Lookup(_) => None
    case Opening(_) => None
    case WantSend(id, held) => if held then Some(id) else None
    case Sending(id, held) => if held then Some(id) else None
    case Reopening(id, held) => if held then Some(id) else None
    case Resending(id, held) => if held then Some(id) else None
    case Closing(_) => None
    case _ => Some(pc.id)
  }

  /** The threads that hold a counted reference to `id`. */
  function Holders(threads: map<Tid, Pc>, id: Id): set<Tid> {
    set t | t in threads && RefOf(threads[t]) == Some(id)
  }

  /** `mu` is held by exactly the thread whose program counter says so. */
  ghost predicate MuLock(w: World) {
    && (w.mu.Some? ==> w.mu.value in w.threads && HasMu(w.threads[w.mu.value]))
    && (forall t | t in w.threads && HasMu(w.threads[t]) :: w.mu == Some(t))
  }

  predicate OwnsFmu(w: World, t: Tid, i: Id) {
    t in w.threads && FmuOf(w.threads[t]) == Some(i)
  }

  predicate OwnsSmu(w: World, t: Tid, i: Id) {
    t in w.threads && SmuOf(w.threads[t]) == Some(i)
  }

  ghost predicate FmuLock(w: World) {
    forall t: Tid, i: Id {:trigger OwnsFmu(w, t, i)} | i < |w.objs| :: w.objs[i].fmu == Some(t) <==> OwnsFmu(w, t, i)
  }

  ghost predicate SmuLock(w: World) {
    forall t: Tid, i: Id {:trigger OwnsSmu(w, t, i)} | i < |w.objs| :: w.objs[i].smu == Some(t) <==> OwnsSmu(w, t, i)
  }

  /** Every lock is held by exactly the thread whose program counter says so. */
  ghost predicate Locks(w: World) {
    MuLock(w) && FmuLock(w) && SmuLock(w)
  }

  /** What a program counter knows about the state it runs in. */
  predicate Knows(w: World, pc: Pc) {
    && (!pc.WantMu? && !pc.Lookup? && !pc.Opening? ==> pc.id < |w.objs|)
    && (HasMu(pc) && !pc.Lookup? && !pc.Opening? ==> w.objs[pc.id].name == pc.name)
    && (pc.Visit? || pc.Checking? || pc.Judged? || pc.Uncaching? || pc.Dropping? ==> pc.todo <= w.sockets.Keys)
    && (pc.Checking? || pc.Judged? || pc.Uncaching? || pc.Dropping? ==>
          pc.k in pc.todo && w.sockets[pc.k] == pc.v && pc.v < |w.objs|)
    && (pc.Uncaching? ==> w.objs[pc.v].st.cached)
    && (pc.Dropping? ==> Closed(w.objs[pc.v].st))
    && (pc.Caching? ==> !w.objs[pc.id].st.cached)
    && (pc.Inserting? ==> w.objs[pc.id].st.cached)
    && (pc.Closing? ==> Closed(w.objs[pc.id].st))
    && (pc.Reopening? ==> w.objs[pc.id].st.conn.None?)
    && (pc.Resending? ==> w.objs[pc.id].st.conn.Some?)
  }

  /** Every entry of the map names an object of that name. */
  ghost predicate Entries(w: World) {
    forall k | k in w.sockets :: w.sockets[k] < |w.objs| && w.objs[w.sockets[k]].name == k
  }

  ghost predicate Typed(w: World) {
    && Entries(w)
    && (forall t | t in w.threads :: Knows(w, w.threads[t]))
  }

  /** Reference exactness: `refs` is the number of handles out, plus the one a running Get holds. */
  ghost predicate Refs(w: World) {
    forall i | 0 <= i < |w.objs| :: w.objs[i].st.refs == |Holders(w.threads, i)|
  }

  ghost predicate Base(w: World) {
    Locks(w) && Typed(w) && Refs(w) && Conns(w) && Gaps(w)
  }

  /** Live connections belong to one socket each, none of them was closed before, and all of them are counted. */
  ghost predicate Conns(w: World) {
    Owners(w) && w.opens == |w.dead| + |Connected(w.objs)|
  }

  ghost predicate Owners(w: World) {
    && (forall i | 0 <= i < |w.objs| && w.objs[i].st.conn.Some? ::
          w.objs[i].st.conn.value < w.opens && w.objs[i].st.conn.value !in w.dead)
    && (forall i, j | 0 <= i < j < |w.objs| && w.objs[i].st.conn.Some? :: w.objs[i].st.conn != w.objs[j].st.conn)
    && (forall n | n in w.dead :: n < w.opens)
  }

  /** A socket lacks its connection only when closed, broken or being reopened, and outlives its last reference only in its closer's hands. */
  predicate Gap(w: World, i: Id) {
    i < |w.objs| ==>
      && (w.objs[i].st.conn.None? ==> (Closed(w.objs[i].st) && w.objs[i].fmu.None?) || w.objs[i].broken || Repairing(w, i))
      && (w.objs[i].st.conn.Some? || Repairing(w, i) ==> !Closed(w.objs[i].st) || w.objs[i].fmu.Some?)
  }

  ghost predicate Gaps(w: World) {
    forall i: Id :: Gap(w, i)
  }

  predicate Repairing(w: World, i: Id)
    requires i < |w.objs|
  {
    w.objs[i].smu.Some? && w.objs[i].smu.value in w.threads && w.threads[w.objs[i].smu.value].Reopening?
  }

  function Connected(objs: seq<Object>): set<Id> {
    set i: Id | i < |objs| && objs[i].st.conn.Some?
  }

  // ---------- what one step does to the locks ----------

  predicate MovesMu(w: World, t: Tid, e: Effect) {
    if e.pc.Some? && HasMu(e.pc.value)
    then e.g.mu == Some(t) && (w.mu.None? || w.mu == Some(t))
    else e.g.mu == if w.mu == Some(t) then None else w.mu
  }

  function FmuAfter(e: Effect): Option<Id> {
    if e.pc.Some? then FmuOf(e.pc.value) else None
  }

  function SmuAfter(e: Effect): Option<Id> {
    if e.pc.Some? then SmuOf(e.pc.value) else None
  }

  function FmuBefore(w: World, t: Tid): Option<Id> {
    if t in w.threads then FmuOf(w.threads[t]) else None
  }

  function SmuBefore(w: World, t: Tid): Option<Id> {
    if t in w.threads then SmuOf(w.threads[t]) else None
  }

  /** A lock field changes only between free and held by `t`, as the new program counter says. */
  predicate MovesLock(t: Tid, was: Option<Tid>, now: Option<Tid>, had: bool, has: bool) {
    if has then now == Some(t) && (was.None? || was == Some(t))
    else now == if had then None else was
  }

  predicate Writes(e: Effect, id: Option<Id>) {
    id.Some? ==> e.write.At? && e.write.id == id.value
  }

  predicate MovesFmu(w: World, t: Tid, e: Effect) {
    && (FmuAfter(e) != FmuBefore(w, t) ==> Writes(e, FmuAfter(e)) && Writes(e, FmuBefore(w, t)))
    && (e.write.At? ==>
          var i, o := e.write.id, e.write.o;
          if i < |w.objs| then MovesLock(t, w.objs[i].fmu, o.fmu, FmuBefore(w, t) == Some(i), FmuAfter(e) == Some(i))
          else i == |w.objs| && o.fmu.None? && FmuAfter(e).None?)
  }

  predicate MovesSmu(w: World, t: Tid, e: Effect) {
    && (SmuAfter(e) != SmuBefore(w, t) ==> Writes(e, SmuAfter(e)) && Writes(e, SmuBefore(w, t)))
    && (e.write.At? ==>
          var i, o := e.write.id, e.write.o;
          if i < |w.objs| then MovesLock(t, w.objs[i].smu, o.smu, SmuBefore(w, t) == Some(i), SmuAfter(e) == Some(i))
          else i == |w.objs| && o.smu.None? && SmuAfter(e).None?)
  }

  /** What the invariants say of the thread that steps; one not begun yet knows and owns nothing. */
  ghost predicate Ready(w: World, t: Tid) {
    ReadyMu(w, t) && ReadyFmu(w, t) && ReadySmu(w, t) && ReadyRef(w, t)
  }

  predicate ReadyMu(w: World, t: Tid) {
    w.mu == Some(t) <==> t in w.threads && HasMu(w.threads[t])
  }

  predicate ReadyFmu(w: World, t: Tid) {
    var i := FmuBefore(w, t);
    i.Some? ==> i.value < |w.objs| && w.objs[i.value].fmu == Some(t)
  }

  predicate ReadySmu(w: World, t: Tid) {
    var i := SmuBefore(w, t);
    i.Some? ==> i.value < |w.objs| && w.objs[i.value].smu == Some(t)
  }

  ghost predicate ReadyRef(w: World, t: Tid) {
    t in w.threads ==>
      var pc := w.threads[t];
      && Knows(w, pc)
      && (pc.Lookup? || pc.Visit? ==> Entries(w))
      && (RefOf(pc).Some? ==> w.objs[RefOf(pc).value].st.refs > 0)
  }

  lemma BaseReady(w: World, t: Tid)
    requires Locks(w) && Typed(w) && Refs(w)
    ensures Ready(w, t)
  {
    if t in w.threads {
      if RefOf(w.threads[t]).Some? {
        assert t in Holders(w.threads, RefOf(w.threads[t]).value);
      }
      var pc := w.threads[t];
      assert FmuOf(pc).Some? ==> OwnsFmu(w, t, FmuOf(pc).value);
      assert SmuOf(pc).Some? ==> OwnsSmu(w, t, SmuOf(pc).value);
    }
  }

  lemma StepMovesMu(c: Config, w: World, t: Tid, a: Action)
    requires Enabled(w, t, a) && ReadyMu(w, t)
    ensures MovesMu(w, t, Step(c, w, t, a))
  {
  }

  lemma StepMovesFmu(c: Config, w: World, t: Tid, a: Action)
    requires Enabled(w, t, a) && ReadyFmu(w, t)
    ensures MovesFmu(w, t, Step(c, w, t, a))
  {
  }

  lemma StepMovesSmu(c: Config, w: World, t: Tid, a: Action)
    requires Enabled(w, t, a) && ReadySmu(w, t)
    ensures MovesSmu(w, t, Step(c, w, t, a))
  {
  }

  lemma MuApply(w: World, t: Tid, e: Effect)
    requires MuLock(w) && MovesMu(w, t, e)
    ensures MuLock(Apply(w, t, e))
  {
  }

  lemma FmuApply(w: World, t: Tid, e: Effect)
    requires FmuLock(w) && Typed(w) && MovesFmu(w, t, e)
    ensures FmuLock(Apply(w, t, e))
  {
    var w' := Apply(w, t, e);
    forall u: Tid, i: Id | i < |w'.objs| ensures w'.objs[i].fmu == Some(u) <==> OwnsFmu(w', u, i) {
      assert OwnsFmu(w, t, i) || !OwnsFmu(w, t, i);
      assert OwnsFmu(w, u, i) || !OwnsFmu(w, u, i);
      assert i == |w.objs| ==> !OwnsFmu(w, u, i);
    }
  }

  lemma SmuApply(w: World, t: Tid, e: Effect)
    requires SmuLock(w) && Typed(w) && MovesSmu(w, t, e)
    ensures SmuLock(Apply(w, t, e))
  {
    var w' := Apply(w, t, e);
    forall u: Tid, i: Id | i < |w'.objs| ensures w'.objs[i].smu == Some(u) <==> OwnsSmu(w', u, i) {
      assert OwnsSmu(w, t, i) || !OwnsSmu(w, t, i);
      assert OwnsSmu(w, u, i) || !OwnsSmu(w, u, i);
      assert i == |w.objs| ==> !OwnsSmu(w, u, i);
    }
  }

  // ---------- what one step leaves true for the other threads ----------

  /** Names are fixed, closed is absorbing, and only the holder of `mu` touches the map, `cached` or the object table. */
  predicate Respects(w: World, t: Tid, e: Effect) {
    && (e.g.sockets != w.sockets || e.g.cached != w.cached ==> w.mu == Some(t))
    && (e.write.At? ==>
          var i, o := e.write.id, e.write.o;
          if i < |w.objs| then
            var was := w.objs[i];
            && o.name == was.name
            && (Closed(was.st) ==> Closed(o.st))
            && (o.st.cached != was.st.cached ==> w.mu == Some(t))
            && (o.st.conn != was.st.conn ==> was.smu.None? || was.smu == Some(t))
            && (was.broken ==> o.broken)
          else i == |w.objs| && w.mu == Some(t))
  }

  ghost predicate KeepsMap(w: World, e: Effect) {
    forall k | k in e.g.sockets ::
      || (k in w.sockets && e.g.sockets[k] == w.sockets[k])
      || (e.g.sockets[k] < |w.objs| && w.objs[e.g.sockets[k]].name == k)
  }

  lemma StepRespects(c: Config, w: World, t: Tid, a: Action)
    requires Enabled(w, t, a) && ReadyMu(w, t) && ReadySmu(w, t) && ReadyRef(w, t)
    ensures Respects(w, t, Step(c, w, t, a))
  {
  }

  lemma StepKeepsMap(c: Config, w: World, t: Tid, a: Action)
    requires Enabled(w, t, a) && ReadyRef(w, t)
    ensures KeepsMap(w, Step(c, w, t, a))
  {
  }

  predicate Evicts(pc: Pc) {
    pc.Visit? || pc.Checking? || pc.Judged? || pc.Uncaching? || pc.Dropping?
  }

  lemma EvictKnows(c: Config, w: World, t: Tid)
    requires Enabled(w, t, Go) && ReadyRef(w, t) && Evicts(w.threads[t])
    ensures var w' := Next(c, w, t, Go); t in w'.threads ==> Knows(w', w'.threads[t])
  {
  }

  lemma GetKnows(c: Config, w: World, t: Tid)
    requires Enabled(w, t, Go) && ReadyRef(w, t) && HasMu(w.threads[t]) && !Evicts(w.threads[t])
    ensures var w' := Next(c, w, t, Go); t in w'.threads ==> Knows(w', w'.threads[t])
  {
  }

  lemma GoKnows(c: Config, w: World, t: Tid)
    requires Enabled(w, t, Go) && ReadyRef(w, t) && !HasMu(w.threads[t])
    ensures var w' := Next(c, w, t, Go); t in w'.threads ==> Knows(w', w'.threads[t])
  {
  }

  lemma OtherKnows(c: Config, w: World, t: Tid, a: Action)
    requires Enabled(w, t, a) && ReadyRef(w, t) && !a.Go?
    ensures var w' := Next(c, w, t, a); t in w'.threads ==> Knows(w', w'.threads[t])
  {
  }

  lemma StepKnows(c: Config, w: World, t: Tid, a: Action)
    requires Enabled(w, t, a) && ReadyRef(w, t)
    ensures var w' := Next(c, w, t, a); t in w'.threads ==> Knows(w', w'.threads[t])
  {
    if !a.Go? {
      OtherKnows(c, w, t, a);
    } else if Evicts(w.threads[t]) {
      EvictKnows(c, w, t);
    } else if HasMu(w.threads[t]) {
      GetKnows(c, w, t);
    } else {
      GoKnows(c, w, t);
    }
  }

  lemma KnowsApply(w: World, t: Tid, e: Effect, u: Tid)
    requires Locks(w) && Typed(w) && Respects(w, t, e) && u != t && u in w.threads
    ensures Knows(Apply(w, t, e), w.threads[u])
  {
    var pc := w.threads[u];
    assert Knows(w, pc);
    assert SmuOf(pc).Some? ==> OwnsSmu(w, u, SmuOf(pc).value);
  }

  lemma TypedNext(c: Config, w: World, t: Tid, a: Action)
    requires Locks(w) && Typed(w) && Refs(w) && Enabled(w, t, a)
    ensures Typed(Next(c, w, t, a))
  {
    hide Step, Refs;
    var e, w' := Step(c, w, t, a), Next(c, w, t, a);
    BaseReady(w, t);
    StepRespects(c, w, t, a);
    StepKeepsMap(c, w, t, a);
    StepKnows(c, w, t, a);
    forall u | u in w'.threads && u != t ensures Knows(w', w'.threads[u]) {
      KnowsApply(w, t, e, u);
    }
  }

  // ---------- references ----------

  function RefBefore(w: World, t: Tid): Option<Id> {
    if t in w.threads then RefOf(w.threads[t]) else None
  }

  function RefAfter(e: Effect): Option<Id> {
    if e.pc.Some? then RefOf(e.pc.value) else None
  }

  function One(b: bool): nat {
    if b then 1 else 0
  }

  /** `refs` moves with the reference the thread takes or gives up. */
  predicate MovesRef(w: World, t: Tid, e: Effect) {
    && (RefAfter(e) != RefBefore(w, t) ==> Writes(e, RefAfter(e)) && Writes(e, RefBefore(w, t)))
    && (e.write.At? ==>
          var i, o := e.write.id, e.write.o;
          if i < |w.objs|
          then o.st.refs == w.objs[i].st.refs - One(RefBefore(w, t) == Some(i)) + One(RefAfter(e) == Some(i))
          else i == |w.objs| && o.st.refs == One(RefAfter(e) == Some(i)))
  }

  lemma EvictMovesRef(c: Config, w: World, t: Tid)
    requires Enabled(w, t, Go) && ReadyRef(w, t) && Evicts(w.threads[t])
    ensures MovesRef(w, t, Step(c, w, t, Go))
  {
  }

  lemma GoMovesRef(c: Config, w: World, t: Tid)
    requires Enabled(w, t, Go) && ReadyRef(w, t) && !Evicts(w.threads[t])
    ensures MovesRef(w, t, Step(c, w, t, Go))
  {
  }

  lemma OtherMovesRef(c: Config, w: World, t: Tid, a: Action)
    requires Enabled(w, t, a) && ReadyRef(w, t) && !a.Go?
    ensures MovesRef(w, t, Step(c, w, t, a))
  {
  }

  lemma StepMovesRef(c: Config, w: World, t: Tid, a: Action)
    requires Enabled(w, t, a) && ReadyRef(w, t)
    ensures MovesRef(w, t, Step(c, w, t, a))
  {
    if !a.Go? {
      OtherMovesRef(c, w, t, a);
    } else if Evicts(w.threads[t]) {
      EvictMovesRef(c, w, t);
    } else {
      GoMovesRef(c, w, t);
    }
  }

  lemma SizeMove(was: set<Tid>, now: set<Tid>, t: Tid)
    requires was - {t} == now - {t}
    ensures |now| == |was| - One(t in was) + One(t in now)
  {
    assert was == if t in was then (was - {t}) + {t} else was - {t};
    assert now == if t in now then (now - {t}) + {t} else now - {t};
  }

  lemma HoldersApply(w: World, t: Tid, e: Effect, i: Id)
    ensures |Holders(Apply(w, t, e).threads, i)| ==
      |Holders(w.threads, i)| - One(RefBefore(w, t) == Some(i)) + One(RefAfter(e) == Some(i))
  {
    SizeMove(Holders(w.threads, i), Holders(Apply(w, t, e).threads, i), t);
  }

  lemma RefsApply(w: World, t: Tid, e: Effect)
    requires Typed(w) && Refs(w) && MovesRef(w, t, e)
    ensures Refs(Apply(w, t, e))
  {
    var w' := Apply(w, t, e);
    forall i | 0 <= i < |w'.objs| ensures w'.objs[i].st.refs == |Holders(w'.threads, i)| {
      HoldersApply(w, t, e, i);
      if i == |w.objs| {
        assert Holders(w.threads, i) == {};
      }
    }
  }

  // ---------- connections ----------

  /** A step leaves the connections alone, closes the one of its object, or gives its object a new one. */
  predicate MovesConn(w: World, t: Tid, e: Effect) {
    if e.write.Nowhere? then
      e.g.opens == w.opens && e.g.dead == w.dead && (t in w.threads ==> !w.threads[t].Reopening?)
    else
      var i, now := e.write.id, e.write.o.st.conn;
      var was := if i < |w.objs| then w.objs[i].st.conn else None;
      && i <= |w.objs|
      && (|| (now == was && e.g.opens == w.opens && e.g.dead == w.dead)
          || (was.Some? && now.None? && e.g.opens == w.opens && e.g.dead == w.dead + {was.value})
          || (was.None? && now == Some(w.opens) && e.g.opens == w.opens + 1 && e.g.dead == w.dead))
  }

  predicate Reopens(pc: Option<Pc>) {
    pc.Some? && pc.value.Reopening?
  }

  /** The object a step writes is connected, or the reason why it is not is the thread's own or was there before. */
  predicate MovesGap(w: World, t: Tid, e: Effect) {
    if e.write.Nowhere? then !Reopens(e.pc) else
      var i, o := e.write.id, e.write.o;
      && (t in w.threads && w.threads[t].Reopening? ==> w.threads[t].id == i)
      && (Reopens(e.pc) ==> e.pc.value.id == i)
      && (o.st.conn.None? ==>
            || (Closed(o.st) && o.fmu.None?) || o.broken || (Reopens(e.pc) && o.smu == Some(t))
            || (i < |w.objs| && w.objs[i].st.conn.None? && w.objs[i].smu == o.smu && o.smu != Some(t)
                && w.objs[i].broken == o.broken && (Closed(w.objs[i].st) && w.objs[i].fmu.None? ==> o.fmu.None?)))
      && (Closed(o.st) && o.fmu.None? ==>
            || (o.st.conn.None? && o.smu.None?)
            || (i < |w.objs| && Closed(w.objs[i].st) && w.objs[i].fmu.None? && !Reopens(e.pc) && o.st.conn == w.objs[i].st.conn))
  }

  lemma StepMovesConn(c: Config, w: World, t: Tid, a: Action)
    requires Enabled(w, t, a) && ReadyRef(w, t)
    ensures MovesConn(w, t, Step(c, w, t, a))
  {
  }

  lemma GoMovesGap(c: Config, w: World, t: Tid)
    requires Enabled(w, t, Go) && ReadyFmu(w, t) && ReadySmu(w, t) && ReadyRef(w, t)
    requires Step(c, w, t, Go).write.At? ==> Gap(w, Step(c, w, t, Go).write.id)
    ensures MovesGap(w, t, Step(c, w, t, Go))
  {
  }

  lemma StepMovesGap(c: Config, w: World, t: Tid, a: Action)
    requires Enabled(w, t, a) && ReadyFmu(w, t) && ReadySmu(w, t) && ReadyRef(w, t)
    requires Step(c, w, t, a).write.At? ==> Gap(w, Step(c, w, t, a).write.id)
    ensures MovesGap(w, t, Step(c, w, t, a))
  {
    if a.Go? {
      GoMovesGap(c, w, t);
    }
  }

  /** Live connections still belong to one socket each, and none of them was closed. */
  lemma OwnersApply(w: World, t: Tid, e: Effect)
    requires Conns(w) && MovesConn(w, t, e)
    ensures Owners(Apply(w, t, e))
  {
  }

  lemma CountApply(w: World, t: Tid, e: Effect)
    requires Conns(w) && MovesConn(w, t, e)
    ensures var w' := Apply(w, t, e); w'.opens == |w'.dead| + |Connected(w'.objs)|
  {
    if e.write.At? {
      SizeMove(Connected(w.objs), Connected(Apply(w, t, e).objs), e.write.id);
    }
  }

  lemma ConnsApply(w: World, t: Tid, e: Effect)
    requires Conns(w) && MovesConn(w, t, e)
    ensures Conns(Apply(w, t, e))
  {
    hide Owners, MovesConn, Apply, Connected;
    OwnersApply(w, t, e);
    CountApply(w, t, e);
  }

  lemma GapsApply(w: World, t: Tid, e: Effect)
    requires Locks(w) && Typed(w) && Gaps(w)
    requires Respects(w, t, e) && MovesConn(w, t, e) && MovesSmu(w, t, e) && MovesGap(w, t, e)
    ensures Gaps(Apply(w, t, e))
  {
    var w' := Apply(w, t, e);
    SmuApply(w, t, e);
    forall i: Id ensures Gap(w', i) {
      assert Gap(w, i);
      if i < |w.objs| && w.objs[i].smu.Some? {
        assert OwnsSmu(w, w.objs[i].smu.value, i);
      }
      if i < |w'.objs| && w'.objs[i].smu.Some? {
        assert OwnsSmu(w', w'.objs[i].smu.value, i);
      }
    }
  }

  /** Every step, from any state, under either guard and any limit, keeps the base invariant. */
  lemma BaseNext(c: Config, w: World, t: Tid, a: Action)
    requires Base(w) && Enabled(w, t, a)
    ensures Base(Next(c, w, t, a))
  {
    var e := Step(c, w, t, a);
    BaseReady(w, t);
    StepMovesMu(c, w, t, a);
    MuApply(w, t, e);
    StepMovesFmu(c, w, t, a);
    FmuApply(w, t, e);
    StepMovesSmu(c, w, t, a);
    SmuApply(w, t, e);
    TypedNext(c, w, t, a);
    StepMovesRef(c, w, t, a);
    RefsApply(w, t, e);
    StepMovesConn(c, w, t, a);
    ConnsApply(w, t, e);
    StepRespects(c, w, t, a);
    StepMovesGap(c, w, t, a);
    GapsApply(w, t, e);
  }

  lemma {:induction false} BaseRun(c: Config, w: World, es: seq<Event>)
    requires Base(w) && Runs(c, w, es)
    ensures Base(After(c, w, es))
    decreases |es|
  {
    if es != [] {
      BaseNext(c, w, es[0].t, es[0].a);
      BaseRun(c, Next(c, w, es[0].t, es[0].a), es[1..]);
    }
  }

  lemma BaseStart()
    ensures Base(Start())
  {
  }
}
