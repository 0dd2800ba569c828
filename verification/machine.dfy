/**
 * The socket manager under concurrency: an interleaving machine with one program counter a
 * thread. A step is one critical section of socket/manager.go, or the part of one that lies
 * between two lock operations; `Get` runs its sub-steps with `mu` held while `Close` and
 * `SendRawCmd` of other threads run between them.
 */
module Machine {
  import opened Basics
  import opened Shared

  /** The name of a control socket; a datatype of its own, since only equality matters. */
  datatype Name = Name(text: string)
  type Tid = nat
  type Id = nat

  /** How evict reads its first guard: as the code has it, or as the code evidently means it. */
  datatype Guard = Intended | Verbatim

  datatype Config = Config(limit: int, guard: Guard)

  /** One *sharedSocket. `broken` is history: a reconnect of this socket has failed. */
  datatype Object = Object(name: Name, st: Shared, fmu: Option<Tid>, smu: Option<Tid>, broken: bool)

  /**
   * Where a thread is. States from Lookup to Inserting run with `mu` held; Dropping and Closing
   * hold the victim's `fmu`; Sending, Reopening and Resending hold `smu`. A `held` send belongs to
   * the owner of a handle; any other is a stray call on the same object, racing with its owner.
   */
  datatype Pc =
    | WantMu(name: Name)
    | Lookup(name: Name)
    | Opening(name: Name)
    | Storing(name: Name, id: Id)
    | Visit(name: Name, id: Id, todo: set<Name>)
    | Checking(name: Name, id: Id, todo: set<Name>, k: Name, v: Id)
    | Judged(name: Name, id: Id, todo: set<Name>, k: Name, v: Id)
    | Uncaching(name: Name, id: Id, todo: set<Name>, k: Name, v: Id)
    | Dropping(name: Name, id: Id, todo: set<Name>, k: Name, v: Id)
    | Recheck(name: Name, id: Id)
    | Caching(name: Name, id: Id)
    | Inserting(name: Name, id: Id, counted: bool)
    | Holding(id: Id)
    | WantSend(id: Id, held: bool)
    | Sending(id: Id, held: bool)
    | Reopening(id: Id, held: bool)
    | Resending(id: Id, held: bool)
    | WantClose(id: Id)
    | Closing(id: Id)

  /** A Go panic, which ends the process: the one written in store, or a call through a nil Socket. */
  datatype Panic = ClosedInStore | NilSocket(id: Id, held: bool)

  /** `opens` counts connections ever opened and names the next one; `dead` are those closed again. */
  datatype World = World(mu: Option<Tid>, sockets: map<Name, Id>, cached: int, objs: seq<Object>,
                         threads: map<Tid, Pc>, opens: nat, dead: set<nat>, panic: Option<Panic>)

  datatype Action =
    | BeginGet(name: Name) | BeginSend | BeginStray(id: Id) | BeginClose
    | Go | Pick(k: Name) | Opened | OpenFailed | SendOk | SendDead

  datatype Event = Event(t: Tid, a: Action)

  function Start(): World {
    World(None, map[], 0, [], map[], 0, {}, None)
  }

  predicate Free(w: World, id: Id) {
    id < |w.objs| && w.objs[id].fmu.None?
  }

  predicate Idle(w: World, id: Id) {
    id < |w.objs| && w.objs[id].smu.None?
  }

  /** Whether thread `t` can take the step; a step that needs a lock waits until the lock is free. */
  predicate Enabled(w: World, t: Tid, a: Action) {
    && w.panic.None?
    && match a {
         case BeginGet(_) => t !in w.threads
         case BeginStray(id) => t !in w.threads && id < |w.objs|
         case BeginSend => t in w.threads && w.threads[t].Holding?
         case BeginClose => t in w.threads && w.threads[t].Holding?
         case Go => t in w.threads && CanGo(w, w.threads[t])
         case Pick(k) => t in w.threads && w.threads[t].Visit? && k in w.threads[t].todo && k in w.sockets
         case Opened => t in w.threads && OpenPending(w, w.threads[t])
         case OpenFailed => t in w.threads && OpenPending(w, w.threads[t])
         case SendOk => t in w.threads && (w.threads[t].Sending? || w.threads[t].Resending?) && w.threads[t].id < |w.objs|
         case SendDead => t in w.threads && w.threads[t].Sending? && w.threads[t].id < |w.objs|
       }
  }

  predicate OpenPending(w: World, pc: Pc) {
    pc.Opening? || (pc.Reopening? && pc.id < |w.objs|)
  }

  predicate CanGo(w: World, pc: Pc) {
    match pc
    case WantMu(_) => w.mu.None?
    case Lookup(name) => name in w.sockets ==> Free(w, w.sockets[name])
    case Storing(_, _) => true
    case Visit(_, _, todo) => todo == {}
    case Checking(_, _, _, _, v) => Free(w, v)
    case Judged(_, _, _, _, v) => v < |w.objs|
    case Uncaching(_, _, _, _, v) => Free(w, v)
    case Dropping(_, _, _, _, v) => Idle(w, v)
    case Recheck(_, id) => id < |w.objs|
    case Caching(_, id) => Free(w, id)
    case Inserting(_, _, _) => true
    case WantSend(id, _) => Idle(w, id)
    case WantClose(id) => Free(w, id)
    case Closing(id) => Idle(w, id)
    case _ => false
  }

  /** The object a step writes: none, one that exists, or the next one (`id == |objs|`). */
  datatype Write = Nowhere | At(id: Id, o: Object)

  /** What a step does: its globals in `g`, the thread's next program counter (None: it is done), and its write. */
  datatype Effect = Effect(g: World, pc: Option<Pc>, write: Write)

  function Apply(w: World, t: Tid, e: Effect): World {
    e.g.(threads := if e.pc.Some? then w.threads[t := e.pc.value] else w.threads - {t},
         objs := match e.write
                 case Nowhere => w.objs
                 case At(id, o) => if id < |w.objs| then w.objs[id := o] else w.objs + [o])
  }

  function Next(c: Config, w: World, t: Tid, a: Action): World
    requires Enabled(w, t, a)
  {
    Apply(w, t, Step(c, w, t, a))
  }

  function Goto(w: World, pc: Pc): Effect {
    Effect(w, Some(pc), Nowhere)
  }

  /** The process dies where it stands. */
  function Die(w: World, pc: Pc, p: Panic): Effect {
    Effect(w.(panic := Some(p)), Some(pc), Nowhere)
  }

  /** The return of SendRawCmd: `smu` is released and a handle owner is back where it was. */
  function EndSend(w: World, o: Object, id: Id, held: bool): Effect {
    Effect(w, if held then Some(Holding(id)) else None, At(id, o.(smu := None)))
  }

  /** `s := sh.s; sh.s = nil; s.Close()`, done with `smu` held. */
  function Disconnected(o: Object): Object {
    o.(st := o.st.(conn := None))
  }

  function Bury(w: World, o: Object): World
    requires o.st.conn.Some?
  {
    w.(dead := w.dead + {o.st.conn.value})
  }

  /** evict is needed before storing: `m.Limit != 0 && len(m.sockets) >= m.Limit`. */
  predicate Full(c: Config, w: World) {
    c.limit != 0 && |w.sockets| >= c.limit
  }

  /** The first branch of evict's loop: whether the entry is deleted outright. */
  predicate Drops(c: Config, s: Shared) {
    match c.guard
    case Intended => Closed(s)
    case Verbatim => !Closed(s)
  }

  function Step(c: Config, w: World, t: Tid, a: Action): Effect
    requires Enabled(w, t, a)
  {
    match a
    case BeginGet(name) => Goto(w, WantMu(name))
    case BeginStray(id) => Goto(w, WantSend(id, false))
    case BeginSend => Goto(w, WantSend(w.threads[t].id, true))
    case BeginClose => Goto(w, WantClose(w.threads[t].id))
    case Go => Proceed(c, w, t, w.threads[t])
    case Pick(k) =>
      var pc := w.threads[t];
      Goto(w, Checking(pc.name, pc.id, pc.todo, k, w.sockets[k]))
    case Opened =>
      var pc := w.threads[t];
      var w' := w.(opens := w.opens + 1);
      if pc.Opening?
      then Effect(w', Some(Storing(pc.name, |w.objs|)),
                  At(|w.objs|, Object(pc.name, Shared(1, false, Some(w.opens)), None, None, false)))
      else
        var o := w.objs[pc.id];
        Effect(w', Some(Resending(pc.id, pc.held)), At(pc.id, o.(st := o.st.(conn := Some(w.opens)))))
    case OpenFailed =>
      var pc := w.threads[t];
      if pc.Opening? then Effect(w.(mu := None), None, Nowhere)
      else EndSend(w, w.objs[pc.id].(broken := true), pc.id, pc.held)
    case SendOk =>
      var pc := w.threads[t];
      if w.objs[pc.id].st.conn.None? then Die(w, pc, NilSocket(pc.id, pc.held))
      else EndSend(w, w.objs[pc.id], pc.id, pc.held)
    case SendDead =>
      var pc := w.threads[t];
      var o := w.objs[pc.id];
      if o.st.conn.None? then Die(w, pc, NilSocket(pc.id, pc.held))
      else Effect(Bury(w, o), Some(Reopening(pc.id, pc.held)), At(pc.id, Disconnected(o)))
  }

  function Proceed(c: Config, w: World, t: Tid, pc: Pc): Effect
    requires CanGo(w, pc)
  {
    match pc
    case WantMu(name) => Goto(w.(mu := Some(t)), Lookup(name))
    case Lookup(name) =>
      if name in w.sockets && !Closed(w.objs[w.sockets[name]].st) then
        var id := w.sockets[name];
        var o := w.objs[id];
        Effect(w, Some(Storing(name, id)), At(id, o.(st := Inc(o.st))))
      else Goto(w, Opening(name))
    case Storing(name, id) => Goto(w, if Full(c, w) then Visit(name, id, w.sockets.Keys) else Recheck(name, id))
    case Visit(name, id, _) => Goto(w, Recheck(name, id))
    case Checking(name, id, todo, k, v) =>
      if Drops(c, w.objs[v].st)
      then Goto(w.(sockets := w.sockets - {k}), Visit(name, id, todo - {k}))
      else Goto(w, Judged(name, id, todo, k, v))
    case Judged(name, id, todo, k, v) =>
      if w.cached > c.limit - 1 && w.objs[v].st.cached
      then Goto(w.(cached := w.cached - 1), Uncaching(name, id, todo, k, v))
      else Goto(w, Visit(name, id, todo - {k}))
    case Uncaching(name, id, todo, k, v) =>
      var o := w.objs[v];
      var (st, verdict) := Uncache(o.st);
      if verdict.Release?
      then Effect(w, Some(Dropping(name, id, todo, k, v)), At(v, o.(st := st, fmu := Some(t))))
      else
        var w' := if verdict.AlreadyClosed? then w.(sockets := w.sockets - {k}) else w;
        Effect(w', Some(Visit(name, id, todo - {k})), At(v, o.(st := st)))
    case Dropping(name, id, todo, k, v) =>
      var o := w.objs[v];
      if o.st.conn.None? then Die(w, pc, NilSocket(v, true))
      else Effect(Bury(w, o).(sockets := w.sockets - {k}), Some(Visit(name, id, todo - {k})),
                  At(v, Disconnected(o).(fmu := None)))
    case Recheck(name, id) =>
      Goto(w, if w.objs[id].st.cached then Inserting(name, id, false) else Caching(name, id))
    case Caching(name, id) =>
      var o := w.objs[id];
      if Closed(o.st) then Die(w, pc, ClosedInStore)
      else Effect(w, Some(Inserting(name, id, true)), At(id, o.(st := Cache(o.st))))
    case Inserting(name, id, counted) =>
      Goto(w.(cached := w.cached + (if counted then 1 else 0), sockets := w.sockets[name := id], mu := None), Holding(id))
    case WantSend(id, held) =>
      Effect(w, Some(Sending(id, held)), At(id, w.objs[id].(smu := Some(t))))
    case WantClose(id) =>
      var o := w.objs[id];
      var (st, verdict) := Close(o.st);
      if verdict.Release? then Effect(w, Some(Closing(id)), At(id, o.(st := st, fmu := Some(t))))
      else Effect(w, None, At(id, o.(st := st)))
    case Closing(id) =>
      var o := w.objs[id];
      if o.st.conn.None? then Die(w, pc, NilSocket(id, true))
      else Effect(Bury(w, o), None, At(id, Disconnected(o).(fmu := None)))
  }

  /** A run: the events happen one after the other, each enabled when its turn comes. */
  predicate Runs(c: Config, w: World, es: seq<Event>)
    decreases |es|
  {
    es == [] || (Enabled(w, es[0].t, es[0].a) && Runs(c, Next(c, w, es[0].t, es[0].a), es[1..]))
  }

  function After(c: Config, w: World, es: seq<Event>): World
    requires Runs(c, w, es)
    decreases |es|
  {
    if es == [] then w else After(c, Next(c, w, es[0].t, es[0].a), es[1..])
  }
}
