/**
 * socket/manager.go as it is written: objects updated in place, one call at a time. Each method is
 * tied to the functions of module Shared, which are the atomic steps of the interleaving machine.
 */
module ManagerClass {
  import opened Basics
  import S = Shared
  import opened Machine

  /** The operating system's side of Open and Close: connections are numbered, and closed at most once each. */
  class Kernel {
    var opens: nat
    var dead: set<nat>

    constructor ()
      ensures opens == 0 && dead == {}
    {
      opens, dead := 0, {};
    }

    method Open(ok: bool) returns (conn: Option<nat>)
      modifies this`opens
      ensures conn == if ok then Some(old(opens)) else None
      ensures opens == old(opens) + if ok then 1 else 0
    {
      conn := if ok then Some(opens) else None;
      opens := opens + if ok then 1 else 0;
    }

    method Close(conn: nat)
      modifies this`dead
      ensures dead == old(dead) + {conn}
    {
      dead := dead + {conn};
    }
  }

  /** How an underlying request ends: an answer or an error that spares the socket, or an error that means it is dead. */
  datatype SendResult = Fine(reply: string) | Failed(error: string) | Dead(error: string)

  /** What a caller sees; `NilCall` is the panic of a call through a nil Socket. */
  datatype Outcome = Reply(reply: string) | Error(error: string) | NilCall

  class SharedSocket<K> {
    const name: K
    var refs: nat
    var cached: bool
    var s: Option<nat>

    function View(): S.Shared
      reads this
    {
      S.Shared(refs, cached, s)
    }

    /** `openShared`, once Open has succeeded. */
    constructor (name: K, conn: nat)
      ensures this.name == name && View() == S.Shared(1, false, Some(conn))
    {
      this.name := name;
      refs, cached, s := 1, false, Some(conn);
    }

    method Inc() returns (closed: bool)
      modifies this`refs
      ensures closed == S.Closed(old(View())) && View() == S.Inc(old(View()))
      ensures closed == (!cached && old(refs) == 0) && refs == old(refs) + if closed then 0 else 1
    {
      closed := false;
      if !cached && refs == 0 {
        closed := true;
      } else {
        refs := refs + 1;
      }
    }

    method Cache() returns (closed: bool)
      modifies this`cached
      ensures closed == S.Closed(old(View())) && View() == S.Cache(old(View()))
      ensures closed == (!old(cached) && refs == 0) && cached == !closed
    {
      closed := !cached && refs == 0;
      if !closed {
        cached := true;
      }
    }

    /** Despite its name it answers whether the socket is closed. */
    method IsOpen() returns (r: bool)
      ensures r == S.Closed(View()) == (!cached && refs == 0)
    {
      r := !cached && refs == 0;
    }

    /** Clears `s` and closes the connection; on a broken socket, whose `s` is nil, the call panics. */
    method Release(kernel: Kernel) returns (panicked: bool)
      modifies this`s, kernel`dead
      ensures s == None && panicked == old(s).None?
      ensures kernel.dead == old(kernel.dead) + if old(s).Some? then {old(s).value} else {}
    {
      var conn := s;
      s := None;
      panicked := conn.None?;
      if conn.Some? {
        kernel.Close(conn.value);
      }
    }

    method Uncache(kernel: Kernel) returns (closed: bool, panicked: bool)
      modifies this, kernel`dead
      ensures var (st, verdict) := S.Uncache(old(View()));
        && View() == (if verdict.Release? then st.(conn := None) else st)
        && closed == !verdict.Kept?
        && panicked == (verdict.Release? && old(s).None?)
        && kernel.dead == old(kernel.dead) + if verdict.Release? && old(s).Some? then {old(s).value} else {}
      ensures refs == old(refs) && !cached && closed == (refs == 0)
      ensures s == if old(cached) && refs == 0 then None else old(s)
      ensures panicked == (old(cached) && refs == 0 && old(s).None?)
    {
      panicked := false;
      if !cached {
        return refs == 0, false;
      }
      cached := false;
      closed := refs == 0;
      if closed {
        panicked := Release(kernel);
      }
    }

    method Close(kernel: Kernel) returns (ok: bool, panicked: bool)
      modifies this, kernel`dead
      ensures var (st, verdict) := S.Close(old(View()));
        && View() == (if verdict.Release? then st.(conn := None) else st)
        && ok == !verdict.AlreadyClosed?
        && panicked == (verdict.Release? && old(s).None?)
        && kernel.dead == old(kernel.dead) + if verdict.Release? && old(s).Some? then {old(s).value} else {}
      ensures ok == (old(refs) > 0) && cached == old(cached) && refs == old(refs) - if ok then 1 else 0
      ensures s == if old(refs) == 1 && !cached then None else old(s)
      ensures panicked == (old(refs) == 1 && !cached && old(s).None?)
    {
      panicked := false;
      if refs == 0 {
        return false, false;
      }
      ok := true;
      refs := refs - 1;
      if refs == 0 && !cached {
        panicked := Release(kernel);
      }
    }

    /**
     * One request, with one reconnect if the first attempt finds the socket dead. `first` and
     * `second` are what the underlying requests return, `reopens` whether Open succeeds in between,
     * and `openError` its error if it does not.
     */
    method SendRawCmd(kernel: Kernel, first: SendResult, reopens: bool, openError: string, second: SendResult) returns (r: Outcome)
      modifies this`s, kernel
      ensures old(s).None? ==> r == NilCall && s == None && kernel.dead == old(kernel.dead) && kernel.opens == old(kernel.opens)
      ensures old(s).Some? && !first.Dead? ==>
        && s == old(s) && kernel.dead == old(kernel.dead) && kernel.opens == old(kernel.opens)
        && (first.Fine? ==> r == Reply(first.reply))
        && (first.Failed? ==> r == Error(first.error))
      ensures old(s).Some? && first.Dead? ==>
        && kernel.dead == old(kernel.dead) + {old(s).value}
        && s == (if reopens then Some(old(kernel.opens)) else None)
        && kernel.opens == old(kernel.opens) + (if reopens then 1 else 0)
        && (!reopens ==> r == Error(openError))
        && (reopens && second.Fine? ==> r == Reply(second.reply))
        && (reopens && !second.Fine? ==> r == Error(second.error))
    {
      if s.None? {
        return NilCall;
      }
      r := Answer(first);
      if first.Dead? {
        kernel.Close(s.value);
        s := None;
        s := kernel.Open(reopens);
        if s.None? {
          return Error(openError);
        }
        r := Answer(second);
      }
    }
  }

  function Answer(r: SendResult): Outcome {
    match r
    case Fine(reply) => Reply(reply)
    case Failed(error) => Error(error)
    case Dead(error) => Error(error)
  }

  class Manager<K(==)> {
    const limit: int
    const guard: Guard
    var sockets: map<K, SharedSocket<K>>
    var cached: int

    constructor (limit: int, guard: Guard)
      ensures this.limit == limit && this.guard == guard && sockets == map[] && cached == 0 && Valid() && Exact()
    {
      this.limit, this.guard := limit, guard;
      sockets, cached := map[], 0;
    }

    ghost predicate Valid()
      reads this
    {
      forall k :: k in sockets ==> sockets[k].name == k
    }

    ghost function CachedKeys(): set<K>
      reads this, sockets.Values
    {
      set k | k in sockets && sockets[k].cached
    }

    /** `m.cached` is the number of entries whose flag is set. */
    ghost predicate Exact()
      reads this, sockets.Values
    {
      cached == |CachedKeys()|
    }

    /** What uncaching leaves of a socket: without other holders it is closed and its connection gone. */
    static ghost function Uncached(was: S.Shared): S.Shared {
      if was.refs == 0 then S.Shared(0, false, None) else was.(cached := false)
    }

    /** Uncaching released the socket's connection. */
    static ghost predicate Frees(was: S.Shared, now: S.Shared) {
      was.cached && was.refs == 0 && was.conn.Some? && !now.cached
    }

    static ghost function Freed(was: S.Shared, now: S.Shared): set<nat> {
      if Frees(was, now) then {was.conn.value} else {}
    }

    /** The connections closed on the way from `was` to `now` are those that uncaching released, and no others. */
    static ghost predicate Accounts(dead: set<nat>, before: set<nat>, was: map<K, S.Shared>, now: map<K, S.Shared>)
      requires was.Keys == now.Keys
    {
      dead == before + set k | k in was && Frees(was[k], now[k]) :: was[k].conn.value
    }

    /** The state of these sockets, listed or not. */
    static ghost function ViewsOf(entries: map<K, SharedSocket<K>>): (views: map<K, S.Shared>)
      reads entries.Values
      ensures views.Keys == entries.Keys
    {
      map k | k in entries :: entries[k].View()
    }

    static lemma AccountsOne(dead: set<nat>, before: set<nat>, was: map<K, S.Shared>, now: map<K, S.Shared>, k: K, v: S.Shared)
      requires was.Keys == now.Keys && k in was && now[k] == was[k] && Accounts(dead, before, was, now)
      ensures Accounts(dead + Freed(was[k], v), before, was, now[k := v])
    {
      var freed := set j | j in was && Frees(was[j], now[j]) :: was[j].conn.value;
      var freed' := set j | j in was && Frees(was[j], now[k := v][j]) :: was[j].conn.value;
      forall n | n in freed ensures n in freed' {
        var j :| j in was && Frees(was[j], now[j]) && was[j].conn.value == n;
        assert Frees(was[j], now[k := v][j]);
      }
      forall n | n in Freed(was[k], v) ensures n in freed' {
        assert Frees(was[k], now[k := v][k]);
      }
    }

    /** Sockets that are referenced or end up cached free nothing, whatever else changed about them. */
    static lemma AccountsSame(dead: set<nat>, before: set<nat>, was: map<K, S.Shared>, now: map<K, S.Shared>,
                              was': map<K, S.Shared>, now': map<K, S.Shared>)
      requires was.Keys == now.Keys == was'.Keys == now'.Keys && Accounts(dead, before, was, now)
      requires forall k | k in was :: Frees(was[k], now[k]) == Frees(was'[k], now'[k]) && was[k].conn == was'[k].conn
      ensures Accounts(dead, before, was', now')
    {
    }

    /** The second branch of evict's loop: uncache an entry when more than `limit - need` are cached. */
    method Shrink(k: K, need: int, kernel: Kernel) returns (panicked: bool)
      requires Valid() && k in sockets
      modifies this, kernel`dead, sockets[k]
      ensures var o, was := old(sockets[k]), old(sockets[k].View());
        if old(cached) > limit - need && was.cached then
          && cached == old(cached) - 1 && o.View() == Uncached(was)
          && panicked == (was.refs == 0 && was.conn.None?)
          && sockets == old(sockets) - (if was.refs == 0 && !panicked then {k} else {})
        else
          !panicked && cached == old(cached) && o.View() == was && sockets == old(sockets)
      ensures kernel.dead == old(kernel.dead) + Freed(old(sockets[k].View()), old(sockets[k]).View())
      ensures old(Exact()) ==> Exact()
    {
      panicked := false;
      var sock := sockets[k];
      ghost var flags := Flags();
      FlagsMean();
      if cached > limit - need && sock.cached {
        cached := cached - 1;
        var closed;
        closed, panicked := sock.Uncache(kernel);
        if closed && !panicked {
          sockets := sockets - {k};
        }
        OneFlagLess(flags, k);
      }
    }

    /** The flags of the entries. */
    ghost function Flags(): map<K, bool>
      reads this, sockets.Values
    {
      map k | k in sockets :: sockets[k].cached
    }

    /** Clearing one flag, and perhaps deleting its entry, makes one fewer of the flags that are set. */
    lemma OneFlagLess(was: map<K, bool>, k: K)
      requires k in was && was[k] && (k in sockets ==> !sockets[k].cached)
      requires forall j :: j in sockets && j != k ==> j in was && sockets[j].cached == was[j]
      requires forall j :: j in was && j != k ==> j in sockets
      ensures |CachedKeys()| == |Raised(was)| - 1
    {
      assert CachedKeys() == Raised(was) - {k};
    }

    static ghost function Raised(flags: map<K, bool>): set<K> {
      set j | j in flags && flags[j]
    }

    lemma FlagsMean()
      ensures CachedKeys() == Raised(Flags())
    {
    }

    /** One turn of evict's loop. `asWritten` is the code's guard, which deletes what is open; the other deletes what is closed. */
    method Visit(k: K, need: int, kernel: Kernel, asWritten: bool) returns (panicked: bool)
      requires Valid() && k in sockets
      modifies this, kernel`dead, sockets[k]
      ensures sockets == old(sockets) || sockets == old(sockets) - {k}
      ensures asWritten ==>
        && !panicked && cached == old(cached) && kernel.dead == old(kernel.dead)
        && old(sockets[k]).View() == old(sockets[k].View())
        && (k in sockets <==> S.Closed(old(sockets[k].View())))
      ensures !asWritten ==>
        && Spared(old(sockets[k].View()), old(sockets[k]).View())
        && kernel.dead == old(kernel.dead) + Freed(old(sockets[k].View()), old(sockets[k]).View())
        && (!panicked ==> (k in sockets <==> !S.Closed(old(sockets[k]).View())))
        && (panicked ==> old(sockets[k].View()) == S.Shared(0, true, None))
        && (old(Exact()) ==> Exact())
        && (old(sockets[k]).cached ==> cached <= limit - need)
        && (cached == old(cached) || cached == old(cached) - 1 >= limit - need)
    {
      panicked := false;
      ghost var before := CachedKeys();
      var closed := sockets[k].IsOpen();
      if closed != asWritten {
        sockets := sockets - {k};
        assert closed ==> CachedKeys() == before;
      } else {
        panicked := Shrink(k, need, kernel);
      }
    }

    static ghost predicate Spared(was: S.Shared, now: S.Shared) {
      now == was || (was.cached && now == Uncached(was))
    }

    /**
     * What making room does to an entry. Nothing unless the map was full. If it was, the guard as written
     * deletes the entries that are open and changes no socket; the intended one deletes those that are
     * closed, and may have uncached the socket.
     */
    static ghost predicate Settled(was: S.Shared, now: S.Shared, full: bool, guard: Guard, listed: bool) {
      if !full then now == was && listed
      else match guard
        case Verbatim => now == was && (listed <==> S.Closed(was))
        case Intended => Spared(was, now) && (listed <==> !S.Closed(now))
    }

    /** So it is for all entries, save those in `but`. */
    static ghost predicate Arranged(was: map<K, S.Shared>, now: map<K, S.Shared>, listed: set<K>, full: bool, guard: Guard, but: set<K>)
      requires was.Keys == now.Keys
    {
      forall k :: k in was && k !in but ==> Settled(was[k], now[k], full, guard, k in listed)
    }

    /** How far evict is with an entry: not visited yet, or done. */
    static ghost predicate Handled(was: S.Shared, now: S.Shared, pending: bool, guard: Guard, listed: bool) {
      if pending then now == was && listed else Settled(was, now, true, guard, listed)
    }

    /** Where evict stands: `entries` and `was` are the map and its sockets before, `todo` the keys ahead. */
    ghost predicate Sweep(entries: map<K, SharedSocket<K>>, was: map<K, S.Shared>, todo: set<K>)
      reads this, entries.Values
    {
      && todo <= entries.Keys == was.Keys
      && (forall k :: k in entries ==> entries[k].name == k)
      && (forall k :: k in sockets ==> k in entries && sockets[k] == entries[k])
      && (forall k :: k in entries ==> Handled(was[k], entries[k].View(), k in todo, guard, k in sockets))
    }

    /** How far the count is: the guard as written leaves it; otherwise what is left cached fits, or the count was never above. */
    ghost predicate Trimmed(start: int, need: int, todo: set<K>)
      reads this, sockets.Values
    {
      match guard
      case Verbatim => cached == start
      case Intended =>
        && cached <= start && (cached == start || cached >= limit - need)
        && forall k :: k in sockets && k !in todo && sockets[k].cached ==> cached <= limit - need
    }

    /** One turn of evict's loop. */
    method Turn(k: K, need: int, kernel: Kernel, ghost entries: map<K, SharedSocket<K>>, ghost was: map<K, S.Shared>,
                ghost todo: set<K>, ghost start: int)
      returns (panicked: bool)
      requires Sweep(entries, was, todo) && k in todo && Trimmed(start, need, todo)
      modifies this, kernel`dead, sockets.Values
      ensures !panicked ==> Sweep(entries, was, todo - {k}) && Trimmed(start, need, todo - {k})
      ensures forall k' :: k' in entries && k' != k ==> entries[k'].View() == old(entries[k'].View())
      ensures kernel.dead == old(kernel.dead) + Freed(was[k], entries[k].View())
      ensures sockets.Values <= entries.Values
      ensures panicked ==> guard.Intended? && was[k] == S.Shared(0, true, None)
      ensures guard.Intended? && old(Exact()) ==> Exact()
      ensures guard.Verbatim? ==> kernel.dead == old(kernel.dead)
      ensures forall k :: k in sockets ==> k in old(sockets) && sockets[k] == old(sockets)[k]
    {
      hide Spared, Uncached;
      assert Handled(was[k], entries[k].View(), true, guard, k in sockets);
      assert forall k' | k' in entries && k' != k :: entries[k'] != entries[k];
      panicked := Visit(k, need, kernel, guard.Verbatim?);
    }

    /**
     * evict, for every order in which the map yields its keys. With the guard as written it deletes
     * exactly the open entries and changes no socket, no count and no connection. As intended it
     * deletes exactly the closed ones, uncaches only while more than `limit - need` are cached, brings
     * the count down to that, and keeps it exact; the connections it closes are those it uncached last.
     */
    method Evict(need: int, kernel: Kernel) returns (panicked: bool)
      requires Valid()
      modifies this, kernel`dead, sockets.Values
      ensures forall k :: k in sockets ==> k in old(sockets) && sockets[k] == old(sockets)[k]
      ensures !panicked ==> Arranged(old(ViewsOf(sockets)), ViewsOf(old(sockets)), sockets.Keys, true, guard, {})
      ensures Accounts(kernel.dead, old(kernel.dead), old(ViewsOf(sockets)), ViewsOf(old(sockets)))
      ensures guard.Verbatim? ==> !panicked && cached == old(cached) && kernel.dead == old(kernel.dead)
      ensures guard.Intended? && old(Exact()) ==> Exact()
      ensures guard.Intended? && !panicked && old(Exact()) && limit >= need ==>
        cached == if old(cached) > limit - need then limit - need else old(cached)
      ensures panicked ==> S.Shared(0, true, None) in old(ViewsOf(sockets)).Values
    {
      hide Exact, Settled, Handled, Accounts, ViewsOf, Sweep, Trimmed, Valid, Freed;
      ghost var entries, was, start, exact := sockets, ViewsOf(sockets), cached, Exact();
      EvictStarts(need);
      NothingFreed(kernel.dead, was);
      panicked := false;
      var todo := sockets.Keys;
      while todo != {}
        invariant Sweep(entries, was, todo) && Trimmed(start, need, todo)
        invariant sockets.Values <= entries.Values
        invariant guard.Intended? && exact ==> Exact()
        invariant guard.Verbatim? ==> kernel.dead == old(kernel.dead)
        invariant Accounts(kernel.dead, old(kernel.dead), was, ViewsOf(entries))
        decreases |todo|
      {
        var k :| k in todo;
        SweepMeans(entries, was, todo);
        ghost var dead, now := kernel.dead, ViewsOf(entries);
        ViewsAre(entries);
        PendingIs(entries, was, todo, k);
        panicked := Turn(k, need, kernel, entries, was, todo, start);
        TurnAccounted(entries, was, now, k, kernel, dead, old(kernel.dead));
        if panicked {
          return;
        }
        todo := todo - {k};
      }
      SweepMeans(entries, was, {});
      TrimmedMeans(start, need);
    }

    lemma EvictStarts(need: int)
      requires Valid()
      ensures Sweep(sockets, ViewsOf(sockets), sockets.Keys) && Trimmed(cached, need, sockets.Keys)
    {
    }

    lemma TrimmedMeans(start: int, need: int)
      requires Trimmed(start, need, {})
      ensures guard.Verbatim? ==> cached == start
      ensures guard.Intended? && Exact() && limit >= need ==> cached == if start > limit - need then limit - need else start
    {
      if guard.Intended? && Exact() && cached > limit - need {
        NoneCached();
      }
    }

    static lemma ViewsAre(entries: map<K, SharedSocket<K>>)
      ensures forall k :: k in entries ==> ViewsOf(entries)[k] == entries[k].View()
    {
    }

    lemma PendingIs(entries: map<K, SharedSocket<K>>, was: map<K, S.Shared>, todo: set<K>, k: K)
      requires Sweep(entries, was, todo) && k in todo
      ensures entries[k].View() == was[k]
    {
      assert Handled(was[k], entries[k].View(), true, guard, k in sockets);
    }

    static lemma TurnAccounted(entries: map<K, SharedSocket<K>>, was: map<K, S.Shared>, now: map<K, S.Shared>, k: K,
                               kernel: Kernel, dead: set<nat>, before: set<nat>)
      requires k in entries && was.Keys == now.Keys == entries.Keys && now[k] == was[k]
      requires forall k' :: k' in entries && k' != k ==> entries[k'].View() == now[k']
      requires kernel.dead == dead + Freed(was[k], entries[k].View()) && Accounts(dead, before, was, now)
      ensures Accounts(kernel.dead, before, was, ViewsOf(entries))
    {
      hide Accounts, Freed;
      AccountsOne(dead, before, was, now, k, entries[k].View());
      assert ViewsOf(entries) == now[k := entries[k].View()];
    }

    lemma SweepMeans(entries: map<K, SharedSocket<K>>, was: map<K, S.Shared>, todo: set<K>)
      requires Sweep(entries, was, todo)
      ensures todo <= entries.Keys == was.Keys
      ensures forall k :: k in sockets ==> k in entries && sockets[k] == entries[k]
      ensures todo == {} ==> Arranged(was, ViewsOf(entries), sockets.Keys, true, guard, {})
    {
      hide Settled;
      if todo == {} {
        forall k | k in was ensures Settled(was[k], ViewsOf(entries)[k], true, guard, k in sockets.Keys) {
          assert Handled(was[k], entries[k].View(), false, guard, k in sockets);
        }
      }
    }

    static lemma NothingFreed(dead: set<nat>, views: map<K, S.Shared>)
      ensures Accounts(dead, dead, views, views)
    {
    }

    lemma NoneCached()
      requires Exact() && forall k :: k in sockets ==> !sockets[k].cached
      ensures cached == 0
    {
      assert CachedKeys() == {};
    }

    /** When Get calls evict; with limit 0 it never does. */
    predicate Full()
      reads this
    {
      limit != 0 && |sockets| >= limit
    }

    static lemma ArrangedAt(was: map<K, S.Shared>, now: map<K, S.Shared>, listed: set<K>, full: bool, guard: Guard, name: K)
      requires was.Keys == now.Keys && Arranged(was, now, listed, full, guard, {}) && name in was
      ensures S.Closed(was[name]) ==> now[name] == was[name]
      ensures was[name].refs > 0 ==> now[name].(cached := true) == was[name].(cached := true)
      ensures was[name].refs > 0 && (!full || guard.Intended?) ==> name in listed
      ensures !full || guard.Verbatim? ==> now[name] == was[name]
    {
      assert Settled(was[name], now[name], full, guard, name in listed);
    }

    static lemma ArrangedBut(was: map<K, S.Shared>, now: map<K, S.Shared>, listed: set<K>, now': map<K, S.Shared>, full: bool, guard: Guard, name: K)
      requires was.Keys == now.Keys == now'.Keys && Arranged(was, now, listed, full, guard, {})
      requires forall k :: k in now && k != name ==> now'[k] == now[k]
      ensures Arranged(was, now', listed + {name}, full, guard, {name})
    {
      hide Settled;
      forall k | k in was && k != name ensures Settled(was[k], now'[k], full, guard, k in listed + {name}) {
        assert Settled(was[k], now[k], full, guard, k in listed);
      }
    }

    /** With limit 0, and below the limit, nothing is evicted. */
    lemma FullIff()
      ensures !Full() <==> limit == 0 || |sockets| < limit
    {
    }

    /** Before it stores a socket, Get evicts if the map is full. */
    method MakeRoom(kernel: Kernel) returns (panicked: bool)
      requires Valid()
      modifies this, kernel`dead, sockets.Values
      ensures forall k :: k in sockets ==> k in old(sockets) && sockets[k] == old(sockets)[k]
      ensures !panicked ==>
        Arranged(old(ViewsOf(sockets)), ViewsOf(old(sockets)), sockets.Keys, old(Full()), guard, {})
      ensures Accounts(kernel.dead, old(kernel.dead), old(ViewsOf(sockets)), ViewsOf(old(sockets)))
      ensures !old(Full()) ==> sockets == old(sockets)
      ensures !old(Full()) || guard.Verbatim? ==> !panicked && cached == old(cached) && kernel.dead == old(kernel.dead)
      ensures !panicked && (limit == 0 || guard.Intended?) && old(Exact()) ==>
        Exact() && (limit > 0 && old(cached <= limit) ==> cached < limit)
      ensures panicked ==> S.Shared(0, true, None) in old(ViewsOf(sockets)).Values
    {
      hide Accounts;
      panicked := false;
      SubsetSize(CachedKeys(), sockets.Keys);
      NothingFreed(kernel.dead, ViewsOf(sockets));
      if Full() {
        panicked := Evict(1, kernel);
      }
    }

    /** The rest of `store`: take the cache's reference unless it is held already, and enter the socket. */
    method Enter(name: K, s: SharedSocket<K>)
      requires Valid() && s.name == name && s.refs > 0
      requires name in sockets ==> sockets[name] == s || S.Closed(sockets[name].View())
      modifies this, s`cached
      ensures Valid() && sockets == old(sockets)[name := s] && s.cached
      ensures cached == old(cached) + if old(s.cached) then 0 else 1
      ensures old(Exact() && (s.cached ==> name in sockets && sockets[name] == s)) ==> Exact()
    {
      ghost var before, entries := CachedKeys(), sockets;
      ghost var counts := Exact() && (s.cached ==> name in sockets && sockets[name] == s);
      ghost var flagged := s.cached;
      assert forall k | k in entries && k != name :: entries[k] != s;
      assert counts ==> (name in before <==> flagged) && cached == |before|;
      if !s.cached {
        var closed := s.Cache();
        assert !closed;
        cached := cached + 1;
      }
      sockets := sockets[name := s];
      assert CachedKeys() == before + {name};
      assert name in before ==> before + {name} == before;
      assert name !in before ==> |before + {name}| == |before| + 1;
    }

    /** MakeRoom as Get uses it, with the socket it is about to store in hand. */
    method MakeRoomFor(name: K, s: SharedSocket<K>, kernel: Kernel) returns (panicked: bool)
      requires Valid() && s.name == name && s.refs > 0
      requires name in sockets ==> sockets[name] == s || S.Closed(sockets[name].View())
      modifies this, kernel`dead, sockets.Values
      ensures Valid() && forall k :: k in sockets ==> k in old(sockets) && sockets[k] == old(sockets)[k]
      ensures !panicked ==>
        Arranged(old(ViewsOf(sockets)), ViewsOf(old(sockets)), sockets.Keys, old(Full()), guard, {})
      ensures !panicked ==> Accounts(kernel.dead, old(kernel.dead), old(ViewsOf(sockets)), ViewsOf(old(sockets)))
      ensures !old(Full()) ==> sockets == old(sockets)
      ensures !old(Full()) || guard.Verbatim? ==>
        !panicked && kernel.dead == old(kernel.dead) && cached == old(cached) && s.View() == old(s.View())
      ensures !panicked ==> s.View().(cached := true) == old(s.View()).(cached := true)
      ensures !panicked && name in old(sockets) && old(sockets)[name] != s ==>
        S.Closed(old(sockets)[name].View()) && old(sockets)[name].View() == old(sockets[name].View())
      ensures !panicked && (limit == 0 || guard.Intended?) && old(Exact() && (s.cached ==> name in sockets && sockets[name] == s)) ==>
        && Exact() && (s.cached ==> name in sockets && sockets[name] == s)
        && (limit > 0 && old(cached <= limit) ==> cached < limit)
      ensures panicked ==> S.Shared(0, true, None) in old(ViewsOf(sockets)).Values
    {
      hide Accounts, Exact, Arranged, ViewsOf;
      ghost var entries, was, full := sockets, ViewsOf(sockets), Full();
      ViewsAre(entries);
      panicked := MakeRoom(kernel);
      ViewsAre(entries);
      if !panicked && name in entries {
        ArrangedAt(was, ViewsOf(entries), sockets.Keys, full, guard, name);
      }
    }

    /** The closure `store` of Get. */
    method Store(name: K, s: SharedSocket<K>, kernel: Kernel) returns (panicked: bool)
      requires Valid() && s.name == name && s.refs > 0
      requires name in sockets ==> sockets[name] == s || S.Closed(sockets[name].View())
      modifies this, kernel`dead, sockets.Values, s
      ensures !panicked ==> Valid() && name in sockets && sockets[name] == s && s.View() == old(s.View()).(cached := true)
      ensures !panicked ==> forall k :: k in sockets && k != name ==> k in old(sockets) && sockets[k] == old(sockets)[k]
      ensures !panicked ==>
        Arranged(old(ViewsOf(sockets)), ViewsOf(old(sockets)), sockets.Keys, old(Full()), guard, {name})
      ensures !panicked && name in old(sockets) && old(sockets)[name] != s ==>
        old(sockets)[name].View() == old(sockets[name].View())
      ensures !panicked ==> Accounts(kernel.dead, old(kernel.dead), old(ViewsOf(sockets)), ViewsOf(old(sockets)))
      ensures !old(Full()) ==> sockets == old(sockets)[name := s]
      ensures !old(Full()) || guard.Verbatim? ==>
        !panicked && kernel.dead == old(kernel.dead) && cached == old(cached) + if old(s.cached) then 0 else 1
      ensures !panicked && (limit == 0 || guard.Intended?) && old(Exact() && (s.cached ==> name in sockets && sockets[name] == s)) ==>
        Exact() && (limit > 0 && old(cached <= limit) ==> cached <= limit)
      ensures panicked ==> S.Shared(0, true, None) in old(ViewsOf(sockets)).Values
    {
      hide Accounts, Exact, Arranged, ViewsOf, Frees, Full, S.Closed;
      ghost var entries, was, full := sockets, ViewsOf(sockets), Full();
      ViewsAre(entries);
      panicked := MakeRoomFor(name, s, kernel);
      if !panicked {
        ghost var now, listed := ViewsOf(entries), sockets.Keys;
        ViewsAre(entries);
        Enter(name, s);
        assert sockets.Keys == listed + {name};
        Stored(entries, was, now, listed, full, name, kernel.dead, old(kernel.dead));
      }
    }

    /** What MakeRoom arranged stays arranged when the socket of `name` is cached and entered. */
    lemma Stored(entries: map<K, SharedSocket<K>>, was: map<K, S.Shared>, now: map<K, S.Shared>, listed: set<K>, full: bool,
                 name: K, dead: set<nat>, before: set<nat>)
      requires was.Keys == now.Keys == entries.Keys
      requires Arranged(was, now, listed, full, guard, {}) && Accounts(dead, before, was, now)
      requires forall k :: k in entries && k != name ==> entries[k].View() == now[k]
      requires name in was ==> was[name].refs > 0 || S.Closed(was[name])
      ensures Arranged(was, ViewsOf(entries), listed + {name}, full, guard, {name})
      ensures Accounts(dead, before, was, ViewsOf(entries))
    {
      hide Arranged, Accounts;
      ArrangedBut(was, now, listed, ViewsOf(entries), full, guard, name);
      StoreAccounts(dead, before, was, now, ViewsOf(entries), name);
    }

    /** Storing a socket frees no connection: the entry it takes over is closed already, or the socket itself. */
    static lemma StoreAccounts(dead: set<nat>, before: set<nat>, was: map<K, S.Shared>, now: map<K, S.Shared>, now': map<K, S.Shared>, name: K)
      requires was.Keys == now.Keys == now'.Keys && Accounts(dead, before, was, now)
      requires forall k :: k in now && k != name ==> now'[k] == now[k]
      requires name in was ==> was[name].refs > 0 || S.Closed(was[name])
      ensures Accounts(dead, before, was, now')
    {
      AccountsSame(dead, before, was, now, was, now');
    }

    /** What Store says of a socket that gained a reference just before, it says of the socket as it was before that. */
    static lemma HitReflects(was: map<K, S.Shared>, now: map<K, S.Shared>, listed: set<K>, full: bool, guard: Guard, name: K,
                             panicked: bool, dead: set<nat>, before: set<nat>)
      requires was.Keys == now.Keys && name in was && !S.Closed(was[name])
      requires panicked ==> S.Shared(0, true, None) in was[name := S.Inc(was[name])].Values
      requires !panicked ==>
        && Arranged(was[name := S.Inc(was[name])], now, listed, full, guard, {name})
        && Accounts(dead, before, was[name := S.Inc(was[name])], now) && now[name].cached
      ensures panicked ==> S.Shared(0, true, None) in was.Values
      ensures !panicked ==> Arranged(was, now, listed, full, guard, {name}) && Accounts(dead, before, was, now)
    {
      hide Settled;
      if panicked {
        var k :| k in was && was[name := S.Inc(was[name])][k] == S.Shared(0, true, None);
        assert k != name && was[k] == S.Shared(0, true, None);
      } else {
        AccountsSame(dead, before, was[name := S.Inc(was[name])], now, was, now);
      }
    }

    /**
     * Get. `opens` is whether the operating system would open a connection now. A name whose entry is
     * open gets that socket with one more reference; otherwise a fresh one, unless Open fails, which
     * changes nothing. The socket ends up cached and in the map under its name; the other entries are
     * left alone but for what evict does when the map is full.
     */
    method Get(name: K, kernel: Kernel, opens: bool) returns (s: SharedSocket?<K>, panicked: bool)
      requires Valid()
      modifies this, kernel, sockets.Values
      ensures var hit := old(name in sockets && !S.Closed(sockets[name].View()));
        && (hit && !panicked ==> s == old(sockets)[name] && s.View() == old(sockets[name].View()).(refs := old(sockets[name].refs) + 1, cached := true))
        && (hit ==> kernel.opens == old(kernel.opens))
        && (!hit && opens && !panicked ==> fresh(s) && s.View() == S.Shared(1, true, Some(old(kernel.opens))))
        && (!hit && opens ==> kernel.opens == old(kernel.opens) + 1)
        && (!hit && !opens ==>
              && s == null && !panicked && sockets == old(sockets) && cached == old(cached)
              && kernel.opens == old(kernel.opens) && kernel.dead == old(kernel.dead)
              && ViewsOf(sockets) == old(ViewsOf(sockets)))
      ensures !panicked ==> Valid() && (s != null ==> name in sockets && sockets[name] == s)
      ensures !panicked ==> forall k :: k in sockets && k != name ==> k in old(sockets) && sockets[k] == old(sockets)[k]
      ensures !panicked && s != null ==>
        Arranged(old(ViewsOf(sockets)), ViewsOf(old(sockets)), sockets.Keys, old(Full()), guard, {name})
      ensures !panicked && name in old(sockets) && old(sockets)[name] != s ==>
        old(sockets)[name].View() == old(sockets[name].View())
      ensures !panicked ==> Accounts(kernel.dead, old(kernel.dead), old(ViewsOf(sockets)), ViewsOf(old(sockets)))
      ensures !old(Full()) && s != null ==> sockets == old(sockets)[name := s]
      ensures !old(Full()) || guard.Verbatim? ==> !panicked && kernel.dead == old(kernel.dead)
      ensures !panicked && (limit == 0 || guard.Intended?) && old(Exact()) ==>
        Exact() && (limit > 0 && old(cached <= limit) ==> cached <= limit)
      ensures panicked ==> S.Shared(0, true, None) in old(ViewsOf(sockets)).Values
    {
      hide Accounts, Exact, Arranged, ViewsOf, Full;
      ghost var was := ViewsOf(sockets);
      NothingFreed(kernel.dead, was);
      panicked := false;
      s := null;
      if name in sockets {
        ViewsAre(sockets);
        var closed := Reuse(name);
        if !closed {
          s := sockets[name];
          ghost var full := Full();
          panicked := Store(name, s, kernel);
          ViewsAre(old(sockets));
          HitReflects(was, ViewsOf(old(sockets)), sockets.Keys, full, guard, name, panicked, kernel.dead, old(kernel.dead));
          return;
        }
      }
      var conn := kernel.Open(opens);
      if conn.None? {
        return;
      }
      assert ViewsOf(sockets) == was;
      s := new SharedSocket(name, conn.value);
      panicked := Store(name, s, kernel);
    }

    /** The call of inc on the entry of `name`. */
    method Reuse(name: K) returns (closed: bool)
      requires Valid() && name in sockets
      modifies sockets[name]
      ensures closed == S.Closed(old(sockets[name].View()))
      ensures sockets[name].View() == S.Inc(old(sockets[name].View()))
      ensures ViewsOf(sockets) == old(ViewsOf(sockets))[name := sockets[name].View()]
      ensures closed ==> ViewsOf(sockets) == old(ViewsOf(sockets))
      ensures old(Exact()) ==> Exact()
    {
      ghost var before := CachedKeys();
      closed := sockets[name].Inc();
      assert CachedKeys() == before;
    }
  }
}
