/** The traced allocator of socket/os_unix.c: every block carries a magic number and hangs on alloc_list. */
module Allocator {
  import opened Basics
  import opened CStrings

  type Ptr = nat

  datatype Magic = Alloc | Freed

  /** A header and its payload. Freed blocks stay readable, which is how a second free is noticed. */
  datatype Block = Block(magic: Magic, data: string)

  datatype State = State(heap: map<Ptr, Block>, list: seq<Ptr>)

  /** What the C library's malloc does: refuse, or hand out an address with arbitrary contents. */
  datatype Grant = Denied | At(addr: Ptr, junk: string)

  predicate Live(s: State, p: Ptr) {
    p in s.heap && s.heap[p].magic.Alloc?
  }

  /** malloc never hands out an address that is in use, and hands out as much as was asked for. */
  predicate Honest(s: State, size: nat, grant: Grant) {
    grant.At? ==> !Live(s, grant.addr) && |grant.junk| == size
  }

  function Without(list: seq<Ptr>, p: Ptr): seq<Ptr> {
    if list == [] then [] else (if list[0] == p then [] else [list[0]]) + Without(list[1..], p)
  }

  function DoMalloc(s: State, grant: Grant): State {
    match grant
    case Denied => s
    case At(addr, junk) => State(s.heap[addr := Block(Alloc, junk)], [addr] + s.list)
  }

  function DoFree(s: State, p: Ptr): State
    requires p in s.heap
  {
    State(s.heap[p := s.heap[p].(magic := Freed)], Without(s.list, p))
  }

  function Copied(from: string, to: string): string {
    var n := Min(|from|, |to|);
    from[..n] + to[n..]
  }

  function DoRealloc(s: State, p: Ptr, grant: Grant): State
    requires p in s.heap
  {
    match grant
    case Denied => s
    case At(addr, junk) => DoFree(DoMalloc(s, At(addr, Copied(s.heap[p].data, junk))), p)
  }

  function SumLens(heap: map<Ptr, Block>, list: seq<Ptr>): nat {
    if list == [] then 0 else (if list[0] in heap then |heap[list[0]].data| else 0) + SumLens(heap, list[1..])
  }

  /** alloc_list holds each live block once and nothing else. */
  ghost predicate Sound(s: State) {
    && (forall i, j | 0 <= i < j < |s.list| :: s.list[i] != s.list[j])
    && (forall p :: p in s.list <==> Live(s, p))
  }

  // ---------- the code ----------

  class Allocator {
    var heap: map<Ptr, Block>
    var list: seq<Ptr>

    function View(): State
      reads this
    {
      State(heap, list)
    }

    constructor ()
      ensures View() == State(map[], [])
    {
      heap, list := map[], [];
    }

    /** os_malloc; `inject` is testing_fail_alloc's verdict. */
    method Malloc(size: nat, inject: bool, grant: Grant) returns (r: Option<Ptr>)
      requires Honest(View(), size, grant)
      modifies this
      ensures r == (if inject || grant.Denied? then None else Some(grant.addr))
      ensures View() == if inject then old(View()) else DoMalloc(old(View()), grant)
    {
      if inject || grant.Denied? {
        return None;
      }
      heap := heap[grant.addr := Block(Alloc, grant.junk)];
      list := [grant.addr] + list;
      r := Some(grant.addr);
    }

    /** os_free: aborts on a block that is not live. */
    method Free(ptr: Option<Ptr>) returns (aborted: bool)
      requires ptr.Some? ==> ptr.value in heap
      modifies this
      ensures aborted <==> ptr.Some? && !old(Live(View(), ptr.value))
      ensures View() == if ptr.None? || aborted then old(View()) else DoFree(old(View()), ptr.value)
    {
      if ptr.None? {
        return false;
      }
      if heap[ptr.value].magic != Alloc {
        return true;
      }
      Unlink(ptr.value);
      heap := heap[ptr.value := heap[ptr.value].(magic := Freed)];
      aborted := false;
    }

    /** dl_list_del. */
    method Unlink(p: Ptr)
      modifies this`list
      ensures list == Without(old(list), p)
    {
      var rest, kept := list, [];
      while rest != []
        invariant kept + Without(rest, p) == Without(list, p)
        decreases |rest|
      {
        if rest[0] != p {
          kept := kept + [rest[0]];
        }
        rest := rest[1..];
      }
      list := kept;
    }

    /** os_realloc: allocate, copy what fits, free the old block. */
    method Realloc(ptr: Option<Ptr>, size: nat, inject: bool, grant: Grant) returns (r: Option<Ptr>, aborted: bool)
      requires Honest(View(), size, grant) && (ptr.Some? ==> ptr.value in heap)
      modifies this
      ensures !aborted ==> r == if inject || grant.Denied? then None else Some(grant.addr)
      ensures ptr.None? ==> View() == if inject then old(View()) else DoMalloc(old(View()), grant)
      ensures aborted <==> ptr.Some? && !old(Live(View(), ptr.value))
      ensures aborted ==> r == None && View() == old(View())
      ensures ptr.Some? && !aborted ==> View() == if inject then old(View()) else DoRealloc(old(View()), ptr.value, grant)
    {
      aborted := false;
      if ptr.None? {
        r := Malloc(size, inject, grant);
        return;
      }
      var a := heap[ptr.value];
      if a.magic != Alloc {
        return None, true;
      }
      r := Malloc(size, inject, grant);
      if r.None? {
        return;
      }
      var copyLen := Min(|a.data|, size);
      heap := heap[r.value := heap[r.value].(data := a.data[..copyLen] + heap[r.value].data[copyLen..])];
      aborted := Free(ptr);
    }

    /** os_program_deinit: the total it reports. */
    method Deinit() returns (total: nat)
      ensures total == SumLens(heap, list)
    {
      total := 0;
      var rest := list;
      while rest != []
        invariant total + SumLens(heap, rest) == SumLens(heap, list)
        decreases |rest|
      {
        total := total + if rest[0] in heap then |heap[rest[0]].data| else 0;
        rest := rest[1..];
      }
    }
  }

  // ---------- runs ----------

  /** A client's call, together with what malloc does on it. Write fills a live block with other data of its length. */
  datatype Op =
    | OpMalloc(size: nat, inject: bool, grant: Grant)
    | OpRealloc(ptr: Ptr, size: nat, inject: bool, grant: Grant)
    | OpFree(ptr: Ptr)
    | OpWrite(ptr: Ptr, data: string)

  /** The client plays by the rules: it reallocates, frees and writes only live blocks. */
  predicate Proper(s: State, op: Op) {
    match op
    case OpMalloc(size, _, grant) => Honest(s, size, grant)
    case OpRealloc(p, size, _, grant) => Live(s, p) && Honest(s, size, grant)
    case OpFree(p) => Live(s, p)
    case OpWrite(p, data) => Live(s, p) && |data| == |s.heap[p].data|
  }

  function Do(s: State, op: Op): State
    requires Proper(s, op)
  {
    match op
    case OpMalloc(_, inject, grant) => if inject then s else DoMalloc(s, grant)
    case OpRealloc(p, _, inject, grant) => if inject then s else DoRealloc(s, p, grant)
    case OpFree(p) => DoFree(s, p)
    case OpWrite(p, data) => s.(heap := s.heap[p := s.heap[p].(data := data)])
  }

  /** What a client expects of a block moved to fresh memory: its bytes first, and whatever was there behind them. */
  function Resized(was: string, junk: string): string {
    seq(|junk|, i requires 0 <= i < |junk| => if i < |was| then was[i] else junk[i])
  }

  /** The client's own book: which blocks it holds and what is in them, from its calls and their results alone. */
  function Book(book: map<Ptr, string>, op: Op): map<Ptr, string> {
    match op
    case OpMalloc(_, inject, grant) => if inject || grant.Denied? then book else book[grant.addr := grant.junk]
    case OpRealloc(p, _, inject, grant) =>
      if inject || grant.Denied? || p !in book then book else book[grant.addr := Resized(book[p], grant.junk)] - {p}
    case OpFree(p) => book - {p}
    case OpWrite(p, data) => book[p := data]
  }

  ghost predicate AllProper(s: State, ops: seq<Op>)
    decreases |ops|
  {
    ops == [] || (Proper(s, ops[0]) && AllProper(Do(s, ops[0]), ops[1..]))
  }

  ghost function DoAll(s: State, ops: seq<Op>): State
    requires AllProper(s, ops)
    decreases |ops|
  {
    if ops == [] then s else DoAll(Do(s, ops[0]), ops[1..])
  }

  function BookAll(book: map<Ptr, string>, ops: seq<Op>): map<Ptr, string>
    decreases |ops|
  {
    if ops == [] then book else BookAll(Book(book, ops[0]), ops[1..])
  }

  /** The allocator's state and the client's book agree. */
  ghost predicate Agrees(s: State, book: map<Ptr, string>) {
    && Sound(s)
    && (forall p :: p in book <==> Live(s, p))
    && (forall p | p in book :: book[p] == s.heap[p].data)
  }

  lemma {:induction false} WithoutIs(list: seq<Ptr>, p: Ptr)
    requires forall i, j | 0 <= i < j < |list| :: list[i] != list[j]
    ensures var l := Without(list, p);
      && (forall i, j | 0 <= i < j < |l| :: l[i] != l[j])
      && (forall q :: q in l <==> q in list && q != p)
  {
    if list != [] {
      WithoutIs(list[1..], p);
      var rest := Without(list[1..], p);
      assert forall q :: q in list <==> q == list[0] || q in list[1..];
      assert list[0] !in list[1..];
      if list[0] != p {
        assert Without(list, p) == [list[0]] + rest;
        assert forall k | 0 <= k < |rest| :: rest[k] in rest;
      } else {
        assert Without(list, p) == rest;
      }
    }
  }

  lemma FreeAgrees(s: State, book: map<Ptr, string>, p: Ptr)
    requires Agrees(s, book) && Live(s, p)
    ensures Agrees(DoFree(s, p), book - {p})
  {
    WithoutIs(s.list, p);
  }

  lemma MallocAgrees(s: State, book: map<Ptr, string>, addr: Ptr, junk: string)
    requires Agrees(s, book) && !Live(s, addr)
    ensures Agrees(DoMalloc(s, At(addr, junk)), book[addr := junk])
  {
    var s' := DoMalloc(s, At(addr, junk));
    forall i, j | 0 <= i < j < |s'.list| ensures s'.list[i] != s'.list[j] {
      assert s'.list[j] == s.list[j - 1] && s.list[j - 1] in s.list;
    }
  }

  lemma StepAgrees(s: State, book: map<Ptr, string>, op: Op)
    requires Agrees(s, book) && Proper(s, op)
    ensures Agrees(Do(s, op), Book(book, op))
  {
    match op {
      case OpMalloc(_, inject, grant) =>
        if !inject && grant.At? {
          MallocAgrees(s, book, grant.addr, grant.junk);
        }
      case OpRealloc(p, _, inject, grant) =>
        if !inject && grant.At? {
          var data := Copied(s.heap[p].data, grant.junk);
          assert data == Resized(book[p], grant.junk);
          MallocAgrees(s, book, grant.addr, data);
          FreeAgrees(DoMalloc(s, At(grant.addr, data)), book[grant.addr := data], p);
        }
      case OpFree(p) => FreeAgrees(s, book, p);
      case OpWrite(_, _) =>
    }
  }

  function SumBook(book: map<Ptr, string>, list: seq<Ptr>): nat {
    if list == [] then 0 else (if list[0] in book then |book[list[0]]| else 0) + SumBook(book, list[1..])
  }

  lemma {:induction false} SumsAgree(s: State, book: map<Ptr, string>, list: seq<Ptr>)
    requires Agrees(s, book) && forall p | p in list :: p in s.list
    ensures SumLens(s.heap, list) == SumBook(book, list)
  {
    if list != [] {
      assert list[0] in list;
      SumsAgree(s, book, list[1..]);
    }
  }

  lemma {:induction false} RunAgrees(s: State, book: map<Ptr, string>, ops: seq<Op>)
    requires Agrees(s, book) && AllProper(s, ops)
    ensures Agrees(DoAll(s, ops), BookAll(book, ops))
    decreases |ops|
  {
    if ops != [] {
      StepAgrees(s, book, ops[0]);
      RunAgrees(Do(s, ops[0]), Book(book, ops[0]), ops[1..]);
    }
  }

  /**
   * Conservation. After any run alloc_list lists exactly the blocks in the client's book, each once;
   * every one of them holds what the book says, so no call disturbs another block and os_realloc
   * keeps the first min(old, new) bytes; and the total os_program_deinit reports is the sum of the
   * lengths in the book.
   */
  lemma AllocationsConserved(ops: seq<Op>)
    requires AllProper(State(map[], []), ops)
    ensures var s, book := DoAll(State(map[], []), ops), BookAll(map[], ops);
      && (forall i, j | 0 <= i < j < |s.list| :: s.list[i] != s.list[j])
      && (forall p :: p in s.list <==> p in book)
      && (forall p | p in book :: Live(s, p) && s.heap[p].data == book[p])
      && SumLens(s.heap, s.list) == SumBook(book, s.list)
  {
    RunAgrees(State(map[], []), map[], ops);
    var s, book := DoAll(State(map[], []), ops), BookAll(map[], ops);
    SumsAgree(s, book, s.list);
  }
}
