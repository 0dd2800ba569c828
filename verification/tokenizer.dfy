/** The in-place argument splitting of os_exec in socket/os_unix.c. */
module Tokenizer {
  import opened Basics
  import opened CStrings
  import opened Strings

  const MAX_ARG := 30

  /** An entry of argv: unset, the program's name, a string inside the copied argument, or NULL. */
  datatype Arg = Unset | Program | At(pos: nat) | Null

  /** The non-empty pieces of a string split on spaces. */
  function Pieces(s: string): seq<string> {
    if s == "" then []
    else if s[0] == ' ' then Pieces(s[1..])
    else
      var k := IndexOf(s, ' ');
      [s[..k]] + if k == |s| then [] else Pieces(s[k + 1..])
  }

  /** A space splits any string into the pieces before it and the pieces behind it. */
  lemma {:induction false} PiecesSplit(a: string, b: string)
    ensures Pieces(a + " " + b) == Pieces(a) + Pieces(b)
    decreases |a|
  {
    hide Pieces, IndexOf;
    if a == "" {
      PiecesOfSpace(a + " " + b);
      NoPieces();
      assert (a + " " + b)[1..] == b;
    } else if a[0] == ' ' {
      PiecesOfSpace(a);
      PiecesOfSpace(a + " " + b);
      assert (a + " " + b)[1..] == a[1..] + " " + b;
      PiecesSplit(a[1..], b);
    } else if ' ' in a {
      FirstPieceKept(a, b);
      PiecesSplit(a[IndexOf(a, ' ') + 1..], b);
    } else {
      OnePiece(a);
      LonePiece(a, b);
    }
  }

  lemma PiecesOfSpace(s: string)
    requires s != "" && s[0] == ' '
    ensures Pieces(s) == Pieces(s[1..])
  {
  }

  lemma NoPieces()
    ensures Pieces("") == []
  {
  }

  /** A string without spaces is its own piece. */
  lemma OnePiece(a: string)
    requires a != "" && ' ' !in a
    ensures Pieces(a) == [a]
  {
    hide IndexOf;
    FirstPiece(a);
    NoPieces();
    assert a[..|a|] == a;
  }

  lemma LonePiece(a: string, b: string)
    requires a != "" && ' ' !in a
    ensures Pieces(a + " " + b) == [a] + Pieces(b)
  {
    hide IndexOf, Pieces;
    var s := a + " " + b;
    FirstPiece(s);
    IndexAfter(a, b);
    assert s[..|a|] == a && s[|a| + 1..] == b;
    if b == "" {
      assert |s| == |a| + 1;
    }
  }

  lemma FirstPieceKept(a: string, b: string)
    requires a != "" && a[0] != ' ' && ' ' in a
    ensures var k := IndexOf(a, ' ');
      && Pieces(a) == [a[..k]] + Pieces(a[k + 1..])
      && Pieces(a + " " + b) == [a[..k]] + Pieces(a[k + 1..] + " " + b)
  {
    hide IndexOf, Pieces;
    var s, k := a + " " + b, IndexOf(a, ' ');
    FirstPiece(a);
    FirstPiece(s);
    assert s == a + (" " + b);
    IndexWithin(a, " " + b);
    assert s[..k] == a[..k] && s[k + 1..] == a[k + 1..] + " " + b;
  }

  lemma {:induction false} IndexAfter(a: string, b: string)
    requires ' ' !in a
    ensures IndexOf(a + " " + b, ' ') == |a|
  {
    if a != "" {
      assert (a + " " + b)[1..] == a[1..] + " " + b;
      IndexAfter(a[1..], b);
    }
  }

  lemma {:induction false} IndexWithin(a: string, b: string)
    requires ' ' in a
    ensures IndexOf(a + b, ' ') == IndexOf(a, ' ')
  {
    if a[0] != ' ' {
      assert (a + b)[1..] == a[1..] + b;
      IndexWithin(a[1..], b);
    }
  }

  /** The string `piece`, terminated, stands at `pos` and ends before `limit`. */
  predicate Stands(buf: seq<char>, pos: nat, piece: string, limit: nat) {
    pos + |piece| < limit <= |buf| && buf[pos..pos + |piece|] == piece && buf[pos + |piece|] == NUL
  }

  predicate PlacedAt(buf: seq<char>, arg: Arg, piece: string, limit: nat) {
    arg.At? && Stands(buf, arg.pos, piece, limit)
  }

  ghost predicate Placed(buf: seq<char>, argv: seq<Arg>, done: seq<string>, limit: nat) {
    |done| < |argv| && forall j | 0 <= j < |done| :: PlacedAt(buf, argv[j + 1], done[j], limit)
  }

  lemma StandsReads(buf: seq<char>, pos: nat, piece: string, limit: nat)
    requires Stands(buf, pos, piece, limit) && NUL !in piece
    ensures pos < |buf| && NUL in buf[pos..] && Text(buf[pos..]) == piece
  {
    var s := buf[pos..];
    forall k | 0 <= k < |piece| ensures s[k] != NUL {
      assert s[k] == buf[pos..pos + |piece|][k] == piece[k];
    }
    LenIs(s, |piece|);
    assert s[..|piece|] == buf[pos..pos + |piece|];
  }

  lemma PlacedSnoc(was: seq<char>, now: seq<char>, argv: seq<Arg>, argv': seq<Arg>, done: seq<string>, d: string, limit: nat, limit': nat)
    requires Placed(was, argv, done, limit) && limit <= |was| == |now| && limit <= limit' <= |now|
    requires was[..limit] == now[..limit]
    requires |argv'| == |argv| > |done| + 1 && argv'[..|done| + 1] == argv[..|done| + 1]
    requires PlacedAt(now, argv'[|done| + 1], d, limit')
    ensures Placed(now, argv', done + [d], limit')
  {
    forall j | 0 <= j < |done| + 1 ensures PlacedAt(now, argv'[j + 1], (done + [d])[j], limit') {
      if j < |done| {
        assert PlacedAt(was, argv[j + 1], done[j], limit);
        assert argv'[..|done| + 1][j + 1] == argv[..|done| + 1][j + 1];
        var p, e := argv[j + 1].pos, argv[j + 1].pos + |done[j]|;
        assert now[p..e] == now[..limit][p..e] == was[..limit][p..e] == was[p..e];
        assert now[e] == now[..limit][e] == was[..limit][e];
      }
    }
  }

  /** strchr: the first `c` of the string from `pos` on, if any comes before its end. */
  method StrChr(buf: array<char>, pos: nat, ghost end: nat, c: char) returns (r: Option<nat>)
    requires pos <= end < buf.Length && buf[end] == NUL && NUL !in buf[pos..end] && c != NUL
    ensures var k := IndexOf(buf[pos..end], c);
      r == if k == end - pos then None else Some(pos + k)
  {
    var p := pos;
    while buf[p] != NUL && buf[p] != c
      invariant pos <= p <= end
      invariant forall q | pos <= q < p :: buf[q] != c
      decreases end - p
    {
      p := p + 1;
    }
    var k := IndexOf(buf[pos..end], c);
    if p < end {
      assert buf[pos..end][p - pos] == buf[p];
    }
    r := if buf[p] == NUL then None else Some(p);
  }

  /** The buffer was changed in no place but spaces that became NUL. */
  predicate OnlySpacesCut(was: seq<char>, now: seq<char>) {
    |was| == |now| && forall k | 0 <= k < |was| :: now[k] == was[k] || (was[k] == ' ' && now[k] == NUL)
  }

  /** `pos = strchr(pos, ' '); if (pos) *pos++ = 0`: the piece at `p` is cut off where its space stands. */
  method CutPiece(buf: array<char>, p: nat, ghost rest: string) returns (pos: Option<nat>)
    requires p < buf.Length && buf[p..] == rest + [NUL] && NUL !in rest
    modifies buf
    ensures var k := IndexOf(rest, ' ');
      && pos == (if k == |rest| then None else Some(p + k + 1))
      && Stands(buf[..], p, rest[..k], if pos.Some? then pos.value else buf.Length)
      && (pos.Some? ==> buf[pos.value..] == rest[k + 1..] + [NUL])
    ensures buf[..p] == old(buf[..p]) && OnlySpacesCut(old(buf[..]), buf[..])
  {
    hide IndexOf, Stands, OnlySpacesCut;
    ghost var k, end, was := IndexOf(rest, ' '), buf.Length - 1, buf[..];
    assert was[p..] == buf[p..];
    Copied(was, p, rest);
    assert buf[p..end] == was[p..end];
    pos := StrChr(buf, p, end, ' ');
    if pos.Some? {
      buf[pos.value] := NUL;
      pos := Some(pos.value + 1);
      CutEffect(was, buf[..], p, rest, k);
      assert buf[pos.value..] == buf[..][pos.value..];
      assert buf[..p] == buf[..][..p];
    } else {
      KeptWhole(was, p, rest);
    }
  }

  lemma Copied(was: seq<char>, p: nat, rest: string)
    requires p < |was| && was[p..] == rest + [NUL]
    ensures |was| == p + |rest| + 1 && was[|was| - 1] == NUL && was[p..|was| - 1] == rest
    ensures forall j | p <= j < p + |rest| :: was[j] == rest[j - p]
  {
    forall j | 0 <= j <= |rest| ensures was[p + j] == (rest + [NUL])[j] {
      assert was[p..][j] == was[p + j];
    }
  }

  lemma KeptWhole(was: seq<char>, p: nat, rest: string)
    requires p < |was| && was[p..] == rest + [NUL]
    ensures Stands(was, p, rest[..|rest|], |was|) && OnlySpacesCut(was, was)
  {
    Copied(was, p, rest);
  }

  /** What writing a NUL over the first space does. */
  lemma CutEffect(was: seq<char>, now: seq<char>, p: nat, rest: string, k: nat)
    requires p < |was| && was[p..] == rest + [NUL] && k < |rest| && rest[k] == ' '
    requires |now| == |was| && p + k < |was| && now[p + k] == NUL
    requires forall j | 0 <= j < |was| && j != p + k :: now[j] == was[j]
    ensures Stands(now, p, rest[..k], p + k + 1) && OnlySpacesCut(was, now)
    ensures now[p + k + 1..] == rest[k + 1..] + [NUL] && now[..p] == was[..p]
  {
    Copied(was, p, rest);
    assert now[p..p + k] == rest[..k];
  }

  /** The first 29 pieces, or all of them. */
  function First29(pieces: seq<string>): (r: seq<string>)
    ensures r <= pieces && |r| == Min(29, |pieces|)
  {
    pieces[..Min(MAX_ARG - 1, |pieces|)]
  }

  /** Steps over the spaces at `pos`. */
  method SkipSpaces(buf: array<char>, pos: nat, ghost rest: string) returns (p: nat, ghost left: string)
    requires pos < buf.Length && buf[pos..] == rest + [NUL] && NUL !in rest
    ensures pos <= p < buf.Length && buf[p..] == left + [NUL] && NUL !in left
    ensures Pieces(left) == Pieces(rest) && (left != "" ==> left[0] != ' ')
  {
    hide IndexOf;
    p, left := pos, rest;
    while buf[p] == ' '
      invariant pos <= p < buf.Length && buf[p..] == left + [NUL] && NUL !in left
      invariant Pieces(left) == Pieces(rest)
      decreases buf.Length - p
    {
      assert buf[p..][0] == buf[p];
      assert buf[p + 1..] == buf[p..][1..];
      left := left[1..];
      p := p + 1;
    }
    assert buf[p..][0] == buf[p];
  }

  function LimitOf(pos: Option<nat>, len: nat): nat {
    if pos.Some? then pos.value else len
  }

  /** One turn of the splitting loop, with `done` in place and `rest` from `from` on; `d` is the piece it takes, if it takes one. */
  method TakePiece(buf: array<char>, argv: array<Arg>, i: nat, from: nat, ghost rest: string, ghost done: seq<string>)
    returns (taken: bool, pos: Option<nat>, ghost d: string, ghost rest': string)
    requires from < buf.Length && buf[from..] == rest + [NUL] && NUL !in rest
    requires 0 < i == |done| + 1 < argv.Length && Placed(buf[..], argv[..], done, from)
    modifies buf, argv
    ensures taken ==> Pieces(rest) == [d] + Pieces(rest') && Placed(buf[..], argv[..], done + [d], LimitOf(pos, buf.Length))
    ensures taken && pos.Some? ==> from < pos.value < buf.Length && buf[pos.value..] == rest' + [NUL] && NUL !in rest'
    ensures taken && pos.None? ==> rest' == ""
    ensures !taken ==> Pieces(rest) == Pieces("") && buf[..] == old(buf[..]) && argv[..] == old(argv[..])
    ensures OnlySpacesCut(old(buf[..]), buf[..]) && argv[0] == old(argv[0])
  {
    hide OnlySpacesCut, Placed, Pieces, Stands, IndexOf;
    var p;
    ghost var left;
    p, left := SkipSpaces(buf, from, rest);
    assert buf[p..][0] == buf[p];
    taken, pos, d, rest' := false, None, "", "";
    if buf[p] == NUL {
      assert left == "";
      Unchanged(buf[..]);
      return;
    }
    taken := true;
    ghost var was, before := buf[..], argv[..];
    argv[i] := At(p);
    pos := CutPiece(buf, p, left);
    ghost var k := IndexOf(left, ' ');
    d, rest' := left[..k], if k == |left| then "" else left[k + 1..];
    FirstPiece(left);
    assert buf[..p][..from] == was[..p][..from];
    PlacedSnoc(was, buf[..], before, argv[..], done, d, from, LimitOf(pos, buf.Length));
  }

  lemma Unchanged(buf: seq<char>)
    ensures OnlySpacesCut(buf, buf)
  {
  }

  /** The splitting loop of os_exec; `done` are the pieces found. */
  method SplitLoop(buf: array<char>, argv: array<Arg>, ghost arg: string) returns (i: nat, ghost done: seq<string>)
    requires buf[..] == arg + [NUL] && NUL !in arg && argv.Length == MAX_ARG + 1
    modifies buf, argv
    ensures argv[0] == Program && i == |done| + 1 <= MAX_ARG
    ensures done == First29(Pieces(arg)) && Placed(buf[..], argv[..], done, buf.Length)
    ensures OnlySpacesCut(old(buf[..]), buf[..])
  {
    hide OnlySpacesCut, Placed, Pieces;
    done := [];
    argv[0] := Program;
    i := 1;
    var pos := Some(0);
    ghost var rest, start := arg, buf[..];
    StartPlaced(buf[..], argv[..]);
    while i < MAX_ARG && pos.Some? && buf[pos.value] != NUL
      invariant 1 <= i == |done| + 1 <= MAX_ARG && argv[0] == Program
      invariant pos.Some? ==> pos.value < buf.Length && buf[pos.value..] == rest + [NUL] && NUL !in rest
      invariant pos.None? ==> rest == ""
      invariant Placed(buf[..], argv[..], done, LimitOf(pos, buf.Length))
      invariant Pieces(arg) == done + Pieces(rest)
      invariant OnlySpacesCut(start, buf[..])
      decreases if pos.Some? then buf.Length - pos.value + 1 else 0
    {
      ghost var was := buf[..];
      var taken, next;
      ghost var d, rest';
      taken, next, d, rest' := TakePiece(buf, argv, i, pos.value, rest, done);
      CutsCompose(start, was, buf[..]);
      if !taken {
        rest := "";
        break;
      }
      i, pos := i + 1, next;
      done, rest := done + [d], rest';
    }
    assert pos.Some? ==> buf[pos.value..][0] == buf[pos.value];
    PiecesDone(arg, done, rest, i);
    PlacedWiden(buf[..], argv[..], done, LimitOf(pos, buf.Length));
  }

  lemma StartPlaced(buf: seq<char>, argv: seq<Arg>)
    requires argv != []
    ensures Placed(buf, argv, [], 0) && OnlySpacesCut(buf, buf)
  {
  }

  lemma PlacedWiden(buf: seq<char>, argv: seq<Arg>, done: seq<string>, limit: nat)
    requires Placed(buf, argv, done, limit) && limit <= |buf|
    ensures Placed(buf, argv, done, |buf|)
  {
    forall j | 0 <= j < |done| ensures PlacedAt(buf, argv[j + 1], done[j], |buf|) {
      assert PlacedAt(buf, argv[j + 1], done[j], limit);
    }
  }

  lemma CutsCompose(a: seq<char>, b: seq<char>, c: seq<char>)
    requires OnlySpacesCut(a, b) && OnlySpacesCut(b, c)
    ensures OnlySpacesCut(a, c)
  {
  }

  lemma FirstPiece(s: string)
    requires s != "" && s[0] != ' '
    ensures var k := IndexOf(s, ' '); Pieces(s) == [s[..k]] + Pieces(if k == |s| then "" else s[k + 1..])
  {
    hide IndexOf;
  }

  lemma PiecesDone(arg: string, done: seq<string>, rest: string, i: nat)
    requires Pieces(arg) == done + Pieces(rest) && i == |done| + 1 <= MAX_ARG && (i == MAX_ARG || rest == "")
    ensures done == First29(Pieces(arg))
  {
  }

  lemma {:induction false} PiecesHaveNoNul(s: string)
    requires NUL !in s
    ensures forall d | d in Pieces(s) :: NUL !in d && d != "" && ' ' !in d
    decreases |s|
  {
    if s != "" {
      if s[0] == ' ' {
        PiecesHaveNoNul(s[1..]);
      } else {
        var k := IndexOf(s, ' ');
        FirstPiece(s);
        if k < |s| {
          PiecesHaveNoNul(s[k + 1..]);
        }
      }
    }
  }

  /**
   * The splitting in os_exec. `buf` is the copy of the argument with its NUL. In the end `argv[1..]`
   * are the first 29 non-empty pieces of the argument, as strings inside the buffer, with NULL after
   * them; the buffer is changed in no place but spaces.
   */
  method SplitArgs(buf: array<char>, argv: array<Arg>, ghost arg: string) returns (i: nat)
    requires buf[..] == arg + [NUL] && NUL !in arg && argv.Length == MAX_ARG + 1
    modifies buf, argv
    ensures i == 1 + |First29(Pieces(arg))| && argv[0] == Program && argv[i] == Null
    ensures forall j | 0 <= j < i - 1 :: Holds(buf[..], argv[j + 1], Pieces(arg)[j])
    ensures OnlySpacesCut(old(buf[..]), buf[..])
  {
    ghost var done;
    i, done := SplitLoop(buf, argv, arg);
    ghost var before := argv[..];
    argv[i] := Null;
    PiecesHaveNoNul(arg);
    forall j | 0 <= j < i - 1 ensures Holds(buf[..], argv[j + 1], Pieces(arg)[j]) {
      assert PlacedAt(buf[..], before[j + 1], done[j], buf.Length);
      assert done[j] == Pieces(arg)[j] && Pieces(arg)[j] in Pieces(arg);
      StandsReads(buf[..], argv[j + 1].pos, done[j], buf.Length);
    }
  }

  /** The argument points at a C string in the buffer that says `piece`. */
  predicate Holds(buf: seq<char>, arg: Arg, piece: string) {
    arg.At? && arg.pos < |buf| && NUL in buf[arg.pos..] && Text(buf[arg.pos..]) == piece
  }
}
