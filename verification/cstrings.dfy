/** C strings in arrays: the bounded copy of socket/os_unix.c and the command framing built on it. */
module CStrings {

  const NUL: char := '\0'

  /** strlen: the index of the first NUL. */
  function Len(s: seq<char>): (n: nat)
    requires NUL in s
    ensures n < |s| && s[n] == NUL && forall k :: 0 <= k < n ==> s[k] != NUL
  {
    if s[0] == NUL then 0 else 1 + Len(s[1..])
  }

  /** What the string in `s` says. */
  function Text(s: seq<char>): string
    requires NUL in s
  {
    s[..Len(s)]
  }

  lemma LenIs(s: seq<char>, n: nat)
    requires n < |s| && s[n] == NUL && forall k :: 0 <= k < n ==> s[k] != NUL
    ensures NUL in s && Len(s) == n
  {
    assert s[n] in s;
  }

  function Min(a: int, b: int): int {
    if a < b then a else b
  }

  /**
   * os_strlcpy. The result is the length of the source; with `siz` positive the first `siz` bytes of
   * the destination receive as much of it as fits with a NUL after it, and nothing else is written.
   */
  method StrlCpy(dest: array<char>, src: array<char>, siz: nat) returns (r: nat)
    requires siz <= dest.Length && NUL in src[..] && dest != src
    modifies dest
    ensures r == Len(src[..])
    ensures siz > 0 ==>
      var n := Min(r, siz - 1);
      dest[..n] == src[..n] && dest[n] == NUL && dest[n + 1..] == old(dest[n + 1..])
    ensures siz == 0 ==> dest[..] == old(dest[..])
  {
    ghost var len, was := Len(src[..]), dest[..];
    var s, d, left := 0, 0, siz;
    if left != 0 {
      left := left - 1;
      while left != 0
        invariant s == d <= len && d + left == siz - 1
        invariant dest[..d] == src[..d] && dest[d..] == was[d..]
      {
        dest[d] := src[s];
        d, s := d + 1, s + 1;
        if src[s - 1] == NUL {
          assert s == len + 1;
          break;
        }
        left := left - 1;
      }
    }
    if left == 0 {
      if siz != 0 {
        dest[d] := NUL;
      }
      while src[s] != NUL
        invariant s <= len
        decreases len - s
      {
        s := s + 1;
      }
      s := s + 1;
    }
    r := s - 1;
  }

  /** The framing in wpa_ctrl_request: the buffer is filled with exactly the cookie, a space and the command. */
  method Frame(cookie: array<char>, cmd: string) returns (buf: array<char>)
    requires NUL in cookie[..]
    ensures fresh(buf) && buf[..] == Text(cookie[..]) + " " + cmd
  {
    var n := 0;
    while cookie[n] != NUL
      invariant n <= Len(cookie[..])
      decreases Len(cookie[..]) - n
    {
      n := n + 1;
    }
    ghost var c, text := cookie[..], Text(cookie[..]);
    LenIs(cookie[..], n);
    buf := new char[n + 1 + |cmd|](_ => NUL);
    var r := StrlCpy(buf, cookie, buf.Length);
    assert buf[..n] == text;
    buf[n] := ' ';
    forall i | 0 <= i < |cmd| {
      buf[n + 1 + i] := cmd[i];
    }
    assert buf[..n] == text;
    Framed(buf[..], text, cmd, n);
    assert cookie[..] == c;
  }

  lemma Framed(buf: seq<char>, text: string, cmd: string, n: nat)
    requires |buf| == n + 1 + |cmd| && buf[..n] == text && buf[n] == ' '
    requires forall i | 0 <= i < |cmd| :: buf[n + 1 + i] == cmd[i]
    ensures buf == text + " " + cmd
  {
    assert buf[n + 1..] == cmd;
    assert buf == buf[..n] + [buf[n]] + buf[n + 1..];
  }
}
