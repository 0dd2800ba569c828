/**
 * The parser in literals: what lines a text has, what a key is stripped and lowered to, which keys
 * there are and what each does, and which flags a value holds.
 */
module Keys {
  import opened Basics
  import opened Strings
  import opened Parser

  // ---------- lines ----------

  /** A line break ends a line, and a line loses one carriage return at its end. */
  lemma LinesAre(a: string, rest: string)
    requires '\n' !in a
    ensures Lines("") == []
    ensures Lines(a + "\n" + rest) == [if a != "" && a[|a| - 1] == '\r' then a[..|a| - 1] else a] + Lines(rest)
    ensures a != "" ==> Lines(a) == [if a[|a| - 1] == '\r' then a[..|a| - 1] else a]
  {
    hide IndexOf;
    BreakAt(a, rest);
    var s := a + "\n" + rest;
    assert s[..|a|] == a && s[|a| + 1..] == rest;
  }

  lemma {:induction false} BreakAt(a: string, rest: string)
    requires '\n' !in a
    ensures IndexOf(a + "\n" + rest, '\n') == |a|
  {
    if a != "" {
      assert (a + "\n" + rest)[1..] == a[1..] + "\n" + rest;
      BreakAt(a[1..], rest);
    }
  }

  /** parseCli on a text of these lines. */
  function ParseLines(lines: seq<string>): Client {
    if lines == [] then EMPTY else ApplyLines(lines[1..], EMPTY.(addr := lines[0]))
  }

  /** No line makes an empty client, the first the address of one, and every other is applied to what those before it left. */
  lemma ParseIs(tok: string, lines: seq<string>, line: string)
    ensures Parse(tok) == ParseLines(Lines(tok))
    ensures ParseLines([]) == Client("", [], 0, 0, 0, 0, 0, 0, "")
    ensures ParseLines(lines + [line]) ==
      if lines == [] then Client(line, [], 0, 0, 0, 0, 0, 0, "") else ApplyLine(line, ParseLines(lines))
  {
    hide ApplyLine, Lines;
    var all := lines + [line];
    if lines == [] {
      assert all == [line] && all[1..] == [];
    } else {
      assert all[1..] == lines[1..] + [line] && all[1..][..|all| - 2] == lines[1..];
    }
  }

  // ---------- keys ----------

  lemma {:induction false} TrimLeftIs(s: string) returns (i: nat)
    ensures i <= |s| && TrimLeft(s) == s[i..] && (forall k | 0 <= k < i :: IsSpace(s[k])) && (i < |s| ==> !IsSpace(s[i]))
  {
    if s != "" && IsSpace(s[0]) {
      var j := TrimLeftIs(s[1..]);
      i := j + 1;
      assert s[1..][j..] == s[i..];
      assert forall k | 0 < k < i :: s[k] == s[1..][k - 1];
    } else {
      i := 0;
    }
  }

  lemma {:induction false} TrimRightIs(s: string) returns (j: nat)
    ensures j <= |s| && TrimRight(s) == s[..j] && (forall k | j <= k < |s| :: IsSpace(s[k])) && (j > 0 ==> !IsSpace(s[j - 1]))
  {
    if s != "" && IsSpace(s[|s| - 1]) {
      j := TrimRightIs(s[..|s| - 1]);
      assert s[..|s| - 1][..j] == s[..j];
      assert forall k | 0 <= k < |s| - 1 :: s[k] == s[..|s| - 1][k];
    } else {
      j := |s|;
    }
  }

  /** Stripping cuts a slice out: white space is all it drops, and it leaves none at either end. */
  lemma TrimIs(s: string) returns (i: nat, j: nat)
    ensures i <= j <= |s| && Trim(s) == s[i..j]
    ensures forall k | 0 <= k < |s| && (k < i || j <= k) :: IsSpace(s[k])
    ensures i < j ==> !IsSpace(s[i]) && !IsSpace(s[j - 1])
  {
    hide IsSpace;
    i := TrimLeftIs(s);
    var t := s[i..];
    var n := TrimRightIs(t);
    j := i + n;
    assert t[..n] == s[i..j];
    assert forall k | i <= k < |s| :: s[k] == t[k - i];
  }

  /**
   * Lowering works letter by letter. It leaves every other ASCII character alone, and of the others turns
   * only the Kelvin sign and the dotted capital I into ASCII letters.
   */
  lemma LowerIs(s: string, i: nat)
    requires i < |s|
    ensures |ToLower(s)| == |s|
    ensures 'A' <= s[i] <= 'Z' ==> ToLower(s)[i] as int == s[i] as int + 32
    ensures !('A' <= s[i] <= 'Z') && s[i] as int !in {0x212A, 0x130} ==> ToLower(s)[i] == s[i]
    ensures s[i] as int == 0x212A ==> ToLower(s)[i] == 'k'
    ensures s[i] as int == 0x130 ==> ToLower(s)[i] == 'i'
  {
  }

  /** The text of a line before its first '=' and behind it. */
  lemma {:induction false} SplitIs(k: string, v: string)
    requires '=' !in k
    ensures Split(k + "=" + v) == Some((k, v))
    ensures Split(k) == None
  {
    hide IndexOf;
    EqualsAt(k, v);
    var line := k + "=" + v;
    assert line[..|k|] == k && line[|k| + 1..] == v;
  }

  lemma {:induction false} EqualsAt(k: string, v: string)
    requires '=' !in k
    ensures IndexOf(k + "=" + v, '=') == |k|
  {
    if k != "" {
      assert (k + "=" + v)[1..] == k[1..] + "=" + v;
      EqualsAt(k[1..], v);
    }
  }

  /**
   * One line. Only a line with '=' does anything, and only under the seven keys: each counter is set
   * by its own key alone, the flags grow by theirs alone, and the address and the socket's name stay.
   */
  lemma LineIs(k: string, v: string, c: Client)
    requires '=' !in k
    ensures ApplyLine(k, c) == c
    ensures var key, n, c' := ToLower(Trim(k)), ParseUint32(Trim(v)), ApplyLine(k + "=" + v, c);
      && c'.flags == c.flags + (if key == "flags" then FindFlags(v) else [])
      && c'.connectedTime == (if key == "connected_time" then n else c.connectedTime)
      && c'.idleMsec == (if key == "idle_msec" then n else c.idleMsec)
      && c'.rxPackets == (if key == "rx_packets" then n else c.rxPackets)
      && c'.txPackets == (if key == "tx_packets" then n else c.txPackets)
      && c'.rxBytes == (if key == "rx_bytes" then n else c.rxBytes)
      && c'.txBytes == (if key == "tx_bytes" then n else c.txBytes)
      && c'.addr == c.addr && c'.socketName == c.socketName
  {
    hide Split, ToLower, Trim, ParseUint32, FindFlags;
    SplitIs(k, v);
    KeysApart();
  }

  lemma KeysApart()
    ensures |"flags"| == 5 && |"connected_time"| == 14 && |"idle_msec"| == 9
    ensures "rx_packets"[0] == 'r' && "tx_packets"[0] == 't' && |"rx_packets"| == |"tx_packets"| == 10
    ensures "rx_bytes"[0] == 'r' && "tx_bytes"[0] == 't' && |"rx_bytes"| == |"tx_bytes"| == 8
  {
  }

  /** A line whose key is none of the seven gives back the client unchanged. */
  lemma UnknownKeyIgnored(k: string, v: string, c: Client)
    requires '=' !in k
    requires ToLower(Trim(k)) !in {"flags", "connected_time", "idle_msec", "rx_packets", "tx_packets", "rx_bytes", "tx_bytes"}
    ensures ApplyLine(k + "=" + v, c) == c
  {
    hide Split, ToLower, Trim, ParseUint32, FindFlags;
    SplitIs(k, v);
  }

  // ---------- flags ----------

  /** `v[i..j + 1]` is an opening bracket, one or more characters that are no closing bracket, and a closing one. */
  predicate Bracketed(v: string, i: nat, j: nat) {
    i + 1 < j < |v| && v[i] == '[' && v[j] == ']' && forall k | i < k < j :: v[k] != ']'
  }

  lemma BracketAt(v: string, j: nat)
    requires Bracketed(v, 0, j)
    ensures IndexOf(v[1..], ']') == j - 1
  {
    hide IndexOf;
    var t := v[1..];
    assert t[j - 1] == ']' && forall k | 0 <= k < j - 1 :: t[k] == v[k + 1];
  }

  lemma FoundIsBracketed(v: string)
    requires v != "" && v[0] == '[' && 0 < IndexOf(v[1..], ']') < |v| - 1
    ensures Bracketed(v, 0, IndexOf(v[1..], ']') + 1)
  {
    hide IndexOf;
    var j := IndexOf(v[1..], ']');
    assert forall k | 0 < k < j + 1 :: v[k] == v[1..][k - 1];
    assert v[j + 1] == v[1..][j];
  }

  lemma NoBracketAt(v: string)
    requires v != "" && forall j :: !Bracketed(v, 0, j)
    ensures FindFlags(v) == FindFlags(v[1..])
  {
    hide IndexOf;
    if v[0] == '[' && 0 < IndexOf(v[1..], ']') < |v| - 1 {
      FoundIsBracketed(v);
    }
  }

  lemma BracketsShift(v: string, i: nat, j: nat)
    requires v != ""
    ensures Bracketed(v[1..], i, j) <==> Bracketed(v, i + 1, j + 1)
  {
    if Bracketed(v, i + 1, j + 1) {
      assert forall k | i < k < j :: v[1..][k] == v[k + 1];
    }
    if Bracketed(v[1..], i, j) {
      assert forall k | i + 1 < k < j + 1 :: v[k] == v[1..][k - 1];
    }
  }

  lemma FlagsAtStart(v: string, j: nat)
    requires Bracketed(v, 0, j)
    ensures FindFlags(v) == [v[1..j]] + FindFlags(v[j + 1..])
  {
    hide IndexOf;
    BracketAt(v, j);
    assert v[1..(j - 1) + 1] == v[1..j] && v[(j - 1) + 2..] == v[j + 1..];
  }

  lemma SlicesShift(v: string, i: nat, j: nat)
    requires 0 < i < j < |v|
    ensures v[1..][i..j - 1] == v[i + 1..j] && v[1..][j..] == v[j + 1..]
  {
  }

  /** The flags of a value are those in its leftmost brackets, and then those of what stands behind them. */
  lemma {:induction false} FlagsLeftmost(v: string, i: nat, j: nat)
    requires Bracketed(v, i, j) && forall i': nat, j': nat | i' < i :: !Bracketed(v, i', j')
    ensures FindFlags(v) == [v[i + 1..j]] + FindFlags(v[j + 1..])
    decreases i
  {
    hide FindFlags;
    if i == 0 {
      FlagsAtStart(v, j);
    } else {
      NoBracketAt(v);
      BracketsShift(v, i - 1, j - 1);
      forall i': nat, j': nat | i' < i - 1 ensures !Bracketed(v[1..], i', j') {
        BracketsShift(v, i', j');
      }
      FlagsLeftmost(v[1..], i - 1, j - 1);
      SlicesShift(v, i, j);
    }
  }

  /** A value without brackets holds no flags. */
  lemma {:induction false} FlagsNone(v: string)
    requires forall i: nat, j: nat :: !Bracketed(v, i, j)
    ensures FindFlags(v) == []
  {
    if v != "" {
      NoBracketAt(v);
      forall i: nat, j: nat ensures !Bracketed(v[1..], i, j) {
        BracketsShift(v, i, j);
      }
      FlagsNone(v[1..]);
    }
  }
}
