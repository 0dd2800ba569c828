/** The parser against a reference printer, and what it makes of any text at all. */
module Printer {
  import opened Basics
  import opened Strings
  import opened Parser

  // ---------- any text ----------

  function KeyAt(line: string): Key {
    match Split(line)
    case None => Unknown
    case Some(kv) => KeyOf(kv.0)
  }

  function ValueAt(line: string): string {
    match Split(line)
    case None => ""
    case Some(kv) => kv.1
  }

  lemma ApplyLineCounter(line: string, c: Client, f: Counter)
    ensures Get(ApplyLine(line, c), f) == if KeyAt(line) == Count(f) then ParseUint32(Trim(ValueAt(line))) else Get(c, f)
  {
  }

  /** The last line with a counter's key decides its value; without one it keeps the value it had. */
  lemma {:induction false} LastOccurrenceWins(lines: seq<string>, c: Client, f: Counter, i: nat)
    requires i <= |lines| && forall j | i <= j < |lines| :: KeyAt(lines[j]) != Count(f)
    requires i > 0 ==> KeyAt(lines[i - 1]) == Count(f)
    ensures Get(ApplyLines(lines, c), f) == if i == 0 then Get(c, f) else ParseUint32(Trim(ValueAt(lines[i - 1])))
  {
    hide ApplyLine, KeyAt, ValueAt;
    if lines != [] {
      var n := |lines|;
      ApplyLineCounter(lines[n - 1], ApplyLines(lines[..n - 1], c), f);
      if i < n {
        LastOccurrenceWins(lines[..n - 1], c, f, i);
      }
    }
  }

  function FlagsIn(lines: seq<string>): seq<string> {
    if lines == [] then []
    else (if KeyAt(lines[0]) == Flags then FindFlags(ValueAt(lines[0])) else []) + FlagsIn(lines[1..])
  }

  lemma {:induction false} FlagsInSnoc(lines: seq<string>, line: string)
    ensures FlagsIn(lines + [line]) == FlagsIn(lines) + if KeyAt(line) == Flags then FindFlags(ValueAt(line)) else []
  {
    hide FindFlags, KeyAt, ValueAt;
    if lines == [] {
      assert (lines + [line])[1..] == [];
    } else {
      FlagsInSnoc(lines[1..], line);
      assert (lines + [line])[1..] == lines[1..] + [line];
    }
  }

  lemma ApplyLineFlags(line: string, c: Client)
    ensures var c' := ApplyLine(line, c);
      && c'.flags == c.flags + (if KeyAt(line) == Flags then FindFlags(ValueAt(line)) else [])
      && c'.addr == c.addr && c'.socketName == c.socketName
  {
    hide FindFlags, ParseUint32, Trim, ToLower, IndexOf;
  }

  /** Flags accumulate over all flags lines, in order; the address and the socket name are left alone. */
  lemma {:induction false} FlagsAccumulate(lines: seq<string>, c: Client)
    ensures var c' := ApplyLines(lines, c);
      c'.flags == c.flags + FlagsIn(lines) && c'.addr == c.addr && c'.socketName == c.socketName
  {
    hide ApplyLine, FindFlags, KeyAt, ValueAt;
    if lines != [] {
      var n := |lines|;
      FlagsAccumulate(lines[..n - 1], c);
      ApplyLineFlags(lines[n - 1], ApplyLines(lines[..n - 1], c));
      FlagsInSnoc(lines[..n - 1], lines[n - 1]);
      assert lines[..n - 1] + [lines[n - 1]] == lines;
    }
  }

  /** A flag as the pattern can match it, within one line. */
  predicate PlainFlag(f: string) {
    f != "" && ']' !in f && '\n' !in f
  }

  lemma {:induction false} FoundFlagsArePlain(v: string)
    requires '\n' !in v
    ensures forall f | f in FindFlags(v) :: PlainFlag(f)
    decreases |v|
  {
    if v != "" {
      var j := IndexOf(v[1..], ']');
      if v[0] == '[' && 0 < j < |v| - 1 {
        FoundFlagsArePlain(v[j + 2..]);
        assert v[1..j + 1] == v[1..][..j];
      } else {
        FoundFlagsArePlain(v[1..]);
      }
    }
  }

  lemma {:induction false} LinesHaveNoBreaks(s: string)
    ensures forall l | l in Lines(s) :: '\n' !in l
    decreases |s|
  {
    hide IndexOf;
    if s != "" {
      var i := IndexOf(s, '\n');
      if i < |s| {
        LinesHaveNoBreaks(s[i + 1..]);
      }
    }
  }

  lemma {:induction false} LineFlagsArePlain(lines: seq<string>)
    requires forall l | l in lines :: '\n' !in l
    ensures forall f | f in FlagsIn(lines) :: PlainFlag(f)
  {
    if lines != [] {
      assert lines[0] in lines;
      FoundFlagsArePlain(ValueAt(lines[0]));
      LineFlagsArePlain(lines[1..]);
    }
  }

  /** Whatever the text, the address has no line break and every flag is non-empty without ']' or line break. */
  lemma ParsedIsPlain(tok: string)
    ensures '\n' !in Parse(tok).addr && forall f | f in Parse(tok).flags :: PlainFlag(f)
  {
    LinesHaveNoBreaks(tok);
    var lines := Lines(tok);
    if lines != [] {
      assert lines[0] in lines;
      FlagsAccumulate(lines[1..], EMPTY.(addr := lines[0]));
      LineFlagsArePlain(lines[1..]);
    }
  }

  // ---------- the reference printer ----------

  function Brackets(flags: seq<string>): string {
    if flags == [] then "" else "[" + flags[0] + "]" + Brackets(flags[1..])
  }

  function FlagsLine(flags: seq<string>): string {
    "flags=" + Brackets(flags)
  }

  /** The lines after the address, in the order hostapd reports them. */
  function Settings(c: Client): seq<string> {
    [FlagsLine(c.flags),
     CountLine(ConnectedTime, c.connectedTime), CountLine(IdleMsec, c.idleMsec),
     CountLine(RxPackets, c.rxPackets), CountLine(TxPackets, c.txPackets),
     CountLine(RxBytes, c.rxBytes), CountLine(TxBytes, c.txBytes)]
  }

  function Unlines(lines: seq<string>): string {
    if lines == [] then "" else lines[0] + "\n" + Unlines(lines[1..])
  }

  function Print(c: Client): string {
    c.addr + "\n" + Unlines(Settings(c))
  }

  /** The clients that survive being printed: any counters of 32 bits, no '\r' at the end of the address. */
  predicate Printable(c: Client) {
    '\n' !in c.addr && DropCR(c.addr) == c.addr && forall f | f in c.flags :: PlainFlag(f)
  }

  predicate Counts32(c: Client) {
    forall f: Counter :: Get(c, f) <= MAX_UINT32
  }

  lemma {:induction false} IndexInside(a: string, c: char, rest: string)
    requires c !in a
    ensures IndexOf(a + [c] + rest, c) == |a|
  {
    if a != "" {
      assert (a + [c] + rest)[1..] == a[1..] + [c] + rest;
      IndexInside(a[1..], c, rest);
    }
  }

  lemma LinesCons(a: string, rest: string)
    requires '\n' !in a
    ensures Lines(a + "\n" + rest) == [DropCR(a)] + Lines(rest)
  {
    var s := a + "\n" + rest;
    IndexInside(a, '\n', rest);
    assert s[..|a|] == a && s[|a| + 1..] == rest;
  }

  /** A key as hostapd spells it. */
  predicate PlainKey(s: string) {
    s != "" && forall i | 0 <= i < |s| :: 'a' <= s[i] <= 'z' || s[i] == '_'
  }

  lemma PlainKeyIsItself(s: string)
    requires PlainKey(s)
    ensures ToLower(Trim(s)) == s && '=' !in s && '\n' !in s
  {
    assert TrimLeft(s) == s;
    assert TrimRight(s) == s;
  }

  function Name(f: Counter): string {
    match f
    case ConnectedTime => "connected_time"
    case IdleMsec => "idle_msec"
    case RxPackets => "rx_packets"
    case TxPackets => "tx_packets"
    case RxBytes => "rx_bytes"
    case TxBytes => "tx_bytes"
  }

  lemma NamesArePlain(f: Counter)
    ensures PlainKey(Name(f)) && KeyNamed(Name(f)) == Count(f)
  {
  }

  lemma DecimalIsTight(n: nat)
    ensures Trim(Decimal(n)) == Decimal(n) && '\n' !in Decimal(n) && DropCR(Decimal(n)) == Decimal(n)
  {
    DecimalInverse(n);
    var s := Decimal(n);
    hide Decimal;
    assert IsDigit(s[0]) && IsDigit(s[|s| - 1]);
  }

  function CountLine(f: Counter, n: nat): string {
    Name(f) + "=" + Decimal(n)
  }

  lemma CounterLine(f: Counter, n: nat, c: Client)
    requires n <= MAX_UINT32
    ensures ApplyLine(CountLine(f, n), c) == Set(c, f, n)
    ensures '\n' !in CountLine(f, n) && DropCR(CountLine(f, n)) == CountLine(f, n)
  {
    hide IndexOf, Trim, ToLower, Decimal, IsDecimal, DecimalValue, Name, KeyNamed, PlainKey;
    var line := CountLine(f, n);
    NamesArePlain(f);
    PlainKeyIsItself(Name(f));
    IndexInside(Name(f), '=', Decimal(n));
    assert line[..|Name(f)|] == Name(f) && line[|Name(f)| + 1..] == Decimal(n);
    DecimalIsTight(n);
    DecimalInverse(n);
    DecimalNonEmpty(n);
  }

  lemma DecimalNonEmpty(n: nat)
    ensures Decimal(n) != ""
  {
  }

  lemma {:induction false} BracketsOneLine(flags: seq<string>)
    requires forall f | f in flags :: PlainFlag(f)
    ensures '\n' !in Brackets(flags)
    ensures flags != [] ==> Brackets(flags)[|Brackets(flags)| - 1] == ']'
  {
    if flags != [] {
      assert PlainFlag(flags[0]);
      BracketsOneLine(flags[1..]);
    }
  }

  lemma FindFlagsAt(v: string, j: nat)
    requires v != "" && v[0] == '[' && 0 < j < |v| - 1 && IndexOf(v[1..], ']') == j
    ensures FindFlags(v) == [v[1..j + 1]] + FindFlags(v[j + 2..])
  {
  }

  lemma FirstFlag(f: string, rest: string)
    requires PlainFlag(f)
    ensures FindFlags("[" + f + "]" + rest) == [f] + FindFlags(rest)
  {
    hide FindFlags;
    var v := "[" + f + "]" + rest;
    IndexInside(f, ']', rest);
    assert v[1..] == f + [']'] + rest;
    FindFlagsAt(v, |f|);
    assert v[1..|f| + 1] == f && v[|f| + 2..] == rest;
  }

  lemma {:induction false} BracketsInverse(flags: seq<string>)
    requires forall f | f in flags :: PlainFlag(f)
    ensures FindFlags(Brackets(flags)) == flags
  {
    if flags != [] {
      assert PlainFlag(flags[0]);
      BracketsInverse(flags[1..]);
      FirstFlag(flags[0], Brackets(flags[1..]));
      assert [flags[0]] + flags[1..] == flags;
    }
  }

  lemma {:induction false} LinesOfUnlines(lines: seq<string>)
    requires forall l | l in lines :: '\n' !in l && DropCR(l) == l
    ensures Lines(Unlines(lines)) == lines
  {
    if lines != [] {
      assert lines[0] in lines;
      LinesCons(lines[0], Unlines(lines[1..]));
      LinesOfUnlines(lines[1..]);
    }
  }

  lemma FlagsLineParses(flags: seq<string>, c: Client)
    requires forall f | f in flags :: PlainFlag(f)
    ensures ApplyLine(FlagsLine(flags), c) == c.(flags := c.flags + flags)
    ensures '\n' !in FlagsLine(flags) && DropCR(FlagsLine(flags)) == FlagsLine(flags)
  {
    var line, v := FlagsLine(flags), Brackets(flags);
    PlainKeyIsItself("flags");
    assert line == "flags" + ['='] + v;
    IndexInside("flags", '=', v);
    assert line[..5] == "flags" && line[6..] == v;
    BracketsInverse(flags);
    BracketsOneLine(flags);
  }

  lemma {:induction false} ApplyLinesCons(line: string, rest: seq<string>, c: Client)
    ensures ApplyLines([line] + rest, c) == ApplyLines(rest, ApplyLine(line, c))
  {
    var lines := [line] + rest;
    if rest == [] {
      assert lines[..0] == [];
    } else {
      assert lines[..|lines| - 1] == [line] + rest[..|rest| - 1];
      ApplyLinesCons(line, rest[..|rest| - 1], c);
    }
  }

  lemma CountLinesApply(f: Counter, n: nat, rest: seq<string>, c: Client)
    requires n <= MAX_UINT32
    ensures ApplyLines([CountLine(f, n)] + rest, c) == ApplyLines(rest, Set(c, f, n))
  {
    ApplyLinesCons(CountLine(f, n), rest, c);
    CounterLine(f, n, c);
  }

  lemma ThreeCountLinesApply(f: Counter, g: Counter, h: Counter, c: Client, rest: seq<string>, base: Client)
    requires Counts32(c)
    ensures ApplyLines([CountLine(f, Get(c, f)), CountLine(g, Get(c, g)), CountLine(h, Get(c, h))] + rest, base)
         == ApplyLines(rest, Set(Set(Set(base, f, Get(c, f)), g, Get(c, g)), h, Get(c, h)))
  {
    hide ApplyLines, CountLine, Get, Set;
    var l1, l2, l3 := CountLine(f, Get(c, f)), CountLine(g, Get(c, g)), CountLine(h, Get(c, h));
    assert [l1, l2, l3] + rest == [l1] + ([l2] + ([l3] + rest));
    var b1 := Set(base, f, Get(c, f));
    var b2 := Set(b1, g, Get(c, g));
    CountLinesApply(f, Get(c, f), [l2] + ([l3] + rest), base);
    CountLinesApply(g, Get(c, g), [l3] + rest, b1);
    CountLinesApply(h, Get(c, h), rest, b2);
  }

  lemma SettingsParse(c: Client, base: Client)
    requires Counts32(c) && forall f | f in c.flags :: PlainFlag(f)
    ensures ApplyLines(Settings(c), base) == c.(addr := base.addr, socketName := base.socketName, flags := base.flags + c.flags)
  {
    hide ApplyLine, CountLine, FlagsLine;
    var l := Settings(c);
    var b0 := base.(flags := base.flags + c.flags);
    assert l == [l[0]] + l[1..] && l[1..] == l[1..4] + l[4..] && l[4..] == l[4..] + [];
    assert l[1..4] == [CountLine(ConnectedTime, Get(c, ConnectedTime)), CountLine(IdleMsec, Get(c, IdleMsec)),
      CountLine(RxPackets, Get(c, RxPackets))];
    assert l[4..] == [CountLine(TxPackets, Get(c, TxPackets)), CountLine(RxBytes, Get(c, RxBytes)), CountLine(TxBytes, Get(c, TxBytes))];
    FlagsLineParses(c.flags, base);
    ApplyLinesCons(l[0], l[1..], base);
    ThreeCountLinesApply(ConnectedTime, IdleMsec, RxPackets, c, l[4..], b0);
    var b3 := Set(Set(Set(b0, ConnectedTime, c.connectedTime), IdleMsec, c.idleMsec), RxPackets, c.rxPackets);
    ThreeCountLinesApply(TxPackets, RxBytes, TxBytes, c, [], b3);
  }

  lemma SettingsAreLines(c: Client)
    requires Counts32(c) && forall f | f in c.flags :: PlainFlag(f)
    ensures forall l | l in Settings(c) :: '\n' !in l && DropCR(l) == l
  {
    hide CountLine, FlagsLine, DropCR;
    FlagsLineParses(c.flags, EMPTY);
    forall f: Counter ensures '\n' !in CountLine(f, Get(c, f)) && DropCR(CountLine(f, Get(c, f))) == CountLine(f, Get(c, f)) {
      CounterLine(f, Get(c, f), EMPTY);
    }
    assert Settings(c) == [FlagsLine(c.flags), CountLine(ConnectedTime, Get(c, ConnectedTime)), CountLine(IdleMsec, Get(c, IdleMsec)),
      CountLine(RxPackets, Get(c, RxPackets)), CountLine(TxPackets, Get(c, TxPackets)),
      CountLine(RxBytes, Get(c, RxBytes)), CountLine(TxBytes, Get(c, TxBytes))];
  }

  /** parseCli inverts the printer, up to the socket name its caller fills in. */
  lemma PrintedParses(c: Client)
    requires Counts32(c) && Printable(c)
    ensures Parse(Print(c)) == c.(socketName := "")
  {
    LinesCons(c.addr, Unlines(Settings(c)));
    SettingsAreLines(c);
    LinesOfUnlines(Settings(c));
    assert Lines(Print(c))[1..] == Settings(c);
    SettingsParse(c, EMPTY.(addr := c.addr));
  }

  /** The first line of any text is at most what stands before its first line break, less a final '\r'. */
  lemma AddressIsFirstLine(addr: string, rest: string)
    requires '\n' !in addr
    ensures Parse(addr + "\n" + rest).addr == DropCR(addr)
  {
    LinesCons(addr, rest);
    FlagsAccumulate(Lines(rest), EMPTY.(addr := DropCR(addr)));
    assert Lines(addr + "\n" + rest)[1..] == Lines(rest);
  }

  /** The printable clients are exactly those that parseCli gives back. */
  lemma RoundTripIff(c: Client)
    requires Counts32(c)
    ensures Parse(Print(c)) == c.(socketName := "") <==> Printable(c)
  {
    if Printable(c) {
      PrintedParses(c);
    } else {
      ParsedIsPlain(Print(c));
      if '\n' !in c.addr {
        AddressIsFirstLine(c.addr, Unlines(Settings(c)));
      }
    }
  }
}
