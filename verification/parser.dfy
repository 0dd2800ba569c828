/** The station parser of server/service.go: one reply of STA-FIRST or STA-NEXT becomes one client. */
module Parser {
  import opened Basics
  import opened Strings

  const MAX_UINT32 := 0xFFFF_FFFF

  datatype Counter = ConnectedTime | IdleMsec | RxPackets | TxPackets | RxBytes | TxBytes

  datatype Client = Client(addr: string, flags: seq<string>, connectedTime: nat, idleMsec: nat,
                           rxPackets: nat, txPackets: nat, rxBytes: nat, txBytes: nat, socketName: string)

  const EMPTY := Client("", [], 0, 0, 0, 0, 0, 0, "")

  function Get(c: Client, f: Counter): nat {
    match f
    case ConnectedTime => c.connectedTime
    case IdleMsec => c.idleMsec
    case RxPackets => c.rxPackets
    case TxPackets => c.txPackets
    case RxBytes => c.rxBytes
    case TxBytes => c.txBytes
  }

  function Set(c: Client, f: Counter, n: nat): Client {
    match f
    case ConnectedTime => c.(connectedTime := n)
    case IdleMsec => c.(idleMsec := n)
    case RxPackets => c.(rxPackets := n)
    case TxPackets => c.(txPackets := n)
    case RxBytes => c.(rxBytes := n)
    case TxBytes => c.(txBytes := n)
  }

  // ---------- text ----------

  function DropCR(s: string): (r: string)
    ensures s == r || s == r + "\r"
    ensures r != s <==> s != "" && s[|s| - 1] == '\r'
  {
    if s != "" && s[|s| - 1] == '\r' then s[..|s| - 1] else s
  }

  /** bufio.ScanLines: lines end at '\n', lose one trailing '\r', and a last unfinished line counts unless empty. */
  function Lines(s: string): seq<string> {
    if s == "" then []
    else
      var i := IndexOf(s, '\n');
      if i == |s| then [DropCR(s)] else [DropCR(s[..i])] + Lines(s[i + 1..])
  }

  /** Unicode white space, as strings.TrimSpace has it. */
  predicate IsSpace(c: char): (r: bool)
    ensures r <==> c as int in {9, 10, 11, 12, 13, 32, 0x85, 0xA0, 0x1680, 0x2000, 0x2001, 0x2002, 0x2003, 0x2004, 0x2005, 0x2006,
                                0x2007, 0x2008, 0x2009, 0x200A, 0x2028, 0x2029, 0x202F, 0x205F, 0x3000}
  {
    c == ' ' || '\t' <= c <= '\r' || c == '\U{85}' || c == '\U{A0}' || c == '\U{1680}' || '\U{2000}' <= c <= '\U{200A}'
    || c == '\U{2028}' || c == '\U{2029}' || c == '\U{202F}' || c == '\U{205F}' || c == '\U{3000}'
  }

  function TrimLeft(s: string): string {
    if s != "" && IsSpace(s[0]) then TrimLeft(s[1..]) else s
  }

  function TrimRight(s: string): string {
    if s != "" && IsSpace(s[|s| - 1]) then TrimRight(s[..|s| - 1]) else s
  }

  function Trim(s: string): string {
    TrimRight(TrimLeft(s))
  }

  /** Lower case, for the letters whose lower case is ASCII: besides A to Z, the Kelvin sign and the dotted capital I. */
  function Lower(c: char): char {
    if 'A' <= c <= 'Z' then c - 'A' + 'a'
    else if c == '\U{212A}' then 'k'
    else if c == '\U{130}' then 'i'
    else c
  }

  function ToLower(s: string): string {
    seq(|s|, i requires 0 <= i < |s| => Lower(s[i]))
  }

  // ---------- numbers ----------

  predicate IsDigit(c: char) {
    '0' <= c <= '9'
  }

  predicate IsDecimal(s: string) {
    s != "" && forall c | c in s :: IsDigit(c)
  }

  function DecimalValue(s: string): nat
    requires forall c | c in s :: IsDigit(c)
  {
    if s == "" then 0 else
      assert IsDigit(s[|s| - 1]);
      DecimalValue(s[..|s| - 1]) * 10 + (s[|s| - 1] - '0') as nat
  }

  /** parseUint32: the decimal value, or 0 when malformed or too large. */
  function ParseUint32(s: string): (n: nat)
    ensures n <= MAX_UINT32
  {
    if IsDecimal(s) && DecimalValue(s) <= MAX_UINT32 then DecimalValue(s) else 0
  }

  function Decimal(n: nat): string {
    (if n < 10 then "" else Decimal(n / 10)) + [(n % 10) as char + '0']
  }

  lemma {:induction false} DecimalInverse(n: nat)
    ensures IsDecimal(Decimal(n)) && DecimalValue(Decimal(n)) == n
  {
    var s := Decimal(n);
    if n >= 10 {
      DecimalInverse(n / 10);
      assert s[..|s| - 1] == Decimal(n / 10);
    } else {
      assert s[..|s| - 1] == "";
    }
  }

  function Zeros(n: nat): string {
    seq(n, i => '0')
  }

  lemma LastDigit(s: string)
    requires IsDecimal(s)
    ensures var front, d := s[..|s| - 1], s[|s| - 1];
      && s == front + [d] && IsDigit(d) && (front != "" ==> IsDecimal(front))
      && DecimalValue(s) / 10 == DecimalValue(front) && (DecimalValue(s) % 10) as char + '0' == d
  {
    var front, d := s[..|s| - 1], s[|s| - 1];
    assert s == front + [d] && d in s;
  }

  /** A string of digits is some zeros and then the decimal form of its value. */
  lemma {:induction false} DecimalForm(s: string) returns (z: nat)
    requires IsDecimal(s)
    ensures s == Zeros(z) + Decimal(DecimalValue(s))
  {
    LastDigit(s);
    var front, d := s[..|s| - 1], s[|s| - 1];
    var u, v := DecimalValue(front), DecimalValue(s);
    assert Decimal(v) == if v < 10 then [d] else Decimal(u) + [d];
    hide IsDecimal, DecimalValue, Decimal, Zeros;
    NoDigits();
    if front == "" {
      z := 0;
      NoZeros(s);
    } else {
      z := DecimalForm(front);
      if u == 0 {
        OneZeroMore(z, [d]);
        z := z + 1;
      } else {
        Associates(Zeros(z), Decimal(u), [d]);
      }
    }
  }

  lemma NoDigits()
    ensures DecimalValue("") == 0 && Decimal(0) == "0"
  {
  }

  lemma NoZeros(s: string)
    ensures Zeros(0) + s == s
  {
  }

  lemma OneZeroMore(z: nat, s: string)
    ensures (Zeros(z) + "0") + s == Zeros(z + 1) + s
  {
    assert Zeros(z) + "0" == Zeros(z + 1);
  }

  lemma Associates(a: string, b: string, c: string)
    ensures (a + b) + c == a + (b + c)
  {
  }

  lemma {:induction false} ZerosKeepValue(z: nat, s: string)
    requires IsDecimal(s)
    ensures IsDecimal(Zeros(z) + s) && DecimalValue(Zeros(z) + s) == DecimalValue(s)
    decreases |s|
  {
    var t := Zeros(z) + s;
    assert t[..|t| - 1] == Zeros(z) + s[..|s| - 1];
    if |s| > 1 {
      ZerosKeepValue(z, s[..|s| - 1]);
    } else {
      assert t[..|t| - 1] == Zeros(z);
      ZerosAreZero(z);
    }
  }

  lemma {:induction false} ZerosAreZero(z: nat)
    ensures z > 0 ==> IsDecimal(Zeros(z)) && DecimalValue(Zeros(z)) == 0
  {
    if z > 1 {
      ZerosAreZero(z - 1);
      assert Zeros(z)[..z - 1] == Zeros(z - 1);
    }
  }

  /**
   * parseUint32 gives a positive n exactly for the decimal form of n, with leading zeros or without, and
   * only if n fits 32 bits; for every other string, malformed or too large, it gives 0.
   */
  lemma ParseUint32Iff(s: string, n: nat)
    requires n > 0
    ensures ParseUint32(s) == n <==> n <= MAX_UINT32 && exists z: nat :: s == Zeros(z) + Decimal(n)
  {
    if ParseUint32(s) == n {
      var z := DecimalForm(s);
    }
    if z: nat :| s == Zeros(z) + Decimal(n) {
      DecimalInverse(n);
      ZerosKeepValue(z, Decimal(n));
    }
  }

  // ---------- one line ----------

  datatype Key = Flags | Count(counter: Counter) | Unknown

  function KeyNamed(name: string): Key {
    if name == "flags" then Flags
    else if name == "connected_time" then Count(ConnectedTime)
    else if name == "idle_msec" then Count(IdleMsec)
    else if name == "rx_packets" then Count(RxPackets)
    else if name == "tx_packets" then Count(TxPackets)
    else if name == "rx_bytes" then Count(RxBytes)
    else if name == "tx_bytes" then Count(TxBytes)
    else Unknown
  }

  function KeyOf(k: string): Key {
    KeyNamed(ToLower(Trim(k)))
  }

  /** The groups of the leftmost matches of `\[([^\]]+)\]`. */
  function FindFlags(v: string): seq<string>
    decreases |v|
  {
    if v == "" then []
    else
      var j := IndexOf(v[1..], ']');
      if v[0] == '[' && 0 < j < |v| - 1 then [v[1..j + 1]] + FindFlags(v[j + 2..])
      else FindFlags(v[1..])
  }

  /** parseCliKV as a function of the client's value. */
  function ApplyKV(k: string, v: string, c: Client): Client {
    match KeyOf(k)
    case Flags => c.(flags := c.flags + FindFlags(v))
    case Count(f) => Set(c, f, ParseUint32(Trim(v)))
    case Unknown => c
  }

  /** A line's key and value, split at the first '='; None for a line without one. */
  function Split(line: string): Option<(string, string)> {
    var i := IndexOf(line, '=');
    if i == |line| then None else Some((line[..i], line[i + 1..]))
  }

  function ApplyLine(line: string, c: Client): Client {
    match Split(line)
    case None => c
    case Some(kv) => ApplyKV(kv.0, kv.1, c)
  }

  function ApplyLines(lines: seq<string>, c: Client): Client {
    if lines == [] then c else ApplyLine(lines[|lines| - 1], ApplyLines(lines[..|lines| - 1], c))
  }

  /** parseCli: the first line is the address, the others are settings. */
  function Parse(tok: string): Client {
    var lines := Lines(tok);
    if lines == [] then EMPTY else ApplyLines(lines[1..], EMPTY.(addr := lines[0]))
  }

  // ---------- the code ----------

  /** The *hostapd.Client that parseCli fills in. */
  class Record {
    var client: Client

    constructor ()
      ensures client == EMPTY
    {
      client := EMPTY;
    }

    method ParseKV(k: string, v: string)
      modifies this
      ensures client == ApplyKV(k, v, old(client))
    {
      var key := KeyOf(k);
      match key {
        case Flags =>
          var flags, i := FindFlags(v), 0;
          while i < |flags|
            invariant i <= |flags|
            invariant client == old(client).(flags := old(client).flags + flags[..i])
          {
            client := client.(flags := client.flags + [flags[i]]);
            i := i + 1;
            assert flags[..i] == flags[..i - 1] + [flags[i - 1]];
          }
          assert flags[..i] == flags;
        case Count(f) => client := Set(client, f, ParseUint32(Trim(v)));
        case Unknown =>
      }
    }
  }

  lemma ApplyNext(lines: seq<string>, i: nat, c: Client)
    requires 0 < i < |lines|
    ensures ApplyLines(lines[1..i + 1], c) == ApplyLine(lines[i], ApplyLines(lines[1..i], c))
  {
    hide ApplyLine;
    assert lines[1..i + 1][..i - 1] == lines[1..i];
  }

  method ParseCli(tok: string) returns (ret: Record)
    ensures fresh(ret) && ret.client == Parse(tok)
  {
    var lines := Lines(tok);
    var haveAddr := false;
    ret := new Record();
    for i := 0 to |lines|
      invariant fresh(ret) && haveAddr == (i > 0)
      invariant ret.client == if i == 0 then EMPTY else ApplyLines(lines[1..i], EMPTY.(addr := lines[0]))
    {
      if !haveAddr {
        ret.client := ret.client.(addr := lines[i]);
        haveAddr := true;
        assert lines[1..1] == [];
      } else {
        ApplyNext(lines, i, EMPTY.(addr := lines[0]));
        var m := Split(lines[i]);
        if m.Some? {
          ret.ParseKV(m.value.0, m.value.1);
        }
      }
    }
    if lines != [] {
      assert lines[1..|lines|] == lines[1..];
    }
  }
}
