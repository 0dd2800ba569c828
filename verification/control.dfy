/** The control request of socket/wpa_ctrl.c over a finite trace of what the system calls return. */
module Control {
  import opened Basics
  import opened CStrings

  // ---------- time (socket/os.h) ----------

  datatype Reltime = Reltime(sec: int, usec: int)

  const SECOND := 1_000_000

  /** What the clock yields: a non-negative time with its microseconds below one second. */
  predicate Normal(t: Reltime) {
    0 <= t.sec && 0 <= t.usec < SECOND
  }

  function Micros(t: Reltime): int {
    t.sec * SECOND + t.usec
  }

  /** os_reltime_sub: the exact difference, with normalized microseconds for normalized operands. */
  method ReltimeSub(a: Reltime, b: Reltime) returns (res: Reltime)
    ensures Micros(res) == Micros(a) - Micros(b)
    ensures Normal(a) && Normal(b) ==> 0 <= res.usec < SECOND
  {
    res := Reltime(a.sec - b.sec, a.usec - b.usec);
    if res.usec < 0 {
      res := res.(sec := res.sec - 1);
      res := res.(usec := res.usec + SECOND);
    }
  }

  /** os_reltime_expired: strictly more than the timeout has passed. */
  method ReltimeExpired(now: Reltime, ts: Reltime, timeout: int) returns (r: bool)
    requires Normal(now) && Normal(ts)
    ensures r <==> Micros(now) - Micros(ts) > timeout * SECOND
  {
    var age := ReltimeSub(now, ts);
    r := age.sec > timeout || (age.sec == timeout && age.usec > 0);
  }

  // ---------- sending ----------

  /**
   * One send: accepted, refused with EAGAIN, EBUSY or EWOULDBLOCK (and then `now` is what the clock
   * says), or refused for good.
   */
  datatype Attempt = Accepted | Busy(now: Reltime) | Refused

  datatype Sending = Sent | GaveUp | StillSending

  ghost predicate Clocked(env: seq<Attempt>) {
    forall i | 0 <= i < |env| && env[i].Busy? :: Normal(env[i].now)
  }

  /** Reading `s` is the one the request remembers as its start: the first with a non-zero second. */
  predicate StartsAt(env: seq<Attempt>, s: nat) {
    s < |env| && env[s].Busy? && env[s].now.sec != 0
    && forall j | 0 <= j < s :: env[j].Busy? && env[j].now.sec == 0
  }

  /** More than five seconds lie between the first reading with a non-zero second, `s`, and reading `i`. */
  ghost predicate Expires(env: seq<Attempt>, s: int, i: int) {
    && 0 <= s < i < |env| && (forall j | 0 <= j <= s :: env[j].Busy?) && env[i].Busy?
    && env[s].now.sec != 0 && (forall j | 0 <= j < s :: env[j].now.sec == 0)
    && env[i].now.sec * 1_000_000 + env[i].now.usec - env[s].now.sec * 1_000_000 - env[s].now.usec > 5_000_000
  }

  ghost predicate Late(env: seq<Attempt>, i: int) {
    exists s :: Expires(env, s, i)
  }

  lemma ExpiryStops(env: seq<Attempt>, i: nat)
    requires i < |env| && env[i].Busy?
    ensures Stops(env, i) <==> Late(env, i)
  {
    if Stops(env, i) {
      var s: nat :| StartsAt(env, s) && s < i && Micros(env[i].now) - Micros(env[s].now) > 5 * SECOND;
      assert Expires(env, s, i);
    }
    if s :| Expires(env, s, i) {
      assert StartsAt(env, s);
    }
  }

  lemma ExpiriesStop(env: seq<Attempt>)
    ensures forall i: nat | i < |env| && env[i].Busy? :: Stops(env, i) <==> Late(env, i)
  {
    hide Stops, Late;
    forall i: nat | i < |env| && env[i].Busy? ensures Stops(env, i) <==> Late(env, i) {
      ExpiryStops(env, i);
    }
  }

  /** The retry loop ends at attempt `i`. */
  ghost predicate Stops(env: seq<Attempt>, i: nat)
    requires i < |env|
  {
    match env[i]
    case Accepted => true
    case Refused => true
    case Busy(now) => exists s: nat :: StartsAt(env, s) && s < i && Micros(now) - Micros(env[s].now) > 5 * SECOND
  }

  /** The send loop stops at the first attempt that is accepted, refused for good, or busy more than 5 s after the recorded start. */
  method SendWithRetry(env: seq<Attempt>) returns (out: Sending, sends: nat)
    requires Clocked(env)
    ensures sends <= |env|
    ensures out.StillSending? ==> sends == |env| && forall j | 0 <= j < sends :: !Stops(env, j)
    ensures !out.StillSending? ==> sends > 0 && Stops(env, sends - 1) && forall j | 0 <= j < sends - 1 :: !Stops(env, j)
    ensures out.Sent? <==> sends > 0 && env[sends - 1].Accepted?
    ensures forall j | 0 <= j < sends - 1 :: env[j].Busy?
    ensures sends > 0 && env[sends - 1].Refused? ==> out.GaveUp?
    ensures out.GaveUp? && env[sends - 1].Busy? ==> Late(env, sends - 1)
    ensures out.StillSending? ==> forall i: nat | i < sends :: !Late(env, i)
    ensures Paced(env) ==> sends <= 7 + (if env != [] && env[0].Busy? && env[0].now.sec == 0 then 1 else 0)
  {
    hide Late, Expires;
    out, sends := StillSending, 0;
    var started := Reltime(0, 0);
    ghost var s: nat := 0;
    while sends < |env|
      invariant sends <= |env|
      invariant forall j | 0 <= j < sends :: env[j].Busy? && !Stops(env, j)
      invariant started.sec == 0 ==> forall j | 0 <= j < sends :: env[j].now.sec == 0
      invariant started.sec != 0 ==> s < sends && StartsAt(env, s) && started == env[s].now
    {
      match env[sends] {
        case Accepted =>
          out, sends := Sent, sends + 1;
          break;
        case Refused =>
          out, sends := GaveUp, sends + 1;
          break;
        case Busy(now) =>
          if started.sec == 0 {
            started, s := now, sends;
          } else {
            var expired := ReltimeExpired(now, started, 5);
            assert expired ==> Stops(env, sends);
            StartUnique(env, s);
            if expired {
              out, sends := GaveUp, sends + 1;
              break;
            }
          }
          sends := sends + 1;
      }
    }
    if Paced(env) {
      RetryBound(env, sends);
    }
    ExpiriesStop(env);
  }

  lemma StartUnique(env: seq<Attempt>, s: nat)
    requires StartsAt(env, s)
    ensures forall s': nat :: StartsAt(env, s') ==> s' == s
  {
  }

  /** Each one-second sleep between attempts advances the clock by at least a second. */
  ghost predicate Paced(env: seq<Attempt>) {
    forall i | 0 < i < |env| && env[i - 1].Busy? && env[i].Busy? :: Micros(env[i].now) >= Micros(env[i - 1].now) + SECOND
  }

  lemma {:induction false} PacedFrom(env: seq<Attempt>, i: nat, j: nat)
    requires Paced(env) && i <= j < |env| && forall k | i <= k <= j :: env[k].Busy?
    ensures Micros(env[j].now) >= Micros(env[i].now) + (j - i) * SECOND
    decreases j
  {
    if i < j {
      PacedFrom(env, i, j - 1);
    }
  }

  /** A request makes at most 7 sends, or 8 if the clock's first reading has second 0 and so is not taken as the start. */
  lemma RetryBound(env: seq<Attempt>, sends: nat)
    requires Clocked(env) && Paced(env) && sends <= |env|
    requires forall j | 0 <= j < sends - 1 :: !Stops(env, j)
    ensures sends <= 7 + (if env != [] && env[0].Busy? && env[0].now.sec == 0 then 1 else 0)
  {
    if sends > 7 {
      assert !Stops(env, 0) && !Stops(env, 1);
      var s := if env[0].now.sec != 0 then 0 else 1;
      PacedFrom(env, 0, 1);
      assert StartsAt(env, s);
      if sends > 7 + s {
        forall k | s <= k <= 6 + s ensures env[k].Busy? {
          assert !Stops(env, k);
        }
        PacedFrom(env, s, 6 + s);
        assert Stops(env, 6 + s);
      }
    }
  }

  /** The bounds are reached: a clock advancing by exactly a second allows 7 sends from second 1, and 8 from second 0. */
  lemma RetryBoundTight(from: nat)
    requires from <= 1
    ensures var env := seq(8, i requires 0 <= i => Busy(Reltime(i + from, 0)));
      Clocked(env) && Paced(env) && Stops(env, 7 - from) && forall j | 0 <= j < 7 - from :: !Stops(env, j)
  {
    var env := seq(8, i requires 0 <= i => Busy(Reltime(i + from, 0)));
    assert StartsAt(env, 1 - from);
    StartUnique(env, 1 - from);
  }

  // ---------- receiving ----------

  /** One turn of the receive loop: how select ended, and if it found a datagram, what recv made of it. */
  datatype Io = Interrupted | SelectFailed | TimedOut | RecvFailed | Datagram(bytes: string)

  datatype Return = Ok | Err(code: int) | Waiting

  function Cut(d: string, cap: nat): string {
    if |d| <= cap then d else d[..cap]
  }

  /** A datagram that announces an event instead of answering: it starts with '<' as seen through the buffer. */
  predicate Unsolicited(d: string, cap: nat) {
    Cut(d, cap) != "" && Cut(d, cap)[0] == '<'
  }

  predicate Skipped(io: Io, cap: nat) {
    io.Interrupted? || (io.Datagram? && Unsolicited(io.bytes, cap))
  }

  /** What msg_cb is given of an event: as much as leaves room for a NUL in the buffer. */
  function Message(d: string, cap: nat): string {
    if |d| < cap then d else Cut(d, if cap == 0 then 0 else cap - 1)
  }

  function Messages(env: seq<Io>, cap: nat): seq<string> {
    if env == [] then []
    else
      var ms := Messages(env[..|env| - 1], cap);
      var io := env[|env| - 1];
      if io.Datagram? && Unsolicited(io.bytes, cap) then ms + [Message(io.bytes, cap)] else ms
  }

  /**
   * The receive loop. It returns at the first turn that is neither an interrupted select nor an
   * event: the reply is that datagram, cut to the buffer; the callback saw exactly the events before
   * it, in order; and nothing is written outside `reply[..replyLen]`.
   */
  method Receive(reply: array<char>, replyLen: nat, withCallback: bool, env: seq<Io>)
    returns (ret: Return, len: nat, msgs: seq<string>, turns: nat)
    requires replyLen <= reply.Length
    modifies reply
    ensures reply[replyLen..] == old(reply[replyLen..])
    ensures turns <= |env| && len <= replyLen
    ensures ret.Waiting? ==> turns == |env| && forall j | 0 <= j < turns :: Skipped(env[j], replyLen)
    ensures !ret.Waiting? ==> turns > 0 && !Skipped(env[turns - 1], replyLen)
                              && forall j | 0 <= j < turns - 1 :: Skipped(env[j], replyLen)
    ensures ret.Ok? <==> turns > 0 && env[turns - 1].Datagram? && !ret.Waiting?
    ensures ret.Ok? ==> len == |Cut(env[turns - 1].bytes, replyLen)| && reply[..len] == Cut(env[turns - 1].bytes, replyLen)
    ensures !ret.Ok? ==> len == replyLen
    ensures ret.Err? ==> ret.code == (if env[turns - 1].TimedOut? then -2 else -1)
    ensures msgs == if withCallback then Messages(env[..if ret.Waiting? then turns else turns - 1], replyLen) else []
  {
    hide Cut, Message, Unsolicited;
    ret, len, msgs, turns := Waiting, replyLen, [], 0;
    while turns < |env|
      invariant turns <= |env| && len == replyLen && ret.Waiting?
      invariant reply[replyLen..] == old(reply[replyLen..])
      invariant forall j | 0 <= j < turns :: Skipped(env[j], replyLen)
      invariant msgs == if withCallback then Messages(env[..turns], replyLen) else []
    {
      var io := env[turns];
      assert env[..turns + 1][..turns] == env[..turns];
      turns := turns + 1;
      match io {
        case Interrupted =>
        case SelectFailed =>
          ret := Err(-1);
          return;
        case TimedOut =>
          ret := Err(-2);
          return;
        case RecvFailed =>
          ret := Err(-1);
          return;
        case Datagram(bytes) =>
          var event, res, msg := TakeDatagram(reply, replyLen, withCallback, bytes);
          if !event {
            ret, len := Ok, res;
            return;
          }
          msgs := msgs + msg;
      }
    }
  }

  /** recv and what follows it: an event goes to the callback, if there is one, and anything else is the reply. */
  method TakeDatagram(reply: array<char>, replyLen: nat, withCallback: bool, bytes: string)
    returns (event: bool, len: nat, msg: seq<string>)
    requires replyLen <= reply.Length
    modifies reply
    ensures reply[replyLen..] == old(reply[replyLen..]) && len <= replyLen
    ensures event == Unsolicited(bytes, replyLen)
    ensures !event ==> len == |Cut(bytes, replyLen)| && reply[..len] == Cut(bytes, replyLen)
    ensures msg == if event && withCallback then [Message(bytes, replyLen)] else []
  {
    var res := Min(|bytes|, replyLen);
    forall i | 0 <= i < res {
      reply[i] := bytes[i];
    }
    assert reply[..res] == Cut(bytes, replyLen);
    event, len, msg := res > 0 && reply[0] == '<', res, [];
    if event && withCallback {
      if res == replyLen {
        res := replyLen - 1;
      }
      reply[res] := NUL;
      msg := [reply[..res]];
      assert reply[..res] == Message(bytes, replyLen);
    }
  }

  // ---------- the whole request ----------

  /** How many turns pass before the first that is neither an interrupted select nor an event. */
  function Prelude(ios: seq<Io>, cap: nat): (n: nat)
    ensures n <= |ios| && (forall j | 0 <= j < n :: Skipped(ios[j], cap)) && (n < |ios| ==> !Skipped(ios[n], cap))
  {
    if ios == [] || !Skipped(ios[0], cap) then 0 else 1 + Prelude(ios[1..], cap)
  }

  function FirstOf(ios: seq<Io>, cap: nat): Option<Io> {
    var n := Prelude(ios, cap);
    if n == |ios| then None else Some(ios[n])
  }

  /** Literally: what comes before the first is interrupted selects and datagrams that start with '<', and the first is neither. */
  lemma {:induction false} FirstOfIs(ios: seq<Io>, cap: nat, n: nat)
    requires n <= |ios| && cap > 0
    requires forall j | 0 <= j < n :: ios[j] == Interrupted || (ios[j].Datagram? && ios[j].bytes != "" && ios[j].bytes[0] == '<')
    requires n < |ios| ==> ios[n] != Interrupted && (ios[n].Datagram? && ios[n].bytes != "" ==> ios[n].bytes[0] != '<')
    ensures FirstOf(ios, cap) == if n == |ios| then None else Some(ios[n])
  {
    if n > 0 {
      FirstOfIs(ios[1..], cap, n - 1);
    }
  }

  /** Literally: a reply is cut to the buffer, and what it is cut to starts with '<' only if it does itself. */
  lemma CutIs(d: string, cap: nat)
    ensures Cut(d, cap) == d[..Min(|d|, cap)]
    ensures Unsolicited(d, cap) <==> d != "" && d[0] == '<' && cap > 0
  {
  }

  /** Literally: the callback is given the events in the order they came, each cut to leave room for a NUL, and nothing else. */
  lemma MessagesAre(env: seq<Io>, io: Io, cap: nat)
    requires cap > 0
    ensures Messages([], cap) == []
    ensures Messages(env + [io], cap) ==
      Messages(env, cap) + if io.Datagram? && io.bytes != "" && io.bytes[0] == '<' then [io.bytes[..Min(|io.bytes|, cap - 1)]] else []
  {
    assert (env + [io])[..|env|] == env;
    if io.Datagram? {
      CutIs(io.bytes, cap);
      assert Message(io.bytes, cap) == io.bytes[..Min(|io.bytes|, cap - 1)];
    }
  }

  /** The return value of a request that was sent. */
  function Verdict(first: Option<Io>): (r: Return)
    ensures r == Waiting <==> first == None
    ensures r == Ok <==> first.Some? && first.value.Datagram?
    ensures r == Err(-2) <==> first == Some(TimedOut)
    ensures r == Err(-1) <==> first == Some(SelectFailed) || first == Some(RecvFailed) || first == Some(Interrupted)
  {
    match first
    case None => Waiting
    case Some(Datagram(_)) => Ok
    case Some(TimedOut) => Err(-2)
    case Some(_) => Err(-1)
  }

  /** Some attempt is accepted before the loop stops for another reason. */
  ghost predicate Delivered(env: seq<Attempt>) {
    exists i :: 0 <= i < |env| && env[i].Accepted? && forall j | 0 <= j < i :: !Stops(env, j)
  }

  ghost predicate Abandoned(env: seq<Attempt>) {
    exists i :: 0 <= i < |env| && Stops(env, i) && !env[i].Accepted? && forall j | 0 <= j < i :: !Stops(env, j)
  }

  /** How the loop ended is a matter of its trace alone. */
  lemma EndOfSending(env: seq<Attempt>, out: Sending, sends: nat)
    requires sends <= |env|
    requires out.StillSending? ==> sends == |env| && forall j | 0 <= j < sends :: !Stops(env, j)
    requires !out.StillSending? ==> sends > 0 && Stops(env, sends - 1) && forall j | 0 <= j < sends - 1 :: !Stops(env, j)
    requires out.Sent? <==> sends > 0 && env[sends - 1].Accepted?
    ensures out.Sent? <==> Delivered(env)
    ensures out.GaveUp? <==> Abandoned(env)
  {
    if Delivered(env) {
      var i :| 0 <= i < |env| && env[i].Accepted? && forall j | 0 <= j < i :: !Stops(env, j);
      assert Stops(env, i);
    }
  }

  /**
   * wpa_ctrl_request. `wire` is what is handed to send, `sent` whether a send was accepted. A reply
   * is the first datagram that is no event, cut to the buffer; the callback saw exactly the events
   * before it; the buffer is never overrun and the reported length never grows.
   */
  method Request(cookie: array?<char>, cmd: string, reply: array<char>, replyLen: nat, withCallback: bool,
                 allocates: bool, sends: seq<Attempt>, ios: seq<Io>)
    returns (ret: Return, len: nat, msgs: seq<string>, wire: string, sent: bool)
    requires replyLen <= reply.Length && Clocked(sends) && cookie != reply && (cookie != null ==> NUL in cookie[..])
    modifies reply
    ensures reply[replyLen..] == old(reply[replyLen..]) && len <= replyLen
    ensures cookie == null ==> wire == cmd
    ensures cookie != null && allocates ==> wire == Text(old(cookie[..])) + " " + cmd
    ensures sent <==> Delivered(sends) && (cookie == null || allocates)
    ensures sent ==> ret == Verdict(FirstOf(ios, replyLen))
    ensures !sent ==> ret == if (cookie != null && !allocates) || Abandoned(sends) then Err(-1) else Waiting
    ensures msgs == if sent && withCallback then Messages(ios[..Prelude(ios, replyLen)], replyLen) else []
    ensures ret.Ok? ==> reply[..len] == Cut(FirstOf(ios, replyLen).value.bytes, replyLen)
    ensures !ret.Ok? ==> len == replyLen
  {
    len, msgs, sent := replyLen, [], false;
    wire := cmd;
    if cookie != null {
      if !allocates {
        ret := Err(-1);
        return;
      }
      var buf := Frame(cookie, cmd);
      wire := buf[..];
    }
    var out, n := SendWithRetry(sends);
    EndOfSending(sends, out, n);
    if !out.Sent? {
      ret := if out.GaveUp? then Err(-1) else Waiting;
      return;
    }
    sent := true;
    var turns;
    ret, len, msgs, turns := Receive(reply, replyLen, withCallback, ios);
    assert Prelude(ios, replyLen) == if ret.Waiting? then turns else turns - 1;
  }

  // ---------- the Go side (socket/wpa_ctrl.go) ----------

  const BUFSIZE := 4096
  const INTERNAL := -1
  const DEADLINE_EXCEEDED := -2

  datatype Result = Reply(text: string) | RequestError(code: int) | Unfinished

  /** SendRawCmd: what it returns is settled by the trace, and the panic about an overrun buffer is unreachable. */
  method SendRawCmd(req: string, sends: seq<Attempt>, ios: seq<Io>) returns (r: Result)
    requires Clocked(sends)
    ensures r == if Abandoned(sends) then RequestError(INTERNAL)
                 else if !Delivered(sends) then Unfinished
                 else match FirstOf(ios, BUFSIZE)
                   case None => Unfinished
                   case Some(Datagram(bytes)) => Reply(Cut(bytes, BUFSIZE))
                   case Some(TimedOut) => RequestError(DEADLINE_EXCEEDED)
                   case Some(_) => RequestError(INTERNAL)
  {
    var buf := new char[BUFSIZE](_ => NUL);
    var ret, replySize, _, _, sent := Request(null, req, buf, BUFSIZE, false, true, sends, ios);
    NotBoth(sends);
    if ret.Waiting? {
      return Unfinished;
    }
    if !ret.Ok? {
      return RequestError(ret.code);
    }
    assert replySize <= BUFSIZE;
    r := Reply(buf[..replySize]);
  }

  lemma NotBoth(env: seq<Attempt>)
    ensures Delivered(env) ==> !Abandoned(env)
  {
    if Delivered(env) {
      var i :| 0 <= i < |env| && env[i].Accepted? && forall j | 0 <= j < i :: !Stops(env, j);
      assert Stops(env, i);
    }
  }
}
