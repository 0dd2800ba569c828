/**
 * Whole runs of requests on one shared socket, serialized by `smu`: which reply each request gets,
 * with late replies, timeouts and reconnects. The peer answers the commands of a connection once
 * each, in order, with whatever text it likes, and may send events at any time.
 */
module Session {
  import opened Basics
  import opened Control

  /**
   * One connection: datagrams waiting in the socket, how many commands the peer was sent, its answers
   * so far in order, how many of them were returned to requests, and how many requests gave up waiting.
   */
  datatype Conn = Conn(queue: seq<string>, sent: nat, answers: seq<string>, got: nat, lost: nat)

  /**
   * A finished request: its reply, the number of its own command on the connection (the first is 1), how
   * many requests before it on that connection gave up, and the answers of the peer when it finished.
   */
  datatype Entry = Entry(reply: string, own: nat, lost: nat, answers: seq<string>)

  datatype State = State(conn: Conn, pending: bool, log: seq<Entry>)

  datatype Event =
    | Deliver                   // a request's send is accepted
    | PeerAnswers(text: string) // the peer answers its oldest unanswered command
    | PeerReports(text: string) // the peer sends an event
    | Recv                      // the request takes the datagram at the front
    | Interrupt                 // a signal interrupts its select
    | GiveUp(how: Io)           // its select times out or a system call fails: it ends without a reply, the connection stays
    | Reconnect(resent: bool)   // the socket turned out dead under a request: reopened, and the command sent again or not
    | Renew                     // the socket turned out dead before a command was accepted

  const FRESH := Conn([], 0, [], 0, 0)
  const START := State(FRESH, false, [])

  /** An answer never looks like an event. */
  predicate Enabled(s: State, e: Event) {
    match e
    case Deliver => !s.pending
    case PeerAnswers(text) => |s.conn.answers| < s.conn.sent && !Unsolicited(text, BUFSIZE)
    case PeerReports(text) => Unsolicited(text, BUFSIZE)
    case Recv => s.pending && s.conn.queue != []
    case Interrupt => s.pending
    case GiveUp(how) => s.pending && (how.TimedOut? || how.SelectFailed? || how.RecvFailed?)
    case Reconnect(_) => s.pending
    case Renew => !s.pending
  }

  function Next(s: State, e: Event): State
    requires Enabled(s, e)
  {
    var c := s.conn;
    match e
    case Deliver => s.(conn := c.(sent := c.sent + 1), pending := true)
    case PeerAnswers(text) => s.(conn := c.(queue := c.queue + [text], answers := c.answers + [text]))
    case PeerReports(text) => s.(conn := c.(queue := c.queue + [text]))
    case Recv =>
      var d, rest := c.queue[0], c.(queue := c.queue[1..]);
      if Unsolicited(d, BUFSIZE) then s.(conn := rest)
      else State(rest.(got := c.got + 1), false, s.log + [Entry(Cut(d, BUFSIZE), c.sent, c.lost, c.answers)])
    case Interrupt => s
    case GiveUp(_) => s.(conn := c.(lost := c.lost + 1), pending := false)
    case Reconnect(resent) => s.(conn := if resent then FRESH.(sent := 1) else FRESH, pending := resent)
    case Renew => s.(conn := FRESH)
  }

  predicate Runs(s: State, es: seq<Event>)
    decreases |es|
  {
    es == [] || (Enabled(s, es[0]) && Runs(Next(s, es[0]), es[1..]))
  }

  function After(s: State, es: seq<Event>): State
    requires Runs(s, es)
    decreases |es|
  {
    if es == [] then s else After(Next(s, es[0]), es[1..])
  }

  // ---------- the invariant ----------

  /** The datagrams that are answers, in order. */
  function Solicited(queue: seq<string>): seq<string> {
    if queue == [] then []
    else
      var rest := Solicited(queue[..|queue| - 1]);
      var d := queue[|queue| - 1];
      if Unsolicited(d, BUFSIZE) then rest else rest + [d]
  }

  /** A reply is the answer to the command issued as many requests earlier on its connection as had given up by then. */
  predicate Explained(e: Entry) {
    e.lost < e.own <= |e.answers| + e.lost && e.reply == Cut(e.answers[e.own - 1 - e.lost], BUFSIZE)
  }

  ghost predicate Paired(s: State) {
    var c := s.conn;
    && c.got <= |c.answers| <= c.sent
    && c.got + c.lost + (if s.pending then 1 else 0) == c.sent
    && Solicited(c.queue) == c.answers[c.got..]
    && forall e | e in s.log :: Explained(e)
  }

  lemma {:induction false} SolicitedFront(queue: seq<string>)
    requires queue != []
    ensures Solicited(queue) == (if Unsolicited(queue[0], BUFSIZE) then [] else [queue[0]]) + Solicited(queue[1..])
  {
    if |queue| > 1 {
      SolicitedFront(queue[..|queue| - 1]);
      assert queue[..|queue| - 1][1..] == queue[1..][..|queue| - 2];
    }
  }

  lemma PairedArrival(s: State, e: Event)
    requires Paired(s) && Enabled(s, e) && (e.PeerAnswers? || e.PeerReports?)
    ensures Paired(Next(s, e))
  {
    var c, c' := s.conn, Next(s, e).conn;
    assert c'.queue[..|c'.queue| - 1] == c.queue;
  }

  lemma PairedRecv(s: State)
    requires Paired(s) && Enabled(s, Recv)
    ensures Paired(Next(s, Recv))
  {
    var c := s.conn;
    SolicitedFront(c.queue);
    if !Unsolicited(c.queue[0], BUFSIZE) {
      assert c.answers[c.got..][0] == c.queue[0];
      assert c.answers[c.got..][1..] == c.answers[c.got + 1..];
    }
  }

  lemma PairedNext(s: State, e: Event)
    requires Paired(s) && Enabled(s, e)
    ensures Paired(Next(s, e))
  {
    if e.PeerAnswers? || e.PeerReports? {
      PairedArrival(s, e);
    } else if e.Recv? {
      PairedRecv(s);
    }
  }

  lemma {:induction false} PairedRun(s: State, es: seq<Event>)
    requires Paired(s) && Runs(s, es)
    ensures Paired(After(s, es))
    decreases |es|
  {
    if es != [] {
      PairedNext(s, es[0]);
      PairedRun(Next(s, es[0]), es[1..]);
    }
  }

  // ---------- what it means ----------

  /**
   * Correlation over whole runs. Every reply a request ever gets is the peer's answer to the command
   * sent `lost` requests before its own on the same connection. So it is the answer to its own
   * command if no request before it timed out there; and where answers are told apart by their
   * text, it is the answer to no other command than that one.
   */
  lemma RepliesCorrelate(es: seq<Event>, k: nat)
    requires Runs(START, es) && k < |After(START, es).log|
    ensures var e := After(START, es).log[k];
      && e.lost < e.own <= |e.answers| + e.lost
      && e.reply == Cut(e.answers[e.own - 1 - e.lost], BUFSIZE)
      && (e.lost == 0 ==> e.reply == Cut(e.answers[e.own - 1], BUFSIZE))
      && ((forall i, j | 0 <= i < j < |e.answers| :: Cut(e.answers[i], BUFSIZE) != Cut(e.answers[j], BUFSIZE)) ==>
            forall i | 0 <= i < |e.answers| :: e.reply == Cut(e.answers[i], BUFSIZE) <==> i == e.own - 1 - e.lost)
  {
    PairedRun(START, es);
    var e := After(START, es).log[k];
    assert e in After(START, es).log;
  }

  /**
   * Between requests, the answers queued and the answers still owed are together as many as the
   * requests of this connection that gave up; so nothing is stale exactly when none did.
   */
  lemma NothingStaleBetweenRequests(es: seq<Event>)
    requires Runs(START, es) && !After(START, es).pending
    ensures var c := After(START, es).conn;
      c.lost == |Solicited(c.queue)| + (c.sent - |c.answers|)
  {
    PairedRun(START, es);
  }

  // ---------- replies, told from the events alone ----------

  /** What the peer answered during these events, in order. */
  function Texts(es: seq<Event>): seq<string> {
    if es == [] then [] else (if es[0].PeerAnswers? then [es[0].text] else []) + Texts(es[1..])
  }

  function GiveUps(es: seq<Event>): nat {
    if es == [] then 0 else (if es[0].GiveUp? then 1 else 0) + GiveUps(es[1..])
  }

  function Delivers(es: seq<Event>): nat {
    if es == [] then 0 else (if es[0].Deliver? then 1 else 0) + Delivers(es[1..])
  }

  /** The socket is not reopened during these events. */
  predicate OneConnection(es: seq<Event>) {
    forall e | e in es :: !e.Reconnect? && !e.Renew?
  }

  /** What `es` does on one connection, from any paired state. */
  ghost predicate Flows(s: State, es: seq<Event>, t: State) {
    && t.conn.answers == s.conn.answers + Texts(es)
    && t.conn.lost == s.conn.lost + GiveUps(es)
    && t.conn.sent == s.conn.sent + Delivers(es)
    && s.conn.got <= t.conn.got <= |t.conn.answers|
    && |t.log| == |s.log| + t.conn.got - s.conn.got && s.log <= t.log
    && forall k | s.conn.got <= k < t.conn.got :: t.log[|s.log| + k - s.conn.got].reply == Cut(t.conn.answers[k], BUFSIZE)
  }

  lemma FlowsNext(s: State, e: Event)
    requires Paired(s) && Enabled(s, e) && !e.Reconnect? && !e.Renew?
    ensures Flows(s, [e], Next(s, e))
  {
    assert [e][1..] == [];
    if e.Recv? {
      SolicitedFront(s.conn.queue);
      if !Unsolicited(s.conn.queue[0], BUFSIZE) {
        assert s.conn.answers[s.conn.got..][0] == s.conn.queue[0];
      }
    }
  }

  lemma CountsCons(e: Event, es: seq<Event>)
    ensures Texts([e] + es) == Texts([e]) + Texts(es)
    ensures GiveUps([e] + es) == GiveUps([e]) + GiveUps(es) && Delivers([e] + es) == Delivers([e]) + Delivers(es)
  {
    var one := [e];
    assert (one + es)[1..] == es && one[1..] == [];
  }

  lemma FlowsCons(s: State, e: Event, mid: State, es: seq<Event>, t: State)
    requires Flows(s, [e], mid) && Flows(mid, es, t)
    ensures Flows(s, [e] + es, t)
  {
    CountsCons(e, es);
    forall k | s.conn.got <= k < t.conn.got ensures t.log[|s.log| + k - s.conn.got].reply == Cut(t.conn.answers[k], BUFSIZE) {
      if k < mid.conn.got {
        assert mid.log[|s.log| + k - s.conn.got].reply == Cut(mid.conn.answers[k], BUFSIZE);
      }
    }
  }

  lemma {:induction false} FlowsRun(s: State, es: seq<Event>)
    requires Paired(s) && Runs(s, es) && OneConnection(es)
    ensures Flows(s, es, After(s, es))
    decreases |es|
  {
    if es != [] {
      assert es[0] in es && OneConnection(es[1..]) && [es[0]] + es[1..] == es;
      PairedNext(s, es[0]);
      FlowsNext(s, es[0]);
      FlowsRun(Next(s, es[0]), es[1..]);
      FlowsCons(s, es[0], Next(s, es[0]), es[1..], After(s, es));
    }
  }

  lemma {:induction false} RunSplits(s: State, es: seq<Event>, fs: seq<Event>)
    requires Runs(s, es + fs)
    ensures Runs(s, es) && Runs(After(s, es), fs) && After(s, es + fs) == After(After(s, es), fs)
    decreases |es|
  {
    if es == [] {
      assert es + fs == fs;
    } else {
      assert (es + fs)[1..] == es[1..] + fs;
      RunSplits(Next(s, es[0]), es[1..], fs);
    }
  }

  /** The last event was the Recv that ended a request with a reply. */
  predicate JustReplied(es: seq<Event>, end: State) {
    es != [] && es[|es| - 1] == Recv && !end.pending
  }

  /** An end of events on a connection that began empty, `begun` commands having been sent on it with its opening. */
  lemma FreshFlows(s: State, es: seq<Event>, begun: nat)
    requires Paired(s) && s.conn == Conn([], begun, [], 0, 0) && Runs(s, es) && OneConnection(es)
    ensures var end := After(s, es);
      && s.log <= end.log && |end.log| - |s.log| <= |Texts(es)|
      && (forall k | 0 <= k < |end.log| - |s.log| :: end.log[|s.log| + k].reply == Cut(Texts(es)[k], BUFSIZE))
      && (!end.pending ==> |end.log| - |s.log| + GiveUps(es) == begun + Delivers(es))
      && (JustReplied(es, end) ==>
            && |end.log| > |s.log|
            && end.log[|end.log| - 1].own == begun + Delivers(es)
            && end.log[|end.log| - 1].lost == GiveUps(es)
            && end.log[|end.log| - 1].answers == Texts(es))
  {
    FlowsRun(s, es);
    PairedRun(s, es);
    var end := After(s, es);
    forall k | 0 <= k < |end.log| - |s.log| ensures end.log[|s.log| + k].reply == Cut(Texts(es)[k], BUFSIZE) {
      assert end.log[|s.log| + k - s.conn.got].reply == Cut(end.conn.answers[k], BUFSIZE);
    }
    if JustReplied(es, end) {
      LastEntry(s, es);
    }
  }

  lemma AfterSnoc(s: State, es: seq<Event>, e: Event)
    requires Runs(s, es + [e])
    ensures Runs(s, es) && Enabled(After(s, es), e) && After(s, es + [e]) == Next(After(s, es), e)
  {
    RunSplits(s, es, [e]);
    assert [e][1..] == [];
  }

  lemma LastEntry(s: State, es: seq<Event>)
    requires Paired(s) && Runs(s, es) && OneConnection(es) && JustReplied(es, After(s, es))
    ensures var end := After(s, es);
      && |end.log| > |s.log|
      && var e := end.log[|end.log| - 1]; e.own == end.conn.sent && e.lost == end.conn.lost && e.answers == end.conn.answers
  {
    hide Runs, After, Paired, Unsolicited, Cut, Texts, GiveUps, Delivers;
    var front := es[..|es| - 1];
    assert es == front + [Recv];
    AfterSnoc(s, front, Recv);
    FlowsRun(s, front);
  }

  /**
   * Correlation by events, across reconnects. Whatever happened before the socket was reopened, the
   * k-th reply from then on is the k-th text the peer answered from then on; the number of its command
   * and the timeouts before it count from then on; and where no request gave up, every command of the
   * new connection, the resent one included, got a reply.
   */
  lemma ReconnectStartsOver(pre: seq<Event>, e: Event, post: seq<Event>)
    requires Runs(START, pre + ([e] + post)) && (e.Reconnect? || e.Renew?) && OneConnection(post)
    ensures Runs(START, pre + [e])
    ensures var begun := if e == Reconnect(true) then 1 else 0;
      var logged, end := After(START, pre + [e]).log, After(START, pre + ([e] + post));
      && logged <= end.log && |end.log| - |logged| <= |Texts(post)|
      && (forall k | 0 <= k < |end.log| - |logged| :: end.log[|logged| + k].reply == Cut(Texts(post)[k], BUFSIZE))
      && (!end.pending ==> |end.log| - |logged| + GiveUps(post) == begun + Delivers(post))
      && (JustReplied(post, end) ==>
            && |end.log| > |logged|
            && end.log[|end.log| - 1].own == begun + Delivers(post)
            && end.log[|end.log| - 1].lost == GiveUps(post)
            && end.log[|end.log| - 1].answers == Texts(post))
  {
    assert pre + ([e] + post) == (pre + [e]) + post;
    RunSplits(START, pre + [e], post);
    RunSplits(START, pre, [e]);
    PairedRun(START, pre + [e]);
    assert [e][1..] == [];
    var mid := After(START, pre + [e]);
    assert mid == Next(After(START, pre), e);
    FreshFlows(mid, post, if e == Reconnect(true) then 1 else 0);
  }

  /** The same for the first connection, from the start. */
  lemma FirstConnection(es: seq<Event>)
    requires Runs(START, es) && OneConnection(es)
    ensures var end := After(START, es);
      && |end.log| <= |Texts(es)|
      && (forall k | 0 <= k < |end.log| :: end.log[k].reply == Cut(Texts(es)[k], BUFSIZE))
      && (!end.pending ==> |end.log| + GiveUps(es) == Delivers(es))
      && (JustReplied(es, end) ==>
            && |end.log| > 0
            && end.log[|end.log| - 1].own == Delivers(es)
            && end.log[|end.log| - 1].lost == GiveUps(es)
            && end.log[|end.log| - 1].answers == Texts(es))
  {
    FreshFlows(START, es, 0);
  }

  // ---------- the requests are those of the receive loop ----------

  /** What the receive loop of the request meets during these events, turn by turn. */
  function Taken(s: State, es: seq<Event>): seq<Io>
    requires Runs(s, es)
    decreases |es|
  {
    if es == [] then []
    else
      var rest := Taken(Next(s, es[0]), es[1..]);
      match es[0]
      case Recv => [Datagram(s.conn.queue[0])] + rest
      case Interrupt => [Interrupted] + rest
      case GiveUp(how) => [how] + rest
      case _ => rest
  }

  /** What the peer put on the connection, answers and events, in order. */
  function Sendings(es: seq<Event>): seq<string> {
    if es == [] then []
    else (if es[0].PeerAnswers? || es[0].PeerReports? then [es[0].text] else []) + Sendings(es[1..])
  }

  function Datagrams(ios: seq<Io>): seq<string> {
    if ios == [] then [] else (if ios[0].Datagram? then [ios[0].bytes] else []) + Datagrams(ios[1..])
  }

  /** The datagram the event takes from the queue, if it takes one, and the one it adds. */
  function Out(s: State, e: Event): seq<string>
    requires Enabled(s, e)
  {
    if e.Recv? then [s.conn.queue[0]] else []
  }

  function In(e: Event): seq<string> {
    if e.PeerAnswers? || e.PeerReports? then [e.text] else []
  }

  lemma StepConserves(s: State, e: Event)
    requires Enabled(s, e) && !e.Reconnect? && !e.Renew?
    ensures Out(s, e) + Next(s, e).conn.queue == s.conn.queue + In(e)
  {
  }

  lemma TakenCons(s: State, es: seq<Event>)
    requires Runs(s, es) && es != []
    ensures Datagrams(Taken(s, es)) == Out(s, es[0]) + Datagrams(Taken(Next(s, es[0]), es[1..]))
    ensures Sendings(es) == In(es[0]) + Sendings(es[1..])
  {
    var rest := Taken(Next(s, es[0]), es[1..]);
    if es[0].Recv? || es[0].Interrupt? || es[0].GiveUp? {
      assert Taken(s, es)[1..] == rest;
    }
  }

  lemma Regroup(a: seq<string>, b: seq<string>, c: seq<string>, d: seq<string>, e: seq<string>, f: seq<string>, g: seq<string>)
    requires a + b == c + d && e + f == b + g
    ensures (a + e) + f == c + (d + g)
  {
    assert (a + e) + f == a + (e + f) == a + (b + g) == (a + b) + g == (c + d) + g == c + (d + g);
  }

  /** On one connection no datagram is lost, invented or overtaken: what the requests took and what still waits is what waited and what the peer sent. */
  lemma {:induction false} DatagramsConserved(s: State, es: seq<Event>)
    requires Runs(s, es) && OneConnection(es)
    ensures Datagrams(Taken(s, es)) + After(s, es).conn.queue == s.conn.queue + Sendings(es)
    decreases |es|
  {
    hide Datagrams, Taken, Sendings, Out, In;
    if es == [] {
      NoneTaken(s);
    } else {
      assert es[0] in es && OneConnection(es[1..]);
      var next := Next(s, es[0]);
      DatagramsConserved(next, es[1..]);
      StepConserves(s, es[0]);
      TakenCons(s, es);
      Regroup(Out(s, es[0]), next.conn.queue, s.conn.queue, In(es[0]), Datagrams(Taken(next, es[1..])), After(s, es).conn.queue, Sendings(es[1..]));
    }
  }

  lemma NoneTaken(s: State)
    ensures Datagrams(Taken(s, [])) == [] && Sendings([]) == []
  {
  }

  /** The events lie within one request: from where it waits to its end at most, while the peer answers and reports. */
  predicate InRequest(s: State, es: seq<Event>)
    requires Runs(s, es)
    decreases |es|
  {
    es == [] ||
    (s.pending && !es[0].Reconnect? && InRequest(Next(s, es[0]), es[1..]))
  }

  lemma FirstOfCons(io: Io, ios: seq<Io>)
    ensures FirstOf([io] + ios, BUFSIZE) == if Skipped(io, BUFSIZE) then FirstOf(ios, BUFSIZE) else Some(io)
  {
    assert ([io] + ios)[1..] == ios;
  }

  /**
   * A request of this machine ends as wpa_ctrl_request does on what its receive loop meets, however
   * answers and events arrive meanwhile: still waiting, with the reply the loop returns, or given up.
   */
  lemma {:induction false} RequestsAreLoops(s: State, es: seq<Event>)
    requires s.pending && Runs(s, es) && InRequest(s, es)
    ensures var first, end := FirstOf(Taken(s, es), BUFSIZE), After(s, es);
      match Verdict(first)
      case Waiting => end.pending && end.log == s.log && end.conn.lost == s.conn.lost
      case Ok =>
        && !end.pending && end.conn.lost == s.conn.lost
        && end.log == s.log + [Entry(Cut(first.value.bytes, BUFSIZE), s.conn.sent, s.conn.lost, end.conn.answers)]
      case Err(_) => !end.pending && end.log == s.log && end.conn.lost == s.conn.lost + 1
    decreases |es|
  {
    if es != [] {
      var next := Next(s, es[0]);
      if next.pending {
        RequestsAreLoops(next, es[1..]);
      } else {
        assert es[1..] == [];
      }
      match es[0] {
        case Recv => FirstOfCons(Datagram(s.conn.queue[0]), Taken(next, es[1..]));
        case Interrupt => FirstOfCons(Interrupted, Taken(next, es[1..]));
        case GiveUp(how) => FirstOfCons(how, Taken(next, es[1..]));
        case _ =>
      }
    }
  }

  /**
   * The receive loop and this machine agree: on the datagrams of the queue the loop returns the
   * oldest answer, or none if there is none.
   */
  lemma {:induction false} LoopTakesOldestAnswer(queue: seq<string>)
    ensures FirstOf(seq(|queue|, i requires 0 <= i < |queue| => Datagram(queue[i])), BUFSIZE)
         == if Solicited(queue) == [] then None else Some(Datagram(Solicited(queue)[0]))
  {
    if queue != [] {
      SolicitedFront(queue);
      LoopTakesOldestAnswer(queue[1..]);
      var ios := seq(|queue|, i requires 0 <= i < |queue| => Datagram(queue[i]));
      assert ios[1..] == seq(|queue[1..]|, i requires 0 <= i < |queue[1..]| => Datagram(queue[1..][i]));
    }
  }

  lemma RunsStep(s: State, e: Event, es: seq<Event>)
    requires Enabled(s, e) && Runs(Next(s, e), es)
    ensures Runs(s, [e] + es) && After(s, [e] + es) == After(Next(s, e), es)
  {
    assert ([e] + es)[1..] == es;
  }

  /** After one timeout the next request on the connection gets the late answer to the command before. */
  lemma LateAnswerShifts(late: string)
    requires !Unsolicited(late, BUFSIZE)
    ensures var es := [Deliver, GiveUp(TimedOut), PeerAnswers(late), Deliver, Recv];
      Runs(START, es) && After(START, es).log == [Entry(Cut(late, BUFSIZE), 2, 1, [late])]
  {
    var s1 := State(Conn([], 1, [], 0, 0), true, []);
    var s2 := State(Conn([], 1, [], 0, 1), false, []);
    var s3 := State(Conn([late], 1, [late], 0, 1), false, []);
    var s4 := State(Conn([late], 2, [late], 0, 1), true, []);
    var s5 := State(Conn([], 2, [late], 1, 1), false, [Entry(Cut(late, BUFSIZE), 2, 1, [late])]);
    assert Next(START, Deliver) == s1 && Next(s1, GiveUp(TimedOut)) == s2;
    assert [] + [late] == [late];
    assert Next(s2, PeerAnswers(late)) == s3 && Next(s3, Deliver) == s4;
    assert [late][1..] == [] && Next(s4, Recv) == s5;
    assert After(s5, []) == s5;
    var es4, es3, es2, es1 := [Recv], [Deliver, Recv], [PeerAnswers(late), Deliver, Recv], [GiveUp(TimedOut), PeerAnswers(late), Deliver, Recv];
    RunsStep(s4, Recv, []);
    assert [Recv] + [] == es4 && [Deliver] + es4 == es3 && [PeerAnswers(late)] + es3 == es2 && [GiveUp(TimedOut)] + es2 == es1;
    RunsStep(s3, Deliver, es4);
    RunsStep(s2, PeerAnswers(late), es3);
    RunsStep(s1, GiveUp(TimedOut), es2);
    RunsStep(START, Deliver, es1);
    assert [Deliver] + es1 == [Deliver, GiveUp(TimedOut), PeerAnswers(late), Deliver, Recv];
  }
}
