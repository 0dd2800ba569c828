/** Station enumeration of server/service.go: the STA-FIRST / STA-NEXT cursor loop. */
module Stations {
  import opened Basics
  import C = Control
  import opened Parser

  /** What SendRawCmd gives back to the server: text, a *socket.RequestError, or any other error. */
  datatype Fetch = Text(text: string) | RequestFailed(code: int) | OtherFailed(error: string)

  datatype Listing = Clients(clients: seq<Client>) | Failed(cause: Fetch) | Unfinished

  const STA_FIRST := "STA-FIRST"
  const STA_NEXT := "STA-NEXT "

  predicate Ends(tok: string) {
    tok == "" || tok == "FAIL\n"
  }

  function Tagged(tok: string, sockName: string): Client {
    Parse(tok).(socketName := sockName)
  }

  /** What the loop makes of the results it gets from its next command on: the listing, and the commands it sends. */
  function Walk(sockName: string, cmd: string, replies: seq<Fetch>): (r: (Listing, seq<string>))
    ensures r.0.Failed? ==> !r.0.cause.Text?
    decreases |replies|
  {
    if replies == [] then (Unfinished, [cmd])
    else match replies[0]
      case RequestFailed(_) => (Failed(replies[0]), [cmd])
      case OtherFailed(_) => (Failed(replies[0]), [cmd])
      case Text(tok) =>
        if Ends(tok) then (Clients([]), [cmd])
        else
          var cli := Tagged(tok, sockName);
          var (rest, cmds) := Walk(sockName, STA_NEXT + cli.addr, replies[1..]);
          (if rest.Clients? then Clients([cli] + rest.clients) else rest, [cmd] + cmds)
  }

  /**
   * listClientsOnSock, given what its requests return in order (Unfinished: the loop still runs when
   * they run out). It also yields the commands sent.
   */
  method ListClientsOnSock(sockName: string, replies: seq<Fetch>) returns (r: Listing, sent: seq<string>)
    ensures (r, sent) == Walk(sockName, STA_FIRST, replies)
  {
    hide Parse;
    var cmd, n := STA_FIRST, 0;
    var clis: seq<Client> := [];
    r, sent := Unfinished, [];
    ghost var whole := Walk(sockName, STA_FIRST, replies);
    while true
      invariant n == |sent| <= |replies|
      invariant var (rest, cmds) := Walk(sockName, cmd, replies[n..]);
        whole.0 == (if rest.Clients? then Clients(clis + rest.clients) else rest) && whole.1 == sent + cmds
      decreases |replies| - n
    {
      sent := sent + [cmd];
      if n == |replies| {
        return;
      }
      var reply := replies[n];
      assert replies[n..][1..] == replies[n + 1..];
      n := n + 1;
      if !reply.Text? {
        r := Failed(reply);
        return;
      }
      var tok := reply.text;
      if Ends(tok) {
        r := Clients(clis);
        assert clis + [] == clis;
        return;
      }
      var rec := ParseCli(tok);
      rec.client := rec.client.(socketName := sockName);
      clis := clis + [rec.client];
      cmd := STA_NEXT + rec.client.addr;
    }
  }

  // ---------- what the results decide, whoever gives them ----------

  /** A report: text that is neither of the two end marks. */
  predicate Reports(reply: Fetch) {
    reply.Text? && reply.text != "" && reply.text != "FAIL\n"
  }

  /** The client is the report's, field by field, and carries the socket's name. */
  predicate Lists(c: Client, report: Client, sockName: string) {
    && c.addr == report.addr && c.flags == report.flags && c.socketName == sockName
    && c.connectedTime == report.connectedTime && c.idleMsec == report.idleMsec
    && c.rxPackets == report.rxPackets && c.txPackets == report.txPackets
    && c.rxBytes == report.rxBytes && c.txBytes == report.txBytes
  }

  function TextOf(reply: Fetch): string {
    if reply.Text? then reply.text else ""
  }

  lemma {:induction false} WalkDecides(sockName: string, cmd: string, replies: seq<Fetch>, n: nat)
    requires n <= |replies| && (forall j | 0 <= j < n :: Reports(replies[j])) && (n < |replies| ==> !Reports(replies[n]))
    ensures var (r, sent) := Walk(sockName, cmd, replies);
      && |sent| == n + 1 && sent[0] == cmd
      && (forall k | 0 <= k < n :: sent[k + 1] == "STA-NEXT " + Parse(TextOf(replies[k])).addr)
      && (n == |replies| ==> r == Unfinished)
      && (n < |replies| && !replies[n].Text? ==> r == Failed(replies[n]))
      && (n < |replies| && replies[n].Text? ==>
            r.Clients? && |r.clients| == n && forall k | 0 <= k < n :: Lists(r.clients[k], Parse(TextOf(replies[k])), sockName))
    decreases n
  {
    hide Parse;
    if n > 0 {
      var next := STA_NEXT + Parse(TextOf(replies[0])).addr;
      WalkDecides(sockName, next, replies[1..], n - 1);
      var (r, sent) := Walk(sockName, cmd, replies);
      var (rest, cmds) := Walk(sockName, next, replies[1..]);
      assert sent == [cmd] + cmds;
      forall k | 0 <= k < n ensures sent[k + 1] == "STA-NEXT " + Parse(TextOf(replies[k])).addr {
        assert k > 0 ==> cmds[k] == "STA-NEXT " + Parse(TextOf(replies[1..][k - 1])).addr;
      }
      if n < |replies| && replies[n].Text? {
        forall k | 0 <= k < n ensures Lists(r.clients[k], Parse(TextOf(replies[k])), sockName) {
          assert k > 0 ==> Lists(rest.clients[k - 1], Parse(TextOf(replies[1..][k - 1])), sockName);
        }
      }
    }
  }

  /**
   * The loop on any results at all, of which the first `n` are reports and the next is none. It sends
   * STA-FIRST and then STA-NEXT with each address it was given; an error it returns as it is; at an end
   * mark it returns the reports so far, each with the socket's name; without either it is still running.
   */
  lemma ListingIs(sockName: string, replies: seq<Fetch>, n: nat)
    requires n <= |replies| && (forall j | 0 <= j < n :: Reports(replies[j])) && (n < |replies| ==> !Reports(replies[n]))
    ensures var (r, sent) := Walk(sockName, STA_FIRST, replies);
      && |sent| == n + 1 && sent[0] == "STA-FIRST"
      && (forall k | 0 <= k < n :: sent[k + 1] == "STA-NEXT " + Parse(TextOf(replies[k])).addr)
      && (n == |replies| ==> r == Unfinished)
      && (n < |replies| && !replies[n].Text? ==> r == Failed(replies[n]))
      && (n < |replies| && replies[n].Text? ==>
            r.Clients? && |r.clients| == n && forall k | 0 <= k < n :: Lists(r.clients[k], Parse(TextOf(replies[k])), sockName))
  {
    WalkDecides(sockName, STA_FIRST, replies, n);
  }

  // ---------- a server with a stable list ----------

  /** The station the cursor command asks after, as a position; |toks| stands for the end of the list. */
  function Find(toks: seq<string>, addr: string): (i: nat)
    ensures i <= |toks| && (i < |toks| ==> Parse(toks[i]).addr == addr)
    ensures forall j | 0 <= j < i :: Parse(toks[j]).addr != addr
  {
    if toks == [] || Parse(toks[0]).addr == addr then 0 else 1 + Find(toks[1..], addr)
  }

  /** `toks` are the reports of the stations in order, `end` what the server says past the last one. */
  function Serve(toks: seq<string>, end: string, cmd: string): string {
    if cmd == STA_FIRST then At(toks, end, 0)
    else if STA_NEXT <= cmd then At(toks, end, Find(toks, cmd[|STA_NEXT|..]) + 1)
    else "FAIL\n"
  }

  function At(toks: seq<string>, end: string, i: nat): string {
    if i < |toks| then toks[i] else end
  }

  /** A report is no end mark and fits the request buffer. */
  ghost predicate WellServed(toks: seq<string>, end: string) {
    Ends(end) && forall tok | tok in toks :: !Ends(tok) && |tok| <= C.BUFSIZE
  }

  /** The loop was answered by that server: each result is the server's reply to the command sent, as SendRawCmd cuts it. */
  predicate AnsweredBy(toks: seq<string>, end: string, sent: seq<string>, replies: seq<Fetch>) {
    forall k | 0 <= k < |replies| && k < |sent| :: replies[k] == Text(C.Cut(Serve(toks, end, sent[k]), C.BUFSIZE))
  }

  predicate Distinct(toks: seq<string>) {
    forall i, j | 0 <= i < j < |toks| :: Parse(toks[i]).addr != Parse(toks[j]).addr
  }

  /** The command that fetches station `p`. */
  function CommandAt(toks: seq<string>, p: nat): string
    requires p <= |toks|
  {
    if p == 0 then STA_FIRST else STA_NEXT + Parse(toks[p - 1]).addr
  }

  function ListFrom(toks: seq<string>, sockName: string, p: nat): seq<Client>
    requires p <= |toks|
  {
    seq(|toks| - p, i requires 0 <= i < |toks| - p => Tagged(toks[p + i], sockName))
  }

  /** The commands from station `p` to the end of the list, the one that meets the end included. */
  function CommandsFrom(toks: seq<string>, p: nat): seq<string>
    requires p <= |toks|
  {
    seq(|toks| - p + 1, i requires 0 <= i <= |toks| - p => CommandAt(toks, p + i))
  }

  lemma NextCommandServed(toks: seq<string>, end: string, addr: string)
    ensures Serve(toks, end, STA_NEXT + addr) == At(toks, end, Find(toks, addr) + 1)
  {
    var cmd := STA_NEXT + addr;
    assert cmd[|STA_NEXT|..] == addr && STA_NEXT <= cmd;
    assert cmd[4] == 'N' && STA_FIRST[4] == 'F';
  }

  lemma Served(toks: seq<string>, end: string, p: nat)
    requires Distinct(toks) && p <= |toks|
    ensures Serve(toks, end, CommandAt(toks, p)) == At(toks, end, p)
  {
    if p > 0 {
      var addr := Parse(toks[p - 1]).addr;
      NextCommandServed(toks, end, addr);
      assert Find(toks, addr) == p - 1;
    }
  }

  /** One turn of the loop, when the server's reply is station `p`. */
  lemma WalkTurn(toks: seq<string>, end: string, sockName: string, cmd: string, p: nat, replies: seq<Fetch>)
    requires WellServed(toks, end) && p < |toks| && Serve(toks, end, cmd) == At(toks, end, p) && replies != []
    requires AnsweredBy(toks, end, Walk(sockName, cmd, replies).1, replies)
    ensures var next := STA_NEXT + Parse(toks[p]).addr;
      var (r, sent) := Walk(sockName, cmd, replies);
      var (rest, cmds) := Walk(sockName, next, replies[1..]);
      && sent == [cmd] + cmds
      && r == (if rest.Clients? then Clients([Tagged(toks[p], sockName)] + rest.clients) else rest)
      && AnsweredBy(toks, end, cmds, replies[1..])
  {
    hide Parse, Serve;
    var sent := Walk(sockName, cmd, replies).1;
    assert sent[0] == cmd;
    assert toks[p] in toks;
    assert replies[0] == Text(toks[p]);
    var cmds := Walk(sockName, STA_NEXT + Parse(toks[p]).addr, replies[1..]).1;
    assert sent == [cmd] + cmds;
    forall k | 0 <= k < |replies[1..]| && k < |cmds|
      ensures replies[1..][k] == Text(C.Cut(Serve(toks, end, cmds[k]), C.BUFSIZE))
    {
      assert sent[k + 1] == cmds[k] && replies[k + 1] == replies[1..][k];
    }
  }

  /** The last turn, when the server says it has no more. */
  lemma WalkEnd(toks: seq<string>, end: string, sockName: string, cmd: string, replies: seq<Fetch>)
    requires Ends(end) && Serve(toks, end, cmd) == end && replies != []
    requires AnsweredBy(toks, end, Walk(sockName, cmd, replies).1, replies)
    ensures Walk(sockName, cmd, replies) == (Clients([]), [cmd])
  {
    hide Parse, Serve;
    assert Walk(sockName, cmd, replies).1[0] == cmd;
    assert replies[0] == Text(end);
  }

  lemma {:induction false} WalkFrom(toks: seq<string>, end: string, sockName: string, p: nat, replies: seq<Fetch>)
    requires Distinct(toks) && WellServed(toks, end) && p <= |toks|
    requires var (_, sent) := Walk(sockName, CommandAt(toks, p), replies); AnsweredBy(toks, end, sent, replies)
    ensures var (r, sent) := Walk(sockName, CommandAt(toks, p), replies);
      if |replies| > |toks| - p
      then r == Clients(ListFrom(toks, sockName, p)) && sent == CommandsFrom(toks, p)
      else r == Unfinished
    decreases |toks| - p
  {
    hide Parse, Serve, AnsweredBy, Walk, ListFrom, CommandsFrom, Distinct, WellServed, Tagged;
    Served(toks, end, p);
    FromUnfolds(toks, sockName, p);
    if replies == [] {
      WalkStarved(sockName, CommandAt(toks, p));
    } else if p < |toks| {
      WalkTurn(toks, end, sockName, CommandAt(toks, p), p, replies);
      WalkFrom(toks, end, sockName, p + 1, replies[1..]);
    } else {
      EndsServed(toks, end);
      WalkEnd(toks, end, sockName, CommandAt(toks, p), replies);
    }
  }

  lemma EndsServed(toks: seq<string>, end: string)
    requires WellServed(toks, end)
    ensures Ends(end)
  {
  }

  lemma WalkStarved(sockName: string, cmd: string)
    ensures Walk(sockName, cmd, []) == (Unfinished, [cmd])
  {
  }

  lemma FromUnfolds(toks: seq<string>, sockName: string, p: nat)
    requires p <= |toks|
    ensures if p < |toks| then
        && ListFrom(toks, sockName, p) == [Tagged(toks[p], sockName)] + ListFrom(toks, sockName, p + 1)
        && CommandsFrom(toks, p) == [CommandAt(toks, p)] + CommandsFrom(toks, p + 1)
        && CommandAt(toks, p + 1) == STA_NEXT + Parse(toks[p]).addr
      else ListFrom(toks, sockName, p) == [] && CommandsFrom(toks, p) == [CommandAt(toks, p)]
  {
    hide Parse, Tagged;
  }

  /**
   * Enumeration completeness. Against a stable list of stations with distinct addresses the loop ends
   * after exactly one reply a station and the end reply, and yields the stations in order, each
   * parsed and tagged with the socket's name.
   */
  lemma EnumerationComplete(toks: seq<string>, end: string, sockName: string, replies: seq<Fetch>)
    requires Distinct(toks) && WellServed(toks, end)
    requires AnsweredBy(toks, end, Walk(sockName, STA_FIRST, replies).1, replies)
    ensures var (r, sent) := Walk(sockName, STA_FIRST, replies);
      && (r.Unfinished? <==> |replies| <= |toks|)
      && (|replies| > |toks| ==>
            r == Clients(ListFrom(toks, sockName, 0)) && sent == CommandsFrom(toks, 0) && |sent| == |toks| + 1)
  {
    WalkFrom(toks, end, sockName, 0, replies);
  }

  lemma {:induction false} WalkRepeats(toks: seq<string>, end: string, sockName: string, i: nat, j: nat, p: nat, cmd: string, replies: seq<Fetch>)
    requires WellServed(toks, end) && i < j < |toks| && Parse(toks[i]).addr == Parse(toks[j]).addr && p <= j
    requires Serve(toks, end, cmd) == At(toks, end, p)
    requires AnsweredBy(toks, end, Walk(sockName, cmd, replies).1, replies)
    ensures Walk(sockName, cmd, replies).0 == Unfinished
    decreases |replies|
  {
    hide Parse, Serve;
    if replies != [] {
      var addr := Parse(toks[p]).addr;
      WalkTurn(toks, end, sockName, cmd, p, replies);
      NextCommandServed(toks, end, addr);
      WalkRepeats(toks, end, sockName, i, j, Find(toks, addr) + 1, STA_NEXT + addr, replies[1..]);
    }
  }

  /** With a repeated address the cursor falls back to the first of the two and the loop never ends. */
  lemma RepeatedAddressNeverEnds(toks: seq<string>, end: string, sockName: string, replies: seq<Fetch>)
    requires WellServed(toks, end) && !Distinct(toks)
    requires AnsweredBy(toks, end, Walk(sockName, STA_FIRST, replies).1, replies)
    ensures Walk(sockName, STA_FIRST, replies).0 == Unfinished
  {
    var i, j :| 0 <= i < j < |toks| && Parse(toks[i]).addr == Parse(toks[j]).addr;
    WalkRepeats(toks, end, sockName, i, j, 0, STA_FIRST, replies);
  }

  /** So, however many replies a stable server gives beyond its list, the loop ends if and only if the addresses are distinct. */
  lemma EndsIffDistinct(toks: seq<string>, end: string, sockName: string, replies: seq<Fetch>)
    requires WellServed(toks, end) && |replies| > |toks|
    requires AnsweredBy(toks, end, Walk(sockName, STA_FIRST, replies).1, replies)
    ensures !Walk(sockName, STA_FIRST, replies).0.Unfinished? <==> Distinct(toks)
  {
    if Distinct(toks) {
      EnumerationComplete(toks, end, sockName, replies);
    } else {
      RepeatedAddressNeverEnds(toks, end, sockName, replies);
    }
  }
}
