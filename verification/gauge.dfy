/** ListClients of server/service.go and the gauge of server/metrics.go that reads it. */
module Gauge {
  import opened Basics
  import opened Parser

  // ---------- ListClients ----------

  /** How listClientsOnSock ended on one socket. */
  datatype SockResult = Found(clients: seq<Client>) | RequestError(code: int) | OtherError(error: string)

  datatype Response = Listed(clients: seq<Client>, errors: seq<int>) | Aborted(error: string)

  /** All clients found, in order. */
  function Pool(rs: seq<SockResult>): seq<Client> {
    if rs == [] then [] else (if rs[0].Found? then rs[0].clients else []) + Pool(rs[1..])
  }

  function Complaints(rs: seq<SockResult>): seq<int> {
    if rs == [] then [] else (if rs[0].RequestError? then [rs[0].code] else []) + Complaints(rs[1..])
  }

  lemma {:induction false} PoolSnoc(rs: seq<SockResult>, r: SockResult)
    ensures Pool(rs + [r]) == Pool(rs) + if r.Found? then r.clients else []
    ensures Complaints(rs + [r]) == Complaints(rs) + if r.RequestError? then [r.code] else []
  {
    if rs == [] {
      assert (rs + [r])[1..] == [];
    } else {
      assert (rs + [r])[1..] == rs[1..] + [r];
      PoolSnoc(rs[1..], r);
    }
  }

  /** ListClients: request errors are reported beside the clients found; the first other error ends it with nothing. */
  method ListClients(rs: seq<SockResult>) returns (res: Response)
    ensures res.Aborted? <==> exists i :: 0 <= i < |rs| && rs[i].OtherError?
    ensures res.Aborted? ==> exists i :: 0 <= i < |rs| && rs[i] == OtherError(res.error) && forall j | 0 <= j < i :: !rs[j].OtherError?
    ensures res.Listed? ==> res.clients == Pool(rs) && res.errors == Complaints(rs)
  {
    res := Listed([], []);
    for i := 0 to |rs|
      invariant res.Listed? && forall j | 0 <= j < i :: !rs[j].OtherError?
      invariant res.clients == Pool(rs[..i]) && res.errors == Complaints(rs[..i])
    {
      PoolSnoc(rs[..i], rs[i]);
      assert rs[..i + 1] == rs[..i] + [rs[i]];
      match rs[i] {
        case RequestError(code) => res := res.(errors := res.errors + [code]);
        case Found(clients) => res := res.(clients := res.clients + clients);
        case OtherError(error) => return Aborted(error);
      }
    }
    assert rs[..|rs|] == rs;
  }

  /** listClients of server/util.go: ListClients on one socket, of which only the clients are kept. None: it failed outright. */
  method ListOne(r: SockResult) returns (clients: Option<seq<Client>>)
    ensures clients == Kept(r)
  {
    var res := ListClients([r]);
    PoolSnoc([], r);
    assert [] + [r] == [r] && [r][0] == r;
    assert Pool([r]) == if r.Found? then r.clients else [];
    clients := if res.Listed? then Some(res.clients) else None;
  }

  function Kept(r: SockResult): Option<seq<Client>> {
    match r
    case Found(clients) => Some(clients)
    case RequestError(_) => Some([])
    case OtherError(_) => None
  }

  // ---------- the gauge ----------

  /** The labels ever set, and what they read. */
  datatype State = State(known: set<string>, value: map<string, nat>)

  predicate Consistent(s: State) {
    s.value.Keys == s.known
  }

  function Cleared(s: State): State {
    s.(value := map l | l in s.value :: if l in s.known then 0 else s.value[l])
  }

  function ScrapeOne(s: State, name: string, r: SockResult): State {
    match Kept(r)
    case None => s
    case Some(clients) => State(s.known + {name}, s.value[name := |clients|])
  }

  function ScrapeAll(s: State, names: seq<string>, rs: seq<SockResult>): State
    requires |names| == |rs|
  {
    if names == [] then s
    else
      var n := |names| - 1;
      ScrapeOne(ScrapeAll(s, names[..n], rs[..n]), names[n], rs[n])
  }

  /** The sockets a Scrape complains about. */
  function Failing(names: seq<string>, rs: seq<SockResult>): set<string>
    requires |names| == |rs|
  {
    set i | 0 <= i < |names| && rs[i].OtherError? :: names[i]
  }

  class ConnectedClientsGauge {
    var sockets: set<string>
    var value: map<string, nat>

    function View(): State
      reads this
    {
      State(sockets, value)
    }

    constructor ()
      ensures View() == State({}, map[])
    {
      sockets, value := {}, map[];
    }

    method Clear()
      requires Consistent(View())
      modifies this`value
      ensures View() == Cleared(old(View()))
    {
      var todo := sockets;
      while todo != {}
        invariant todo <= sockets && value.Keys == old(value.Keys)
        invariant forall l :: l in value ==> value[l] == if l in sockets && l !in todo then 0 else old(value)[l]
        decreases |todo|
      {
        var l :| l in todo;
        value := value[l := 0];
        todo := todo - {l};
      }
    }

    method ScrapeSocket(name: string, r: SockResult) returns (failed: bool)
      modifies this
      ensures failed == r.OtherError?
      ensures View() == ScrapeOne(old(View()), name, r)
    {
      var connected := ListOne(r);
      if connected.None? {
        return true;
      }
      sockets := sockets + {name};
      value := value[name := |connected.value|];
      failed := false;
    }

    /** Scrape. `listing` is None when the sockets cannot be listed; `rs` is how each listed one answers. */
    method Scrape(listing: Option<seq<string>>, rs: seq<SockResult>) returns (ok: bool, failing: set<string>)
      requires Consistent(View()) && (listing.Some? ==> |listing.value| == |rs|)
      modifies this
      ensures listing.None? ==> !ok && failing == {} && View() == old(View())
      ensures listing.Some? ==>
        && View() == ScrapeAll(Cleared(old(View())), listing.value, rs)
        && View() == AfterRound(old(View()), Round(listing.value, rs))
        && failing == Failing(listing.value, rs) && ok == (failing == {})
    {
      if listing.None? {
        return false, {};
      }
      var names := listing.value;
      Clear();
      ghost var cleared := View();
      failing := {};
      for i := 0 to |names|
        invariant View() == ScrapeAll(cleared, names[..i], rs[..i])
        invariant failing == Failing(names[..i], rs[..i])
      {
        assert names[..i + 1][..i] == names[..i] && rs[..i + 1][..i] == rs[..i];
        var failed := ScrapeSocket(names[i], rs[i]);
        if failed {
          failing := failing + {names[i]};
        }
        FailingSnoc(names, rs, i);
      }
      assert names[..|names|] == names && rs[..|names|] == rs;
      ok := failing == {};
    }
  }

  lemma FailingSnoc(names: seq<string>, rs: seq<SockResult>, i: nat)
    requires i < |names| == |rs|
    ensures Failing(names[..i + 1], rs[..i + 1]) == Failing(names[..i], rs[..i]) + if rs[i].OtherError? then {names[i]} else {}
  {
    var now := Failing(names[..i + 1], rs[..i + 1]);
    forall l | l in now ensures l in Failing(names[..i], rs[..i]) || (rs[i].OtherError? && l == names[i]) {
      var j :| 0 <= j < i + 1 && rs[..i + 1][j].OtherError? && names[..i + 1][j] == l;
      if j < i {
        assert rs[..i][j].OtherError? && names[..i][j] == l;
      }
    }
    forall l | l in Failing(names[..i], rs[..i]) ensures l in now {
      var j :| 0 <= j < i && rs[..i][j].OtherError? && names[..i][j] == l;
      assert rs[..i + 1][j].OtherError? && names[..i + 1][j] == l;
    }
    if rs[i].OtherError? {
      assert rs[..i + 1][i].OtherError? && names[..i + 1][i] == names[i];
    }
  }

  // ---------- agreement ----------

  /** How many clients ListClients reports for the label: none if it is not listed, fails, or answers with a request error. */
  function Recount(names: seq<string>, rs: seq<SockResult>, l: string): nat
    requires |names| == |rs|
  {
    if names == [] then 0
    else
      var n := |names| - 1;
      if names[n] == l && Kept(rs[n]).Some? then |Kept(rs[n]).value| else Recount(names[..n], rs[..n], l)
  }

  lemma {:induction false} ScrapeAllAgrees(s: State, names: seq<string>, rs: seq<SockResult>)
    requires Consistent(s) && |names| == |rs| && forall l | l in s.known :: s.value[l] == 0
    ensures var s' := ScrapeAll(s, names, rs);
      && Consistent(s') && s.known <= s'.known
      && (forall l | l in s'.known :: s'.value[l] == Recount(names, rs, l))
      && (forall i | 0 <= i < |names| && !rs[i].OtherError? :: names[i] in s'.known)
  {
    if names != [] {
      var n := |names| - 1;
      ScrapeAllAgrees(s, names[..n], rs[..n]);
      assert forall i | 0 <= i < n :: names[..n][i] == names[i] && rs[..n][i] == rs[i];
    }
  }

  lemma {:induction false} RecountDistinct(names: seq<string>, rs: seq<SockResult>, i: nat)
    requires i < |names| == |rs| && forall j, k | 0 <= j < k < |names| :: names[j] != names[k]
    ensures Recount(names, rs, names[i]) == match rs[i] case Found(clients) => |clients| case _ => 0
  {
    var n := |names| - 1;
    if i < n {
      RecountDistinct(names[..n], rs[..n], i);
    } else {
      RecountUnlisted(names[..n], rs[..n], names[n]);
    }
  }

  lemma {:induction false} RecountUnlisted(names: seq<string>, rs: seq<SockResult>, l: string)
    requires |names| == |rs| && l !in names
    ensures Recount(names, rs, l) == 0
  {
    if names != [] {
      assert names[|names| - 1] in names;
      RecountUnlisted(names[..|names| - 1], rs[..|names| - 1], l);
    }
  }

  /** One collection: whether the sockets could be listed, and how each answered. */
  datatype Round = Unlisted | Round(names: seq<string>, rs: seq<SockResult>)

  predicate Shaped(rounds: seq<Round>) {
    forall r | r in rounds :: r.Round? ==> |r.names| == |r.rs|
  }

  function AfterRound(s: State, r: Round): State
    requires r.Round? ==> |r.names| == |r.rs|
  {
    match r
    case Unlisted => s
    case Round(names, rs) => ScrapeAll(Cleared(s), names, rs)
  }

  function AfterRounds(s: State, rounds: seq<Round>): State
    requires Shaped(rounds)
    decreases |rounds|
  {
    if rounds == [] then s else
      assert rounds[0] in rounds;
      AfterRounds(AfterRound(s, rounds[0]), rounds[1..])
  }

  lemma AfterRoundGrows(s: State, r: Round)
    requires Consistent(s) && (r.Round? ==> |r.names| == |r.rs|)
    ensures Consistent(AfterRound(s, r)) && s.known <= AfterRound(s, r).known
  {
    if r.Round? {
      ScrapeAllAgrees(Cleared(s), r.names, r.rs);
    }
  }

  /** Labels never disappear, over any run of Scrapes. */
  lemma {:induction false} LabelsOnlyGrow(s: State, rounds: seq<Round>)
    requires Consistent(s) && Shaped(rounds)
    ensures Consistent(AfterRounds(s, rounds)) && s.known <= AfterRounds(s, rounds).known
    decreases |rounds|
  {
    if rounds != [] {
      assert rounds[0] in rounds;
      AfterRoundGrows(s, rounds[0]);
      LabelsOnlyGrow(AfterRound(s, rounds[0]), rounds[1..]);
    }
  }

  /** The sockets a round read without an outright failure. */
  function Read(r: Round): set<string>
    requires r.Round? ==> |r.names| == |r.rs|
  {
    match r
    case Unlisted => {}
    case Round(names, rs) => set i | 0 <= i < |names| && !rs[i].OtherError? :: names[i]
  }

  lemma ReadSnoc(names: seq<string>, rs: seq<SockResult>)
    requires |names| == |rs| > 0
    ensures var n := |names| - 1;
      Read(Round(names, rs)) == Read(Round(names[..n], rs[..n])) + if rs[n].OtherError? then {} else {names[n]}
  {
    var n := |names| - 1;
    var was, now := Read(Round(names[..n], rs[..n])), Read(Round(names, rs));
    forall l | l in now ensures l in was || (!rs[n].OtherError? && l == names[n]) {
      var j :| 0 <= j < |names| && !rs[j].OtherError? && names[j] == l;
      if j < n {
        assert !rs[..n][j].OtherError? && names[..n][j] == l;
      }
    }
    forall l | l in was ensures l in now {
      var j :| 0 <= j < n && !rs[..n][j].OtherError? && names[..n][j] == l;
      assert !rs[j].OtherError? && names[j] == l;
    }
    assert !rs[n].OtherError? ==> names[n] in now;
  }

  lemma {:induction false} ScrapeAllLabels(s: State, names: seq<string>, rs: seq<SockResult>)
    requires |names| == |rs|
    ensures ScrapeAll(s, names, rs).known == s.known + Read(Round(names, rs))
  {
    if names != [] {
      var n := |names| - 1;
      ScrapeAllLabels(s, names[..n], rs[..n]);
      ReadSnoc(names, rs);
    }
  }

  /** A round's new labels are exactly the sockets it read. */
  lemma RoundLabels(s: State, r: Round)
    requires r.Round? ==> |r.names| == |r.rs|
    ensures AfterRound(s, r).known == s.known + Read(r)
  {
    if r.Round? {
      ScrapeAllLabels(Cleared(s), r.names, r.rs);
    }
  }

  /** After any run a label is known exactly if it was before or some round read that socket without an outright failure. */
  lemma {:induction false} LabelsExact(s: State, rounds: seq<Round>, l: string)
    requires Shaped(rounds)
    ensures l in AfterRounds(s, rounds).known <==>
      l in s.known || exists j, i :: 0 <= j < |rounds| && rounds[j].Round? && 0 <= i < |rounds[j].names| && i < |rounds[j].rs|
                                     && rounds[j].names[i] == l && !rounds[j].rs[i].OtherError?
    decreases |rounds|
  {
    if rounds != [] {
      assert rounds[0] in rounds;
      RoundLabels(s, rounds[0]);
      LabelsExact(AfterRound(s, rounds[0]), rounds[1..], l);
      if l in Read(rounds[0]) {
        var i :| 0 <= i < |rounds[0].names| && !rounds[0].rs[i].OtherError? && rounds[0].names[i] == l;
      }
      forall j, i | 0 <= j < |rounds[1..]| && rounds[1..][j].Round? && 0 <= i < |rounds[1..][j].names| && i < |rounds[1..][j].rs|
        ensures rounds[j + 1].names[i] == rounds[1..][j].names[i] && rounds[j + 1].rs[i] == rounds[1..][j].rs[i]
      {
      }
      if j, i :| 0 <= j < |rounds| && rounds[j].Round? && 0 <= i < |rounds[j].names| && i < |rounds[j].rs|
                 && rounds[j].names[i] == l && !rounds[j].rs[i].OtherError? {
        if j > 0 {
          assert rounds[1..][j - 1] == rounds[j];
        } else {
          assert rounds[0].names[i] in Read(rounds[0]);
        }
      }
    }
  }

  /**
   * Gauge agreement. After any run of Scrapes ending in one that listed distinct sockets, each known
   * label reads the number of clients found on it, and 0 if it was not listed, failed, or answered
   * with a request error; the labels are those before and the sockets that did not fail outright.
   */
  lemma GaugeAgrees(rounds: seq<Round>, names: seq<string>, rs: seq<SockResult>)
    requires Shaped(rounds) && |names| == |rs| && forall j, k | 0 <= j < k < |names| :: names[j] != names[k]
    ensures var s := AfterRound(AfterRounds(State({}, map[]), rounds), Round(names, rs));
      && s.value.Keys == s.known
      && (forall i | 0 <= i < |names| && names[i] in s.known ::
            s.value[names[i]] == match rs[i] case Found(clients) => |clients| case _ => 0)
      && (forall l | l in s.known && l !in names :: s.value[l] == 0)
      && s.known == AfterRounds(State({}, map[]), rounds).known + (set i | 0 <= i < |names| && !rs[i].OtherError? :: names[i])
  {
    RoundLabels(AfterRounds(State({}, map[]), rounds), Round(names, rs));
    LabelsOnlyGrow(State({}, map[]), rounds);
    var before := AfterRounds(State({}, map[]), rounds);
    ScrapeAllAgrees(Cleared(before), names, rs);
    forall i | 0 <= i < |names| ensures Recount(names, rs, names[i]) == match rs[i] case Found(clients) => |clients| case _ => 0 {
      RecountDistinct(names, rs, i);
    }
    forall l | l !in names ensures Recount(names, rs, l) == 0 {
      RecountUnlisted(names, rs, l);
    }
  }
}
