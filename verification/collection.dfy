/** One collection end to end: the sockets' servers, the enumeration loop on each, and the gauge that counts what it finds. */
module Collection {
  import opened Parser
  import T = Stations
  import opened Gauge

  /** What hostapd serves on one socket: the reports of its stations, and what it says past the last. */
  datatype Server = Server(toks: seq<string>, end: string)

  /** The result of listClientsOnSock as its caller sees it; a loop that goes on for ever gives none. */
  function Result(l: T.Listing): SockResult
    requires !l.Unfinished? && (l.Failed? ==> !l.cause.Text?)
  {
    match l
    case Clients(clients) => Found(clients)
    case Failed(cause) => if cause.RequestFailed? then RequestError(cause.code) else OtherError(cause.error)
  }

  /** The socket's server is stable, tells its stations apart, and answers the loop for as long as it asks. */
  ghost predicate Stable(name: string, server: Server, replies: seq<T.Fetch>) {
    && T.WellServed(server.toks, server.end) && T.Distinct(server.toks) && |replies| > |server.toks|
    && T.AnsweredBy(server.toks, server.end, T.Walk(name, T.STA_FIRST, replies).1, replies)
  }

  lemma StableListing(name: string, server: Server, replies: seq<T.Fetch>)
    requires Stable(name, server, replies)
    ensures T.Walk(name, T.STA_FIRST, replies).0 == T.Clients(T.ListFrom(server.toks, name, 0))
  {
    T.EnumerationComplete(server.toks, server.end, name, replies);
  }

  /** How the sockets of one collection answer. */
  ghost predicate Answers(names: seq<string>, replies: seq<seq<T.Fetch>>, rs: seq<SockResult>) {
    && |names| == |replies| == |rs|
    && forall i | 0 <= i < |names| ::
         var l := T.Walk(names[i], T.STA_FIRST, replies[i]).0; !l.Unfinished? && rs[i] == Result(l)
  }

  /**
   * After a scrape of distinct sockets, whatever scrapes came before, the label of every socket with a
   * stable server is known and reads the number of its stations.
   */
  lemma ScrapeCountsStations(rounds: seq<Round>, names: seq<string>, replies: seq<seq<T.Fetch>>, rs: seq<SockResult>, i: nat, server: Server)
    requires Shaped(rounds) && Answers(names, replies, rs) && forall j, k | 0 <= j < k < |names| :: names[j] != names[k]
    requires i < |names| && Stable(names[i], server, replies[i])
    ensures var s := AfterRound(AfterRounds(State({}, map[]), rounds), Round(names, rs));
      names[i] in s.value && s.value[names[i]] == |server.toks|
  {
    hide Stable;
    StableListing(names[i], server, replies[i]);
    GaugeAgrees(rounds, names, rs);
    assert rs[i] == Found(T.ListFrom(server.toks, names[i], 0));
  }
}
