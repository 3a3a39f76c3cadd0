/** What the clients of the orchestrator receive: each request that is answered gets the port that was
    recorded for its account at that moment, and none is answered twice. */
module Clients {
  import opened Wrappers
  import opened Processes
  import opened Orchestration

  /** The account of each request and whether it has a result channel, in the order of arrival. */
  function Requests(events: seq<Event>): seq<(string, bool)> {
    if events == [] then []
    else
      var e := events[|events| - 1];
      Requests(events[..|events| - 1]) + if e.Ask? then [(e.account, e.hasResult)] else []
  }

  lemma RunLast(s: State, events: seq<Event>)
    requires events != []
    ensures Run(s, events) == Next(Run(s, events[..|events| - 1]), events[|events| - 1])
  {
    hide Run, Next;
    RunAppend(s, events[..|events| - 1], events[|events| - 1]);
    assert events == events[..|events| - 1] + [events[|events| - 1]];
  }

  /** No event changes what a request asks for, takes one away, or adds one, except for Ask. */
  lemma RequestsKept(s: State, e: Event)
    ensures var s' := Next(s, e);
      && |s'.clients| == |s.clients| + (if e.Ask? then 1 else 0)
      && (forall c | 0 <= c < |s.clients| ::
           s'.clients[c].account == s.clients[c].account && s'.clients[c].hasResult == s.clients[c].hasResult)
      && (e.Ask? ==> s'.clients[|s.clients|] == Client(e.account, e.hasResult, Asking, None))
  {
    if Enabled(s, e) {
      match e
      case ReceiveRequest(c) =>
      case Reply =>
      case Proc(i, pe) => SameProcess(s, i, pe); hide Next;
      case _ =>
    }
  }

  /** The table of clients is the list of requests that have arrived. */
  lemma {:induction false} ClientsAreRequests(events: seq<Event>)
    ensures var clients := Run(INITIAL, events).clients;
      && |clients| == |Requests(events)|
      && forall c | 0 <= c < |clients| ::
           clients[c].account == Requests(events)[c].0 && clients[c].hasResult == Requests(events)[c].1
    decreases |events|
  {
    if events != [] {
      RunLast(INITIAL, events);
      ClientsAreRequests(events[..|events| - 1]);
      RequestsKept(Run(INITIAL, events[..|events| - 1]), events[|events| - 1]);
      hide Run, Next;
    }
  }

  /** The reply puts the port recorded for the client's account into the channel, if there is one, and
      changes nothing else. */
  lemma ReplyIsRecorded(events: seq<Event>)
    requires Run(INITIAL, events).main.Replying?
    ensures var s := Run(INITIAL, events);
      var s' := Next(s, Reply);
      var c := s.main.client;
      && c < |s.clients| && s.clients[c].account in s.listenPorts
      && s'.clients[c] == Client(s.clients[c].account, s.clients[c].hasResult, Asked,
                                 if s.clients[c].hasResult then Some(s.listenPorts[s.clients[c].account]) else None)
      && s' == s.(main := Looping, clients := s.clients[c := s'.clients[c]])
  {
    hide Run, Counted, Mapped, Unique, Accounted, PortsInOrder, PortsDistinct, AllPaired;
    InitialInv();
    Reachable(INITIAL, events);
  }

  /** The k-th event is the reply to client c, and port is what the table has for its account then. */
  predicate AnsweredAt(events: seq<Event>, k: nat, c: nat, port: Port) {
    k < |events| && events[k] == Reply &&
    var s := Run(INITIAL, events[..k]);
    && s.main == Replying(c, port)
    && c < |s.clients| && s.clients[c].hasResult
    && s.clients[c].account in s.listenPorts && s.listenPorts[s.clients[c].account] == port
  }

  /** The port is on its way to the client or has arrived there. */
  predicate Sent(s: State, c: nat, port: Port) {
    c < |s.clients| && (s.clients[c].buffer == Some(port) || s.clients[c].phase == Got(port))
  }

  lemma SentBefore(s: State, e: Event, c: nat, port: Port)
    requires Sent(Next(s, e), c, port)
    ensures Sent(s, c, port) ||
        (e == Reply && s.main == Replying(c, port) && c < |s.clients| && s.clients[c].hasResult)
  {
  }

  /** Whatever a client holds was recorded for its account when it was answered. */
  lemma {:induction false} ReceivedIsRecorded(events: seq<Event>, c: nat, port: Port) returns (k: nat)
    requires Sent(Run(INITIAL, events), c, port)
    ensures AnsweredAt(events, k, c, port)
    decreases |events|
  {
    assert events != [];
    var n := |events| - 1;
    RunLast(INITIAL, events);
    var s := Run(INITIAL, events[..n]);
    SentBefore(s, events[n], c, port);
    hide Next, Run, Sent;
    if Sent(s, c, port) {
      k := ReceivedIsRecorded(events[..n], c, port);
      assert events[..n][..k] == events[..k];
    } else {
      ReplyIsRecorded(events[..n]);
      k := n;
    }
  }

  lemma SentStays(s: State, e: Event, c: nat, port: Port)
    requires Sent(s, c, port) && ClientsFit(s) && MainFits(s)
    ensures Sent(Next(s, e), c, port)
  {
    if Enabled(s, e) {
      match e
      case Proc(i, pe) => SameProcess(s, i, pe); hide Next, MainFits, ClientsFit;
      case Reply =>
      case ReceiveRequest(d) => hide MainFits;
      case _ => hide MainFits;
    }
  }

  lemma {:induction false} SentForever(s: State, events: seq<Event>, c: nat, port: Port)
    requires Inv(s) && Sent(s, c, port)
    ensures Sent(Run(s, events), c, port)
    decreases |events|
  {
    hide Next, Sent, AllPaired, Counted, Mapped, Unique, MainFits, ClientsFit, Accounted, PortsInOrder, PortsDistinct;
    if events != [] {
      SentStays(s, events[0], c, port);
      InvKept(s, events[0]);
      SentForever(Next(s, events[0]), events[1..], c, port);
    }
  }

  /** What was sent to a client is never lost: the port is in its channel until the client has read it. */
  lemma AnswerStays(events: seq<Event>, k: nat, c: nat, port: Port)
    requires AnsweredAt(events, k, c, port)
    ensures Sent(Run(INITIAL, events), c, port)
  {
    ReplyIsRecorded(events[..k]);
    assert events[..k + 1][..k] == events[..k];
    RunLast(INITIAL, events[..k + 1]);
    InitialInv();
    Reachable(INITIAL, events[..k + 1]);
    hide Run, Next, Inv;
    SentForever(Run(INITIAL, events[..k + 1]), events[k + 1..], c, port);
    RunConcat(INITIAL, events[..k + 1], events[k + 1..]);
    assert events[..k + 1] + events[k + 1..] == events;
  }

  /** The client has been answered: it is not asking and the loop is not busy with it. */
  predicate Settled(s: State, c: nat) {
    && c < |s.clients| && !s.clients[c].phase.Asking?
    && !(s.main.Starting? && s.main.client == c) && !(s.main.Replying? && s.main.client == c)
  }

  lemma SettledStep(s: State, e: Event, c: nat)
    requires Settled(s, c)
    ensures Settled(Next(s, e), c)
  {
  }

  lemma {:induction false} SettledForever(s: State, events: seq<Event>, c: nat)
    requires Settled(s, c)
    ensures Settled(Run(s, events), c)
    decreases |events|
  {
    hide Next, Settled;
    if events != [] {
      SettledStep(s, events[0], c);
      SettledForever(Next(s, events[0]), events[1..], c);
    }
  }

  lemma ReplySettles(events: seq<Event>, k: nat, c: nat, port: Port)
    requires AnsweredAt(events, k, c, port)
    ensures Settled(Run(INITIAL, events[..k + 1]), c)
  {
    assert events[..k + 1][..k] == events[..k];
    RunLast(INITIAL, events[..k + 1]);
    ReplyIsRecorded(events[..k]);
    hide Run, Next;
  }

  /** No client is answered twice, so that there is only one port it can ever receive. */
  lemma AnsweredOnce(events: seq<Event>, j: nat, k: nat, c: nat, port: Port, port': Port)
    requires AnsweredAt(events, j, c, port) && AnsweredAt(events, k, c, port')
    ensures j == k && port == port'
  {
    if j < k {
      NotAgain(events, j, k, c, port, port');
    } else if k < j {
      NotAgain(events, k, j, c, port', port);
    }
  }

  lemma NotAgain(events: seq<Event>, j: nat, k: nat, c: nat, port: Port, port': Port)
    requires AnsweredAt(events, j, c, port) && j < k < |events|
    ensures !AnsweredAt(events, k, c, port')
  {
    ReplySettles(events, j, c, port);
    SettledForever(Run(INITIAL, events[..j + 1]), events[j + 1..k], c);
    RunConcat(INITIAL, events[..j + 1], events[j + 1..k]);
    assert events[..j + 1] + events[j + 1..k] == events[..k];
    hide Run;
  }

  /** What a client has read: the port that was recorded for the account it had asked for, at the one
      moment at which it was answered. */
  lemma GotIsRecorded(events: seq<Event>, c: nat) returns (k: nat)
    requires c < |Run(INITIAL, events).clients| && Run(INITIAL, events).clients[c].phase.Got?
    ensures c < |Requests(events)| && Requests(events)[c].1 && k < |events| && events[k] == Reply
    ensures
      var ports := Run(INITIAL, events[..k]).listenPorts;
      var account := Requests(events)[c].0;
      account in ports && Run(INITIAL, events).clients[c].phase == Got(ports[account])
  {
    ClientsAreRequests(events);
    k := ReceivedIsRecorded(events, c, Run(INITIAL, events).clients[c].phase.port);
    ClientsAreRequests(events[..k]);
    RequestsPrefix(events, k);
    hide Run;
  }

  lemma {:induction false} RequestsPrefix(events: seq<Event>, k: nat)
    requires k <= |events|
    ensures Requests(events[..k]) <= Requests(events)
    decreases |events|
  {
    if k < |events| {
      RequestsPrefix(events[..|events| - 1], k);
      assert events[..|events| - 1][..k] == events[..k];
    } else {
      assert events[..k] == events;
    }
  }
}
