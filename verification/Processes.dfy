/** The local-processes orchestrator as a labelled step system: the main loop of the driver, the two
    goroutines that manage each keppel-registry process, the processes themselves, the clients that
    ask for ports, and the two contexts. */
module Processes {
  import opened Wrappers

  type Port = x: int | 0 <= x < 0x1_0000

  const FIRST_PORT: Port := 10000

  datatype Child = Running | Exited

  // The goroutine around cmd.Wait. It leaves in two steps: WaitGroup.Done is deferred.
  datatype Waiter = AwaitingChild | Delivering | WaiterLeaving | WaiterLeft

  // waitOnProcess. Reporting: the context was seen alive, and the exit message is being sent.
  datatype Observer = Selecting | Interrupted | HasResult | Reporting | ObserverLeaving | ObserverLeft

  // reported: the main loop has received the exit message.
  datatype Process = Process(
    account: string, port: Port, attempt: nat,
    child: Child, waiter: Waiter, observer: Observer, reported: bool)

  datatype ProcEvent = ChildExits | Reaped | Interrupt | Deliver | CheckContext | WaiterDone | ObserverDone

  // A request for a port. Only requests of DoHTTPRequest have a result channel, of capacity one.
  datatype Phase = Asking | Asked | Got(port: Port)
  datatype Client = Client(account: string, hasResult: bool, phase: Phase, buffer: Option<Port>)

  datatype Main = Looping | Starting(client: nat, port: Port) | Replying(client: nat, port: Port) | InWait | Returned

  datatype State = State(
    main: Main, ok: bool,
    listenPorts: map<string, Port>, nextListenPort: Port, attempts: nat,
    outerExpired: bool, innerExpired: bool,
    counter: int, procs: seq<Process>, clients: seq<Client>)

  datatype Event =
    | OuterExpires
    | InnerExpires
    | Ask(account: string, hasResult: bool)
    | ReceiveRequest(client: nat)
    | Start(succeeds: bool)
    | Reply
    | ReadReply(client: nat)
    | ReceiveExit(proc: nat)
    | SeeExpiry
    | WaitReturns
    | Proc(proc: nat, event: ProcEvent)

  const INITIAL := State(Looping, true, map[], FIRST_PORT, 0, false, false, 0, [], [])

  /* ---------- one process and its goroutines ---------- */

  predicate ProcEnabled(p: Process, e: ProcEvent, expired: bool) {
    match e
    case ChildExits => p.child.Running?
    case Reaped => p.waiter.AwaitingChild? && p.child.Exited?
    case Interrupt => p.observer.Selecting? && expired
    case Deliver => p.waiter.Delivering? && (p.observer.Selecting? || p.observer.Interrupted?)
    case CheckContext => p.observer.HasResult?
    case WaiterDone => p.waiter.WaiterLeaving?
    case ObserverDone => p.observer.ObserverLeaving?
  }

  function ProcNext(p: Process, e: ProcEvent, expired: bool): Process
    requires ProcEnabled(p, e, expired)
  {
    match e
    case ChildExits => p.(child := Exited)
    case Reaped => p.(waiter := Delivering)
    case Interrupt => p.(observer := Interrupted)
    case Deliver => p.(waiter := WaiterLeaving, observer := HasResult)
    case CheckContext => p.(observer := if expired then ObserverLeaving else Reporting)
    case WaiterDone => p.(waiter := WaiterLeft)
    case ObserverDone => p.(observer := ObserverLeft)
  }

  predicate IsDone(e: ProcEvent) { e.WaiterDone? || e.ObserverDone? }

  /* ---------- the whole system ---------- */

  predicate Enabled(s: State, e: Event) {
    match e
    case OuterExpires => !s.outerExpired
    case InnerExpires => s.outerExpired && !s.innerExpired
    case Ask(_, _) => true
    case ReceiveRequest(c) => s.main.Looping? && c < |s.clients| && s.clients[c].phase.Asking?
    case Start(_) => s.main.Starting? && s.main.client < |s.clients|
    case Reply =>
      && s.main.Replying? && s.main.client < |s.clients|
      && (s.clients[s.main.client].hasResult ==> s.clients[s.main.client].buffer.None?)
    case ReadReply(c) => c < |s.clients| && s.clients[c].phase.Asked? && s.clients[c].buffer.Some?
    case ReceiveExit(i) => s.main.Looping? && i < |s.procs| && s.procs[i].observer.Reporting?
    case SeeExpiry => s.main.Looping? && s.outerExpired
    case WaitReturns => s.main.InWait? && s.counter == 0
    case Proc(i, pe) => i < |s.procs| && ProcEnabled(s.procs[i], pe, s.innerExpired)
  }

  function NextPort(p: Port): Port { (p + 1) % 0x1_0000 }

  function Received(s: State, c: nat): State
    requires Enabled(s, ReceiveRequest(c))
  {
    var account := s.clients[c].account;
    var s1 := s.(clients := s.clients[c := s.clients[c].(phase := Asked)]);
    if account in s.listenPorts then s1.(main := Replying(c, s.listenPorts[account]))
    else
      var port := NextPort(s.nextListenPort);
      s1.(nextListenPort := port, attempts := s.attempts + 1, main := Starting(c, port))
  }

  function Started(s: State, succeeds: bool): State
    requires Enabled(s, Start(succeeds))
  {
    var Starting(c, port) := s.main;
    var account := s.clients[c].account;
    var s1 := s.(listenPorts := s.listenPorts[account := port], main := Replying(c, port));
    if succeeds then
      s1.(counter := s.counter + 2,
          procs := s.procs + [Process(account, port, s.attempts, Running, AwaitingChild, Selecting, false)])
    else s1.(ok := false, innerExpired := true)
  }

  function Replied(s: State): State
    requires Enabled(s, Reply)
  {
    var Replying(c, port) := s.main;
    s.(main := Looping,
       clients := if s.clients[c].hasResult then s.clients[c := s.clients[c].(buffer := Some(port))] else s.clients)
  }

  function ExitReceived(s: State, i: nat): State
    requires Enabled(s, ReceiveExit(i))
  {
    s.(listenPorts := s.listenPorts - {s.procs[i].account},
       procs := s.procs[i := s.procs[i].(observer := ObserverLeaving, reported := true)])
  }

  function ProcMoved(s: State, i: nat, e: ProcEvent): State
    requires Enabled(s, Proc(i, e))
  {
    s.(procs := s.procs[i := ProcNext(s.procs[i], e, s.innerExpired)],
       counter := if IsDone(e) then s.counter - 1 else s.counter)
  }

  /** An event that is not enabled does not happen. */
  function Next(s: State, e: Event): State {
    if !Enabled(s, e) then s
    else match e
      case OuterExpires => s.(outerExpired := true)
      case InnerExpires => s.(innerExpired := true)
      case Ask(account, hasResult) => s.(clients := s.clients + [Client(account, hasResult, Asking, None)])
      case ReceiveRequest(c) => Received(s, c)
      case Start(succeeds) => Started(s, succeeds)
      case Reply => Replied(s)
      case ReadReply(c) =>
        var client := s.clients[c];
        s.(clients := s.clients[c := client.(phase := Got(client.buffer.value), buffer := None)])
      case ReceiveExit(i) => ExitReceived(s, i)
      case SeeExpiry => s.(main := InWait, innerExpired := true)
      case WaitReturns => s.(main := Returned)
      case Proc(i, pe) => ProcMoved(s, i, pe)
  }

  function Run(s: State, events: seq<Event>): State
    decreases |events|
  {
    if events == [] then s else Run(Next(s, events[0]), events[1..])
  }

  lemma {:induction false} RunAppend(s: State, a: seq<Event>, e: Event)
    ensures Run(s, a + [e]) == Next(Run(s, a), e)
    decreases |a|
  {
    hide Next;
    if a == [] {
      assert Run(s, [e]) == Run(Next(s, e), [e][1..]);
      assert [] + [e] == [e];
    } else {
      assert (a + [e])[1..] == a[1..] + [e];
      RunAppend(Next(s, a[0]), a[1..], e);
    }
  }

  lemma {:induction false} RunConcat(s: State, a: seq<Event>, b: seq<Event>)
    ensures Run(s, a + b) == Run(Run(s, a), b)
    decreases |a|
  {
    hide Next;
    if a == [] {
      assert a + b == b;
    } else {
      assert (a + b)[1..] == a[1..] + b;
      RunConcat(Next(s, a[0]), a[1..], b);
    }
  }
}
