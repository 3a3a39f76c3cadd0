/** What holds in every reachable state of the orchestrator, however its parts are interleaved. */
module Orchestration {
  import opened Processes

  /* ---------- invariants ---------- */

  function Unfinished(p: Process): nat {
    (if p.waiter.WaiterLeft? then 0 else 1) + (if p.observer.ObserverLeft? then 0 else 1)
  }

  function AllUnfinished(procs: seq<Process>): nat {
    if procs == [] then 0 else AllUnfinished(procs[..|procs| - 1]) + Unfinished(procs[|procs| - 1])
  }

  /** The waiter's send and the observer's receive belong together: neither is left over alone. */
  predicate Paired(p: Process) {
    && (p.waiter.AwaitingChild? || p.waiter.Delivering? <==> p.observer.Selecting? || p.observer.Interrupted?)
    && (!p.waiter.AwaitingChild? ==> p.child.Exited?)
    && (p.reported ==> p.observer.ObserverLeaving? || p.observer.ObserverLeft?)
  }

  /** The counter of the WaitGroup is the number of goroutines that have not finished. */
  predicate Counted(s: State) {
    s.counter == AllUnfinished(s.procs)
  }

  predicate AllPaired(s: State) {
    forall i | 0 <= i < |s.procs| :: Paired(s.procs[i])
  }

  /** As long as its exit has not been reported, a process is the one that listenPorts names. */
  predicate Mapped(s: State) {
    forall i | 0 <= i < |s.procs| && !s.procs[i].reported ::
      s.procs[i].account in s.listenPorts && s.listenPorts[s.procs[i].account] == s.procs[i].port
  }

  /** At most one process of each account has not been reported. */
  predicate Unique(s: State) {
    forall i, j | 0 <= i < j < |s.procs| && !s.procs[i].reported && !s.procs[j].reported ::
      s.procs[i].account != s.procs[j].account
  }

  predicate Unanswered(s: State, c: nat) {
    c < |s.clients| && s.clients[c].phase.Asked? && s.clients[c].buffer.None?
  }

  predicate MainFits(s: State) {
    match s.main
    case Looping => true
    case Starting(c, port) => Unanswered(s, c) && s.clients[c].account !in s.listenPorts && port == s.nextListenPort
    case Replying(c, port) =>
      && Unanswered(s, c)
      && s.clients[c].account in s.listenPorts && s.listenPorts[s.clients[c].account] == port
    case InWait => s.outerExpired && s.innerExpired
    case Returned => s.outerExpired && s.innerExpired && s.counter == 0
  }

  predicate ClientsFit(s: State) {
    forall c | 0 <= c < |s.clients| :: s.clients[c].buffer.Some? ==> s.clients[c].phase.Asked? && s.clients[c].hasResult
  }

  /** Every start attempt that failed has cleared ok and cancelled the inner context. */
  predicate Accounted(s: State) {
    var begun := |s.procs| + if s.main.Starting? then 1 else 0;
    && begun <= s.attempts
    && (s.ok <==> begun == s.attempts)
    && (!s.ok ==> s.innerExpired)
    && (s.innerExpired ==> s.outerExpired || !s.ok)
  }

  function PortOf(attempt: nat): Port { (FIRST_PORT + attempt) % 0x1_0000 }

  /** Processes got the ports of their start attempts, one after the other. */
  predicate PortsInOrder(s: State) {
    && s.nextListenPort == PortOf(s.attempts)
    && (forall i | 0 <= i < |s.procs| ::
         0 < s.procs[i].attempt <= s.attempts && s.procs[i].port == PortOf(s.procs[i].attempt))
    && (forall i | 0 <= i < |s.procs| && s.main.Starting? :: s.procs[i].attempt < s.attempts)
    && (forall i, j | 0 <= i < j < |s.procs| :: s.procs[i].attempt < s.procs[j].attempt)
  }

  const LAST_PORTS := 0xFFFF - FIRST_PORT

  /** Until the port numbers wrap around, no two accounts share one. */
  predicate PortsDistinct(s: State) {
    s.attempts <= LAST_PORTS ==>
      && (forall a | a in s.listenPorts :: FIRST_PORT < s.listenPorts[a] <= FIRST_PORT + s.attempts)
      && (forall a | a in s.listenPorts && s.main.Starting? :: s.listenPorts[a] < FIRST_PORT + s.attempts)
      && (forall a, b | a in s.listenPorts && b in s.listenPorts && a != b :: s.listenPorts[a] != s.listenPorts[b])
  }

  predicate Inv(s: State) {
    && AllPaired(s) && Counted(s) && Mapped(s) && Unique(s) && MainFits(s) && ClientsFit(s)
    && Accounted(s) && PortsInOrder(s) && PortsDistinct(s)
  }

  /* ---------- every event keeps them ---------- */

  lemma {:induction false} UnfinishedUpdate(procs: seq<Process>, i: nat, p: Process)
    requires i < |procs|
    ensures AllUnfinished(procs[i := p]) == AllUnfinished(procs) - Unfinished(procs[i]) + Unfinished(p)
    decreases |procs|
  {
    var n := |procs| - 1;
    if i == n {
      assert procs[i := p][..n] == procs[..n];
    } else {
      assert procs[i := p][..n] == procs[..n][i := p];
      UnfinishedUpdate(procs[..n], i, p);
    }
  }

  lemma UnfinishedAppend(procs: seq<Process>, p: Process)
    ensures AllUnfinished(procs + [p]) == AllUnfinished(procs) + Unfinished(p)
  {
    assert (procs + [p])[..|procs|] == procs;
  }

  lemma CountedProc(s: State, i: nat, pe: ProcEvent)
    requires Counted(s) && Enabled(s, Proc(i, pe))
    ensures Counted(Next(s, Proc(i, pe)))
  {
    hide AllUnfinished;
    UnfinishedUpdate(s.procs, i, ProcNext(s.procs[i], pe, s.innerExpired));
  }

  lemma CountedExit(s: State, i: nat)
    requires Counted(s) && Enabled(s, ReceiveExit(i))
    ensures Counted(Next(s, ReceiveExit(i)))
  {
    hide AllUnfinished;
    UnfinishedUpdate(s.procs, i, Next(s, ReceiveExit(i)).procs[i]);
  }

  lemma CountedStart(s: State, succeeds: bool)
    requires Counted(s) && Enabled(s, Start(succeeds))
    ensures Counted(Next(s, Start(succeeds)))
  {
    hide AllUnfinished;
    if succeeds { UnfinishedAppend(s.procs, Next(s, Start(succeeds)).procs[|s.procs|]); }
  }

  lemma CountedKept(s: State, e: Event)
    requires Counted(s)
    ensures Counted(Next(s, e))
  {
    hide AllUnfinished;
    if Enabled(s, e) {
      match e
      case Start(succeeds) => hide *; CountedStart(s, succeeds);
      case ReceiveExit(i) => hide *; CountedExit(s, i);
      case Proc(i, pe) => hide *; CountedProc(s, i, pe);
      case _ =>
    }
  }

  lemma PairedKept(s: State, e: Event)
    requires AllPaired(s)
    ensures AllPaired(Next(s, e))
  {
  }

  /** A step of one process keeps its identity. */
  lemma SameProcess(s: State, i: nat, pe: ProcEvent)
    requires Enabled(s, Proc(i, pe))
    ensures var s' := Next(s, Proc(i, pe));
      && s'.listenPorts == s.listenPorts && |s'.procs| == |s.procs|
      && s'.main == s.main && s'.clients == s.clients
      && s'.attempts == s.attempts && s'.nextListenPort == s.nextListenPort
      && forall j | 0 <= j < |s.procs| ::
           && s'.procs[j].account == s.procs[j].account && s'.procs[j].port == s.procs[j].port
           && s'.procs[j].attempt == s.procs[j].attempt && s'.procs[j].reported == s.procs[j].reported
  {
  }

  lemma ExitMapped(s: State, i: nat)
    requires Mapped(s) && Unique(s) && Enabled(s, ReceiveExit(i))
    requires AllPaired(s)
    ensures Mapped(Next(s, ReceiveExit(i)))
  {
    var s' := Next(s, ReceiveExit(i));
    assert !s.procs[i].reported by { assert Paired(s.procs[i]); }
    hide Paired, Counted, MainFits, ClientsFit, AllPaired;
    forall j | 0 <= j < |s'.procs| && !s'.procs[j].reported
      ensures s'.procs[j].account in s'.listenPorts && s'.listenPorts[s'.procs[j].account] == s'.procs[j].port
    {
      assert s'.procs[j] == s.procs[j];
      assert if i < j then s.procs[i].account != s.procs[j].account else s.procs[j].account != s.procs[i].account;
    }
  }

  lemma MappedKept(s: State, e: Event)
    requires Mapped(s) && Unique(s) && MainFits(s) && AllPaired(s)
    ensures Mapped(Next(s, e))
  {
    if Enabled(s, e) {
      hide AllPaired, Unique;
      match e
      case Proc(i, pe) => SameProcess(s, i, pe); hide Next;
      case ReceiveExit(i) => ExitMapped(s, i);
      case _ =>
    }
  }

  lemma UniqueKept(s: State, e: Event)
    requires Unique(s) && Mapped(s) && MainFits(s)
    ensures Unique(Next(s, e))
  {
    if Enabled(s, e) {
      match e
      case Proc(i, pe) => SameProcess(s, i, pe); hide Next;
      case _ =>
    }
  }

  lemma MainFitsKept(s: State, e: Event)
    requires MainFits(s) && ClientsFit(s) && Counted(s)
    ensures MainFits(Next(s, e))
  {
    hide AllUnfinished;
    if Enabled(s, e) {
      match e
      case Proc(i, pe) =>
        SameProcess(s, i, pe);
        if s.main.Returned? { SomeoneUnfinished(s.procs, i); }
      case ReceiveRequest(c) => ReceivedFits(s, c);
      case _ => hide Counted;
    }
  }

  lemma ReceivedFits(s: State, c: nat)
    requires ClientsFit(s) && Enabled(s, ReceiveRequest(c))
    ensures MainFits(Next(s, ReceiveRequest(c)))
  {
    hide NextPort;
  }

  lemma ClientsFitKept(s: State, e: Event)
    requires MainFits(s) && ClientsFit(s)
    ensures ClientsFit(Next(s, e))
  {
    if Enabled(s, e) {
      match e
      case Proc(i, pe) => SameProcess(s, i, pe); hide Next, MainFits;
      case Reply =>
      case _ => hide MainFits;
    }
  }

  lemma {:induction false} SomeoneUnfinished(procs: seq<Process>, i: nat)
    requires i < |procs|
    ensures AllUnfinished(procs) >= Unfinished(procs[i])
    decreases |procs|
  {
    if i < |procs| - 1 { SomeoneUnfinished(procs[..|procs| - 1], i); }
  }

  lemma AccountedKept(s: State, e: Event)
    requires Accounted(s)
    ensures Accounted(Next(s, e))
  {
  }

  lemma PortOfNext(attempt: nat)
    ensures NextPort(PortOf(attempt)) == PortOf(attempt + 1)
    ensures attempt <= LAST_PORTS ==> PortOf(attempt) == FIRST_PORT + attempt
  {
  }

  lemma PortsInOrderKept(s: State, e: Event)
    requires PortsInOrder(s) && MainFits(s) && Accounted(s)
    ensures PortsInOrder(Next(s, e))
  {
    hide PortOf, NextPort;
    if Enabled(s, e) {
      PortOfNext(s.attempts);
      match e
      case Proc(i, pe) => SameProcess(s, i, pe); hide Next;
      case Start(succeeds) => StartInOrder(s, succeeds);
      case ReceiveRequest(c) => ReceiveInOrder(s, c);
      case _ => hide MainFits, Accounted;
    }
  }

  lemma StartInOrder(s: State, succeeds: bool)
    requires PortsInOrder(s) && MainFits(s) && Accounted(s) && Enabled(s, Start(succeeds))
    ensures PortsInOrder(Next(s, Start(succeeds)))
  {
    hide PortOf;
  }

  lemma ReceiveInOrder(s: State, c: nat)
    requires PortsInOrder(s) && Enabled(s, ReceiveRequest(c))
    ensures PortsInOrder(Next(s, ReceiveRequest(c)))
  {
    hide PortOf, NextPort;
    PortOfNext(s.attempts);
  }

  lemma PortsDistinctKept(s: State, e: Event)
    requires PortsDistinct(s) && s.nextListenPort == PortOf(s.attempts) && MainFits(s) && Accounted(s)
    ensures PortsDistinct(Next(s, e))
  {
    hide PortOf, NextPort;
    if Enabled(s, e) {
      PortOfNext(s.attempts);
      match e
      case Proc(i, pe) => SameProcess(s, i, pe); hide Next;
      case Start(succeeds) => StartDistinct(s, succeeds);
      case ReceiveRequest(c) => ReceiveDistinct(s, c);
      case _ => hide PortOf, Accounted, MainFits;
    }
  }

  lemma StartDistinct(s: State, succeeds: bool)
    requires PortsDistinct(s) && s.nextListenPort == PortOf(s.attempts) && MainFits(s) && Accounted(s)
    requires Enabled(s, Start(succeeds))
    ensures PortsDistinct(Next(s, Start(succeeds)))
  {
    hide PortOf;
    PortOfNext(s.attempts);
  }

  lemma ReceiveDistinct(s: State, c: nat)
    requires PortsDistinct(s) && Enabled(s, ReceiveRequest(c))
    ensures PortsDistinct(Next(s, ReceiveRequest(c)))
  {
    hide NextPort;
  }

  lemma InvKept(s: State, e: Event)
    requires Inv(s)
    ensures Inv(Next(s, e))
  {
    hide AllPaired, Counted, Mapped, Unique, MainFits, ClientsFit, Accounted, PortsInOrder, PortsDistinct, Next;
    PairedKept(s, e);
    CountedKept(s, e);
    MappedKept(s, e);
    UniqueKept(s, e);
    MainFitsKept(s, e);
    ClientsFitKept(s, e);
    AccountedKept(s, e);
    PortsInOrderKept(s, e);
    PortsDistinctKept(s, e) by { NextPortFits(s); }
  }

  lemma NextPortFits(s: State)
    requires PortsInOrder(s)
    ensures s.nextListenPort == PortOf(s.attempts)
  {
  }

  lemma InitialInv()
    ensures Inv(INITIAL)
  {
  }

  /** Every reachable state satisfies the invariants. */
  lemma {:induction false} Reachable(s: State, events: seq<Event>)
    requires Inv(s)
    ensures Inv(Run(s, events))
    decreases |events|
  {
    hide Inv, Next;
    if events != [] {
      InvKept(s, events[0]);
      Reachable(Next(s, events[0]), events[1..]);
    }
  }

  /* ---------- what follows for clients, processes and the loop ---------- */

  /** An exit message removes the entry of the very process that has exited, and no process is left
      that needed it. */
  lemma ExitErasesOwnEntry(events: seq<Event>, i: nat)
    requires Enabled(Run(INITIAL, events), ReceiveExit(i))
    ensures var s := Run(INITIAL, events);
      var s' := Next(s, ReceiveExit(i));
      && s.procs[i].account in s.listenPorts && s.listenPorts[s.procs[i].account] == s.procs[i].port
      && s' == s.(listenPorts := s.listenPorts - {s.procs[i].account}, procs := s'.procs)
      && s'.procs == s.procs[i := s.procs[i].(observer := ObserverLeaving, reported := true)]
      && forall j | 0 <= j < |s'.procs| && s'.procs[j].account == s.procs[i].account :: s'.procs[j].reported
  {
    hide Run, Counted, MainFits, ClientsFit, Accounted, PortsInOrder, PortsDistinct;
    InitialInv();
    Reachable(INITIAL, events);
    var s := Run(INITIAL, events);
    assert Paired(s.procs[i]);
    ExitMapped(s, i);
  }

  /** A process that has not been reported is the only one of its account and is where clients are
      sent. */
  lemma OneProcessPerAccount(events: seq<Event>, i: nat)
    requires i < |Run(INITIAL, events).procs| && !Run(INITIAL, events).procs[i].reported
    ensures var s := Run(INITIAL, events);
      var p := s.procs[i];
      && p.account in s.listenPorts && s.listenPorts[p.account] == p.port
      && forall j | 0 <= j < |s.procs| && j != i && !s.procs[j].reported :: s.procs[j].account != p.account
  {
    hide Run, AllPaired, Counted, MainFits, ClientsFit, Accounted, PortsInOrder, PortsDistinct;
    InitialInv();
    Reachable(INITIAL, events);
    var s := Run(INITIAL, events);
    forall j | 0 <= j < |s.procs| && j != i && !s.procs[j].reported ensures s.procs[j].account != s.procs[i].account {
      assert if i < j then s.procs[i].account != s.procs[j].account else s.procs[j].account != s.procs[i].account;
    }
  }

  /** The loop is never held up by the client it answers, the answer is the port recorded for the
      client's account, and a waiter's result always has a taker. */
  lemma NothingBlocks(events: seq<Event>)
    ensures var s := Run(INITIAL, events);
      && (s.main.Replying? ==>
            && Enabled(s, Reply)
            && s.clients[s.main.client].account in s.listenPorts
            && s.listenPorts[s.clients[s.main.client].account] == s.main.port)
      && (s.main.Starting? ==> forall succeeds :: Enabled(s, Start(succeeds)))
      && forall i: nat | i < |s.procs| && s.procs[i].waiter.Delivering? :: Enabled(s, Proc(i, Deliver))
  {
    hide Run, Counted, Mapped, Unique, ClientsFit, Accounted, PortsInOrder, PortsDistinct;
    InitialInv();
    Reachable(INITIAL, events);
    var s := Run(INITIAL, events);
    forall i: nat | i < |s.procs| && s.procs[i].waiter.Delivering? ensures Enabled(s, Proc(i, Deliver)) {
      assert Paired(s.procs[i]);
    }
  }

  /** When Run returns, every process it has ever started has exited and no goroutine is left; it
      returns true exactly if every attempt to start a process has succeeded. */
  lemma ReturnedMeansExited(events: seq<Event>)
    requires Run(INITIAL, events).main.Returned?
    ensures var s := Run(INITIAL, events);
      && (forall p | p in s.procs :: p.child.Exited? && p.waiter.WaiterLeft? && p.observer.ObserverLeft?)
      && (s.ok <==> |s.procs| == s.attempts)
  {
    hide Run, Mapped, Unique, ClientsFit, PortsInOrder, PortsDistinct, AllUnfinished;
    InitialInv();
    Reachable(INITIAL, events);
    var s := Run(INITIAL, events);
    forall i | 0 <= i < |s.procs|
      ensures s.procs[i].child.Exited? && s.procs[i].waiter.WaiterLeft? && s.procs[i].observer.ObserverLeft?
    {
      SomeoneUnfinished(s.procs, i);
      assert Paired(s.procs[i]);
    }
  }

  /** A failed start does not make Run return: only the inner context is cancelled, and the port is
      handed out all the same. */
  lemma FailedStartGoesOn(events: seq<Event>)
    requires Run(INITIAL, events).main.Starting?
    ensures var s := Run(INITIAL, events);
      var s' := Next(Next(s, Start(false)), Reply);
      && s'.main.Looping? && !s'.ok && s'.innerExpired
      && s'.outerExpired == s.outerExpired && s'.procs == s.procs
      && s.clients[s.main.client].account in s'.listenPorts
      && s'.listenPorts[s.clients[s.main.client].account] == s.main.port
  {
    hide Run, Counted, Mapped, Unique, ClientsFit, Accounted, PortsInOrder, PortsDistinct, AllPaired;
    InitialInv();
    Reachable(INITIAL, events);
  }

  /** Once the loop waits, the counter only goes down: nothing is started any more. */
  lemma {:induction false} NoAddAfterWait(s: State, events: seq<Event>)
    requires Inv(s) && (s.main.InWait? || s.main.Returned?)
    ensures var s' := Run(s, events);
      (s'.main.InWait? || s'.main.Returned?) && |s'.procs| == |s.procs| && s'.counter <= s.counter
    decreases |events|
  {
    hide Inv;
    if events != [] {
      InvKept(s, events[0]);
      NoAddAfterWait(Next(s, events[0]), events[1..]);
    }
  }

  /** Two processes have the same port exactly if 65536 start attempts, or a multiple of that, lie
      between them. */
  lemma SamePortExactly(events: seq<Event>, i: nat, j: nat)
    requires i < j < |Run(INITIAL, events).procs|
    ensures var procs := Run(INITIAL, events).procs;
      procs[i].port == procs[j].port <==> (procs[j].attempt - procs[i].attempt) % 0x1_0000 == 0
    ensures Run(INITIAL, events).attempts <= 0x1_0000 ==>
      Run(INITIAL, events).procs[i].port != Run(INITIAL, events).procs[j].port
  {
    hide Run, Counted, Mapped, Unique, MainFits, ClientsFit, Accounted, AllPaired, PortsDistinct;
    InitialInv();
    Reachable(INITIAL, events);
    var procs := Run(INITIAL, events).procs;
    assert procs[i].attempt < procs[j].attempt;
    SameRemainder(FIRST_PORT + procs[i].attempt, FIRST_PORT + procs[j].attempt);
  }

  /** The n-th attempt to start a process is made with port 10000 + n, modulo 65536, also if it fails. */
  lemma PortOfAttempt(events: seq<Event>)
    ensures var s := Run(INITIAL, events);
      && (s.main.Starting? ==> s.main.port == (10000 + s.attempts) % 65536)
      && forall i | 0 <= i < |s.procs| :: s.procs[i].port == (10000 + s.procs[i].attempt) % 65536
  {
    hide Run, Counted, Mapped, Unique, ClientsFit, Accounted, AllPaired, PortsDistinct;
    InitialInv();
    Reachable(INITIAL, events);
  }

  lemma SameRemainder(a: nat, b: nat)
    ensures a % 0x1_0000 == b % 0x1_0000 <==> (b - a) % 0x1_0000 == 0
  {
  }

  /** For the first 55535 start attempts all recorded ports are distinct and were handed out since
      the beginning. */
  lemma FirstPortsDistinct(events: seq<Event>)
    requires Run(INITIAL, events).attempts <= 55535
    ensures var s := Run(INITIAL, events);
      && (forall a | a in s.listenPorts :: 10000 < s.listenPorts[a] <= s.nextListenPort)
      && forall a, b | a in s.listenPorts && b in s.listenPorts && a != b :: s.listenPorts[a] != s.listenPorts[b]
  {
    hide Run, Counted, Mapped, Unique, MainFits, ClientsFit, Accounted, AllPaired;
    InitialInv();
    Reachable(INITIAL, events);
    PortOfNext(Run(INITIAL, events).attempts);
  }
}
