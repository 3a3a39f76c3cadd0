/** A process that exits on its own is no fatal error: as long as the inner context is alive its exit gets
    reported, and the next request for the account starts another process. */
module Restarts {
  import opened Wrappers
  import opened Processes
  import opened Orchestration

  /** An observer interrupts its process, or leaves without having reported the exit, only after the inner
      context was cancelled. */
  predicate Faithful(s: State) {
    !s.innerExpired ==>
      forall i | 0 <= i < |s.procs| ::
        && !s.procs[i].observer.Interrupted?
        && (s.procs[i].observer.ObserverLeaving? || s.procs[i].observer.ObserverLeft? ==> s.procs[i].reported)
  }

  lemma FaithfulStep(s: State, e: Event)
    requires Faithful(s)
    ensures Faithful(Next(s, e))
  {
  }

  lemma {:induction false} FaithfulRun(s: State, events: seq<Event>)
    requires Faithful(s)
    ensures Faithful(Run(s, events))
    decreases |events|
  {
    hide Faithful, Next;
    if events != [] {
      FaithfulStep(s, events[0]);
      FaithfulRun(Next(s, events[0]), events[1..]);
    }
  }

  /** Only the exit of a child itself lets it exit: the orchestrator waits and sends signals. */
  lemma ChildExitsByItself(s: State, e: Event, i: nat)
    requires i < |s.procs| && s.procs[i].child.Running?
    ensures i < |Next(s, e).procs|
    ensures Next(s, e).procs[i].child.Exited? <==> e == Proc(i, ChildExits)
  {
    if Enabled(s, e) {
      match e
      case Proc(j, pe) =>
      case ReceiveExit(j) =>
      case _ => hide ProcEnabled;
    }
  }

  /** How many steps are left until the exit is reported. */
  function StepsLeft(p: Process): nat {
    match p.observer
    case Reporting => 1
    case HasResult => 2
    case _ => if p.waiter.AwaitingChild? then 4 else 3
  }

  /** The exit of process i has not been reported yet, and the loop and the inner context are alive. */
  predicate Unreported(s: State, i: nat) {
    && i < |s.procs| && s.main.Looping? && !s.innerExpired && Faithful(s)
    && s.procs[i].child.Exited? && !s.procs[i].reported && Paired(s.procs[i])
  }

  function NextStep(p: Process, i: nat): Event {
    match p.observer
    case Reporting => ReceiveExit(i)
    case HasResult => Proc(i, CheckContext)
    case _ => Proc(i, if p.waiter.AwaitingChild? then Reaped else Deliver)
  }

  /** Nothing but the processes and, by the report, the entry of the account. */
  predicate OnlyProcesses(s: State, s': State, account: string, reported: bool) {
    && |s'.procs| == |s.procs|
    && s' == s.(procs := s'.procs, listenPorts := if reported then s.listenPorts - {account} else s.listenPorts)
  }

  lemma OneStepCloser(s: State, i: nat)
    requires Unreported(s, i)
    ensures var p := s.procs[i];
      var s' := Next(s, NextStep(p, i));
      && OnlyProcesses(s, s', p.account, p.observer.Reporting?) && s'.procs[i].account == p.account
      && if p.observer.Reporting? then s'.procs[i].reported
         else Unreported(s', i) && StepsLeft(s'.procs[i]) < StepsLeft(p)
  {
    FaithfulStep(s, NextStep(s.procs[i], i));
  }

  lemma {:induction false} ReportPossible(s: State, i: nat) returns (events: seq<Event>)
    requires Unreported(s, i)
    ensures OnlyProcesses(s, Run(s, events), s.procs[i].account, true) && Run(s, events).procs[i].reported
    decreases StepsLeft(s.procs[i])
  {
    var e := NextStep(s.procs[i], i);
    OneStepCloser(s, i);
    hide Next, Unreported;
    var s1 := Next(s, e);
    if s.procs[i].observer.Reporting? {
      events := [e];
      assert [e][1..] == [];
      assert Run(s1, []) == s1;
    } else {
      var more := ReportPossible(s1, i);
      events := [e] + more;
      assert events[1..] == more;
    }
  }

  /** A request for an account without entry starts a process and sends its port to the client. */
  lemma RequestStarts(s: State, account: string) returns (events: seq<Event>)
    requires s.main.Looping? && account !in s.listenPorts
    ensures var s' := Run(s, events);
      var port := NextPort(s.nextListenPort);
      && s'.main.Looping? && s'.listenPorts == s.listenPorts[account := port]
      && s'.procs == s.procs + [Process(account, port, s.attempts + 1, Running, AwaitingChild, Selecting, false)]
      && s'.clients == s.clients + [Client(account, true, Asked, Some(port))]
  {
    var c := |s.clients|;
    events := [Ask(account, true), ReceiveRequest(c)] + [Start(true), Reply];
    RunConcat(s, [Ask(account, true), ReceiveRequest(c)], [Start(true), Reply]);
    Two(s, Ask(account, true), ReceiveRequest(c));
    var s2 := Run(s, [Ask(account, true), ReceiveRequest(c)]);
    Two(s2, Start(true), Reply);
    hide Run, NextPort;
  }

  lemma Two(s: State, a: Event, b: Event)
    ensures Run(s, [a, b]) == Next(Next(s, a), b)
  {
    hide Next;
    assert [a, b][1..] == [b] && [b][1..] == [];
    assert Run(Next(s, a), [b]) == Run(Next(Next(s, a), b), []);
  }

  /** In every reachable state in which the loop is idle and the inner context alive: a process that has
      exited can be reported and replaced, and the client that asks gets the port of the new one. */
  lemma CrashIsRepaired(events: seq<Event>, i: nat) returns (more: seq<Event>)
    requires var s := Run(INITIAL, events);
      s.main.Looping? && !s.innerExpired && i < |s.procs| && s.procs[i].child.Exited? && !s.procs[i].reported
    ensures
      var s, s' := Run(INITIAL, events), Run(INITIAL, events + more);
      var n := |s.procs|;
      && |s'.procs| == n + 1 && s'.procs[i].reported
      && s'.procs[n].account == s.procs[i].account && s'.procs[n].child.Running?
      && s'.listenPorts == s.listenPorts[s.procs[i].account := s'.procs[n].port]
      && s'.clients == s.clients + [Client(s.procs[i].account, true, Asked, Some(s'.procs[n].port))]
  {
    var s := Run(INITIAL, events);
    Watched(events, i);
    var report := ReportPossible(s, i);
    var s1 := Run(s, report);
    var request := RequestStarts(s1, s.procs[i].account);
    more := report + request;
    RunConcat(s, report, request);
    RunConcat(INITIAL, events, more);
    hide Run, NextPort, Unreported;
  }

  lemma Watched(events: seq<Event>, i: nat)
    requires var s := Run(INITIAL, events);
      s.main.Looping? && !s.innerExpired && i < |s.procs| && s.procs[i].child.Exited? && !s.procs[i].reported
    ensures Unreported(Run(INITIAL, events), i)
  {
    InitialInv();
    Reachable(INITIAL, events);
    FaithfulRun(INITIAL, events);
    hide Run, Counted, Mapped, Unique, MainFits, ClientsFit, Accounted, PortsInOrder, PortsDistinct;
  }
}
