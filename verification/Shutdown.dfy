/** Shutdown: when exactly the loop gets out of WaitGroup.Wait. */
module Shutdown {
  import opened Processes
  import opened Orchestration

  predicate IsStuck(p: Process) { p.observer.Reporting? }

  /** An observer has seen the context alive, but its exit message was not received. */
  predicate Stuck(s: State) {
    exists i | 0 <= i < |s.procs| :: IsStuck(s.procs[i])
  }

  /* ---------- how far a process is from being cleaned up ---------- */

  function Distance(p: Process): nat {
    (if p.child.Running? then 1 else 0)
    + (match p.waiter case AwaitingChild => 3 case Delivering => 2 case WaiterLeaving => 1 case WaiterLeft => 0)
    + (match p.observer
       case Selecting => 4 case Interrupted => 3 case HasResult => 2
       case Reporting => 2 case ObserverLeaving => 1 case ObserverLeft => 0)
  }

  function AllDistances(procs: seq<Process>): nat {
    if procs == [] then 0 else AllDistances(procs[..|procs| - 1]) + Distance(procs[|procs| - 1])
  }

  function Measure(s: State): nat {
    AllDistances(s.procs) + if s.main.Returned? then 0 else 1
  }

  /** Events of the processes and of the loop, as opposed to those of clients. */
  predicate Internal(e: Event) {
    e.Proc? || e.WaitReturns?
  }

  lemma {:induction false} DistancesUpdate(procs: seq<Process>, i: nat, p: Process)
    requires i < |procs|
    ensures AllDistances(procs[i := p]) == AllDistances(procs) - Distance(procs[i]) + Distance(p)
    decreases |procs|
  {
    var n := |procs| - 1;
    if i == n {
      assert procs[i := p][..n] == procs[..n];
    } else {
      assert procs[i := p][..n] == procs[..n][i := p];
      DistancesUpdate(procs[..n], i, p);
    }
  }

  /** While the loop waits, nothing but what brings shutdown closer can happen, apart from clients. */
  lemma MeasureDecreases(s: State, e: Event)
    requires Inv(s) && s.main.InWait? && Enabled(s, e)
    ensures if Internal(e) then Measure(Next(s, e)) < Measure(s) else Measure(Next(s, e)) == Measure(s)
  {
    WaitingExpired(s);
    hide Inv;
    if e.Proc? { ProcDecreases(s, e.proc, e.event); }
  }

  lemma WaitingExpired(s: State)
    requires Inv(s) && s.main.InWait?
    ensures s.innerExpired
  {
    hide AllPaired, Counted, Mapped, Unique, ClientsFit, Accounted, PortsInOrder, PortsDistinct;
  }

  lemma ProcDecreases(s: State, i: nat, pe: ProcEvent)
    requires s.innerExpired && Enabled(s, Proc(i, pe))
    ensures Measure(Next(s, Proc(i, pe))) < Measure(s)
  {
    hide AllDistances;
    var p' := ProcNext(s.procs[i], pe, true);
    assert Distance(p') < Distance(s.procs[i]);
    hide Distance;
    DistancesUpdate(s.procs, i, p');
  }

  /** An observer that is stuck stays so, and Run does not return. */
  lemma {:induction false} StuckForever(s: State, events: seq<Event>)
    requires Inv(s) && s.main.InWait? && Stuck(s)
    ensures var s' := Run(s, events); s'.main.InWait? && Stuck(s') && s'.counter > 0
    decreases |events|
  {
    hide Inv;
    CounterPositive(s);
    if events != [] {
      var s1 := Next(s, events[0]);
      InvKept(s, events[0]);
      StuckStep(s, events[0]);
      StuckForever(s1, events[1..]);
    }
  }

  lemma CounterPositive(s: State)
    requires Inv(s) && Stuck(s)
    ensures s.counter > 0
  {
    hide AllUnfinished;
    var i :| 0 <= i < |s.procs| && IsStuck(s.procs[i]);
    SomeoneUnfinished(s.procs, i);
  }

  lemma StuckStep(s: State, e: Event)
    requires Inv(s) && s.main.InWait? && Stuck(s)
    ensures Next(s, e).main.InWait? && Stuck(Next(s, e))
  {
    CounterPositive(s);
    hide Inv;
    var i :| 0 <= i < |s.procs| && IsStuck(s.procs[i]);
    assert IsStuck(Next(s, e).procs[i]);
  }

  /** While the loop waits, nobody gets stuck any more: the context has expired. */
  lemma NobodyGetsStuck(s: State, e: Event)
    requires Inv(s) && (s.main.InWait? || s.main.Returned?) && !Stuck(s)
    ensures !Stuck(Next(s, e)) && (Next(s, e).main.InWait? || Next(s, e).main.Returned?)
  {
    hide AllPaired, Counted, Mapped, Unique, ClientsFit, Accounted, PortsInOrder, PortsDistinct;
    var s' := Next(s, e);
    forall i | 0 <= i < |s'.procs| ensures !IsStuck(s'.procs[i]) {
      assert !IsStuck(s.procs[i]);
    }
  }

  /** The next thing to happen to a process during shutdown; a child exits when it is interrupted. */
  function NextFor(p: Process): ProcEvent {
    if p.observer.Selecting? then Interrupt
    else if p.child.Running? then ChildExits
    else match p.waiter
      case AwaitingChild => Reaped
      case Delivering => Deliver
      case WaiterLeaving => WaiterDone
      case WaiterLeft => if p.observer.HasResult? then CheckContext else ObserverDone
  }

  lemma NextForEnabled(p: Process)
    requires Paired(p) && !IsStuck(p) && Unfinished(p) > 0
    ensures ProcEnabled(p, NextFor(p), true)
    ensures NextFor(p).ChildExits? ==> p.observer.Interrupted?
  {
  }

  lemma {:induction false} FindUnfinished(procs: seq<Process>) returns (i: nat)
    requires AllUnfinished(procs) > 0
    ensures i < |procs| && Unfinished(procs[i]) > 0
    decreases |procs|
  {
    if Unfinished(procs[|procs| - 1]) > 0 {
      i := |procs| - 1;
    } else {
      i := FindUnfinished(procs[..|procs| - 1]);
    }
  }

  /** As long as nobody is stuck, something is left to happen that brings shutdown closer, and it
      involves no exit of a child that was not interrupted. */
  lemma ProgressPossible(s: State) returns (e: Event)
    requires Inv(s) && s.main.InWait? && !Stuck(s)
    ensures Internal(e) && Enabled(s, e)
    ensures e.Proc? && e.event.ChildExits? ==> s.procs[e.proc].observer.Interrupted?
  {
    hide AllUnfinished, Unfinished, Mapped, Unique, ClientsFit, Accounted, PortsInOrder, PortsDistinct, Paired,
        IsStuck, NextFor, ProcEnabled;
    if s.counter == 0 {
      e := WaitReturns;
    } else {
      var i := FindUnfinished(s.procs);
      assert Paired(s.procs[i]) && !IsStuck(s.procs[i]);
      NextForEnabled(s.procs[i]);
      e := Proc(i, NextFor(s.procs[i]));
    }
  }

  lemma {:induction false} CanReturn(s: State) returns (events: seq<Event>)
    requires Inv(s) && (s.main.InWait? || s.main.Returned?) && !Stuck(s)
    ensures Run(s, events).main.Returned? && |events| <= Measure(s)
    decreases Measure(s)
  {
    hide Inv, Stuck, Next, Measure, Enabled, Internal;
    if s.main.Returned? {
      events := [];
    } else {
      var e := ProgressPossible(s);
      MeasureDecreases(s, e);
      InvKept(s, e);
      NobodyGetsStuck(s, e);
      var rest := CanReturn(Next(s, e));
      events := [e] + rest;
      assert events[1..] == rest;
    }
  }

  /** Once the loop waits, Run can still return exactly if no observer is between a passed check of
      the context and the receipt of its message. */
  lemma ShutdownExactly(s: State)
    requires Inv(s) && s.main.InWait?
    ensures (exists events :: Run(s, events).main.Returned?) <==> !Stuck(s)
  {
    hide Inv, Stuck;
    if Stuck(s) {
      forall events ensures !Run(s, events).main.Returned? { StuckForever(s, events); }
    } else {
      var events := CanReturn(s);
    }
  }

  /* ---------- every way to go on leads there ---------- */

  predicate AllEffective(s: State, events: seq<Event>)
    decreases |events|
  {
    events == [] || (Internal(events[0]) && Enabled(s, events[0]) && AllEffective(Next(s, events[0]), events[1..]))
  }

  /** If nobody is stuck, the processes and the loop cannot go on for longer than the measure, and
      they cannot come to rest before Run has returned. */
  lemma {:induction false} ShutdownInevitable(s: State, events: seq<Event>)
    requires Inv(s) && s.main.InWait? && !Stuck(s) && AllEffective(s, events)
    ensures |events| <= Measure(s)
    ensures Run(s, events).main.Returned? || exists e :: Internal(e) && Enabled(Run(s, events), e)
    decreases |events|
  {
    hide Inv, Stuck, Next, Enabled, Internal, Measure;
    if events == [] {
      var e := ProgressPossible(s);
    } else {
      var s1 := Next(s, events[0]);
      MeasureDecreases(s, events[0]);
      InvKept(s, events[0]);
      NobodyGetsStuck(s, events[0]);
      if s1.main.Returned? {
        NothingAfterReturn(s1, events[1..]);
      } else {
        ShutdownInevitable(s1, events[1..]);
      }
    }
  }

  lemma NothingAfterReturn(s: State, events: seq<Event>)
    requires Inv(s) && s.main.Returned? && AllEffective(s, events)
    ensures events == []
  {
    hide Inv;
    if events != [] && events[0].Proc? { AtRest(s, events[0].proc, events[0].event); }
  }

  lemma AtRest(s: State, i: nat, e: ProcEvent)
    requires Inv(s) && s.main.Returned? && i < |s.procs|
    ensures !ProcEnabled(s.procs[i], e, s.innerExpired)
  {
    hide AllUnfinished, Mapped, Unique, ClientsFit, Accounted, PortsInOrder, PortsDistinct;
    SomeoneUnfinished(s.procs, i);
    assert Paired(s.procs[i]);
  }

  /** It does happen: a process that crashes just before the shutdown keeps Run from returning. */
  lemma ShutdownCanHang(account: string) returns (events: seq<Event>)
    ensures Run(INITIAL, events).main.InWait?
    ensures forall more :: !Run(INITIAL, events + more).main.Returned?
  {
    events := FirstRequest(account) + CRASH + [OuterExpires, SeeExpiry];
    var s := Hanging(account);
    InitialInv();
    Reachable(INITIAL, events);
    hide Inv, Next;
    assert Stuck(s) by { assert IsStuck(s.procs[0]); }
    forall more ensures !Run(INITIAL, events + more).main.Returned? {
      RunConcat(INITIAL, events, more);
      StuckForever(s, more);
    }
  }

  // Everything up to the answer to a first request, for which a process was started.
  function FirstRequest(account: string): seq<Event> {
    [Ask(account, false), ReceiveRequest(0)] + [Start(true), Reply]
  }

  // The process exits, and its observer sees the context alive.
  const CRASH := [Proc(0, ChildExits), Proc(0, Reaped)] + [Proc(0, Deliver), Proc(0, CheckContext)]

  lemma Hanging(account: string) returns (s: State)
    ensures s == Run(INITIAL, FirstRequest(account) + CRASH + [OuterExpires, SeeExpiry])
    ensures s.main.InWait? && |s.procs| == 1 && s.procs[0].observer.Reporting?
  {
    var s4 := Requested(account);
    Crash(s4);
    var s8 := Run(s4, CRASH);
    s := Next(Next(s8, OuterExpires), SeeExpiry);
    hide Next, FirstRequest;
    RunConcat(INITIAL, FirstRequest(account), CRASH);
    RunTwo(s8, OuterExpires, SeeExpiry);
    RunConcat(INITIAL, FirstRequest(account) + CRASH, [OuterExpires, SeeExpiry]);
  }

  lemma RunTwo(s: State, a: Event, b: Event)
    ensures Run(s, [a, b]) == Next(Next(s, a), b)
  {
    hide Next;
    assert [a, b] == [a] + [b];
    RunAppend(s, [a], b);
    RunAppend(s, [], a);
    assert [] + [a] == [a];
  }

  lemma Requested(account: string) returns (s: State)
    ensures s == Run(INITIAL, FirstRequest(account))
    ensures s.main.Looping? && !s.innerExpired && !s.outerExpired
    ensures |s.procs| == 1 && s.procs[0].child.Running? && s.procs[0].waiter.AwaitingChild?
    ensures |s.procs| == 1 && s.procs[0].observer.Selecting?
  {
    var s2 := Next(Next(INITIAL, Ask(account, false)), ReceiveRequest(0));
    s := Next(Next(s2, Start(true)), Reply);
    hide Next;
    RunTwo(INITIAL, Ask(account, false), ReceiveRequest(0));
    RunTwo(s2, Start(true), Reply);
    RunConcat(INITIAL, [Ask(account, false), ReceiveRequest(0)], [Start(true), Reply]);
  }

  lemma Crash(s: State)
    requires s.main.Looping? && !s.innerExpired && |s.procs| == 1
    requires s.procs[0].child.Running? && s.procs[0].waiter.AwaitingChild? && s.procs[0].observer.Selecting?
    ensures var s' := Run(s, CRASH);
      s'.main == s.main && s'.outerExpired == s.outerExpired && |s'.procs| == 1 && s'.procs[0].observer.Reporting?
  {
    var s2 := Next(Next(s, Proc(0, ChildExits)), Proc(0, Reaped));
    var s4 := Next(Next(s2, Proc(0, Deliver)), Proc(0, CheckContext));
    assert s4.procs[0].observer.Reporting?;
    hide Next;
    RunTwo(s, Proc(0, ChildExits), Proc(0, Reaped));
    RunTwo(s2, Proc(0, Deliver), Proc(0, CheckContext));
    RunConcat(s, [Proc(0, ChildExits), Proc(0, Reaped)], [Proc(0, Deliver), Proc(0, CheckContext)]);
  }

  /* ---------- after a failed start ---------- */

  /** No exit message is under way for the account. */
  predicate NoneReporting(s: State, account: string) {
    forall i | 0 <= i < |s.procs| && s.procs[i].observer.Reporting? :: s.procs[i].account != account
  }

  /** From s to s' the entry of the account has stayed, and no process was started for it. */
  predicate EntryStays(s: State, s': State, account: string) {
    && account in s.listenPorts && account in s'.listenPorts && s'.listenPorts[account] == s.listenPorts[account]
    && |s.procs| <= |s'.procs|
    && (forall i | |s.procs| <= i < |s'.procs| :: s'.procs[i].account != account)
    && (forall i | 0 <= i < |s.procs| ::
         && s'.procs[i].account == s.procs[i].account && s'.procs[i].port == s.procs[i].port
         && (s.procs[i].child.Exited? ==> s'.procs[i].child.Exited?))
  }

  lemma EntryStep(s: State, e: Event, account: string)
    requires MainFits(s) && s.innerExpired && account in s.listenPorts && NoneReporting(s, account)
    ensures var s' := Next(s, e); s'.innerExpired && NoneReporting(s', account) && EntryStays(s, s', account)
  {
    if Enabled(s, e) {
      match e
      case Proc(i, pe) => ProcEntry(s, i, pe, account);
      case Start(succeeds) =>
      case ReceiveExit(i) => hide MainFits;
      case _ => hide MainFits;
    }
  }

  lemma ProcEntry(s: State, i: nat, pe: ProcEvent, account: string)
    requires s.innerExpired && account in s.listenPorts && NoneReporting(s, account) && Enabled(s, Proc(i, pe))
    ensures var s' := Next(s, Proc(i, pe)); s'.innerExpired && NoneReporting(s', account) && EntryStays(s, s', account)
  {
    var p' := ProcNext(s.procs[i], pe, true);
    assert p'.observer.Reporting? ==> s.procs[i].observer.Reporting?;
    assert p'.account == s.procs[i].account && p'.port == s.procs[i].port;
    assert s.procs[i].child.Exited? ==> p'.child.Exited?;
    hide ProcNext, ProcEnabled;
  }

  lemma EntryTwice(s: State, s1: State, s2: State, account: string)
    requires EntryStays(s, s1, account) && EntryStays(s1, s2, account)
    ensures EntryStays(s, s2, account)
  {
  }

  /** Once the inner context is cancelled, the entry of an account stays for ever, and no process is
      started for it any more, unless an exit message for the account is already under way. */
  lemma {:induction false} EntryForever(s: State, events: seq<Event>, account: string)
    requires Inv(s) && s.innerExpired && account in s.listenPorts && NoneReporting(s, account)
    ensures EntryStays(s, Run(s, events), account)
    decreases |events|
  {
    hide Inv, Next, NoneReporting, EntryStays;
    if events == [] {
      EntryItself(s, account);
    } else {
      var s1 := Next(s, events[0]);
      InvKept(s, events[0]);
      InvMainFits(s);
      EntryStep(s, events[0], account);
      StaysThere(s, s1, account);
      EntryForever(s1, events[1..], account);
      EntryTwice(s, s1, Run(s1, events[1..]), account);
    }
  }

  lemma EntryItself(s: State, account: string)
    requires account in s.listenPorts
    ensures EntryStays(s, s, account)
  {
  }

  lemma StaysThere(s: State, s': State, account: string)
    requires EntryStays(s, s', account)
    ensures account in s'.listenPorts
  {
  }

  lemma InvMainFits(s: State)
    requires Inv(s)
    ensures MainFits(s)
  {
  }

  /** A failed start is felt by all accounts: every process that is still watched is going to be
      interrupted, and every recorded port stays recorded for ever, with no new process behind it,
      unless an exit message for the account is already under way. */
  lemma FailedStartIsForever(events: seq<Event>, more: seq<Event>, account: string)
    requires Run(INITIAL, events).main.Starting?
    ensures var s := Next(Run(INITIAL, events), Start(false));
      && (forall i: nat | i < |s.procs| && s.procs[i].observer.Selecting? :: Enabled(s, Proc(i, Interrupt)))
      && (account in s.listenPorts && NoneReporting(s, account) ==> EntryStays(s, Run(s, more), account))
  {
    hide Inv, EntryStays, NoneReporting;
    InitialInv();
    Reachable(INITIAL, events);
    var s0 := Run(INITIAL, events);
    InvKept(s0, Start(false));
    var s := Next(s0, Start(false));
    StartingFits(s0);
    assert s.innerExpired;
    if account in s.listenPorts && NoneReporting(s, account) { EntryForever(s, more, account); }
  }

  lemma StartingFits(s: State)
    requires Inv(s) && s.main.Starting?
    ensures Enabled(s, Start(false))
  {
    hide AllPaired, Counted, Mapped, Unique, ClientsFit, Accounted, PortsInOrder, PortsDistinct;
  }
}
