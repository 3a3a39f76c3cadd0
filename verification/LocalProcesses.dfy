/** The driver and the process context as objects that their methods update, statement by statement,
    proved to take exactly the steps of module Processes. */
module LocalProcesses {
  import opened Wrappers
  import opened Processes
  import opened Orchestration

  class ProcessContext {
    var expired: bool
    var counter: int
    var procs: seq<Process>

    constructor ()
      ensures !expired && counter == 0 && procs == []
    {
      expired, counter, procs := false, 0, [];
    }

    method Cancel()
      modifies `expired
      ensures expired
    {
      expired := true;
    }

    /** Starts a process and the two goroutines that manage it, unless the environment refuses. */
    method StartRegistry(account: string, port: Port, attempt: nat, succeeds: bool) returns (ok: bool)
      modifies `counter, `procs
      ensures ok == succeeds
      ensures !ok ==> counter == old(counter) && procs == old(procs)
      ensures ok ==>
        && counter == old(counter) + 2
        && procs == old(procs) + [Process(account, port, attempt, Running, AwaitingChild, Selecting, false)]
    {
      if !succeeds { return false; }
      counter := counter + 2;
      procs := procs + [Process(account, port, attempt, Running, AwaitingChild, Selecting, false)];
      return true;
    }

    method Done()
      modifies `counter
      ensures counter == old(counter) - 1
    {
      counter := counter - 1;
    }

    /** One statement of the goroutine that waits for the process. */
    method WaiterStep(i: nat, e: ProcEvent)
      requires i < |procs| && ProcEnabled(procs[i], e, expired) && (e.Reaped? || e.WaiterDone?)
      modifies `counter, `procs
      ensures procs == old(procs)[i := ProcNext(old(procs)[i], e, expired)]
      ensures counter == if e.WaiterDone? then old(counter) - 1 else old(counter)
    {
      var p := procs[i];
      if e.Reaped? {
        procs := procs[i := p.(waiter := Delivering)];
      } else {
        procs := procs[i := p.(waiter := WaiterLeft)];
        Done();
      }
    }

    /** One statement of waitOnProcess; receiving the result completes the waiter's send, too. */
    method ObserverStep(i: nat, e: ProcEvent)
      requires i < |procs| && ProcEnabled(procs[i], e, expired)
      requires e.Interrupt? || e.Deliver? || e.CheckContext? || e.ObserverDone?
      modifies `counter, `procs
      ensures procs == old(procs)[i := ProcNext(old(procs)[i], e, expired)]
      ensures counter == if e.ObserverDone? then old(counter) - 1 else old(counter)
    {
      var p := procs[i];
      match e
      case Interrupt => procs := procs[i := p.(observer := Interrupted)];
      case Deliver => procs := procs[i := p.(observer := HasResult, waiter := WaiterLeaving)];
      case CheckContext =>
        if !expired {
          procs := procs[i := p.(observer := Reporting)];
        } else {
          procs := procs[i := p.(observer := ObserverLeaving)];
        }
      case ObserverDone =>
        procs := procs[i := p.(observer := ObserverLeft)];
        Done();
    }
  }

  class Driver {
    const pc: ProcessContext
    var main: Main
    var ok: bool
    var listenPorts: map<string, Port>
    var nextListenPort: Port
    var attempts: nat
    var ctxExpired: bool
    var clients: seq<Client>

    constructor ()
      ensures S() == INITIAL && fresh(pc)
    {
      pc := new ProcessContext();
      main, ok, listenPorts, nextListenPort := Looping, true, map[], 10000;
      attempts, ctxExpired, clients := 0, false, [];
    }

    function S(): State
      reads this, pc
    {
      State(main, ok, listenPorts, nextListenPort, attempts, ctxExpired, pc.expired, pc.counter, pc.procs, clients)
    }

    /** A request arrives at the loop. */
    method ReceiveRequest(c: nat)
      requires Enabled(S(), Event.ReceiveRequest(c))
      modifies `main, `nextListenPort, `attempts, `clients
      ensures S() == Received(old(S()), c)
    {
      var account := clients[c].account;
      clients := clients[c := clients[c].(phase := Asked)];
      if account in listenPorts {
        main := Replying(c, listenPorts[account]);
      } else {
        nextListenPort := if nextListenPort == 0xFFFF then 0 else nextListenPort + 1;
        attempts := attempts + 1;
        main := Starting(c, nextListenPort);
      }
    }

    /** The attempt to start a process; a failure is fatal, but the loop goes on. */
    method Start(succeeds: bool)
      requires Enabled(S(), Event.Start(succeeds))
      modifies `main, `ok, `listenPorts, pc
      ensures S() == Started(old(S()), succeeds)
    {
      var account := clients[main.client].account;
      var port := main.port;
      var started := pc.StartRegistry(account, port, attempts, succeeds);
      if !started {
        ok := false;
        pc.Cancel();
      }
      listenPorts := listenPorts[account := port];
      main := Replying(main.client, port);
    }

    method Reply()
      requires Enabled(S(), Event.Reply)
      modifies `main, `clients
      ensures S() == Replied(old(S()))
    {
      var c := main.client;
      if clients[c].hasResult {
        clients := clients[c := clients[c].(buffer := Some(main.port))];
      }
      main := Looping;
    }

    /** An exit message: the loop and the observer of the process go on together. */
    method ReceiveExit(i: nat)
      requires Enabled(S(), Event.ReceiveExit(i))
      modifies `listenPorts, pc`procs
      ensures S() == ExitReceived(old(S()), i)
    {
      listenPorts := listenPorts - {pc.procs[i].account};
      pc.procs := pc.procs[i := pc.procs[i].(observer := ObserverLeaving, reported := true)];
    }

    method SeeExpiry()
      requires Enabled(S(), Event.SeeExpiry)
      modifies `main, pc`expired
      ensures S() == Next(old(S()), Event.SeeExpiry)
    {
      pc.Cancel();
      main := InWait;
    }

    /** Something happens to a process or in one of its goroutines. */
    method ProcStep(i: nat, e: ProcEvent)
      requires Enabled(S(), Proc(i, e))
      modifies pc`procs, pc`counter
      ensures S() == ProcMoved(old(S()), i, e)
    {
      match e
      case ChildExits => pc.procs := pc.procs[i := pc.procs[i].(child := Exited)];
      case Reaped => pc.WaiterStep(i, e);
      case WaiterDone => pc.WaiterStep(i, e);
      case _ => pc.ObserverStep(i, e);
    }

    /** Whatever happens next, if it can. */
    method Happen(e: Event)
      modifies this, pc
      ensures S() == Next(old(S()), e)
    {
      if !Enabled(S(), e) { return; }
      match e
      case OuterExpires => ctxExpired := true;
      case InnerExpires => pc.Cancel();
      case Ask(account, hasResult) => clients := clients + [Client(account, hasResult, Asking, None)];
      case ReceiveRequest(c) => ReceiveRequest(c);
      case Start(succeeds) => Start(succeeds);
      case Reply => Reply();
      case ReadReply(c) => clients := clients[c := clients[c].(phase := Got(clients[c].buffer.value), buffer := None)];
      case ReceiveExit(i) => ReceiveExit(i);
      case SeeExpiry => SeeExpiry();
      case WaitReturns => main := Returned;
      case Proc(i, pe) => ProcStep(i, pe);
    }

    /** The loop of Run, interleaved with everything else in any order: it goes through reachable
        states only, so that all invariants hold all the time. */
    method Run(schedule: seq<Event>)
      requires Inv(S())
      modifies this, pc
      ensures S() == Processes.Run(old(S()), schedule) && Inv(S())
    {
      hide Next, Inv, S;
      for k := 0 to |schedule|
        invariant S() == Processes.Run(old(S()), schedule[..k]) && Inv(S())
      {
        RunAppend(old(S()), schedule[..k], schedule[k]);
        assert schedule[..k] + [schedule[k]] == schedule[..k + 1];
        InvKept(S(), schedule[k]);
        Happen(schedule[k]);
      }
      assert schedule[..|schedule|] == schedule;
    }
  }
}
