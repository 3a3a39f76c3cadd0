/** Creation of accounts by any number of concurrent PUT requests: a step system over the accounts
    table, whose transactions are isolated from each other by the database. */
module Accounts {
  import opened Wrappers

  datatype Reply = Reply(code: int, tenant: string)

  // Where the handler of a request is. InTx: the transaction has begun; Inserted: its row is in, but
  // not committed; SetUp: the role assignments have been made.
  datatype Phase = New | Decoded | Valid | Authorized | Missing | InTx | Inserted | SetUp | Done(reply: Reply)

  datatype Handler = Handler(name: string, tenant: string, phase: Phase)

  // setUp: accounts whose role assignments were made, with their tenants.
  datatype State = State(committed: map<string, string>, setUp: set<(string, string)>, handlers: seq<Handler>)

  // ConnectionLost: the transaction was committed, but the handler does not learn about it.
  datatype CommitOutcome = Committed | RolledBack | ConnectionLost

  datatype Event =
    | Arrive(name: string, tenant: string)
    | Decode(ok: bool)
    | Validate(ok: bool)
    | Authorize(authenticated: bool, permitted: bool)
    | Find(ok: bool)
    | Begin(ok: bool)
    | Insert(ok: bool)
    | Setup(ok: bool)
    | Commit(outcome: CommitOutcome)

  const EMPTY := State(map[], {}, [])
  const RESERVED := "keppel-"

  function Failed(code: int): Phase { Done(Reply(code, "")) }

  /** An uncommitted row: another insert of the same name has to wait for this transaction to end. */
  predicate Holds(h: Handler) { h.phase.Inserted? || h.phase.SetUp? }

  predicate Blocked(s: State, i: nat)
    requires i < |s.handlers|
  {
    exists j | 0 <= j < |s.handlers| && j != i :: Holds(s.handlers[j]) && s.handlers[j].name == s.handlers[i].name
  }

  predicate Enabled(s: State, i: nat, e: Event) {
    e.Arrive? || (i < |s.handlers| &&
      var phase := s.handlers[i].phase;
      match e
      case Arrive(_, _) => true
      case Decode(_) => phase.New?
      case Validate(_) => phase.Decoded?
      case Authorize(_, _) => phase.Valid?
      case Find(_) => phase.Authorized?
      case Begin(_) => phase.Missing?
      case Insert(_) => phase.InTx? && !Blocked(s, i)
      case Setup(_) => phase.Inserted?
      case Commit(_) => phase.SetUp?)
  }

  /** The phase of a handler after one of its statements. */
  function NextPhase(s: State, h: Handler, e: Event): Phase {
    match e
    case Arrive(_, _) => h.phase
    case Decode(ok) => if ok then Decoded else Failed(400)
    case Validate(ok) => if !ok || RESERVED <= h.name then Failed(422) else Valid
    case Authorize(authenticated, permitted) =>
      if !authenticated then Failed(401) else if !permitted then Failed(403) else Authorized
    case Find(ok) =>
      if !ok then Failed(500)
      else if h.name !in s.committed then Missing
      else if s.committed[h.name] != h.tenant then Failed(409)
      else Done(Reply(200, s.committed[h.name]))
    case Begin(ok) => if ok then InTx else Failed(500)
    case Insert(ok) => if ok && h.name !in s.committed then Inserted else Failed(500)
    case Setup(ok) => if ok then SetUp else Failed(500)
    case Commit(outcome) => if outcome.Committed? then Done(Reply(200, h.tenant)) else Failed(500)
  }

  function Next(s: State, i: nat, e: Event): State {
    if !Enabled(s, i, e) then s
    else if e.Arrive? then s.(handlers := s.handlers + [Handler(e.name, e.tenant, New)])
    else
      var h := s.handlers[i];
      State(if e.Commit? && !e.outcome.RolledBack? then s.committed[h.name := h.tenant] else s.committed,
            if e.Setup? && e.ok then s.setUp + {(h.name, h.tenant)} else s.setUp,
            s.handlers[i := h.(phase := NextPhase(s, h, e))])
  }

  // A statement of one handler; the number counts for nothing when a request arrives.
  datatype Step = Step(handler: nat, event: Event)

  function Run(s: State, steps: seq<Step>): State
    decreases |steps|
  {
    if steps == [] then s else Run(Next(s, steps[0].handler, steps[0].event), steps[1..])
  }

  /* ---------- invariants ---------- */

  /** What the phase of a handler says about the table. */
  predicate HandlerFits(s: State, h: Handler) {
    match h.phase
    case New => true
    case Decoded => true
    case Done(reply) =>
      && (reply.code == 200 ==> h.name in s.committed && s.committed[h.name] == h.tenant == reply.tenant)
      && (reply.code == 409 ==> h.name in s.committed && s.committed[h.name] != h.tenant)
    case _ =>
      && !(RESERVED <= h.name)
      && (Holds(h) ==> h.name !in s.committed)
      && (h.phase.SetUp? ==> (h.name, h.tenant) in s.setUp)
  }

  /** The primary key: two transactions do not hold rows of the same name. */
  predicate OneHolder(s: State) {
    forall i, j | 0 <= i < j < |s.handlers| && Holds(s.handlers[i]) && Holds(s.handlers[j]) ::
      s.handlers[i].name != s.handlers[j].name
  }

  predicate TableFits(s: State) {
    forall name | name in s.committed :: !(RESERVED <= name) && (name, s.committed[name]) in s.setUp
  }

  predicate HandlersFit(s: State) {
    forall i | 0 <= i < |s.handlers| :: HandlerFits(s, s.handlers[i])
  }

  predicate Inv(s: State) {
    HandlersFit(s) && OneHolder(s) && TableFits(s)
  }

  lemma OneHolderKept(s: State, i: nat, e: Event)
    requires OneHolder(s)
    ensures OneHolder(Next(s, i, e))
  {
    if Enabled(s, i, e) && !e.Arrive? {
      hide RESERVED;
      var s' := Next(s, i, e);
      forall k, j | 0 <= k < j < |s'.handlers| && Holds(s'.handlers[k]) && Holds(s'.handlers[j])
        ensures s'.handlers[k].name != s'.handlers[j].name
      {
        if e.Insert? && k == i { assert !(Holds(s.handlers[j]) && s.handlers[j].name == s.handlers[i].name); }
        if e.Insert? && j == i { assert !(Holds(s.handlers[k]) && s.handlers[k].name == s.handlers[i].name); }
      }
    }
  }

  lemma TableFitsKept(s: State, i: nat, e: Event)
    requires TableFits(s) && HandlersFit(s)
    ensures TableFits(Next(s, i, e))
  {
    if Enabled(s, i, e) && !e.Arrive? { assert HandlerFits(s, s.handlers[i]); }
  }

  lemma OwnStep(s: State, i: nat, e: Event)
    requires Enabled(s, i, e) && !e.Arrive? && HandlerFits(s, s.handlers[i])
    ensures HandlerFits(Next(s, i, e), Next(s, i, e).handlers[i])
  {
  }

  /** A row that appears belongs to the only handler that holds its name. */
  lemma OtherStep(s: State, i: nat, e: Event, j: nat)
    requires Enabled(s, i, e) && !e.Arrive? && OneHolder(s) && j < |s.handlers| && j != i
    requires HandlerFits(s, s.handlers[j]) && HandlerFits(s, s.handlers[i])
    ensures HandlerFits(Next(s, i, e), s.handlers[j])
  {
    assert Holds(s.handlers[i]) && Holds(s.handlers[j]) ==> s.handlers[i].name != s.handlers[j].name by {
      assert if i < j then true else j < i;
    }
  }

  lemma HandlersFitKept(s: State, i: nat, e: Event)
    requires HandlersFit(s) && OneHolder(s)
    ensures HandlersFit(Next(s, i, e))
  {
    hide HandlerFits, OneHolder, NextPhase, RESERVED;
    var s' := Next(s, i, e);
    if Enabled(s, i, e) {
      forall j: nat | j < |s'.handlers| ensures HandlerFits(s', s'.handlers[j]) {
        if e.Arrive? { ArriveFits(s, e, j); }
        else if j == i { OwnStep(s, i, e); }
        else { OtherStep(s, i, e, j); }
      }
    }
  }

  lemma ArriveFits(s: State, e: Event, j: nat)
    requires e.Arrive? && j <= |s.handlers| && (j < |s.handlers| ==> HandlerFits(s, s.handlers[j]))
    ensures var s' := Next(s, 0, e); HandlerFits(s', s'.handlers[j])
  {
  }

  lemma InvKept(s: State, i: nat, e: Event)
    requires Inv(s)
    ensures Inv(Next(s, i, e))
  {
    hide HandlersFit, OneHolder, TableFits, Next;
    HandlersFitKept(s, i, e);
    OneHolderKept(s, i, e);
    TableFitsKept(s, i, e);
  }

  lemma {:induction false} Reachable(s: State, steps: seq<Step>)
    requires Inv(s)
    ensures Inv(Run(s, steps))
    decreases |steps|
  {
    hide Inv, Next;
    if steps != [] {
      InvKept(s, steps[0].handler, steps[0].event);
      Reachable(Next(s, steps[0].handler, steps[0].event), steps[1..]);
    }
  }

  lemma EmptyInv()
    ensures Inv(EMPTY)
  {
  }

  /* ---------- what clients can rely on ---------- */

  /** In every reachable state: committed accounts were set up for their tenant first and have no
      reserved name; whoever was told 200 asked for the tenant that the account has, and whoever was
      told 409 asked for another one. */
  lemma AccountsSound(steps: seq<Step>)
    ensures var s := Run(EMPTY, steps);
      && (forall name | name in s.committed :: !("keppel-" <= name) && (name, s.committed[name]) in s.setUp)
      && forall i | 0 <= i < |s.handlers| && s.handlers[i].phase.Done? ::
           var Handler(name, tenant, phase) := s.handlers[i];
           && (phase.reply.code == 200 ==> name in s.committed && s.committed[name] == tenant == phase.reply.tenant)
           && (phase.reply.code == 409 ==> name in s.committed && s.committed[name] != tenant)
  {
    hide Run, OneHolder;
    EmptyInv();
    Reachable(EMPTY, steps);
    var s := Run(EMPTY, steps);
    assert forall i | 0 <= i < |s.handlers| :: HandlerFits(s, s.handlers[i]);
  }

  lemma TenantKept(s: State, i: nat, e: Event)
    requires Inv(s)
    ensures forall name | name in s.committed ::
      name in Next(s, i, e).committed && Next(s, i, e).committed[name] == s.committed[name]
  {
    if Enabled(s, i, e) && e.Commit? { assert HandlerFits(s, s.handlers[i]); }
  }

  /** Once committed, an account never changes its tenant. */
  lemma {:induction false} TenantNeverChanges(s: State, steps: seq<Step>, name: string)
    requires Inv(s) && name in s.committed
    ensures name in Run(s, steps).committed && Run(s, steps).committed[name] == s.committed[name]
    decreases |steps|
  {
    hide Inv, Next;
    if steps != [] {
      TenantKept(s, steps[0].handler, steps[0].event);
      InvKept(s, steps[0].handler, steps[0].event);
      TenantNeverChanges(Next(s, steps[0].handler, steps[0].event), steps[1..], name);
    }
  }

  /** The calls that a handler makes before it creates anything, and all of them succeed. */
  predicate Succeeds(e: Event) {
    match e
    case Decode(ok) => ok
    case Validate(ok) => ok
    case Authorize(authenticated, permitted) => authenticated && permitted
    case Find(ok) => ok
    case _ => true
  }

  /** A request for an account that is already there, on its way to the reply. */
  predicate Expecting(s: State, i: nat, name: string, tenant: string) {
    && i < |s.handlers| && name in s.committed
    && s.handlers[i].name == name && s.handlers[i].tenant == tenant
    && var phase := s.handlers[i].phase;
       || phase.New? || phase.Decoded? || phase.Valid? || phase.Authorized?
       || phase == Done(if s.committed[name] == tenant then Reply(200, tenant) else Reply(409, ""))
  }

  lemma ExpectingKept(s: State, i: nat, name: string, tenant: string, j: nat, e: Event)
    requires Inv(s) && Expecting(s, i, name, tenant) && (i == j ==> Succeeds(e))
    ensures Expecting(Next(s, j, e), i, name, tenant)
  {
    TenantKept(s, j, e);
    if Enabled(s, j, e) && !e.Arrive? { NotReserved(s, name); }
    hide Inv, RESERVED;
  }

  lemma NotReserved(s: State, name: string)
    requires Inv(s) && name in s.committed
    ensures !(RESERVED <= name)
  {
  }

  /** A request for an account that exists already, none of whose calls fails, is answered 200 if it
      is of the same tenant and 409 if it is not, whatever other requests do in between. */
  lemma {:induction false} KnownAccountReplies(s: State, steps: seq<Step>, i: nat)
    requires Inv(s) && i < |s.handlers| && s.handlers[i].phase.New? && s.handlers[i].name in s.committed
    requires forall step | step in steps && step.handler == i :: Succeeds(step.event)
    ensures
      var Handler(name, tenant, _) := s.handlers[i];
      var s' := Run(s, steps);
      && i < |s'.handlers|
      && (s'.handlers[i].phase.Done? ==>
            s'.handlers[i].phase.reply == if s.committed[name] == tenant then Reply(200, tenant) else Reply(409, ""))
  {
    ExpectingRun(s, steps, i, s.handlers[i].name, s.handlers[i].tenant);
    TenantNeverChanges(s, steps, s.handlers[i].name);
  }

  lemma {:induction false} ExpectingRun(s: State, steps: seq<Step>, i: nat, name: string, tenant: string)
    requires Inv(s) && Expecting(s, i, name, tenant)
    requires forall step | step in steps && step.handler == i :: Succeeds(step.event)
    ensures Expecting(Run(s, steps), i, name, tenant)
    decreases |steps|
  {
    hide Inv, Next, Expecting, Succeeds;
    if steps != [] {
      assert steps[0] in steps && forall step | step in steps[1..] :: step in steps;
      ExpectingKept(s, i, name, tenant, steps[0].handler, steps[0].event);
      InvKept(s, steps[0].handler, steps[0].event);
      ExpectingRun(Next(s, steps[0].handler, steps[0].event), steps[1..], i, name, tenant);
    }
  }

  /** Of two requests for the same name with different tenants, at most one ever succeeds. */
  lemma NeverBothSucceed(steps: seq<Step>, i: nat, j: nat)
    requires var s := Run(EMPTY, steps);
      && i < |s.handlers| && j < |s.handlers|
      && s.handlers[i].name == s.handlers[j].name && s.handlers[i].tenant != s.handlers[j].tenant
    ensures var s := Run(EMPTY, steps);
      !(s.handlers[i].phase.Done? && s.handlers[i].phase.reply.code == 200
        && s.handlers[j].phase.Done? && s.handlers[j].phase.reply.code == 200)
  {
    hide Run;
    AccountsSound(steps);
  }

  /** It is not the lookup that prevents this: two such requests may both find nothing and go on. */
  lemma BothMayFindNothing(name: string, tenant1: string, tenant2: string) returns (steps: seq<Step>)
    requires !("keppel-" <= name) && tenant1 != tenant2
    ensures var s := Run(EMPTY, steps);
      s.handlers == [Handler(name, tenant1, Missing), Handler(name, tenant2, Missing)]
  {
    var up := [Step(0, Arrive(name, tenant1)), Step(1, Arrive(name, tenant2))];
    var s2 := State(map[], {}, [Handler(name, tenant1, New), Handler(name, tenant2, New)]);
    Two(EMPTY, up[0], up[1]);
    assert Run(EMPTY, up) == s2;
    var first := ToMissing(s2, 0);
    var s3 := Run(s2, first);
    var second := ToMissing(s3, 1);
    steps := up + first + second;
    RunConcat(EMPTY, up, first);
    RunConcat(EMPTY, up + first, second);
  }

  lemma Two(s: State, a: Step, b: Step)
    ensures Run(s, [a, b]) == Next(Next(s, a.handler, a.event), b.handler, b.event)
  {
    hide Next;
    var s1 := Next(s, a.handler, a.event);
    assert [a, b][1..] == [b] && [b][1..] == [];
    assert Run(s1, [b]) == Run(Next(s1, b.handler, b.event), []);
  }

  lemma ToMissing(s: State, i: nat) returns (steps: seq<Step>)
    requires i < |s.handlers| && s.handlers[i].phase.New? && s.committed == map[] && !(RESERVED <= s.handlers[i].name)
    ensures Run(s, steps) == s.(handlers := s.handlers[i := s.handlers[i].(phase := Missing)])
  {
    var a, b := Step(i, Decode(true)), Step(i, Validate(true));
    var c, d := Step(i, Authorize(true, true)), Step(i, Find(true));
    var s2 := s.(handlers := s.handlers[i := s.handlers[i].(phase := Valid)]);
    assert Next(Next(s, i, a.event), i, b.event) == s2;
    Two(s, a, b);
    Two(s2, c, d);
    steps := [a, b] + [c, d];
    RunConcat(s, [a, b], [c, d]);
    assert s2.handlers[i := s2.handlers[i].(phase := Missing)] == s.handlers[i := s.handlers[i].(phase := Missing)];
  }

  lemma {:induction false} RunConcat(s: State, a: seq<Step>, b: seq<Step>)
    ensures Run(s, a + b) == Run(Run(s, a), b)
    decreases |a|
  {
    hide Next;
    if a == [] {
      assert a + b == b;
    } else {
      assert (a + b)[1..] == a[1..] + b;
      RunConcat(Next(s, a[0].handler, a[0].event), a[1..], b);
    }
  }

  /* ---------- one handler, from beginning to end ---------- */

  // What the handler of one request finds: which of its calls succeed.
  datatype Env = Env(json: bool, tenantValid: bool, authenticated: bool, permitted: bool,
                     find: bool, begin: bool, insert: bool, setup: bool, commit: CommitOutcome)

  function Checks(i: nat, env: Env): seq<Step> {
    [Step(i, Decode(env.json)), Step(i, Validate(env.tenantValid))]
    + [Step(i, Authorize(env.authenticated, env.permitted)), Step(i, Find(env.find))]
  }

  function Transaction(i: nat, env: Env): seq<Step> {
    [Step(i, Begin(env.begin)), Step(i, Insert(env.insert))] + [Step(i, Setup(env.setup)), Step(i, Commit(env.commit))]
  }

  function InPhase(s: State, i: nat, phase: Phase): State
    requires i < |s.handlers|
  {
    s.(handlers := s.handlers[i := s.handlers[i].(phase := phase)])
  }

  function Checked(s: State, h: Handler, env: Env): Phase {
    if !env.json then Failed(400)
    else if !env.tenantValid || RESERVED <= h.name then Failed(422)
    else if !env.authenticated then Failed(401)
    else if !env.permitted then Failed(403)
    else NextPhase(s, h, Find(env.find))
  }

  lemma RunChecks(s: State, i: nat, env: Env)
    requires i < |s.handlers| && s.handlers[i].phase.New?
    ensures Run(s, Checks(i, env)) == InPhase(s, i, Checked(s, s.handlers[i], env))
  {
    var a, b := Step(i, Decode(env.json)), Step(i, Validate(env.tenantValid));
    var c, d := Step(i, Authorize(env.authenticated, env.permitted)), Step(i, Find(env.find));
    var h := s.handlers[i];
    Two(s, a, b);
    FirstChecks(s, i, env);
    var s2 := Run(s, [a, b]);
    Two(s2, c, d);
    SecondChecks(s2, i, env);
    RunConcat(s, [a, b], [c, d]);
    hide Next, Run, NextPhase;
  }

  lemma FirstChecks(s: State, i: nat, env: Env)
    requires i < |s.handlers| && s.handlers[i].phase.New?
    ensures Next(Next(s, i, Decode(env.json)), i, Validate(env.tenantValid)) ==
      InPhase(s, i, if !env.json then Failed(400)
                    else if !env.tenantValid || RESERVED <= s.handlers[i].name then Failed(422)
                    else Valid)
  {
    hide RESERVED;
  }

  lemma SecondChecks(s: State, i: nat, env: Env)
    requires i < |s.handlers| && (s.handlers[i].phase.Valid? || s.handlers[i].phase.Done?)
    ensures Next(Next(s, i, Authorize(env.authenticated, env.permitted)), i, Find(env.find)) ==
      if s.handlers[i].phase.Done? then s
      else InPhase(s, i, if !env.authenticated then Failed(401) else if !env.permitted then Failed(403)
                         else NextPhase(s, s.handlers[i], Find(env.find)))
  {
    hide RESERVED;
  }

  function Transacted(s: State, h: Handler, i: nat, env: Env): State
    requires i < |s.handlers|
  {
    if !env.begin || !env.insert || h.name in s.committed || !env.setup then InPhase(s, i, Failed(500))
    else
      var s1 := s.(setUp := s.setUp + {(h.name, h.tenant)});
      match env.commit
      case Committed => InPhase(s1.(committed := s.committed[h.name := h.tenant]), i, Done(Reply(200, h.tenant)))
      case RolledBack => InPhase(s1, i, Failed(500))
      case ConnectionLost => InPhase(s1.(committed := s.committed[h.name := h.tenant]), i, Failed(500))
  }

  lemma RunTransaction(s: State, i: nat, env: Env)
    requires i < |s.handlers| && s.handlers[i].phase.Missing? && !Blocked(s, i)
    ensures Run(s, Transaction(i, env)) == Transacted(s, s.handlers[i], i, env)
  {
    var a, b := Step(i, Begin(env.begin)), Step(i, Insert(env.insert));
    var c, d := Step(i, Setup(env.setup)), Step(i, Commit(env.commit));
    var h := s.handlers[i];
    var inserted := env.begin && env.insert && h.name !in s.committed;
    var s2 := InPhase(s, i, if inserted then Inserted else Failed(500));
    Two(s, a, b);
    InsertRow(s, i, env);
    Two(s2, c, d);
    RunConcat(s, [a, b], [c, d]);
    SetUpAndCommit(s2, i, env);
    hide Next, Run, Blocked;
    if inserted { TransactedAfterInsert(s, i, env); }
  }

  lemma InsertRow(s: State, i: nat, env: Env)
    requires i < |s.handlers| && s.handlers[i].phase.Missing? && !Blocked(s, i)
    ensures Next(Next(s, i, Begin(env.begin)), i, Insert(env.insert)) ==
      InPhase(s, i, if env.begin && env.insert && s.handlers[i].name !in s.committed then Inserted else Failed(500))
  {
    var s1 := Next(s, i, Begin(env.begin));
    assert forall j | 0 <= j < |s.handlers| && j != i :: s1.handlers[j] == s.handlers[j];
    assert env.begin ==> !Blocked(s1, i);
  }

  lemma SetUpAndCommit(s: State, i: nat, env: Env)
    requires i < |s.handlers| && (s.handlers[i].phase.Inserted? || s.handlers[i].phase.Done?)
    ensures Next(Next(s, i, Setup(env.setup)), i, Commit(env.commit)) ==
      if s.handlers[i].phase.Done? then s else Ended(s, i, env)
  {
  }

  /** A transaction with its row inserted: set up, and then committed or not. */
  function Ended(s: State, i: nat, env: Env): State
    requires i < |s.handlers|
  {
    var h := s.handlers[i];
    if !env.setup then InPhase(s, i, Failed(500))
    else
      var reply := if env.commit.Committed? then Done(Reply(200, h.tenant)) else Failed(500);
      InPhase(s, i, reply).(setUp := s.setUp + {(h.name, h.tenant)},
                            committed := if env.commit.RolledBack? then s.committed
                                         else s.committed[h.name := h.tenant])
  }

  lemma TransactedAfterInsert(s: State, i: nat, env: Env)
    requires i < |s.handlers| && env.begin && env.insert && s.handlers[i].name !in s.committed
    ensures Ended(InPhase(s, i, Inserted), i, env) == Transacted(s, s.handlers[i], i, env)
  {
  }

  class Api {
    var committed: map<string, string>
    var setUp: set<(string, string)>
    var handlers: seq<Handler>

    ghost function S(): State
      reads this
    {
      State(committed, setUp, handlers)
    }

    method Respond(i: nat, code: int, tenant: string)
      requires i < |handlers|
      modifies `handlers
      ensures S() == InPhase(old(S()), i, Done(Reply(code, tenant)))
    {
      handlers := handlers[i := handlers[i].(phase := Done(Reply(code, tenant)))];
    }

    /** handlePutAccount, when nobody gets in between. */
    method HandlePutAccount(i: nat, env: Env)
      requires i < |handlers| && handlers[i].phase.New? && !Blocked(S(), i)
      modifies this
      ensures S() == Run(old(S()), Checks(i, env) + Transaction(i, env))
      ensures |handlers| == |old(handlers)| && handlers[i].phase.Done?
      ensures handlers == old(handlers)[i := old(handlers)[i].(phase := handlers[i].phase)]
      // The first check that fails decides.
      ensures !env.json ==> handlers[i].phase.reply == Reply(400, "")
      ensures env.json && (!env.tenantValid || "keppel-" <= old(handlers)[i].name) ==>
        handlers[i].phase.reply == Reply(422, "")
      ensures env.json && env.tenantValid && !("keppel-" <= old(handlers)[i].name) && !env.authenticated ==>
        handlers[i].phase.reply == Reply(401, "")
      ensures env.json && env.tenantValid && !("keppel-" <= old(handlers)[i].name) && env.authenticated
              && !env.permitted ==>
        handlers[i].phase.reply == Reply(403, "")
      // Otherwise the table does: an account of the tenant, of another one, or none.
      ensures env.json && env.tenantValid && !("keppel-" <= old(handlers)[i].name) && env.authenticated
              && env.permitted ==>
        var Handler(name, tenant, _) := old(handlers)[i];
        var mine := name in old(committed) && old(committed)[name] == tenant;
        var free := name !in old(committed);
        var created := env.begin && env.insert && env.setup && env.commit.Committed?;
        handlers[i].phase.reply ==
        if !env.find then Reply(500, "")
        else if mine then Reply(200, tenant)
        else if !free then Reply(409, "")
        else if created then Reply(200, tenant)
        else Reply(500, "")
      // What is left behind: a row only if the transaction was committed, and then role assignments.
      ensures
        var Handler(name, tenant, _) := old(handlers)[i];
        var inserts := env.json && env.tenantValid && !("keppel-" <= name) && env.authenticated && env.permitted
          && env.find && name !in old(committed) && env.begin && env.insert;
        && setUp == (if inserts && env.setup then old(setUp) + {(name, tenant)} else old(setUp))
        && committed == if inserts && env.setup && !env.commit.RolledBack? then old(committed)[name := tenant]
                        else old(committed)
    {
      hide Run, Next, Blocked, Checks, Transaction;
      ghost var s := S();
      var h := handlers[i];
      Whole(s, i, env);
      if !env.json { Respond(i, 400, ""); return; }
      if !env.tenantValid { Respond(i, 422, ""); return; }
      if RESERVED <= h.name { Respond(i, 422, ""); return; }
      if !env.authenticated { Respond(i, 401, ""); return; }
      if !env.permitted { Respond(i, 403, ""); return; }
      if !env.find { Respond(i, 500, ""); return; }
      var account := if h.name in committed then Some(committed[h.name]) else None;
      if account.Some? && account.value != h.tenant { Respond(i, 409, ""); return; }
      if account.None? {
        if !env.begin { Respond(i, 500, ""); return; }
        account := Some(h.tenant);
        if !env.insert { Respond(i, 500, ""); return; }
        if !env.setup { Respond(i, 500, ""); return; }
        setUp := setUp + {(h.name, h.tenant)};
        if !env.commit.RolledBack? { committed := committed[h.name := h.tenant]; }
        if !env.commit.Committed? { Respond(i, 500, ""); return; }
      }
      Respond(i, 200, account.value);
    }
  }

  lemma Whole(s: State, i: nat, env: Env)
    requires i < |s.handlers| && s.handlers[i].phase.New? && !Blocked(s, i)
    ensures var s1 := InPhase(s, i, Checked(s, s.handlers[i], env));
      Run(s, Checks(i, env) + Transaction(i, env))
      == if s1.handlers[i].phase.Missing? then Transacted(s, s.handlers[i], i, env) else s1
  {
    hide Run, Next, Checks, Transaction;
    var s1 := InPhase(s, i, Checked(s, s.handlers[i], env));
    RunChecks(s, i, env);
    RunConcat(s, Checks(i, env), Transaction(i, env));
    if s1.handlers[i].phase.Missing? {
      assert !Blocked(s1, i) by {
        assert forall j | 0 <= j < |s.handlers| && j != i :: s1.handlers[j] == s.handlers[j];
      }
      RunTransaction(s1, i, env);
      hide Blocked;
      TransactedOnly(s, s1, i, env);
    } else {
      AlreadyDone(s1, i, env);
    }
  }

  lemma TransactedOnly(s: State, s1: State, i: nat, env: Env)
    requires i < |s.handlers| && s1 == InPhase(s, i, Missing)
    ensures Transacted(s1, s1.handlers[i], i, env) == Transacted(s, s.handlers[i], i, env)
  {
  }

  lemma AlreadyDone(s: State, i: nat, env: Env)
    requires i < |s.handlers| && s.handlers[i].phase.Done?
    ensures Run(s, Transaction(i, env)) == s
  {
    var a, b := Step(i, Begin(env.begin)), Step(i, Insert(env.insert));
    var c, d := Step(i, Setup(env.setup)), Step(i, Commit(env.commit));
    Two(s, a, b);
    Two(s, c, d);
    RunConcat(s, [a, b], [c, d]);
  }
}
