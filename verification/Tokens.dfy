/** From a requested scope to a token, and what the token then permits. */
module Tokens {
  import opened Wrappers
  import opened Strings
  import opened Scopes

  datatype Account = Account(name: string, tenant: string)
  datatype Permission = CanViewAccount | CanChangeAccount

  // What the authorization of the user permits, tenant by tenant.
  type Authorization = (Permission, string) -> bool

  datatype Request = Request(userName: string, scope: Option<Scope>, compiledScopes: seq<Scope>)
  datatype Token = Token(userName: string, access: seq<Scope>)

  /* ---------- what a token permits ---------- */

  predicate Permits(t: Token, s: Scope) {
    exists scope | scope in t.access :: Covers(scope, s)
  }

  /** Token.Contains */
  method Contains(t: Token, s: Scope) returns (r: bool)
    ensures r <==> Permits(t, s)
  {
    for i := 0 to |t.access|
      invariant forall j | 0 <= j < i :: !Covers(t.access[j], s)
    {
      var c := Scopes.Contains(t.access[i], s);
      if c { return true; }
    }
    return false;
  }

  /** A single action: some scope of the token has it, for just this resource. */
  predicate Includes(t: Token, resourceType: string, resourceName: string, action: string) {
    exists scope | scope in t.access ::
      scope.resourceType == resourceType && scope.resourceName == resourceName && action in scope.actions
  }

  /** Token.IncludesAccessTo */
  method IncludesAccessTo(t: Token, resourceType: string, resourceName: string, action: string) returns (r: bool)
    ensures r <==> Includes(t, resourceType, resourceName, action)
  {
    for i := 0 to |t.access|
      invariant forall j | 0 <= j < i ::
        !(t.access[j].resourceType == resourceType && t.access[j].resourceName == resourceName &&
            action in t.access[j].actions)
    {
      var scope := t.access[i];
      if scope.resourceType == resourceType && scope.resourceName == resourceName {
        for k := 0 to |scope.actions|
          invariant action !in scope.actions[..k]
        {
          if scope.actions[k] == action { return true; }
          assert scope.actions[..k + 1] == scope.actions[..k] + [scope.actions[k]];
        }
        assert scope.actions[..|scope.actions|] == scope.actions;
      }
    }
    return false;
  }

  /** The two ways to ask for one action agree. */
  lemma IncludesIsPermits(t: Token, resourceType: string, resourceName: string, action: string)
    ensures Includes(t, resourceType, resourceName, action) <==> Permits(t, Scope(resourceType, resourceName, [action]))
  {
    var s := Scope(resourceType, resourceName, [action]);
    forall scope | scope in t.access
      ensures Covers(scope, s) <==>
        scope.resourceType == resourceType && scope.resourceName == resourceName && action in scope.actions
    {
      assert action in s.actions;
    }
  }

  /** Several actions may be asked for one by one only if one scope has them all: a token with a
      single scope permits a scope exactly if it includes each of its actions. */
  lemma PermitsIsIncludesEach(t: Token, s: Scope)
    requires |t.access| == 1 && s.actions != []
    ensures Permits(t, s) <==> forall a | a in s.actions :: Includes(t, s.resourceType, s.resourceName, a)
  {
    var scope := t.access[0];
    assert scope in t.access && forall x | x in t.access :: x == scope;
    assert s.actions[0] in s.actions;
  }

  /* ---------- filtering ---------- */

  predicate MayDo(authz: Authorization, action: string, tenant: string) {
    (action == "pull" && authz(CanViewAccount, tenant)) || (action == "push" && authz(CanChangeAccount, tenant))
  }

  function Filtered(actions: seq<string>, authz: Authorization, tenant: string): seq<string> {
    if actions == [] then []
    else
      var n := |actions| - 1;
      Filtered(actions[..n], authz, tenant) + if MayDo(authz, actions[n], tenant) then [actions[n]] else []
  }

  method FilterRepoActions(actions: seq<string>, authz: Authorization, account: Account) returns (result: seq<string>)
    ensures result == Filtered(actions, authz, account.tenant)
    ensures "pull" in result <==> "pull" in actions && authz(CanViewAccount, account.tenant)
    ensures "push" in result <==> "push" in actions && authz(CanChangeAccount, account.tenant)
    ensures forall a | a in result :: a == "pull" || a == "push"
  {
    result := [];
    for i := 0 to |actions|
      invariant result == Filtered(actions[..i], authz, account.tenant)
    {
      assert actions[..i + 1][..i] == actions[..i];
      if actions[i] == "pull" && authz(CanViewAccount, account.tenant) {
        result := result + [actions[i]];
      } else if actions[i] == "push" && authz(CanChangeAccount, account.tenant) {
        result := result + [actions[i]];
      }
    }
    assert actions[..|actions|] == actions;
    FilteredExactly(actions, authz, account.tenant);
  }

  /** Pulling takes the permission to view the account, pushing the one to change it; nothing else
      remains. */
  lemma {:induction false} FilteredExactly(actions: seq<string>, authz: Authorization, tenant: string)
    ensures "pull" in Filtered(actions, authz, tenant) <==> "pull" in actions && authz(CanViewAccount, tenant)
    ensures "push" in Filtered(actions, authz, tenant) <==> "push" in actions && authz(CanChangeAccount, tenant)
    ensures forall a | a in Filtered(actions, authz, tenant) :: a == "pull" || a == "push"
  {
    if actions != [] {
      var n := |actions| - 1;
      FilteredExactly(actions[..n], authz, tenant);
      assert actions == actions[..n] + [actions[n]];
    }
  }

  /** The numbers below n that are picked, in ascending order. */
  function Chosen(n: nat, pick: nat -> bool): (r: seq<nat>)
    ensures forall i: nat :: i in r <==> i < n && pick(i)
    ensures forall j, k | 0 <= j < k < |r| :: r[j] < r[k]
  {
    if n == 0 then []
    else
      var before := Chosen(n - 1, pick);
      assert forall k | 0 <= k < |before| :: before[k] in before;
      before + if pick(n - 1) then [n - 1] else []
  }

  /** The elements at the given places, one after the other. */
  predicate Picks<T(==)>(source: seq<T>, places: seq<nat>, result: seq<T>) {
    |places| == |result| && forall k | 0 <= k < |places| :: places[k] < |source| && result[k] == source[places[k]]
  }

  lemma PickNext<T>(source: seq<T>, places: seq<nat>, result: seq<T>, n: nat)
    requires n < |source| && Picks(source, places, result)
    ensures Picks(source, places + [n], result + [source[n]])
  {
  }

  /** Every permitted action remains as often as it was requested, in the order of the request. */
  lemma FilteredInOrder(actions: seq<string>, authz: Authorization, tenant: string) returns (places: seq<nat>)
    ensures Picks(actions, places, Filtered(actions, authz, tenant))
    ensures forall j, k | 0 <= j < k < |places| :: places[j] < places[k]
    ensures forall i | 0 <= i < |actions| :: i in places <==>
        || (actions[i] == "pull" && authz(CanViewAccount, tenant))
        || (actions[i] == "push" && authz(CanChangeAccount, tenant))
  {
    var pick := (i: nat) => i < |actions| && MayDo(authz, actions[i], tenant);
    places := Chosen(|actions|, pick);
    FilteredUpTo(actions, authz, tenant, |actions|, pick);
    assert actions[..|actions|] == actions;
  }

  lemma {:induction false} FilteredUpTo(actions: seq<string>, authz: Authorization, tenant: string, n: nat,
                                        pick: nat -> bool)
    requires n <= |actions| && forall i: nat | i < |actions| :: pick(i) <==> MayDo(authz, actions[i], tenant)
    ensures Picks(actions, Chosen(n, pick), Filtered(actions[..n], authz, tenant))
  {
    if n == 0 {
    } else {
      FilteredUpTo(actions, authz, tenant, n - 1, pick);
      hide Picks, MayDo;
      assert actions[..n][..n - 1] == actions[..n - 1];
      PickNext(actions, Chosen(n - 1, pick), Filtered(actions[..n - 1], authz, tenant), n - 1);
      assert pick(n - 1) <==> MayDo(authz, actions[n - 1], tenant);
    }
  }

  function ViewScope(name: string): Scope { Scope("keppel_account", name, ["view"]) }

  function Viewable(accounts: seq<Account>, authz: Authorization): seq<Scope> {
    if accounts == [] then []
    else
      var n := |accounts| - 1;
      Viewable(accounts[..n], authz)
      + if authz(CanViewAccount, accounts[n].tenant) then [ViewScope(accounts[n].name)] else []
  }

  method CompileCatalogAccess(accounts: seq<Account>, authz: Authorization) returns (scopes: seq<Scope>)
    ensures scopes == Viewable(accounts, authz)
  {
    scopes := [];
    for i := 0 to |accounts|
      invariant scopes == Viewable(accounts[..i], authz)
    {
      assert accounts[..i + 1][..i] == accounts[..i];
      if authz(CanViewAccount, accounts[i].tenant) {
        scopes := scopes + [Scope("keppel_account", accounts[i].name, ["view"])];
      }
    }
    assert accounts[..|accounts|] == accounts;
  }

  predicate MayView(accounts: seq<Account>, authz: Authorization, name: string) {
    exists account | account in accounts :: account.name == name && authz(CanViewAccount, account.tenant)
  }

  lemma {:induction false} ViewableExactly(accounts: seq<Account>, authz: Authorization)
    ensures forall s :: s in Viewable(accounts, authz) <==>
        && s == Scope("keppel_account", s.resourceName, ["view"])
        && exists account | account in accounts ::
             account.name == s.resourceName && authz(CanViewAccount, account.tenant)
  {
    if accounts != [] {
      var n := |accounts| - 1;
      ViewableExactly(accounts[..n], authz);
      forall name ensures MayView(accounts, authz, name) <==>
        MayView(accounts[..n], authz, name) || (accounts[n].name == name && authz(CanViewAccount, accounts[n].tenant))
      {
        assert accounts == accounts[..n] + [accounts[n]];
      }
    }
  }

  function ViewScopes(accounts: seq<Account>): (r: seq<Scope>)
    ensures |r| == |accounts|
    ensures forall i | 0 <= i < |r| :: r[i] == Scope("keppel_account", accounts[i].name, ["view"])
  {
    seq(|accounts|, i requires 0 <= i < |accounts| => ViewScope(accounts[i].name))
  }

  /** The scopes are those of the viewable accounts, in the order of the accounts. */
  lemma ViewableInOrder(accounts: seq<Account>, authz: Authorization) returns (places: seq<nat>)
    ensures Picks(ViewScopes(accounts), places, Viewable(accounts, authz))
    ensures forall j, k | 0 <= j < k < |places| :: places[j] < places[k]
    ensures forall i | 0 <= i < |accounts| :: i in places <==> authz(CanViewAccount, accounts[i].tenant)
  {
    var pick := (i: nat) => i < |accounts| && authz(CanViewAccount, accounts[i].tenant);
    places := Chosen(|accounts|, pick);
    ViewableUpTo(accounts, authz, |accounts|, pick);
    assert accounts[..|accounts|] == accounts;
  }

  lemma {:induction false} ViewableUpTo(accounts: seq<Account>, authz: Authorization, n: nat, pick: nat -> bool)
    requires n <= |accounts|
    requires forall i: nat | i < |accounts| :: pick(i) <==> authz(CanViewAccount, accounts[i].tenant)
    ensures Picks(ViewScopes(accounts), Chosen(n, pick), Viewable(accounts[..n], authz))
  {
    if n == 0 {
    } else {
      ViewableUpTo(accounts, authz, n - 1, pick);
      hide Picks, ViewScopes;
      assert accounts[..n][..n - 1] == accounts[..n - 1];
      PickNext(ViewScopes(accounts), Chosen(n - 1, pick), Viewable(accounts[..n - 1], authz), n - 1);
      assert pick(n - 1) <==> authz(CanViewAccount, accounts[n - 1].tenant);
    }
  }

  /* ---------- the token ---------- */

  function NonEmpty(scopes: seq<Scope>): (r: seq<Scope>)
    ensures forall s :: s in r <==> s in scopes && s.actions != []
  {
    if scopes == [] then []
    else
      var n := |scopes| - 1;
      assert scopes == scopes[..n] + [scopes[n]];
      NonEmpty(scopes[..n]) + if scopes[n].actions != [] then [scopes[n]] else []
  }

  function TokenFor(r: Request): Token {
    Token(r.userName, NonEmpty(if r.scope.Some? then [r.scope.value] else []) + NonEmpty(r.compiledScopes))
  }

  /** Request.ToToken */
  method ToToken(r: Request) returns (t: Token)
    ensures t == TokenFor(r)
  {
    var access: seq<Scope> := [];
    ghost var first := if r.scope.Some? then [r.scope.value] else [];
    if r.scope.Some? && |r.scope.value.actions| > 0 {
      access := [r.scope.value];
    }
    assert access == NonEmpty(first);
    for i := 0 to |r.compiledScopes|
      invariant access == NonEmpty(first) + NonEmpty(r.compiledScopes[..i])
    {
      assert r.compiledScopes[..i + 1][..i] == r.compiledScopes[..i];
      if |r.compiledScopes[i].actions| > 0 {
        access := access + [r.compiledScopes[i]];
      }
    }
    assert r.compiledScopes[..|r.compiledScopes|] == r.compiledScopes;
    t := Token(r.userName, access);
  }

  /** The accounts table as the handler sees it. */
  function FindAccount(accounts: seq<Account>, name: string): (r: Option<Account>)
    ensures r.Some? ==> r.value in accounts && r.value.name == name
    ensures r.None? ==> forall account | account in accounts :: account.name != name
  {
    if accounts == [] then None
    else if accounts[0].name == name then Some(accounts[0])
    else FindAccount(accounts[1..], name)
  }

  function Granted(scope: Scope, authz: Authorization, accounts: seq<Account>): Scope {
    if scope.resourceType == "registry" && scope.resourceName == "catalog" then scope.(actions := ["*"])
    else if scope.resourceType == "repository" then
      match FindAccount(accounts, AccountName(scope))
      case None => scope.(actions := [])
      case Some(account) => scope.(actions := Filtered(scope.actions, authz, account.tenant))
    else scope.(actions := [])
  }

  function Compiled(scope: Scope, authz: Authorization, accounts: seq<Account>): seq<Scope> {
    if scope.resourceType == "registry" && scope.resourceName == "catalog" then Viewable(accounts, authz) else []
  }

  function Issued(userName: string, scope: Option<Scope>, authz: Authorization, accounts: seq<Account>): Token {
    match scope
    case None => TokenFor(Request(userName, None, []))
    case Some(s) => TokenFor(Request(userName, Some(Granted(s, authz, accounts)), Compiled(s, authz, accounts)))
  }

  /** handleGetAuth for a parsed request, once the user is authenticated. */
  method HandleGetAuth(userName: string, scope: Option<Scope>, authz: Authorization,
      accounts: seq<Account>) returns (t: Token)
    ensures t == Issued(userName, scope, authz, accounts) && t.userName == userName
  {
    var req := Request(userName, scope, []);
    var account: Option<Account> := None;
    if req.scope.Some? && req.scope.value.resourceType == "repository" {
      account := FindAccount(accounts, AccountName(req.scope.value));
    }
    if req.scope.Some? {
      var s := req.scope.value;
      match s.resourceType {
      case "registry" =>
        if s.resourceName == "catalog" {
          req := req.(scope := Some(s.(actions := ["*"])));
          var compiled := CompileCatalogAccess(accounts, authz);
          req := req.(compiledScopes := compiled);
        } else {
          req := req.(scope := Some(s.(actions := [])));
        }
      case "repository" =>
        if account.None? {
          req := req.(scope := Some(s.(actions := [])));
        } else {
          var actions := FilterRepoActions(s.actions, authz, account.value);
          req := req.(scope := Some(s.(actions := actions)));
        }
      case _ =>
        req := req.(scope := Some(s.(actions := [])));
      }
    }
    t := ToToken(req);
  }

  /* ---------- exactness ---------- */

  /** The account named by the scope exists, the action was requested, and the user has the permission
      on the tenant of the account that the action takes. */
  predicate RepoPermitted(scope: Scope, authz: Authorization, accounts: seq<Account>, action: string) {
    var account := FindAccount(accounts, AccountName(scope));
    && account.Some? && action in scope.actions
    && (|| (action == "pull" && authz(CanViewAccount, account.value.tenant))
        || (action == "push" && authz(CanChangeAccount, account.value.tenant)))
  }

  lemma GrantedExactly(scope: Scope, authz: Authorization, accounts: seq<Account>)
    requires scope.resourceType == "repository"
    ensures forall a :: a in Granted(scope, authz, accounts).actions <==> RepoPermitted(scope, authz, accounts, a)
  {
    var account := FindAccount(accounts, AccountName(scope));
    if account.Some? { FilteredExactly(scope.actions, authz, account.value.tenant); }
  }

  /** The token is for the user who asked for it, whatever was asked for. */
  lemma TokenIsOwn(userName: string, scope: Option<Scope>, authz: Authorization, accounts: seq<Account>)
    ensures Issued(userName, scope, authz, accounts).userName == userName
  {
  }

  /** For a repository the token has one scope or none: the repository with the filtered actions. */
  lemma RepositoryToken(userName: string, scope: Scope, authz: Authorization, accounts: seq<Account>)
    requires scope.resourceType == "repository"
    ensures
      var account := FindAccount(accounts, AccountName(scope));
      var actions := if account.Some? then Filtered(scope.actions, authz, account.value.tenant) else [];
      Issued(userName, Some(scope), authz, accounts) ==
      Token(userName, if actions == [] then [] else [Scope("repository", scope.resourceName, actions)])
  {
    var granted := Granted(scope, authz, accounts);
    assert NonEmpty([granted]) == if granted.actions != [] then [granted] else [] by { assert [granted][..0] == []; }
  }

  /** For the catalog: the catalog itself, and then the viewable accounts. */
  lemma CatalogToken(userName: string, scope: Scope, authz: Authorization, accounts: seq<Account>)
    requires scope.resourceType == "registry" && scope.resourceName == "catalog"
    ensures Issued(userName, Some(scope), authz, accounts) ==
      Token(userName, [Scope("registry", "catalog", ["*"])] + Viewable(accounts, authz))
  {
    var catalog := Scope("registry", "catalog", ["*"]);
    assert NonEmpty([catalog]) == [catalog] by { assert [catalog][..0] == []; }
    ViewableExactly(accounts, authz);
    AllNonEmpty(Viewable(accounts, authz));
  }

  lemma {:induction false} AllNonEmpty(scopes: seq<Scope>)
    requires forall s | s in scopes :: s.actions != []
    ensures NonEmpty(scopes) == scopes
  {
    if scopes != [] {
      var n := |scopes| - 1;
      assert scopes == scopes[..n] + [scopes[n]];
      AllNonEmpty(scopes[..n]);
    }
  }

  /** The token for a repository permits a scope exactly if that is for the same repository and all
      its actions were both requested and permitted. */
  lemma RepositoryTokenExactly(userName: string, scope: Scope, authz: Authorization, accounts: seq<Account>, s: Scope)
    requires scope.resourceType == "repository" && s.actions != []
    ensures Permits(Issued(userName, Some(scope), authz, accounts), s) <==>
      && s.resourceType == "repository" && s.resourceName == scope.resourceName
      && var account := FindAccount(accounts, AccountName(scope));
         account.Some? && forall a | a in s.actions ::
           a in scope.actions && (|| (a == "pull" && authz(CanViewAccount, account.value.tenant))
                                  || (a == "push" && authz(CanChangeAccount, account.value.tenant)))
  {
    assert s.actions[0] in s.actions;
    PermittedSpelled(scope, authz, accounts, s);
    hide RepoPermitted;
    GrantedExactly(scope, authz, accounts);
    var granted := Granted(scope, authz, accounts);
    assert granted.resourceType == scope.resourceType && granted.resourceName == scope.resourceName;
    hide Granted;
    var t := Issued(userName, Some(scope), authz, accounts);
    assert forall x :: x in t.access <==> x == granted && granted.actions != [];
    assert s.actions[0] in s.actions;
    if Covers(granted, s) { assert granted in t.access; }
  }

  lemma PermittedSpelled(scope: Scope, authz: Authorization, accounts: seq<Account>, s: Scope)
    requires s.actions != []
    ensures (forall a | a in s.actions :: RepoPermitted(scope, authz, accounts, a)) <==>
      var account := FindAccount(accounts, AccountName(scope));
      account.Some? && forall a | a in s.actions ::
        a in scope.actions && (|| (a == "pull" && authz(CanViewAccount, account.value.tenant))
                               || (a == "push" && authz(CanChangeAccount, account.value.tenant)))
  {
    assert s.actions[0] in s.actions;
    assert (forall a | a in s.actions :: RepoPermitted(scope, authz, accounts, a)) ==>
        RepoPermitted(scope, authz, accounts, s.actions[0]);
  }

  /** The token for the catalog permits listing exactly the accounts that the user may view, the
      catalog itself, and nothing else. */
  lemma CatalogTokenExactly(userName: string, scope: Scope, authz: Authorization, accounts: seq<Account>, s: Scope)
    requires scope.resourceType == "registry" && scope.resourceName == "catalog" && s.actions != []
    ensures Permits(Issued(userName, Some(scope), authz, accounts), s) <==>
      || (s.resourceType == "registry" && s.resourceName == "catalog" && forall a | a in s.actions :: a == "*")
      || (s.resourceType == "keppel_account" && (forall a | a in s.actions :: a == "view")
          && exists account | account in accounts ::
               account.name == s.resourceName && authz(CanViewAccount, account.tenant))
  {
    hide NonEmpty, Covers;
    ViewableExactly(accounts, authz);
    assert forall s :: s in Viewable(accounts, authz) <==>
        s == ViewScope(s.resourceName) && MayView(accounts, authz, s.resourceName);
    MayViewSpelled(accounts, authz, s.resourceName);
    hide MayView;
    var t := Issued(userName, Some(scope), authz, accounts);
    var catalog := Scope("registry", "catalog", ["*"]);
    assert forall x :: x in t.access <==>
        x == catalog || (x == ViewScope(x.resourceName) && MayView(accounts, authz, x.resourceName));
    CoversOne(catalog, "*", s);
    CoversOne(ViewScope(s.resourceName), "view", s);
    if x :| x in t.access && Covers(x, s) {
      SameResource(x, s);
    }
    assert MayView(accounts, authz, s.resourceName) ==> ViewScope(s.resourceName) in t.access;
    assert catalog in t.access;
  }

  lemma MayViewSpelled(accounts: seq<Account>, authz: Authorization, name: string)
    ensures MayView(accounts, authz, name) <==>
      exists account | account in accounts :: account.name == name && authz(CanViewAccount, account.tenant)
  {
  }

  lemma SameResource(x: Scope, s: Scope)
    requires Covers(x, s)
    ensures x.resourceName == s.resourceName && x.resourceType == s.resourceType
  {
  }

  lemma CoversOne(x: Scope, action: string, s: Scope)
    requires x.actions == [action]
    ensures Covers(x, s) <==>
      x.resourceType == s.resourceType && x.resourceName == s.resourceName && forall a | a in s.actions :: a == action
  {
  }

  /** Without a scope, or with one that no repository and no catalog is meant by, the token is empty. */
  lemma OtherTokenEmpty(userName: string, scope: Option<Scope>, authz: Authorization, accounts: seq<Account>)
    requires scope.Some? ==>
      scope.value.resourceType != "repository" &&
          !(scope.value.resourceType == "registry" && scope.value.resourceName == "catalog")
    ensures Issued(userName, scope, authz, accounts).access == []
  {
    if scope.Some? {
      var granted := Granted(scope.value, authz, accounts);
      assert granted.actions == [];
      assert forall s :: s !in NonEmpty([granted]);
    }
  }

  /** From the text of the request to the token: pull and push are permitted exactly on the repository
      that was asked for, if asked for, and as far as the tenant of the account allows that is named
      by the part of the repository's name before the first slash. */
  lemma RequestToToken(userName: string, input: string, authz: Authorization, accounts: seq<Account>,
                       name: string, actions: seq<string>, repository: string, action: string)
    requires IsRepoScope(input, name, actions)
    ensures Parsed(input).Ok?
    ensures
      var t := Issued(userName, Some(Parsed(input).value), authz, accounts);
      Includes(t, "repository", repository, action) <==>
      && repository == name && action in actions
      && var account := FindAccount(accounts, Before(name, '/'));
         account.Some? && (|| (action == "pull" && authz(CanViewAccount, account.value.tenant))
                           || (action == "push" && authz(CanChangeAccount, account.value.tenant)))
  {
    hide Parsed, IsRepoScope, Issued, Includes, Permits, Before;
    RepositoryAccepted(input, name, actions);
    var scope := Parsed(input).value;
    IncludesIsPermits(Issued(userName, Some(scope), authz, accounts), "repository", repository, action);
    RepositoryTokenExactly(userName, scope, authz, accounts, Scope("repository", repository, [action]));
    assert action in [action];
  }
}
