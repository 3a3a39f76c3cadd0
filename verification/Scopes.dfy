/** The language of resource scopes: parsing, printing, and containment. */
module Scopes {
  import opened Strings

  datatype Scope = Scope(resourceType: string, resourceName: string, actions: seq<string>)

  datatype ScopeError =
    | ScopeMissing | MissingResource | MissingRepository | MissingActions | Invalid
    | ResourceUnsupported | RepositoryTooLong | RepositoryInvalid | ActionInvalid

  datatype Result<+T> = Ok(value: T) | Err(error: ScopeError)

  const MAX_NAME_LENGTH := 256

  /* ---------- repository names ---------- */

  predicate IsAlnum(c: char) { 'a' <= c <= 'z' || '0' <= c <= '9' }

  predicate IsSeparator(c: char) { c == '.' || c == '_' || c == '-' }

  predicate IsAlnumRun(s: string) {
    s != "" && forall c | c in s :: IsAlnum(c)
  }

  /** [a-z0-9]+(?:[._-][a-z0-9]+)* */
  predicate IsComponent(s: string) {
    IsAlnumRun(s) || exists i | 0 <= i < |s| :: IsAlnumRun(s[..i]) && IsSeparator(s[i]) && IsComponent(s[i + 1..])
  }

  /** Components with slashes in between. */
  predicate IsRepoName(s: string) {
    IsComponent(s) || exists i | 0 <= i < |s| :: IsComponent(s[..i]) && s[i] == '/' && IsRepoName(s[i + 1..])
  }

  /** A component read character by character: it starts and ends with a letter or digit, and no two
      separators are next to each other. */
  predicate IsTidy(s: string) {
    && s != "" && IsAlnum(s[0]) && IsAlnum(s[|s| - 1])
    && (forall c | c in s :: IsAlnum(c) || IsSeparator(c))
    && forall i | 0 < i < |s| :: IsAlnum(s[i - 1]) || IsAlnum(s[i])
  }

  lemma {:induction false} ComponentIsTidy(s: string)
    requires IsComponent(s)
    ensures IsTidy(s)
    decreases |s|
  {
    hide IsTidy, IsAlnumRun, IsAlnum, IsSeparator;
    if IsAlnumRun(s) {
      RunIsTidy(s);
    } else {
      var i :| 0 <= i < |s| && IsAlnumRun(s[..i]) && IsSeparator(s[i]) && IsComponent(s[i + 1..]);
      hide IsComponent;
      ComponentIsTidy(s[i + 1..]);
      TidyConcat(s[..i], s[i], s[i + 1..]);
      assert s == s[..i] + [s[i]] + s[i + 1..];
    }
  }

  lemma RunIsTidy(s: string)
    requires IsAlnumRun(s)
    ensures IsTidy(s)
  {
  }

  lemma TidyConcat(a: string, sep: char, b: string)
    requires IsAlnumRun(a) && IsSeparator(sep) && IsTidy(b)
    ensures IsTidy(a + [sep] + b)
  {
    var s := a + [sep] + b;
    forall i | 0 < i < |s| ensures IsAlnum(s[i - 1]) || IsAlnum(s[i]) {
      if i <= |a| { assert s[i - 1] == a[i - 1]; }
      else if i == |a| + 1 { assert s[i] == b[0]; }
      else { assert s[i - 1] == b[i - 1 - |a| - 1] && s[i] == b[i - |a| - 1]; }
    }
  }

  function RunLength(s: string): (n: nat)
    ensures n <= |s| && (forall i | 0 <= i < n :: IsAlnum(s[i])) && (n < |s| ==> !IsAlnum(s[n]))
  {
    if s == "" || !IsAlnum(s[0]) then 0 else 1 + RunLength(s[1..])
  }

  lemma {:induction false} TidyIsComponent(s: string)
    requires IsTidy(s)
    ensures IsComponent(s)
    decreases |s|
  {
    hide IsTidy, IsAlnumRun, IsAlnum, IsSeparator, RunLength;
    var n := RunLength(s);
    TidySplit(s, n);
    if n < |s| { TidyIsComponent(s[n + 1..]); }
  }

  lemma TidySplit(s: string, n: nat)
    requires IsTidy(s) && n == RunLength(s)
    ensures if n < |s| then IsAlnumRun(s[..n]) && IsSeparator(s[n]) && IsTidy(s[n + 1..]) else IsAlnumRun(s)
  {
    hide RunLength;
    if n < |s| {
      TidyAfter(s, n);
      RunIsAlnum(s, n);
      hide IsAlnum, IsSeparator, IsTidy, IsAlnumRun;
      TidyTail(s, n + 1);
    } else {
      RunIsAlnum(s, n);
      assert s[..n] == s;
    }
  }

  lemma RunIsAlnum(s: string, n: nat)
    requires IsTidy(s) && n == RunLength(s)
    ensures IsAlnumRun(s[..n])
  {
    hide IsAlnum;
    assert n > 0 by { assert IsAlnum(s[0]); }
  }

  lemma TidyAfter(s: string, n: nat)
    requires IsTidy(s) && n == RunLength(s) < |s|
    ensures n + 1 < |s| && IsSeparator(s[n]) && IsAlnum(s[n + 1])
  {
    hide RunLength, IsSeparator, IsAlnum;
    assert s[n] in s;
    assert n > 0 by { assert IsAlnum(s[0]); }
    assert n + 1 < |s|;
    assert IsAlnum(s[n]) || IsAlnum(s[n + 1]);
  }

  lemma TidyTail(s: string, k: nat)
    requires IsTidy(s) && k < |s| && IsAlnum(s[k])
    ensures IsTidy(s[k..])
  {
    hide IsAlnum, IsSeparator;
    assert forall i | 0 <= i < |s[k..]| :: s[k..][i] == s[k + i];
  }

  /** The grammar of components says neither more nor less than the reading by characters. */
  lemma ComponentExactly(s: string)
    ensures IsComponent(s) <==> IsTidy(s)
  {
    if IsComponent(s) { ComponentIsTidy(s); }
    if IsTidy(s) { TidyIsComponent(s); }
  }

  /** The same for whole repository names, with everything spelled out: where two characters meet, one
      is a letter or a digit, and so are the first and the last. */
  lemma NameExactly(s: string)
    ensures IsRepoName(s) <==>
      && s != "" && s[0] !in "._-/" && s[|s| - 1] !in "._-/"
      && (forall c | c in s :: 'a' <= c <= 'z' || '0' <= c <= '9' || c in "._-/")
      && (forall i | 0 < i < |s| :: s[i - 1] !in "._-/" || s[i] !in "._-/")
  {
    if IsRepoName(s) { NameIsTidy(s); }
    if IsTidyName(s) { TidyIsName(s); }
  }

  predicate IsTidyName(s: string) {
    && s != "" && IsAlnum(s[0]) && IsAlnum(s[|s| - 1])
    && (forall c | c in s :: IsAlnum(c) || IsSeparator(c) || c == '/')
    && forall i | 0 < i < |s| :: IsAlnum(s[i - 1]) || IsAlnum(s[i])
  }

  lemma {:induction false} NameIsTidy(s: string)
    requires IsRepoName(s)
    ensures IsTidyName(s)
    decreases |s|
  {
    hide IsComponent, IsAlnum, IsSeparator;
    if IsComponent(s) {
      ComponentExactly(s);
    } else {
      var i :| 0 <= i < |s| && IsComponent(s[..i]) && s[i] == '/' && IsRepoName(s[i + 1..]);
      ComponentExactly(s[..i]);
      NameIsTidy(s[i + 1..]);
      hide IsTidy, IsTidyName, IsRepoName;
      TidyNames(s[..i], s[i + 1..]);
      assert s == s[..i] + ['/'] + s[i + 1..];
    }
  }

  lemma TidyNames(a: string, b: string)
    requires IsTidy(a) && IsTidyName(b)
    ensures IsTidyName(a + ['/'] + b)
  {
    hide IsAlnum, IsSeparator;
    var s := a + ['/'] + b;
    forall i | 0 < i < |s| ensures IsAlnum(s[i - 1]) || IsAlnum(s[i]) {
      if i < |a| { assert s[i - 1] == a[i - 1] && s[i] == a[i]; }
      else if i == |a| { assert s[i - 1] == a[i - 1]; }
      else if i == |a| + 1 { assert s[i] == b[0]; }
      else { assert s[i - 1] == b[i - 1 - |a| - 1] && s[i] == b[i - |a| - 1]; }
    }
  }

  lemma {:induction false} TidyIsName(s: string)
    requires IsTidyName(s)
    ensures IsRepoName(s)
    decreases |s|
  {
    hide IsComponent, IsAlnum, IsSeparator;
    if '/' in s {
      var a := Before(s, '/');
      BeforeSplits(s, '/');
      TidyNameSplit(s, |a|);
      ComponentExactly(a);
      TidyIsName(s[|a| + 1..]);
    } else {
      ComponentExactly(s);
    }
  }

  lemma TidyNameSplit(s: string, i: nat)
    requires IsTidyName(s) && i < |s| && s[i] == '/' && '/' !in s[..i]
    ensures IsTidy(s[..i]) && IsTidyName(s[i + 1..])
  {
    assert !IsAlnum('/');
    assert 0 < i < |s| - 1;
    hide IsAlnum, IsSeparator;
    assert IsAlnum(s[i - 1]) && IsAlnum(s[i + 1]);
    var a, b := s[..i], s[i + 1..];
    assert forall k | 0 <= k < |a| :: a[k] == s[k];
    assert forall k | 0 <= k < |b| :: b[k] == s[i + 1 + k];
    assert forall c | c in a :: c in s && c != '/';
  }

  predicate AllComponents(parts: seq<string>) {
    forall part | part in parts :: IsComponent(part)
  }

  /** A repository name is valid exactly if every part between slashes is a component. */
  lemma {:induction false} RepoNameExactly(s: string)
    ensures IsRepoName(s) <==> AllComponents(Split(s, '/'))
    decreases |s|
  {
    if IsRepoName(s) { RepoNameParts(s); }
    if AllComponents(Split(s, '/')) { PartsRepoName(s); }
  }

  lemma NoSlash(s: string)
    requires IsComponent(s)
    ensures '/' !in s && ':' !in s
  {
    hide IsComponent;
    ComponentExactly(s);
  }

  lemma {:induction false} RepoNameParts(s: string)
    requires IsRepoName(s)
    ensures AllComponents(Split(s, '/'))
    decreases |s|
  {
    hide IsComponent, Split;
    if IsComponent(s) {
      NoSlash(s);
      SplitWhole(s, '/');
    } else {
      var i :| 0 <= i < |s| && IsComponent(s[..i]) && s[i] == '/' && IsRepoName(s[i + 1..]);
      NoSlash(s[..i]);
      SplitFirst(s[..i], s[i + 1..], '/');
      assert s == s[..i] + ['/'] + s[i + 1..];
      RepoNameParts(s[i + 1..]);
    }
  }

  lemma {:induction false} PartsRepoName(s: string)
    requires AllComponents(Split(s, '/'))
    ensures IsRepoName(s)
    decreases |s|
  {
    hide IsComponent;
    if '/' in s {
      var a := Before(s, '/');
      BeforeSplits(s, '/');
      var b := s[|a| + 1..];
      SplitFirst(a, b, '/');
      assert s == a + ['/'] + b;
      assert Split(s, '/')[0] == a && Split(s, '/')[1..] == Split(b, '/');
      PartsRepoName(b);
      assert IsComponent(s[..|a|]) && s[|a|] == '/' && IsRepoName(s[|a| + 1..]);
    } else {
      SplitWhole(s, '/');
      assert s in Split(s, '/');
    }
  }

  lemma {:induction false} BeforeSplits(s: string, sep: char)
    requires sep in s
    ensures var a := Before(s, sep); sep !in a && |a| < |s| && a == s[..|a|] && s[|a|] == sep
  {
    if s[0] != sep { BeforeSplits(s[1..], sep); }
  }

  /* ---------- parsing ---------- */

  predicate IsRepoAction(action: string) { action == "pull" || action == "push" }

  function ParseFields(resourceType: string, resourceName: string, actions: seq<string>): Result<Scope> {
    if resourceType == "registry" then
      if resourceName != "catalog" then Err(ResourceUnsupported)
      else Ok(Scope(resourceType, resourceName, ["*"]))
    else if resourceType == "repository" then
      if |resourceName| > MAX_NAME_LENGTH then Err(RepositoryTooLong)
      else if !IsRepoName(resourceName) then Err(RepositoryInvalid)
      else if exists action | action in actions :: !IsRepoAction(action) then Err(ActionInvalid)
      else Ok(Scope(resourceType, resourceName, actions))
    else Err(ResourceUnsupported)
  }

  /** What ParseScope returns. */
  function Parsed(input: string): Result<Scope> {
    var fields := Split(input, ':');
    if input == "" then Err(ScopeMissing)
    else if fields[0] == "" then Err(MissingResource)
    else if |fields| > 3 then Err(Invalid)
    else if |fields| == 2 then Err(MissingActions)
    else if |fields| == 1 then Err(MissingRepository)
    else ParseFields(fields[0], fields[1], Split(fields[2], ','))
  }

  method ParseScope(input: string) returns (r: Result<Scope>)
    ensures r == Parsed(input)
  {
    if input == "" { return Err(ScopeMissing); }
    var fields := Split(input, ':');
    if fields[0] == "" { return Err(MissingResource); }
    if |fields| > 3 { return Err(Invalid); }
    if |fields| == 2 { return Err(MissingActions); }
    if |fields| == 1 { return Err(MissingRepository); }
    var scope := Scope(fields[0], fields[1], Split(fields[2], ','));
    match scope.resourceType {
    case "registry" =>
      if scope.resourceName != "catalog" { return Err(ResourceUnsupported); }
      scope := scope.(actions := ["*"]);
    case "repository" =>
      if |scope.resourceName| > MAX_NAME_LENGTH { return Err(RepositoryTooLong); }
      if !IsRepoName(scope.resourceName) { return Err(RepositoryInvalid); }
      for i := 0 to |scope.actions|
        invariant forall j | 0 <= j < i :: IsRepoAction(scope.actions[j])
      {
        if !IsRepoAction(scope.actions[i]) { return Err(ActionInvalid); }
      }
    case _ =>
      return Err(ResourceUnsupported);
    }
    return Ok(scope);
  }

  /** Scope.String */
  function Print(s: Scope): string {
    Join([s.resourceType, s.resourceName, Join(s.actions, ',')], ':')
  }

  /** Scope.AccountName */
  function AccountName(s: Scope): string {
    if s.resourceType != "repository" then "" else Before(s.resourceName, '/')
  }

  lemma PrintedFields(s: Scope)
    requires ':' !in s.resourceType && ':' !in s.resourceName && ':' !in Join(s.actions, ',')
    ensures Split(Print(s), ':') == [s.resourceType, s.resourceName, Join(s.actions, ',')]
  {
    SplitJoin([s.resourceType, s.resourceName, Join(s.actions, ',')], ':');
  }

  /** A repository scope is printed exactly as it was written. */
  lemma RepositoryPrintsBack(input: string)
    requires Parsed(input).Ok? && Parsed(input).value.resourceType == "repository"
    ensures Print(Parsed(input).value) == input
  {
    hide IsRepoName;
    var fields := Split(input, ':');
    JoinSplit(input, ':');
    JoinSplit(fields[2], ',');
    assert fields == [fields[0], fields[1], fields[2]];
  }

  /** Parsing what was printed gives the same scope, for every scope that was ever accepted. */
  lemma RoundTrip(input: string)
    requires Parsed(input).Ok?
    ensures Parsed(Print(Parsed(input).value)) == Parsed(input)
  {
    OnlyTwoKinds(input);
    hide Parsed, Print;
    if Parsed(input).value.resourceType == "repository" {
      RepositoryPrintsBack(input);
    } else {
      CatalogRoundTrip();
    }
  }

  lemma OnlyTwoKinds(input: string)
    requires Parsed(input).Ok?
    ensures Parsed(input).value.resourceType == "repository" ||
        Parsed(input).value == Scope("registry", "catalog", ["*"])
  {
    hide Split, IsRepoName;
  }

  lemma CatalogRoundTrip()
    ensures Parsed(Print(Scope("registry", "catalog", ["*"]))) == Ok(Scope("registry", "catalog", ["*"]))
  {
    var s := Scope("registry", "catalog", ["*"]);
    assert Join(["*"], ',') == "*";
    PrintedFields(s);
    SplitWhole("*", ',');
  }

  lemma AcceptedName(input: string)
    requires Parsed(input).Ok? && Parsed(input).value.resourceType == "repository"
    ensures IsRepoName(Parsed(input).value.resourceName) && |Parsed(input).value.resourceName| <= 256
  {
    hide IsRepoName, Split;
  }

  /** The account of a repository scope is a valid, non-empty name without slash: the first part of
      the repository name, which continues with a slash if at all. */
  lemma AccountNameIsComponent(input: string)
    requires Parsed(input).Ok? && Parsed(input).value.resourceType == "repository"
    ensures var s := Parsed(input).value;
      var account := AccountName(s);
      && IsComponent(account) && account != "" && '/' !in account && |account| <= 256
      && (s.resourceName == account || account + "/" <= s.resourceName)
  {
    AcceptedName(input);
    var name := Parsed(input).value.resourceName;
    hide IsComponent, IsRepoName, Parsed;
    RepoNameExactly(name);
    BeforeIsFirst(name, '/');
    var account := Before(name, '/');
    assert IsComponent(account);
    ComponentExactly(account);
    NoSlash(account);
    if '/' in name {
      BeforeSplits(name, '/');
    } else {
      SplitWhole(name, '/');
    }
  }

  /* ---------- the accepted language ---------- */

  /** A repository of up to 256 characters with one or more of the two actions. */
  predicate IsRepoScope(input: string, name: string, actions: seq<string>) {
    && input == "repository:" + name + ":" + Join(actions, ',')
    && IsRepoName(name) && |name| <= 256
    && actions != [] && forall action | action in actions :: action == "pull" || action == "push"
  }

  /** Exactly these inputs are accepted: registry:catalog: and anything without a colon, and repository
      scopes. */
  lemma AcceptedExactly(input: string)
    ensures Parsed(input).Ok? <==>
      || (exists rest :: ':' !in rest && input == "registry:catalog:" + rest)
      || (exists name, actions :: IsRepoScope(input, name, actions))
  {
    hide IsRepoName, Parsed, IsRepoScope;
    if Parsed(input).Ok? { OnlyAccepted(input); }
    if rest :| ':' !in rest && input == "registry:catalog:" + rest { CatalogAccepted(input, rest); }
    if name, actions :| IsRepoScope(input, name, actions) { RepositoryAccepted(input, name, actions); }
  }

  lemma OnlyAccepted(input: string)
    requires Parsed(input).Ok?
    ensures
      || (exists rest :: ':' !in rest && input == "registry:catalog:" + rest)
      || (exists name, actions :: IsRepoScope(input, name, actions))
  {
    hide IsRepoName;
    var fields := Split(input, ':');
    JoinSplit(input, ':');
    SplitParts(input, ':');
    hide Join, Split;
    assert fields == [fields[0], fields[1], fields[2]];
    JoinThree(fields[0], fields[1], fields[2], ':');
    if fields[0] == "registry" {
      CatalogSpelled(fields[2]);
      assert ':' !in fields[2] && input == "registry:catalog:" + fields[2];
    } else {
      JoinSplit(fields[2], ',');
      RepositorySpelled(fields[1], fields[2]);
      assert IsRepoScope(input, fields[1], Split(fields[2], ','));
    }
  }

  lemma CatalogSpelled(rest: string)
    ensures "registry" + [':'] + ("catalog" + [':'] + rest) == "registry:catalog:" + rest
  {
  }

  lemma RepositorySpelled(name: string, rest: string)
    ensures "repository" + [':'] + (name + [':'] + rest) == "repository:" + name + ":" + rest
  {
    assert "repository" + [':'] == "repository:";
  }

  lemma CatalogAccepted(input: string, rest: string)
    requires ':' !in rest && input == "registry:catalog:" + rest
    ensures Parsed(input) == Ok(Scope("registry", "catalog", ["*"]))
    ensures AccountName(Parsed(input).value) == ""
  {
    var parts := ["registry", "catalog", rest];
    JoinThree("registry", "catalog", rest, ':');
    CatalogSpelled(rest);
    hide Join, Split;
    SplitJoin(parts, ':');
  }

  lemma RepositoryAccepted(input: string, name: string, actions: seq<string>)
    requires IsRepoScope(input, name, actions)
    ensures Parsed(input) == Ok(Scope("repository", name, actions))
  {
    hide IsRepoName, Join, Split;
    NameHasNoColon(name);
    ActionsHaveNoColon(actions);
    RepositoryPrinted(input, name, actions);
    var s := Scope("repository", name, actions);
    PrintedFields(s);
    ActionsSplit(actions);
    assert input != "";
  }

  lemma RepositoryPrinted(input: string, name: string, actions: seq<string>)
    requires input == "repository:" + name + ":" + Join(actions, ',')
    ensures input == Print(Scope("repository", name, actions))
  {
    JoinThree("repository", name, Join(actions, ','), ':');
    RepositorySpelled(name, Join(actions, ','));
    hide Join;
  }

  lemma ActionsSplit(actions: seq<string>)
    requires actions != [] && forall action | action in actions :: action == "pull" || action == "push"
    ensures Split(Join(actions, ','), ',') == actions
  {
    hide Join, Split;
    assert forall action | action in actions :: ',' !in action;
    SplitJoin(actions, ',');
  }

  lemma {:induction false} NameHasNoColon(name: string)
    requires IsRepoName(name)
    ensures ':' !in name
    decreases |name|
  {
    hide IsComponent;
    if IsComponent(name) {
      NoSlash(name);
    } else {
      var i :| 0 <= i < |name| && IsComponent(name[..i]) && name[i] == '/' && IsRepoName(name[i + 1..]);
      NoSlash(name[..i]);
      NameHasNoColon(name[i + 1..]);
      assert name == name[..i] + ['/'] + name[i + 1..];
    }
  }

  lemma {:induction false} ActionsHaveNoColon(actions: seq<string>)
    requires forall action | action in actions :: action == "pull" || action == "push"
    ensures ':' !in Join(actions, ',')
  {
    if actions != [] {
      assert actions[0] in actions && ':' !in "pull" && ':' !in "push";
      if |actions| > 1 {
        assert forall action | action in actions[1..] :: action in actions;
        ActionsHaveNoColon(actions[1..]);
      }
    }
  }

  /* ---------- the rejected inputs ---------- */

  lemma {:induction false} SplitCount(s: string, sep: char)
    ensures |Split(s, sep)| == multiset(s)[sep] + 1
    ensures s != "" ==> (Split(s, sep)[0] == "" <==> s[0] == sep)
  {
    if s != "" {
      SplitCount(s[1..], sep);
      assert s == [s[0]] + s[1..];
    }
  }

  /** Errors by the number of colons: none at all, one too few, or too many. */
  lemma RejectedByColons(input: string)
    ensures var colons := multiset(input)[':'];
      && (Parsed(input) == Err(ScopeMissing) <==> input == "")
      && (Parsed(input) == Err(MissingResource) <==> input != "" && input[0] == ':')
      && (Parsed(input) == Err(Invalid) <==> input != "" && input[0] != ':' && colons >= 3)
      && (Parsed(input) == Err(MissingActions) <==> input != "" && input[0] != ':' && colons == 1)
      && (Parsed(input) == Err(MissingRepository) <==> input != "" && input[0] != ':' && colons == 0)
  {
    SplitCount(input, ':');
    hide Split, IsRepoName;
  }

  /** Errors in the three fields, in the order in which they are looked for. */
  lemma RejectedByFields(kind: string, name: string, rest: string)
    requires kind != "" && ':' !in kind && ':' !in name && ':' !in rest
    ensures var r := Parsed(kind + ":" + name + ":" + rest);
      var repo := kind == "repository";
      && (r == Err(ResourceUnsupported) <==> !repo && !(kind == "registry" && name == "catalog"))
      && (r == Err(RepositoryTooLong) <==> repo && |name| > 256)
      && (r == Err(RepositoryInvalid) <==> repo && |name| <= 256 && !IsRepoName(name))
      && var wrong := exists action | action in Split(rest, ',') :: action != "pull" && action != "push";
         r == Err(ActionInvalid) <==> repo && |name| <= 256 && IsRepoName(name) && wrong
  {
    FieldsParsed(kind, name, rest);
    hide Split, IsRepoName, Parsed;
  }

  lemma FieldsParsed(kind: string, name: string, rest: string)
    requires kind != "" && ':' !in kind && ':' !in name && ':' !in rest
    ensures Parsed(kind + ":" + name + ":" + rest) == ParseFields(kind, name, Split(rest, ','))
  {
    hide Split, Join, ParseFields;
    var input, fields := kind + ":" + name + ":" + rest, [kind, name, rest];
    JoinThree(kind, name, rest, ':');
    assert input == kind + [':'] + (name + [':'] + rest);
    SplitJoin(fields, ':');
    assert Split(input, ':') == fields && |fields| == 3 && input != "";
  }

  /** No other inputs are left: without an error of the first kind there are exactly three fields. */
  lemma ThreeFields(input: string) returns (kind: string, name: string, rest: string)
    requires input != "" && input[0] != ':' && multiset(input)[':'] == 2
    ensures input == kind + ":" + name + ":" + rest
    ensures kind != "" && ':' !in kind && ':' !in name && ':' !in rest
  {
    var fields := Split(input, ':');
    SplitCount(input, ':');
    SplitParts(input, ':');
    JoinSplit(input, ':');
    hide Split, Join;
    assert fields == [fields[0], fields[1], fields[2]];
    JoinThree(fields[0], fields[1], fields[2], ':');
    kind, name, rest := fields[0], fields[1], fields[2];
    assert kind in fields && name in fields && rest in fields;
  }

  /* ---------- containment ---------- */

  /** The same resource, and every action of other is among the actions of s. */
  predicate Covers(s: Scope, other: Scope) {
    && s.resourceType == other.resourceType
    && s.resourceName == other.resourceName
    && forall a | a in other.actions :: a in s.actions
  }

  method Contains(s: Scope, other: Scope) returns (r: bool)
    ensures r <==> Covers(s, other)
    ensures r <==> s.resourceType == other.resourceType && s.resourceName == other.resourceName
                   && forall a | a in other.actions :: a in s.actions
  {
    if s.resourceType != other.resourceType { return false; }
    if s.resourceName != other.resourceName { return false; }
    var actions: map<string, bool> := map[];
    for i := 0 to |s.actions|
      invariant forall a :: a in actions <==> a in s.actions[..i]
      invariant forall a | a in actions :: actions[a]
    {
      assert s.actions[..i + 1] == s.actions[..i] + [s.actions[i]];
      actions := actions[s.actions[i] := true];
    }
    assert s.actions[..|s.actions|] == s.actions;
    for i := 0 to |other.actions|
      invariant forall j | 0 <= j < i :: other.actions[j] in s.actions
    {
      if other.actions[i] !in actions || !actions[other.actions[i]] { return false; }
    }
    return true;
  }
}
