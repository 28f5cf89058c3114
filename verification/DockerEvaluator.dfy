/** The evaluator as it runs: loops with flags over the rules, the allowlists and the request. */
module DockerEvaluator {
  import opened Options
  import opened Strings
  import opened DockerPolicy

  method MatchesAnyRegex(e: Engine, s: string, patterns: seq<string>) returns (found: bool)
    ensures found == MatchesAny(e, s, patterns)
  {
    for i := 0 to |patterns|
      invariant forall k | 0 <= k < i :: !Hits(e, s, patterns[k])
    {
      if e.compiles(patterns[i]) && e.matches(patterns[i], s) {
        assert Hits(e, s, patterns[i]);
        return true;
      }
    }
    return false;
  }

  method ContainsString(list: seq<string>, item: string) returns (found: bool)
    ensures found <==> item in list
  {
    for i := 0 to |list|
      invariant item !in list[..i]
    {
      if list[i] == item {
        return true;
      }
    }
    return false;
  }

  method AnyBindViolates(e: Engine, binds: seq<string>, allowed: seq<string>) returns (violation: bool)
    ensures violation <==> exists b | b in binds :: !MatchesAny(e, b, allowed)
  {
    for i := 0 to |binds|
      invariant forall k | 0 <= k < i :: MatchesAny(e, binds[k], allowed)
    {
      var fits := MatchesAnyRegex(e, binds[i], allowed);
      if !fits {
        return true;
      }
    }
    return false;
  }

  method AnyMountViolates(e: Engine, mounts: seq<Mount>, allowed: seq<string>) returns (violation: bool)
    ensures violation <==> exists m | m in mounts :: !MountMatches(e, m, allowed)
  {
    for i := 0 to |mounts|
      invariant forall k | 0 <= k < i :: MountMatches(e, mounts[k], allowed)
    {
      var m := mounts[i];
      var pair := MatchesAnyRegex(e, m.source + ":" + m.target, allowed);
      var target := MatchesAnyRegex(e, m.target, allowed);
      if !pair && !target {
        assert m in mounts && !MountMatches(e, m, allowed);
        return true;
      }
    }
    return false;
  }

  /** The port map is walked in an order of its own; the answer does not depend on it. */
  method AnyPortViolates(ports: set<string>, allowed: seq<string>) returns (violation: bool)
    ensures violation <==> exists p | p in ports :: p !in allowed
  {
    var left := ports;
    while left != {}
      invariant left <= ports && forall p | p in ports && p !in left :: p in allowed
      decreases |left|
    {
      var p :| p in left;
      left := left - {p};
      var fits := ContainsString(allowed, p);
      if !fits {
        return true;
      }
    }
    return false;
  }

  method DenyContainerCreate(e: Engine, cc: ContainerRule, r: CreateRequest, uri: string) returns (applies: bool)
    ensures applies <==> cc.privileged.Some? || !HasAllowlist(cc) || Violated(e, cc, r, uri) || MountsViolated(e, cc, r)
  {
    if |cc.mounts| > 0 && r.host.Some? {
      var bind := AnyBindViolates(e, r.host.value.binds, cc.mounts);
      var mount := AnyMountViolates(e, r.host.value.mounts, cc.mounts);
      if bind || mount {
        return true;
      }
    }
    if |cc.ports| > 0 && r.host.Some? {
      var port := AnyPortViolates(r.host.value.ports, cc.ports);
      if port {
        return true;
      }
    }
    if |cc.images| > 0 {
      var image := MatchesAnyRegex(e, Image(r), cc.images);
      if !image {
        return true;
      }
    }
    if |cc.names| > 0 {
      var name := MatchesAnyRegex(e, NameOf(e, uri), cc.names);
      if !name {
        return true;
      }
    }
    if |cc.mounts| > 0 || |cc.ports| > 0 || |cc.images| > 0 || |cc.names| > 0 {
      if cc.privileged.None? {
        return false;
      }
    }
    return true;
  }

  method AllowContainerCreate(e: Engine, cc: ContainerRule, r: CreateRequest, uri: string) returns (applies: bool)
    ensures applies <==> !Violated(e, cc, r, uri)
  {
    if |cc.mounts| > 0 && r.host.Some? {
      var bind := AnyBindViolates(e, r.host.value.binds, cc.mounts);
      if bind {
        return false;
      }
    }
    if |cc.ports| > 0 && r.host.Some? {
      var port := AnyPortViolates(r.host.value.ports, cc.ports);
      if port {
        return false;
      }
    }
    if |cc.images| > 0 {
      var image := MatchesAnyRegex(e, Image(r), cc.images);
      if !image {
        return false;
      }
    }
    if |cc.names| > 0 {
      var name := MatchesAnyRegex(e, NameOf(e, uri), cc.names);
      if !name {
        return false;
      }
    }
    return true;
  }

  method EvaluateContainerCreate(e: Engine, cc: ContainerRule, r: CreateRequest, uri: string, action: string)
    returns (applies: bool)
    ensures applies == ContainerApplies(e, cc, r, uri, action)
  {
    if cc.privileged.Some? {
      var isPriv := false;
      if r.host.Some? {
        isPriv := r.host.value.privileged;
      }
      if isPriv != cc.privileged.value {
        return false;
      }
    }
    if action == DENY {
      applies := DenyContainerCreate(e, cc, r, uri);
    } else {
      applies := AllowContainerCreate(e, cc, r, uri);
    }
  }

  method FindContainerName(uri: string) returns (name: string)
    ensures name == ContainerName(uri)
  {
    var parts := PartsOf(uri);
    name := "";
    for i := 0 to |parts| - 1
      invariant name == "" && AfterContainers(parts) == AfterContainers(parts[i..])
    {
      if parts[i] == "containers" {
        return parts[i + 1];
      }
      assert parts[i..][1..] == parts[i + 1..];
    }
  }

  /** Deny and allow are complements: a deny rule applies exactly when a list is violated, any other rule
      exactly when none is. */
  method EvaluateExecCreate(e: Engine, ec: ExecRule, command: seq<string>, uri: string, action: string)
    returns (applies: bool)
    ensures applies <==> (action == DENY <==> ExecViolated(e, ec, command, uri))
  {
    if action == DENY {
      if |ec.commands| > 0 {
        var fits := MatchesAnyRegex(e, Join(command, ' '), ec.commands);
        if !fits {
          return true;
        }
      }
      if |ec.containers| > 0 {
        var name := FindContainerName(uri);
        var fits := MatchesAnyRegex(e, name, ec.containers);
        if !fits {
          return true;
        }
      }
      return false;
    }
    if |ec.commands| > 0 {
      var fits := MatchesAnyRegex(e, Join(command, ' '), ec.commands);
      if !fits {
        return false;
      }
    }
    if |ec.containers| > 0 {
      var name := FindContainerName(uri);
      var fits := MatchesAnyRegex(e, name, ec.containers);
      if !fits {
        return false;
      }
    }
    return true;
  }

  method MethodMatches(r: Rule, q: Request) returns (matched: bool)
    ensures matched == MethodGate(r, q)
  {
    matched := |r.methods| == 0;
    for i := 0 to |r.methods|
      invariant matched <==> r.methods == [] || exists k | 0 <= k < i :: VerbMatches(r.methods[k], q.verb)
    {
      var m := r.methods[i];
      if Upper(m) == Upper(q.verb) || m == "*" {
        assert VerbMatches(r.methods[i], q.verb);
        matched := true;
        break;
      }
    }
  }

  method CommandMatches(r: Rule, q: Request) returns (matched: bool)
    ensures matched == CommandGate(r, q)
  {
    var kind := IdentifyCommandType(q.verb, q.uri);
    matched := |r.commandTypes| == 0;
    for i := 0 to |r.commandTypes|
      invariant matched <==> r.commandTypes == [] || exists k | 0 <= k < i :: Lower(r.commandTypes[k]) == kind
    {
      if Lower(r.commandTypes[i]) == kind {
        matched := true;
        break;
      }
    }
  }

  method RuleApplies(e: Engine, r: Rule, q: Request) returns (applies: bool)
    ensures applies == Applies(e, r, q)
  {
    var verb := MethodMatches(r, q);
    if !verb {
      return false;
    }
    var command := CommandMatches(r, q);
    if !command {
      return false;
    }
    if r.pathPattern != "" && (!e.compiles(r.pathPattern) || !e.matches(r.pathPattern, q.uri)) {
      return false;
    }
    if r.bodyPattern != "" && (!e.compiles(r.bodyPattern) || !e.matches(r.bodyPattern, q.body)) {
      return false;
    }
    applies := SemanticsApply(e, r, q);
  }

  method SemanticsApply(e: Engine, r: Rule, q: Request) returns (applies: bool)
    ensures MethodGate(r, q) && CommandGate(r, q) && PatternGate(e, r, q) ==> applies == Applies(e, r, q)
  {
    var kind := IdentifyCommandType(q.verb, q.uri);
    if r.container.Some? {
      if kind != "create" {
        return false;
      }
      var fits := EvaluateContainerCreate(e, r.container.value, CreateRequestOf(e, q), q.uri, r.action);
      if !fits {
        return false;
      }
    }
    if r.exec.Some? {
      if kind != "exec" {
        return false;
      }
      var fits := EvaluateExecCreate(e, r.exec.value, CommandOf(e, q), q.uri, r.action);
      if !fits {
        return false;
      }
    }
    return true;
  }

  /** The first rule that applies decides; without a ruleset everything is allowed. */
  method Evaluate(e: Engine, rs: Option<Ruleset>, q: Request) returns (d: Decision)
    ensures d == if rs.None? then Decision(ALLOW, "", "default") else Decide(e, rs.value, q)
  {
    if rs.None? {
      return Decision(ALLOW, "", "default");
    }
    var rules := rs.value.rules;
    for i := 0 to |rules|
      invariant forall k | 0 <= k < i :: !Applies(e, rules[k], q)
    {
      var applies := RuleApplies(e, rules[i], q);
      if applies {
        FirstMatchIsUnique(e, rules, q, i);
        var rule := rules[i];
        var msg := rule.message;
        if msg == "" && rule.action == DENY {
          msg := "Request denied by policy rule: " + rule.id;
        }
        var id := rule.id;
        if id == "" {
          id := "anonymous-rule";
        }
        return Decision(rule.action, msg, id);
      }
    }
    FirstMatchIsUnique(e, rules, q, |rules|);
    var action := rs.value.defaultAction;
    if action == "" {
      action := ALLOW;
    }
    return Decision(action, "", "default");
  }
}
