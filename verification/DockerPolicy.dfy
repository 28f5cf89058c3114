/** The policy of the Docker API proxy: which rule of a ruleset decides a request, and how. */
module DockerPolicy {
  import opened Options
  import opened Strings

  const ALLOW := "allow"
  const DENY := "deny"
  const FILTER := "filter"

  /** Regular expressions, JSON bodies and URL queries: arbitrary functions. A query is None when its URL
      does not parse; a body that is no JSON gives whatever was decoded before the fault. */
  datatype Engine = Engine(
    compiles: string -> bool,
    matches: (string, string) -> bool,
    createRequest: string -> CreateRequest,
    execCommand: string -> seq<string>,
    nameInQuery: string -> Option<string>)

  datatype Mount = Mount(source: string, target: string)

  datatype HostConfig = HostConfig(privileged: bool, binds: seq<string>, mounts: seq<Mount>, ports: set<string>)

  datatype CreateRequest = CreateRequest(host: Option<HostConfig>, image: Option<string>)

  datatype Request = Request(verb: string, uri: string, body: string)

  datatype ContainerRule = ContainerRule(
    privileged: Option<bool>, mounts: seq<string>, ports: seq<string>, images: seq<string>, names: seq<string>)

  datatype ExecRule = ExecRule(commands: seq<string>, containers: seq<string>)

  datatype FilterRule = FilterRule(names: seq<string>, labels: map<string, string>)

  datatype Rule = Rule(
    id: string, action: string, message: string, methods: seq<string>, pathPattern: string, bodyPattern: string,
    commandTypes: seq<string>, container: Option<ContainerRule>, exec: Option<ExecRule>, filter: Option<FilterRule>)

  datatype Ruleset = Ruleset(version: string, defaultAction: string, rules: seq<Rule>)

  datatype Decision = Decision(action: string, message: string, ruleId: string)

  // ---------- The request ----------

  /** The URI up to the query. */
  function PathOf(uri: string): (path: string)
    ensures path <= uri && '?' !in path && (path == uri || uri[|path|] == '?')
  {
    if uri == "" || uri[0] == '?' then "" else [uri[0]] + PathOf(uri[1..])
  }

  function IdentifyCommandType(verb: string, uri: string): string {
    var upper := Upper(verb);
    var path := PathOf(uri);
    if upper == "POST" && HasSuffix(path, "/containers/create") then "create"
    else if upper == "POST" && HasSuffix(path, "/exec") then "exec"
    else if upper == "POST" && Contains(path, "/build") then "build"
    else if upper == "GET" && (HasSuffix(path, "/containers/json") || HasSuffix(path, "/images/json")) then "list"
    else if upper == "DELETE" then "delete"
    else if upper == "GET" then "inspect"
    else "other"
  }

  lemma {:induction false} PathStopsAtQuery(path: string, query: string)
    requires '?' !in path
    ensures PathOf(path + "?" + query) == path && PathOf(path) == path
  {
    if path != "" {
      assert (path + "?" + query)[1..] == path[1..] + "?" + query;
      PathStopsAtQuery(path[1..], query);
    }
  }

  /** Neither the query nor the case of the method has a say in the command type. */
  lemma CommandTypeIgnoresQueryAndCase(verb: string, path: string, query: string)
    requires '?' !in path
    ensures IdentifyCommandType(verb, path + "?" + query) == IdentifyCommandType(Upper(verb), path)
  {
    PathStopsAtQuery(path, query);
    CaseIsIdempotent(verb);
  }

  /** Go's strings.Trim for slashes. */
  function TrimSlashes(s: string): string {
    if s != "" && s[0] == '/' then TrimSlashes(s[1..]) else TrimRight(s, "/")
  }

  /** The part after the first part "containers". */
  function AfterContainers(parts: seq<string>): string {
    if |parts| < 2 then "" else if parts[0] == "containers" then parts[1] else AfterContainers(parts[1..])
  }

  function PartsOf(uri: string): seq<string> { Split(TrimSlashes(PathOf(uri)), '/') }

  function ContainerName(uri: string): string { AfterContainers(PartsOf(uri)) }

  predicate Plain(parts: seq<string>) { forall k | 0 <= k < |parts| :: '/' !in parts[k] && '?' !in parts[k] }

  /** The URI of the parts of a path and a query. */
  function UriOf(parts: seq<string>, query: string): string { "/" + Join(parts, '/') + "?" + query }

  /** The name is read back from every path that has "containers", the name and more behind any prefix. */
  lemma ContainerNameIsRead(prefix: seq<string>, name: string, more: seq<string>, query: string)
    requires Plain(prefix) && Plain([name]) && Plain(more)
    requires "containers" !in prefix && more != [] && more[|more| - 1] != "" && (prefix != [] ==> prefix[0] != "")
    ensures ContainerName(UriOf(prefix + ["containers", name] + more, query)) == name
  {
    var parts := prefix + ["containers", name] + more;
    assert parts[|parts| - 1] == more[|more| - 1];
    assert parts[0] == if prefix == [] then "containers" else prefix[0];
    assert Plain(parts) by {
      assert '/' !in [name][0] && '?' !in [name][0];
    }
    PartsAreRead(parts, query);
    FirstContainers(prefix, name, more);
  }

  lemma PartsAreRead(parts: seq<string>, query: string)
    requires parts != [] && parts[0] != "" && parts[|parts| - 1] != "" && Plain(parts)
    ensures PartsOf(UriOf(parts, query)) == parts
  {
    var path := Join(parts, '/');
    JoinChars(parts, '?');
    PathStopsAtQuery("/" + path, query);
    JoinEnds(parts);
    assert UriOf(parts, query) == ("/" + path) + "?" + query;
    assert ("/" + path)[1..] == path;
    assert TrimSlashes("/" + path) == TrimSlashes(path) == path;
    SplitJoin(parts, '/');
  }

  lemma {:induction false} JoinChars(parts: seq<string>, c: char)
    requires c != '/' && forall k | 0 <= k < |parts| :: c !in parts[k]
    ensures c !in Join(parts, '/')
  {
    if |parts| > 1 {
      JoinChars(parts[1..], c);
    }
  }

  /** What is joined from plain parts has the ends of its first and last part. */
  lemma {:induction false} JoinEnds(parts: seq<string>)
    requires parts != [] && parts[0] != "" && parts[|parts| - 1] != ""
    requires Plain(parts)
    ensures var s := Join(parts, '/'); s != "" && s[0] != '/' && s[|s| - 1] != '/' && TrimRight(s, "/") == s
  {
    var last := parts[|parts| - 1];
    assert last[|last| - 1] in last && parts[0][0] in parts[0];
    if |parts| > 1 {
      assert parts[..|parts| - 1] + [last] == parts;
      JoinAppend(parts[..|parts| - 1], [last], '/');
      assert Join(parts, '/')[0] == parts[0][0];
    }
  }

  lemma {:induction false} FirstContainers(prefix: seq<string>, name: string, more: seq<string>)
    requires "containers" !in prefix
    ensures AfterContainers(prefix + ["containers", name] + more) == name
  {
    if prefix != [] {
      assert (prefix + ["containers", name] + more)[1..] == prefix[1..] + ["containers", name] + more;
      FirstContainers(prefix[1..], name, more);
    }
  }

  // ---------- What the allowlists of a rule say about a request ----------

  predicate Hits(e: Engine, s: string, pattern: string) { e.compiles(pattern) && e.matches(pattern, s) }

  ghost predicate MatchesAny(e: Engine, s: string, patterns: seq<string>) {
    exists p | p in patterns :: Hits(e, s, p)
  }

  ghost predicate MountMatches(e: Engine, m: Mount, patterns: seq<string>) {
    MatchesAny(e, m.source + ":" + m.target, patterns) || MatchesAny(e, m.target, patterns)
  }

  predicate IsPrivileged(r: CreateRequest) { r.host.Some? && r.host.value.privileged }

  function Image(r: CreateRequest): string { if r.image.Some? then r.image.value else "" }

  function NameOf(e: Engine, uri: string): string {
    var n := e.nameInQuery(uri);
    if n.Some? then n.value else ""
  }

  predicate HasAllowlist(cc: ContainerRule) { cc.mounts != [] || cc.ports != [] || cc.images != [] || cc.names != [] }

  ghost predicate BindsViolated(e: Engine, cc: ContainerRule, r: CreateRequest) {
    cc.mounts != [] && r.host.Some? && exists b | b in r.host.value.binds :: !MatchesAny(e, b, cc.mounts)
  }

  ghost predicate MountsViolated(e: Engine, cc: ContainerRule, r: CreateRequest) {
    cc.mounts != [] && r.host.Some? && exists m | m in r.host.value.mounts :: !MountMatches(e, m, cc.mounts)
  }

  ghost predicate PortsViolated(cc: ContainerRule, r: CreateRequest) {
    cc.ports != [] && r.host.Some? && exists p | p in r.host.value.ports :: p !in cc.ports
  }

  /** The violations that rules of either action look for. */
  ghost predicate Violated(e: Engine, cc: ContainerRule, r: CreateRequest, uri: string) {
    || BindsViolated(e, cc, r)
    || PortsViolated(cc, r)
    || (cc.images != [] && !MatchesAny(e, Image(r), cc.images))
    || (cc.names != [] && !MatchesAny(e, NameOf(e, uri), cc.names))
  }

  predicate PrivilegeFits(cc: ContainerRule, r: CreateRequest) {
    cc.privileged.Some? ==> cc.privileged.value == IsPrivileged(r)
  }

  ghost predicate ContainerApplies(e: Engine, cc: ContainerRule, r: CreateRequest, uri: string, action: string) {
    PrivilegeFits(cc, r) &&
    if action == DENY then
      cc.privileged.Some? || !HasAllowlist(cc) || Violated(e, cc, r, uri) || MountsViolated(e, cc, r)
    else
      !Violated(e, cc, r, uri)
  }

  ghost predicate ExecViolated(e: Engine, ec: ExecRule, command: seq<string>, uri: string) {
    || (ec.commands != [] && !MatchesAny(e, Join(command, ' '), ec.commands))
    || (ec.containers != [] && !MatchesAny(e, ContainerName(uri), ec.containers))
  }

  // ---------- Which rule decides ----------

  function CreateRequestOf(e: Engine, q: Request): CreateRequest {
    if q.body == "" then CreateRequest(None, None) else e.createRequest(q.body)
  }

  function CommandOf(e: Engine, q: Request): seq<string> { if q.body == "" then [] else e.execCommand(q.body) }

  predicate VerbMatches(m: string, verb: string) { Upper(m) == Upper(verb) || m == "*" }

  ghost predicate MethodGate(r: Rule, q: Request) {
    r.methods == [] || exists m | m in r.methods :: VerbMatches(m, q.verb)
  }

  ghost predicate CommandGate(r: Rule, q: Request) {
    r.commandTypes == [] || exists c | c in r.commandTypes :: Lower(c) == IdentifyCommandType(q.verb, q.uri)
  }

  predicate PatternGate(e: Engine, r: Rule, q: Request) {
    (r.pathPattern != "" ==> Hits(e, q.uri, r.pathPattern)) && (r.bodyPattern != "" ==> Hits(e, q.body, r.bodyPattern))
  }

  /** All the matchers of a rule that do not look at its action. */
  ghost predicate Gate(e: Engine, r: Rule, q: Request) {
    && MethodGate(r, q) && CommandGate(r, q) && PatternGate(e, r, q)
    && (r.container.Some? ==> IdentifyCommandType(q.verb, q.uri) == "create")
    && (r.exec.Some? ==> IdentifyCommandType(q.verb, q.uri) == "exec")
  }

  ghost predicate Applies(e: Engine, r: Rule, q: Request) {
    && Gate(e, r, q)
    && (r.container.Some? ==> ContainerApplies(e, r.container.value, CreateRequestOf(e, q), q.uri, r.action))
    && (r.exec.Some? ==> (r.action == DENY <==> ExecViolated(e, r.exec.value, CommandOf(e, q), q.uri)))
  }

  /** The index of the first rule that applies; the number of rules when none does. */
  ghost function FirstMatch(e: Engine, rules: seq<Rule>, q: Request): (k: nat)
    ensures k <= |rules| && forall i | 0 <= i < k :: !Applies(e, rules[i], q)
    ensures k < |rules| ==> Applies(e, rules[k], q)
  {
    if rules == [] || Applies(e, rules[0], q) then 0 else 1 + FirstMatch(e, rules[1..], q)
  }

  function Outcome(r: Rule): Decision {
    Decision(r.action,
             if r.message == "" && r.action == DENY then "Request denied by policy rule: " + r.id else r.message,
             if r.id == "" then "anonymous-rule" else r.id)
  }

  function Default(rs: Ruleset): Decision {
    Decision(if rs.defaultAction == "" then ALLOW else rs.defaultAction, "", "default")
  }

  ghost function Decide(e: Engine, rs: Ruleset, q: Request): Decision {
    var k := FirstMatch(e, rs.rules, q);
    if k < |rs.rules| then Outcome(rs.rules[k]) else Default(rs)
  }

  lemma FirstMatchIsUnique(e: Engine, rules: seq<Rule>, q: Request, k: nat)
    requires k <= |rules| && forall i | 0 <= i < k :: !Applies(e, rules[i], q)
    requires k < |rules| ==> Applies(e, rules[k], q)
    ensures FirstMatch(e, rules, q) == k
  {
    var f := FirstMatch(e, rules, q);
  }

  // ---------- Deny rules and allow rules ----------

  /** A container rule denies exactly when it would not allow, under this condition alone. A rule about
      privilege ignores its allowlists when it denies; mounts are looked at by deny rules only. */
  lemma ContainerComplement(e: Engine, cc: ContainerRule, r: CreateRequest, uri: string, other: string)
    requires other != DENY
    ensures (ContainerApplies(e, cc, r, uri, DENY) <==> !ContainerApplies(e, cc, r, uri, other)) <==>
            PrivilegeFits(cc, r) &&
            (Violated(e, cc, r, uri) || (cc.privileged.None? && HasAllowlist(cc) && !MountsViolated(e, cc, r)))
    ensures cc.privileged.None? && HasAllowlist(cc) && (r.host.Some? ==> r.host.value.mounts == []) ==>
              (ContainerApplies(e, cc, r, uri, DENY) <==> !ContainerApplies(e, cc, r, uri, other))
  {
    if cc.privileged.Some? && Violated(e, cc, r, uri) {
      assert HasAllowlist(cc);
    }
  }

  /** An engine that knows one pattern: what lies under /srv. Every container asks to mount /etc. */
  function SrvEngine(): Engine {
    Engine((pattern: string) => true, (pattern: string, s: string) => pattern == "^/srv" && "/srv" <= s,
           (body: string) => CreateRequest(Some(HostConfig(false, [], [Mount("/etc", "/etc")], {})), None),
           (body: string) => [], (uri: string) => None)
  }

  /** The rule lets containers mount what lies under /srv. */
  function SrvRule(action: string): Rule {
    Rule("srv", action, "", [], "", "", [], Some(ContainerRule(None, ["^/srv"], [], [], [])), None, None)
  }

  /** As an allow rule it lets a container mount /etc, although everything else is denied; as a deny rule
      it refuses the same request. */
  lemma MountSlipsThrough(q: Request)
    requires q.verb == "POST" && q.body != "" && '?' !in q.uri && HasSuffix(q.uri, "/containers/create")
    ensures Decide(SrvEngine(), Ruleset("", DENY, [SrvRule(ALLOW)]), q).action == ALLOW
    ensures Decide(SrvEngine(), Ruleset("", ALLOW, [SrvRule(DENY)]), q).action == DENY
  {
    CreatePath(q.uri);
    SrvRuleApplies(q, ALLOW);
    SrvRuleApplies(q, DENY);
  }

  lemma SrvRuleApplies(q: Request, action: string)
    requires q.body != "" && IdentifyCommandType(q.verb, q.uri) == "create"
    ensures Applies(SrvEngine(), SrvRule(action), q)
  {
    var e, patterns, etc := SrvEngine(), ["^/srv"], Mount("/etc", "/etc");
    assert !MountMatches(e, etc, patterns) by {
      assert !("/srv" <= "/etc" + ":" + "/etc") by {
        assert ("/etc" + ":" + "/etc")[1] == 'e' && "/srv"[1] == 's';
      }
      assert !("/srv" <= "/etc") by {
        assert "/etc"[1] == 'e' && "/srv"[1] == 's';
      }
    }
    assert etc in CreateRequestOf(e, q).host.value.mounts;
  }

  lemma CreatePath(uri: string)
    requires '?' !in uri && HasSuffix(uri, "/containers/create")
    ensures IdentifyCommandType("POST", uri) == "create"
  {
    PathStopsAtQuery(uri, "");
    assert Upper("POST") == "POST";
  }

  /** A deny rule about privilege refuses requests that keep to all its lists. */
  lemma PrivilegeRuleIgnoresLists(e: Engine, uri: string)
    requires Hits(e, "alpine", "^alpine$")
    ensures var cc := ContainerRule(Some(false), [], [], ["^alpine$"], []);
            var r := CreateRequest(None, Some("alpine"));
            !Violated(e, cc, r, uri) && !MountsViolated(e, cc, r) && ContainerApplies(e, cc, r, uri, DENY)
  {
    assert "^alpine$" in ["^alpine$"];
  }

  /** Rule 1 of the reference ruleset, meant to deny privileged mode and mounts or ports outside its lists. */
  const REFERENCE_RULE := Rule(
    "deny-privileged-or-unauthorized-mounts", DENY,
    "Container creation denied: privileged containers or unauthorized mounts/ports prohibited.",
    ["POST"], "^/v[\\d\\.]+/containers/create.*", "", ["create"],
    Some(ContainerRule(Some(true), ["^/var/log/myapp/.*", "^/tmp/scratch/.*"], ["80/tcp", "8080/tcp"], [], [])),
    None, None)

  /** It denies the privileged requests that its other matchers let in, and no others: whatever an
      unprivileged container mounts or opens, it is allowed. */
  lemma ReferenceRuleDeniesPrivilegedOnly(e: Engine, q: Request)
    ensures var d := Decide(e, Ruleset("1.0", ALLOW, [REFERENCE_RULE]), q);
            && (d.action == DENY <==> Gate(e, REFERENCE_RULE, q) && IsPrivileged(CreateRequestOf(e, q)))
            && (!IsPrivileged(CreateRequestOf(e, q)) ==> d.action == ALLOW)
  {
    var rules := [REFERENCE_RULE];
    assert rules[0] == REFERENCE_RULE && rules[1..] == [];
    PrivilegeDecides(e, REFERENCE_RULE.container.value, CreateRequestOf(e, q), q.uri);
  }

  /** A deny rule about privilege looks at nothing else. */
  lemma PrivilegeDecides(e: Engine, cc: ContainerRule, r: CreateRequest, uri: string)
    requires cc.privileged.Some?
    ensures ContainerApplies(e, cc, r, uri, DENY) <==> cc.privileged.value == IsPrivileged(r)
  {
  }

  function One(r: Rule, action: string, default: string): Ruleset { Ruleset("", default, [r.(action := action)]) }

  /** Both one-rule rulesets deny the request, or neither does. */
  ghost predicate Dual(e: Engine, r: Rule, q: Request) {
    Decide(e, One(r, DENY, ALLOW), q).action == DENY <==> Decide(e, One(r, ALLOW, DENY), q).action == DENY
  }

  /** One deny rule with default allow and the same rule as an allow rule with default deny deny the same
      request exactly when the deny rule applies to it and the allow rule does not, or the other way round. */
  lemma OneRuleDuality(e: Engine, r: Rule, q: Request)
    ensures Dual(e, r, q) <==>
            (Applies(e, r.(action := DENY), q) <==> !Applies(e, r.(action := ALLOW), q))
  {
    var d, a := One(r, DENY, ALLOW), One(r, ALLOW, DENY);
    assert d.rules[0] == r.(action := DENY) && a.rules[0] == r.(action := ALLOW);
    assert d.rules[1..] == [] && a.rules[1..] == [];
  }

  /** For an exec rule that is when its other matchers let the request in; for a container rule when they do
      and the two verdicts are complements; for a rule with neither or both, never. */
  lemma DualityExactly(e: Engine, r: Rule, q: Request)
    ensures Dual(e, r, q) <==>
            Gate(e, r, q) &&
            match r.container
            case None => r.exec.Some?
            case Some(cc) =>
              var c := CreateRequestOf(e, q);
              PrivilegeFits(cc, c) &&
              (Violated(e, cc, c, q.uri) || (cc.privileged.None? && HasAllowlist(cc) && !MountsViolated(e, cc, c)))
  {
    OneRuleDuality(e, r, q);
    GateIgnoresAction(e, r, q, DENY);
    GateIgnoresAction(e, r, q, ALLOW);
    if r.container.Some? {
      ContainerComplement(e, r.container.value, CreateRequestOf(e, q), q.uri, ALLOW);
    }
  }

  lemma GateIgnoresAction(e: Engine, r: Rule, q: Request, action: string)
    ensures Gate(e, r.(action := action), q) == Gate(e, r, q)
  {
    var s := r.(action := action);
    assert s.methods == r.methods && s.commandTypes == r.commandTypes;
    assert MethodGate(s, q) == MethodGate(r, q) && CommandGate(s, q) == CommandGate(r, q);
  }

  /** A list of deny rules with default allow denies when any of them applies, in whatever order they stand. */
  lemma DenyListDeniesWhenAnyApplies(e: Engine, rs: Ruleset, q: Request)
    requires rs.defaultAction in {"", ALLOW} && forall r | r in rs.rules :: r.action == DENY
    ensures Decide(e, rs, q).action == DENY <==> exists r | r in rs.rules :: Applies(e, r, q)
  {
    var k := FirstMatch(e, rs.rules, q);
    if k < |rs.rules| {
      assert rs.rules[k] in rs.rules && Applies(e, rs.rules[k], q);
    } else {
      assert forall i | 0 <= i < |rs.rules| :: !Applies(e, rs.rules[i], q);
    }
  }

  /** Rules put behind a ruleset decide only what no earlier rule decides. */
  lemma LaterRulesDecideTheRest(e: Engine, rs: Ruleset, later: seq<Rule>, q: Request)
    ensures Decide(e, rs.(rules := rs.rules + later), q) ==
            if FirstMatch(e, rs.rules, q) < |rs.rules| then Decide(e, rs, q) else Decide(e, rs.(rules := later), q)
  {
    var both := rs.rules + later;
    var k := FirstMatch(e, rs.rules, q);
    if k < |rs.rules| {
      assert forall i | 0 <= i <= k :: both[i] == rs.rules[i];
      FirstMatchIsUnique(e, both, q, k);
    } else {
      var j := FirstMatch(e, later, q);
      assert j < |later| ==> both[k + j] == later[j];
      assert forall i | 0 <= i < k + j :: both[i] == if i < k then rs.rules[i] else later[i - k];
      FirstMatchIsUnique(e, both, q, k + j);
    }
  }
}
