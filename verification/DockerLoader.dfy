/** The loader of rulesets: it rewrites the rules in place and refuses a ruleset that does not hold up. */
module DockerLoader {
  import opened Options
  import opened Strings
  import opened DockerPolicy

  datatype LoadError =
    | InvalidDefault
    | InvalidPath(id: string)
    | InvalidBody(id: string)
    | InvalidAction(id: string)
    | InvalidPattern(id: string, pattern: string)

  // ---------- What loading means ----------

  function UpperAll(ss: seq<string>): seq<string> { seq(|ss|, i requires 0 <= i < |ss| => Upper(ss[i])) }

  function LowerAll(ss: seq<string>): seq<string> { seq(|ss|, i requires 0 <= i < |ss| => Lower(ss[i])) }

  function NormalRule(r: Rule): Rule {
    r.(methods := UpperAll(r.methods), commandTypes := LowerAll(r.commandTypes))
  }

  function NormalRules(rules: seq<Rule>): seq<Rule> {
    seq(|rules|, i requires 0 <= i < |rules| => NormalRule(rules[i]))
  }

  function DefaultOf(action: string): string { if action == "" then ALLOW else action }

  function Normal(rs: Ruleset): Ruleset { Ruleset(rs.version, DefaultOf(rs.defaultAction), NormalRules(rs.rules)) }

  function FirstBad(e: Engine, id: string, patterns: seq<string>): Option<LoadError> {
    if patterns == [] then None
    else if !e.compiles(patterns[0]) then Some(InvalidPattern(id, patterns[0]))
    else FirstBad(e, id, patterns[1..])
  }

  function ContainerOf(r: Rule): ContainerRule {
    if r.container.None? then ContainerRule(None, [], [], [], []) else r.container.value
  }

  function ExecOf(r: Rule): ExecRule { if r.exec.None? then ExecRule([], []) else r.exec.value }

  function FilterNames(r: Rule): seq<string> { if r.filter.None? then [] else r.filter.value.names }

  /** The patterns of the allowlists; ports are no patterns. */
  function PatternsOf(r: Rule): seq<string> {
    var cc, ec := ContainerOf(r), ExecOf(r);
    cc.mounts + cc.images + cc.names + ec.commands + ec.containers + FilterNames(r)
  }

  function Or(first: Option<LoadError>, later: Option<LoadError>): Option<LoadError> {
    if first.Some? then first else later
  }

  /** The slices in the order they are looked at. */
  function PatternProblem(e: Engine, r: Rule): Option<LoadError> {
    var cc, ec := ContainerOf(r), ExecOf(r);
    Or(FirstBad(e, r.id, cc.mounts),
       Or(FirstBad(e, r.id, cc.images),
          Or(FirstBad(e, r.id, cc.names),
             Or(FirstBad(e, r.id, ec.commands),
                Or(FirstBad(e, r.id, ec.containers), FirstBad(e, r.id, FilterNames(r)))))))
  }

  function RuleProblem(e: Engine, r: Rule): Option<LoadError> {
    if r.pathPattern != "" && !e.compiles(r.pathPattern) then Some(InvalidPath(r.id))
    else if r.bodyPattern != "" && !e.compiles(r.bodyPattern) then Some(InvalidBody(r.id))
    else if r.action !in {ALLOW, DENY, FILTER} then Some(InvalidAction(r.id))
    else PatternProblem(e, r)
  }

  function FirstProblem(e: Engine, rules: seq<Rule>): Option<LoadError> {
    if rules == [] then None
    else if RuleProblem(e, rules[0]).Some? then RuleProblem(e, rules[0])
    else FirstProblem(e, rules[1..])
  }

  function Problem(e: Engine, rs: Ruleset): Option<LoadError> {
    if DefaultOf(rs.defaultAction) !in {ALLOW, DENY} then Some(InvalidDefault) else FirstProblem(e, rs.rules)
  }

  /** What a ruleset must be to be loaded. */
  ghost predicate RuleAccepted(e: Engine, r: Rule) {
    && (r.pathPattern != "" ==> e.compiles(r.pathPattern))
    && (r.bodyPattern != "" ==> e.compiles(r.bodyPattern))
    && r.action in {ALLOW, DENY, FILTER}
    && forall p | p in PatternsOf(r) :: e.compiles(p)
  }

  ghost predicate Accepted(e: Engine, rs: Ruleset) {
    rs.defaultAction in {"", ALLOW, DENY} && forall r | r in rs.rules :: RuleAccepted(e, r)
  }

  lemma {:induction false} NoneBad(e: Engine, id: string, patterns: seq<string>)
    ensures FirstBad(e, id, patterns) == None <==> forall p | p in patterns :: e.compiles(p)
    decreases |patterns|
  {
    if patterns != [] {
      NoneBad(e, id, patterns[1..]);
      assert patterns == [patterns[0]] + patterns[1..];
    }
  }

  lemma NoPatternProblem(e: Engine, r: Rule)
    ensures PatternProblem(e, r) == None <==> forall p | p in PatternsOf(r) :: e.compiles(p)
  {
    var cc, ec := ContainerOf(r), ExecOf(r);
    NoneBad(e, r.id, cc.mounts);
    NoneBad(e, r.id, cc.images);
    NoneBad(e, r.id, cc.names);
    NoneBad(e, r.id, ec.commands);
    NoneBad(e, r.id, ec.containers);
    NoneBad(e, r.id, FilterNames(r));
    assert forall p :: p in PatternsOf(r) <==>
        p in cc.mounts || p in cc.images || p in cc.names || p in ec.commands || p in ec.containers
        || p in FilterNames(r);
  }

  lemma NoRuleProblem(e: Engine, r: Rule)
    ensures RuleProblem(e, r) == None <==> RuleAccepted(e, r)
  {
    NoPatternProblem(e, r);
  }

  lemma {:induction false} NoneProblem(e: Engine, rules: seq<Rule>)
    ensures FirstProblem(e, rules) == None <==> forall r | r in rules :: RuleAccepted(e, r)
    decreases |rules|
  {
    if rules != [] {
      NoRuleProblem(e, rules[0]);
      NoneProblem(e, rules[1..]);
      assert rules == [rules[0]] + rules[1..];
    }
  }

  /** A ruleset is loaded exactly when its default is allow, deny or absent, its actions are known and all
      its patterns compile. */
  lemma LoadedIffAccepted(e: Engine, rs: Ruleset)
    ensures Problem(e, rs) == None <==> Accepted(e, rs)
  {
    NoneProblem(e, rs.rules);
  }

  // ---------- Loading keeps the meaning ----------

  lemma NormalVerb(m: string, verb: string)
    ensures VerbMatches(Upper(m), verb) == VerbMatches(m, verb)
  {
    CaseIsIdempotent(m);
    assert Upper(m) == "*" <==> m == "*" by {
      if |m| == 1 {
        assert Upper(m)[0] == UpperChar(m[0]);
        assert m == [m[0]];
      }
    }
  }

  lemma NormalGates(r: Rule, q: Request)
    ensures MethodGate(NormalRule(r), q) == MethodGate(r, q) && CommandGate(NormalRule(r), q) == CommandGate(r, q)
  {
    var n := NormalRule(r);
    forall i | 0 <= i < |r.methods| ensures VerbMatches(n.methods[i], q.verb) == VerbMatches(r.methods[i], q.verb) {
      NormalVerb(r.methods[i], q.verb);
    }
    forall i | 0 <= i < |r.commandTypes| ensures Lower(n.commandTypes[i]) == Lower(r.commandTypes[i]) {
      CaseIsIdempotent(r.commandTypes[i]);
    }
    SameWhere(n.methods, r.methods, (m: string) => VerbMatches(m, q.verb));
    SameWhere(n.commandTypes, r.commandTypes, (c: string) => Lower(c) == IdentifyCommandType(q.verb, q.uri));
  }

  lemma SameWhere(a: seq<string>, b: seq<string>, holds: string -> bool)
    requires |a| == |b| && forall i | 0 <= i < |a| :: holds(a[i]) == holds(b[i])
    ensures (exists s | s in a :: holds(s)) <==> exists s | s in b :: holds(s)
  {
    if s :| s in a && holds(s) {
      var i :| 0 <= i < |a| && a[i] == s;
      assert holds(b[i]);
    }
    if s :| s in b && holds(s) {
      var i :| 0 <= i < |b| && b[i] == s;
      assert holds(a[i]);
    }
  }

  lemma NormalApplies(e: Engine, r: Rule, q: Request)
    ensures Applies(e, NormalRule(r), q) == Applies(e, r, q)
  {
    NormalGates(r, q);
  }

  /** Every request gets the same action, message and rule id before and after loading. */
  lemma LoadingKeepsDecisions(e: Engine, rs: Ruleset, q: Request)
    ensures Decide(e, Normal(rs), q) == Decide(e, rs, q)
  {
    var n := Normal(rs);
    forall i | 0 <= i < |rs.rules| ensures Applies(e, n.rules[i], q) == Applies(e, rs.rules[i], q) {
      NormalApplies(e, rs.rules[i], q);
    }
    FirstMatchIsUnique(e, n.rules, q, FirstMatch(e, rs.rules, q));
  }

  /** Loading what is loaded changes nothing and refuses nothing. */
  lemma LoadingIsIdempotent(e: Engine, rs: Ruleset)
    ensures Normal(Normal(rs)) == Normal(rs)
    ensures Accepted(e, rs) ==> Accepted(e, Normal(rs))
  {
    forall n | n in Normal(rs).rules && Accepted(e, rs) ensures RuleAccepted(e, n) {
      var i :| 0 <= i < |rs.rules| && n == NormalRule(rs.rules[i]);
      assert rs.rules[i] in rs.rules;
      assert PatternsOf(n) == PatternsOf(rs.rules[i]);
    }
    forall i | 0 <= i < |rs.rules| ensures NormalRule(NormalRule(rs.rules[i])) == NormalRule(rs.rules[i]) {
      NormalIsIdempotent(rs.rules[i]);
    }
  }

  lemma NormalIsIdempotent(r: Rule)
    ensures NormalRule(NormalRule(r)) == NormalRule(r)
  {
    forall i | 0 <= i < |r.methods| ensures Upper(Upper(r.methods[i])) == Upper(r.methods[i]) {
      CaseIsIdempotent(r.methods[i]);
    }
    forall i | 0 <= i < |r.commandTypes| ensures Lower(Lower(r.commandTypes[i])) == Lower(r.commandTypes[i]) {
      CaseIsIdempotent(r.commandTypes[i]);
    }
    assert UpperAll(UpperAll(r.methods)) == UpperAll(r.methods);
    assert LowerAll(LowerAll(r.commandTypes)) == LowerAll(r.commandTypes);
  }

  // ---------- What a loaded ruleset decides ----------

  /** The same engine, with no pattern that fails to compile. */
  function Compiling(e: Engine): Engine { e.(compiles := (pattern: string) => true) }

  /** The decision of a loaded ruleset is an action, and no branch for a pattern that does not compile
      has a part in it. */
  lemma LoadedDecisions(e: Engine, rs: Ruleset, q: Request)
    requires Accepted(e, rs)
    ensures Decide(e, rs, q).action in {ALLOW, DENY, FILTER}
    ensures Decide(Compiling(e), rs, q) == Decide(e, rs, q)
  {
    var k := FirstMatch(e, rs.rules, q);
    assert k < |rs.rules| ==> rs.rules[k] in rs.rules;
    forall i | 0 <= i < |rs.rules| ensures Applies(Compiling(e), rs.rules[i], q) == Applies(e, rs.rules[i], q) {
      assert rs.rules[i] in rs.rules;
      AppliesWithoutFailures(e, rs.rules[i], q);
    }
    FirstMatchIsUnique(Compiling(e), rs.rules, q, k);
  }

  lemma SameMatches(e: Engine, s: string, patterns: seq<string>)
    requires forall p | p in patterns :: e.compiles(p)
    ensures MatchesAny(Compiling(e), s, patterns) == MatchesAny(e, s, patterns)
  {
    forall p | p in patterns ensures Hits(Compiling(e), s, p) == Hits(e, s, p) {
    }
  }

  lemma SameViolations(e: Engine, cc: ContainerRule, r: CreateRequest, uri: string)
    requires forall p | p in cc.mounts + cc.images + cc.names :: e.compiles(p)
    ensures Violated(Compiling(e), cc, r, uri) == Violated(e, cc, r, uri)
    ensures MountsViolated(Compiling(e), cc, r) == MountsViolated(e, cc, r)
  {
    forall s ensures MatchesAny(Compiling(e), s, cc.mounts) == MatchesAny(e, s, cc.mounts) {
      SameMatches(e, s, cc.mounts);
    }
    SameMatches(e, Image(r), cc.images);
    SameMatches(e, NameOf(e, uri), cc.names);
  }

  lemma AppliesWithoutFailures(e: Engine, r: Rule, q: Request)
    requires RuleAccepted(e, r)
    ensures Applies(Compiling(e), r, q) == Applies(e, r, q)
  {
    assert Gate(Compiling(e), r, q) == Gate(e, r, q);
    if r.container.Some? {
      var cc := r.container.value;
      assert forall p | p in cc.mounts + cc.images + cc.names :: p in PatternsOf(r);
      SameViolations(e, cc, CreateRequestOf(e, q), q.uri);
    }
    if r.exec.Some? {
      assert forall p | p in r.exec.value.commands + r.exec.value.containers :: p in PatternsOf(r);
      SameMatches(e, Join(CommandOf(e, q), ' '), r.exec.value.commands);
      SameMatches(e, ContainerName(q.uri), r.exec.value.containers);
    }
  }

  // ---------- The loader as it runs ----------

  /** A rule whose methods and command types are rewritten; `rest` holds its other fields. */
  class SemanticRule {
    const rest: Rule
    var methods: seq<string>
    var commandTypes: seq<string>

    constructor (r: Rule)
      ensures Value() == r
    {
      rest, methods, commandTypes := r, r.methods, r.commandTypes;
    }

    function Value(): Rule
      reads this
    {
      rest.(methods := methods, commandTypes := commandTypes)
    }

    /** Upper-cases the methods and lower-cases the command types, one slot at a time. */
    method Normalise()
      modifies this
      ensures Value() == NormalRule(old(Value()))
    {
      for j := 0 to |methods|
        modifies `methods
        invariant |methods| == |old(methods)|
        invariant forall k | 0 <= k < |methods| ::
            methods[k] == if k < j then Upper(old(methods)[k]) else old(methods)[k]
      {
        methods := methods[j := Upper(methods[j])];
      }
      for j := 0 to |commandTypes|
        modifies `commandTypes
        invariant |commandTypes| == |old(commandTypes)|
        invariant forall k | 0 <= k < |commandTypes| ::
            commandTypes[k] == if k < j then Lower(old(commandTypes)[k]) else old(commandTypes)[k]
      {
        commandTypes := commandTypes[j := Lower(commandTypes[j])];
      }
      assert methods == UpperAll(old(methods)) && commandTypes == LowerAll(old(commandTypes));
    }

    method Validate(e: Engine) returns (err: Option<LoadError>)
      ensures err == RuleProblem(e, Value())
    {
      if rest.pathPattern != "" && !e.compiles(rest.pathPattern) {
        return Some(InvalidPath(rest.id));
      }
      if rest.bodyPattern != "" && !e.compiles(rest.bodyPattern) {
        return Some(InvalidBody(rest.id));
      }
      if rest.action != ALLOW && rest.action != DENY && rest.action != FILTER {
        return Some(InvalidAction(rest.id));
      }
      err := ValidatePatterns(e, rest);
    }
  }

  method ValidateRegexSlice(e: Engine, id: string, patterns: seq<string>) returns (err: Option<LoadError>)
    ensures err == FirstBad(e, id, patterns)
  {
    for i := 0 to |patterns|
      invariant FirstBad(e, id, patterns) == FirstBad(e, id, patterns[i..])
    {
      if !e.compiles(patterns[i]) {
        return Some(InvalidPattern(id, patterns[i]));
      }
      assert patterns[i..][1..] == patterns[i + 1..];
    }
    return None;
  }

  method ValidatePatterns(e: Engine, r: Rule) returns (err: Option<LoadError>)
    ensures err == PatternProblem(e, r)
  {
    if r.container.Some? {
      var cc := r.container.value;
      err := ValidateRegexSlice(e, r.id, cc.mounts);
      if err.Some? {
        return;
      }
      err := ValidateRegexSlice(e, r.id, cc.images);
      if err.Some? {
        return;
      }
      err := ValidateRegexSlice(e, r.id, cc.names);
      if err.Some? {
        return;
      }
    }
    if r.exec.Some? {
      var ec := r.exec.value;
      err := ValidateRegexSlice(e, r.id, ec.commands);
      if err.Some? {
        return;
      }
      err := ValidateRegexSlice(e, r.id, ec.containers);
      if err.Some? {
        return;
      }
    }
    if r.filter.Some? {
      err := ValidateRegexSlice(e, r.id, r.filter.value.names);
      return;
    }
    return None;
  }

  /** What the YAML decoder made of the file. */
  class RulesetFile {
    const version: string
    var defaultAction: string
    const rules: seq<SemanticRule>

    ghost predicate Valid() { forall i, j | 0 <= i < j < |rules| :: rules[i] != rules[j] }

    constructor (version: string, defaultAction: string, rules: seq<SemanticRule>)
      ensures this.version == version && this.defaultAction == defaultAction && this.rules == rules
    {
      this.version, this.defaultAction, this.rules := version, defaultAction, rules;
    }

    function Rules(): (rs: seq<Rule>)
      reads rules
      ensures |rs| == |rules| && forall i | 0 <= i < |rs| :: rs[i] == rules[i].Value()
    {
      seq(|rules|, i requires 0 <= i < |rules| reads rules => rules[i].Value())
    }

    function Value(): Ruleset
      reads this, rules
    {
      Ruleset(version, defaultAction, Rules())
    }

    /** Defaults, rewrites and checks; a file without a problem is left in its normal form. */
    method Load(e: Engine) returns (err: Option<LoadError>)
      requires Valid()
      modifies this`defaultAction, rules
      ensures err == Problem(e, old(Value()))
      ensures err == None ==> Value() == Normal(old(Value()))
    {
      if defaultAction == "" {
        defaultAction := ALLOW;
      }
      if defaultAction != ALLOW && defaultAction != DENY {
        return Some(InvalidDefault);
      }
      err := LoadRules(e);
      assert err == None ==> Rules() == NormalRules(old(Rules()));
    }

    method LoadRules(e: Engine) returns (err: Option<LoadError>)
      requires Valid()
      modifies rules
      ensures err == FirstProblem(e, old(Rules()))
      ensures err == None ==> Rules() == NormalRules(old(Rules()))
    {
      ghost var before := Rules();
      for i := 0 to |rules|
        invariant forall k | 0 <= k < |rules| :: rules[k].Value() == if k < i then NormalRule(before[k]) else before[k]
        invariant FirstProblem(e, before) == FirstProblem(e, before[i..])
      {
        rules[i].Normalise();
        err := rules[i].Validate(e);
        assert rules[i].Value() == NormalRule(before[i]);
        ProblemIgnoresCase(e, before[i]);
        if err.Some? {
          return;
        }
        assert before[i..][1..] == before[i + 1..];
      }
      err := None;
    }
  }

  lemma ProblemIgnoresCase(e: Engine, r: Rule)
    ensures RuleProblem(e, NormalRule(r)) == RuleProblem(e, r)
  {
  }
}
