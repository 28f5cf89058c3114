/** Requests from end to end: which type a request has by how its URI is built, and what a ruleset with one
    rule decides about it, spelled out in terms of the request, the patterns and the regular expressions. */
module DockerRequests {
  import opened Options
  import opened Strings
  import opened DockerPolicy

  // ---------- The type of a request ----------

  /** The parts of a path, a slash before each. */
  function Slashed(parts: seq<string>): string {
    if parts == [] then "" else "/" + parts[0] + Slashed(parts[1..])
  }

  lemma {:induction false} SlashedIsJoin(parts: seq<string>)
    requires parts != []
    ensures Slashed(parts) == "/" + Join(parts, '/')
  {
    if |parts| > 1 {
      SlashedIsJoin(parts[1..]);
      assert Slashed(parts) == "/" + (parts[0] + "/" + Join(parts[1..], '/'));
    } else {
      assert Slashed(parts[1..]) == "";
      assert "/" + parts[0] + "" == "/" + parts[0];
    }
  }

  lemma PathOfUri(parts: seq<string>, query: string)
    requires parts != [] && Plain(parts)
    ensures PathOf(UriOf(parts, query)) == Slashed(parts)
  {
    JoinChars(parts, '?');
    SlashedIsJoin(parts);
    PathStopsAtQuery(Slashed(parts), query);
  }

  /** The last parts of a path. */
  predicate EndsIn(parts: seq<string>, tail: seq<string>) {
    |tail| <= |parts| && parts[|parts| - |tail|..] == tail
  }

  lemma {:induction false} SlashedApart(a: seq<string>, b: seq<string>)
    ensures Slashed(a + b) == Slashed(a) + Slashed(b)
  {
    if a == [] {
      assert a + b == b && "" + Slashed(b) == Slashed(b);
    } else {
      assert (a + b)[1..] == a[1..] + b;
      SlashedApart(a[1..], b);
      assert "/" + a[0] + (Slashed(a[1..]) + Slashed(b)) == "/" + a[0] + Slashed(a[1..]) + Slashed(b);
    }
  }

  lemma SlashedOnce(a: seq<string>, b: seq<string>)
    requires Plain(a) && Plain(b) && a != [] && b != [] && Slashed(a) == Slashed(b)
    ensures a == b
  {
    SlashedIsJoin(a);
    SlashedIsJoin(b);
    assert Slashed(a)[1..] == Join(a, '/') && Slashed(b)[1..] == Join(b, '/');
    SplitJoin(a, '/');
    SplitJoin(b, '/');
  }

  /** A path ends in the text of some parts exactly when they are its last parts. */
  lemma SuffixIsLastParts(parts: seq<string>, tail: seq<string>)
    requires Plain(parts) && Plain(tail) && parts != [] && tail != []
    ensures HasSuffix(Slashed(parts), Slashed(tail)) <==> EndsIn(parts, tail)
  {
    if EndsIn(parts, tail) {
      assert parts == parts[..|parts| - |tail|] + tail;
      SlashedApart(parts[..|parts| - |tail|], tail);
    }
    if HasSuffix(Slashed(parts), Slashed(tail)) {
      var front := Slashed(parts)[..|Slashed(parts)| - |Slashed(tail)|];
      assert Slashed(parts) == front + Slashed(tail);
      if front == "" {
        assert front + Slashed(tail) == Slashed(tail);
        SlashedOnce(parts, tail);
      } else {
        FrontIsSlashed(parts, front, tail);
        SlashedApart(FrontParts(front), tail);
        SlashedOnce(parts, FrontParts(front) + tail);
      }
    }
  }

  function FrontParts(front: string): seq<string>
    requires front != ""
  {
    Split(front[1..], '/')
  }

  lemma FrontIsSlashed(parts: seq<string>, front: string, tail: seq<string>)
    requires Plain(parts) && Plain(tail) && parts != [] && front != "" && Slashed(parts) == front + Slashed(tail)
    ensures Slashed(FrontParts(front)) == front && Plain(FrontParts(front) + tail)
  {
    var fs := FrontParts(front);
    SlashedIsJoin(parts);
    SlashedIsJoin(fs);
    JoinSplit(front[1..], '/');
    assert Slashed(parts)[0] == front[0] == '/';
    assert ['/'] + front[1..] == front;
    SplitHasNoSeparator(front[1..], '/');
    JoinChars(parts, '?');
    assert '?' !in front[1..] by {
      assert forall k | 0 <= k < |front| :: front[k] == Slashed(parts)[k];
    }
    forall k | 0 <= k < |fs| ensures '?' !in fs[k] {
      PartsOfText(front[1..], k, '?');
    }
  }

  lemma {:induction false} PartsOfText(s: string, k: nat, c: char)
    requires c !in s && k < |Split(s, '/')|
    ensures c !in Split(s, '/')[k]
  {
    if s != "" {
      var rest := Split(s[1..], '/');
      if s[0] == '/' {
        if k > 0 { PartsOfText(s[1..], k - 1, c); }
      } else {
        PartsOfText(s[1..], k, c);
      }
    }
  }

  /** A path has "/" and a word in it exactly when one of its parts starts with the word. */
  lemma {:induction false} ContainsIsPartStart(parts: seq<string>, word: string)
    requires Plain(parts) && '/' !in word && word != ""
    ensures Contains(Slashed(parts), "/" + word) <==> exists k | 0 <= k < |parts| :: word <= parts[k]
  {
    if parts != [] {
      var rest := Slashed(parts[1..]);
      ContainsIsPartStart(parts[1..], word);
      OccursInFirstOrRest(parts[0], rest, word);
      assert Slashed(parts) == "/" + parts[0] + rest;
      if k :| 0 <= k < |parts[1..]| && word <= parts[1..][k] {
        assert word <= parts[k + 1];
      }
      if k :| 0 <= k < |parts| && word <= parts[k] {
        assert k > 0 ==> word <= parts[1..][k - 1];
      }
    }
  }

  lemma OccursInFirstOrRest(part: string, rest: string, word: string)
    requires '/' !in part && '/' !in word && word != "" && (rest != "" ==> rest[0] == '/')
    ensures Contains("/" + part + rest, "/" + word) <==> word <= part || Contains(rest, "/" + word)
  {
    var s, sub := "/" + part + rest, "/" + word;
    if word <= part {
      assert s[0..|sub|] == sub;
      assert At(s, 0, sub);
    }
    if i :| 0 <= i <= |rest| && At(rest, i, sub) {
      assert s[1 + |part| + i..1 + |part| + i + |sub|] == rest[i..i + |sub|];
      assert At(s, 1 + |part| + i, sub);
    }
    forall k | 1 <= k <= |part| ensures s[k] != '/' {
      assert s[k] == part[k - 1];
    }
    if i :| 0 <= i <= |s| && At(s, i, sub) {
      assert s[i] == s[i..i + |sub|][0] == '/';
      if i == 0 {
        StartsInPart(part, rest, word);
      } else {
        assert i > |part|;
        var j := i - 1 - |part|;
        assert rest[j..j + |sub|] == s[i..i + |sub|];
        assert At(rest, j, sub);
      }
    }
  }

  lemma StartsInPart(part: string, rest: string, word: string)
    requires '/' !in word && (rest != "" ==> rest[0] == '/') && At("/" + part + rest, 0, "/" + word)
    ensures word <= part
  {
    var s, sub := "/" + part + rest, "/" + word;
    assert rest != "" ==> s[|part| + 1] == '/';
    assert |word| <= |s| - 1 == |part| + |rest|;
    forall k | 0 <= k < |word| ensures s[k + 1] == word[k] {
      assert s[0..|sub|][k + 1] == sub[k + 1];
    }
    assert |word| <= |part|;
    assert s[1..][..|word|] == word;
  }

  /** The type of every request, from its method and the parts of its path. */
  lemma CommandType(verb: string, parts: seq<string>, query: string)
    requires parts != [] && Plain(parts)
    ensures IdentifyCommandType(verb, UriOf(parts, query)) ==
            if EqualFold(verb, "POST") then
              if EndsIn(parts, ["containers", "create"]) then "create"
              else if EndsIn(parts, ["exec"]) then "exec"
              else if exists k | 0 <= k < |parts| :: "build" <= parts[k] then "build"
              else "other"
            else if EqualFold(verb, "GET") then
              if EndsIn(parts, ["containers", "json"]) || EndsIn(parts, ["images", "json"]) then "list"
              else "inspect"
            else if EqualFold(verb, "DELETE") then "delete"
            else "other"
  {
    PathOfUri(parts, query);
    Verbs(verb);
    Tails();
    SuffixIsLastParts(parts, ["containers", "create"]);
    SuffixIsLastParts(parts, ["exec"]);
    SuffixIsLastParts(parts, ["containers", "json"]);
    SuffixIsLastParts(parts, ["images", "json"]);
    ContainsIsPartStart(parts, "build");
    assert "/" + "build" == "/build";
  }

  lemma Verbs(verb: string)
    ensures Upper(verb) == "POST" <==> EqualFold(verb, "POST")
    ensures Upper(verb) == "GET" <==> EqualFold(verb, "GET")
    ensures Upper(verb) == "DELETE" <==> EqualFold(verb, "DELETE")
  {
    CaseForgets(verb, "POST");
    CaseForgets(verb, "GET");
    CaseForgets(verb, "DELETE");
    assert Upper("POST") == "POST" && Upper("GET") == "GET" && Upper("DELETE") == "DELETE";
  }

  lemma Tails()
    ensures Slashed(["containers", "create"]) == "/containers/create" && Slashed(["exec"]) == "/exec"
    ensures Slashed(["containers", "json"]) == "/containers/json" && Slashed(["images", "json"]) == "/images/json"
    ensures Plain(["containers", "create"]) && Plain(["exec"])
    ensures Plain(["containers", "json"]) && Plain(["images", "json"])
  {
    SlashedTwo("containers", "create");
    SlashedTwo("containers", "json");
    SlashedTwo("images", "json");
    assert Slashed(["exec"]) == "/" + "exec" + Slashed(["exec"][1..]);
  }

  lemma SlashedTwo(a: string, b: string)
    ensures Slashed([a, b]) == "/" + a + "/" + b
  {
    assert [a, b][1..] == [b] && [b][1..] == [];
    assert Slashed([b]) == "/" + b + "";
    assert "/" + a + ("/" + b) == "/" + a + "/" + b;
  }

  // ---------- Rulesets of one rule ----------

  /** A rule with nothing but an id and an action. */
  function Bare(id: string, action: string): Rule { Rule(id, action, "", [], "", "", [], None, None, None) }

  function Lone(r: Rule, default: string): Ruleset { Ruleset("", default, [r]) }

  lemma LoneDecides(e: Engine, r: Rule, default: string, q: Request)
    requires default != ""
    ensures Decide(e, Lone(r, default), q) == if Applies(e, r, q) then Outcome(r) else Decision(default, "", "default")
  {
    assert [r][0] == r && [r][1..] == [];
  }

  /** A deny rule without a message gets one with its id, a rule without an id a name. */
  lemma Messages(id: string, message: string, action: string)
    ensures var r := Bare(id, action).(message := message);
            && Outcome(r).action == action
            && Outcome(r).ruleId == (if id != "" then id else "anonymous-rule")
            && Outcome(r).message == if message != "" then message
                                     else if action == "deny" then "Request denied by policy rule: " + id else ""
  {
  }

  /** Without rules the default decides, and without a default requests are allowed. */
  lemma NoRules(e: Engine, default: string, q: Request)
    ensures Decide(e, Ruleset("", default, []), q) ==
            Decision(if default == "" then "allow" else default, "", "default")
  {
  }

  /** The matchers of a rule: methods and command types in any case, with * for every method; the path
      pattern on the whole URI, query and all; the body pattern on the body; and a pattern that does not
      compile matches nothing. */
  lemma LoneMatchers(e: Engine, r: Rule, default: string, q: Request)
    requires default != "" && r.container.None? && r.exec.None?
    ensures Decide(e, Lone(r, default), q) ==
            if && (r.methods == [] || exists m | m in r.methods :: m == "*" || EqualFold(m, q.verb))
               && (r.commandTypes == [] ||
                   exists c | c in r.commandTypes :: EqualFold(c, IdentifyCommandType(q.verb, q.uri)))
               && (r.pathPattern == "" || (e.compiles(r.pathPattern) && e.matches(r.pathPattern, q.uri)))
               && (r.bodyPattern == "" || (e.compiles(r.bodyPattern) && e.matches(r.bodyPattern, q.body)))
            then Outcome(r)
            else Decision(default, "", "default")
  {
    LoneDecides(e, r, default, q);
    MethodsFold(r, q);
    TypesFold(r, q);
  }

  lemma MethodsFold(r: Rule, q: Request)
    ensures MethodGate(r, q) <==>
            r.methods == [] || exists m | m in r.methods :: m == "*" || EqualFold(m, q.verb)
  {
    forall m: string ensures VerbMatches(m, q.verb) <==> m == "*" || EqualFold(m, q.verb) {
      CaseForgets(m, q.verb);
    }
    if m :| m in r.methods && (m == "*" || EqualFold(m, q.verb)) {
      assert VerbMatches(m, q.verb);
    }
  }

  lemma TypesFold(r: Rule, q: Request)
    ensures CommandGate(r, q) <==>
            r.commandTypes == [] ||
            exists c | c in r.commandTypes :: EqualFold(c, IdentifyCommandType(q.verb, q.uri))
  {
    var kind := IdentifyCommandType(q.verb, q.uri);
    KindIsLower(q.verb, q.uri);
    forall c: string ensures Lower(c) == kind <==> EqualFold(c, kind) {
      CaseForgets(c, kind);
    }
    if c :| c in r.commandTypes && EqualFold(c, kind) {
      assert Lower(c) == kind;
    }
  }

  lemma KindIsLower(verb: string, uri: string)
    ensures Lower(IdentifyCommandType(verb, uri)) == IdentifyCommandType(verb, uri)
  {
    assert Lower("create") == "create" && Lower("exec") == "exec" && Lower("build") == "build";
    assert Lower("list") == "list" && Lower("delete") == "delete";
    assert Lower("inspect") == "inspect" && Lower("other") == "other";
  }

  /** No pattern of a non-empty list compiles and matches. */
  ghost predicate NoneMatches(e: Engine, s: string, patterns: seq<string>) {
    patterns != [] && forall p | p in patterns :: !(e.compiles(p) && e.matches(p, s))
  }

  lemma NoneMatchesAny(e: Engine, s: string, patterns: seq<string>)
    ensures NoneMatches(e, s, patterns) <==> patterns != [] && !MatchesAny(e, s, patterns)
  {
    if p :| p in patterns && e.compiles(p) && e.matches(p, s) {
      assert Hits(e, s, p);
    }
  }

  /** An exec request for a container, behind any prefix, under a lone rule with exec lists: a deny rule
      denies exactly when the command, joined by spaces, or the container's name matches none of its list;
      the same rule as an allow rule allows exactly otherwise. */
  lemma ExecEndToEnd(e: Engine, verb: string, prefix: seq<string>, name: string, query: string, body: string,
                     ec: ExecRule, id: string, default: string)
    requires EqualFold(verb, "POST") && default != "" && Plain(prefix) && Plain([name])
    requires "containers" !in prefix && (prefix != [] ==> prefix[0] != "")
    ensures var q := Request(verb, UriOf(prefix + ["containers", name] + ["exec"], query), body);
            var command := if body == "" then "" else Join(e.execCommand(body), ' ');
            var violated := NoneMatches(e, command, ec.commands) || NoneMatches(e, name, ec.containers);
            && (Decide(e, Lone(Bare(id, DENY).(exec := Some(ec)), default), q) ==
                if violated then Outcome(Bare(id, DENY)) else Decision(default, "", "default"))
            && (Decide(e, Lone(Bare(id, ALLOW).(exec := Some(ec)), default), q) ==
                if violated then Decision(default, "", "default") else Outcome(Bare(id, ALLOW)))
  {
    var parts := prefix + ["containers", name] + ["exec"];
    var uri := UriOf(parts, query);
    ExecType(verb, prefix, name, query);
    ContainerNameIsRead(prefix, name, ["exec"], query);
    var q := Request(verb, uri, body);
    var command := Join(CommandOf(e, q), ' ');
    NoneMatchesAny(e, command, ec.commands);
    NoneMatchesAny(e, name, ec.containers);
    LoneDecides(e, Bare(id, DENY).(exec := Some(ec)), default, q);
    LoneDecides(e, Bare(id, ALLOW).(exec := Some(ec)), default, q);
  }

  lemma ExecType(verb: string, prefix: seq<string>, name: string, query: string)
    requires EqualFold(verb, "POST") && Plain(prefix) && Plain([name])
    ensures IdentifyCommandType(verb, UriOf(prefix + ["containers", name] + ["exec"], query)) == "exec"
  {
    var parts := prefix + ["containers", name] + ["exec"];
    assert [name][0] == name && Plain(parts);
    assert parts[|parts| - 1..] == ["exec"] && parts[|parts| - 1] == "exec";
    assert !EndsIn(parts, ["containers", "create"]) by {
      assert parts[|parts| - 2..][1] == "exec";
    }
    CommandType(verb, parts, query);
  }

  lemma CreateType(verb: string, prefix: seq<string>, query: string)
    requires EqualFold(verb, "POST") && Plain(prefix)
    ensures IdentifyCommandType(verb, UriOf(prefix + ["containers", "create"], query)) == "create"
  {
    var parts := prefix + ["containers", "create"];
    assert parts[|parts| - 2..] == ["containers", "create"];
    CommandType(verb, parts, query);
  }

  /** A create request under a lone rule with lists and no word on privilege. A deny rule denies exactly
      when the image, the name in the query, a bind, a mount or a port is none of its list; an allow rule
      asks the same of all but the mounts. An absent image or name counts as the empty one. */
  lemma CreateEndToEnd(e: Engine, verb: string, prefix: seq<string>, query: string, body: string,
                       cc: ContainerRule, id: string, default: string)
    requires EqualFold(verb, "POST") && default != "" && Plain(prefix) && cc.privileged.None?
    requires cc.images != [] || cc.names != [] || cc.mounts != [] || cc.ports != []
    ensures var q := Request(verb, UriOf(prefix + ["containers", "create"], query), body);
            var r := if body == "" then CreateRequest(None, None) else e.createRequest(body);
            var host := if r.host.Some? then r.host.value else HostConfig(false, [], [], {});
            var violated :=
              || NoneMatches(e, if r.image.Some? then r.image.value else "", cc.images)
              || NoneMatches(e, if e.nameInQuery(q.uri).Some? then e.nameInQuery(q.uri).value else "", cc.names)
              || (exists b | b in host.binds :: NoneMatches(e, b, cc.mounts))
              || (cc.ports != [] && exists p | p in host.ports :: p !in cc.ports);
            var mounted := exists m | m in host.mounts ::
              NoneMatches(e, m.source + ":" + m.target, cc.mounts) && NoneMatches(e, m.target, cc.mounts);
            && (Decide(e, Lone(Bare(id, DENY).(container := Some(cc)), default), q) ==
                if violated || mounted then Outcome(Bare(id, DENY)) else Decision(default, "", "default"))
            && (Decide(e, Lone(Bare(id, ALLOW).(container := Some(cc)), default), q) ==
                if violated then Decision(default, "", "default") else Outcome(Bare(id, ALLOW)))
  {
    var q := Request(verb, UriOf(prefix + ["containers", "create"], query), body);
    CreateType(verb, prefix, query);
    ViolationsSpelled(e, cc, CreateRequestOf(e, q), q.uri);
    MountsSpelled(e, cc, CreateRequestOf(e, q));
    LoneDecides(e, Bare(id, DENY).(container := Some(cc)), default, q);
    LoneDecides(e, Bare(id, ALLOW).(container := Some(cc)), default, q);
  }

  function HostOf(r: CreateRequest): HostConfig {
    if r.host.Some? then r.host.value else HostConfig(false, [], [], {})
  }

  lemma ViolationsSpelled(e: Engine, cc: ContainerRule, r: CreateRequest, uri: string)
    ensures Violated(e, cc, r, uri) <==>
            || NoneMatches(e, if r.image.Some? then r.image.value else "", cc.images)
            || NoneMatches(e, if e.nameInQuery(uri).Some? then e.nameInQuery(uri).value else "", cc.names)
            || (exists b | b in HostOf(r).binds :: NoneMatches(e, b, cc.mounts))
            || (cc.ports != [] && exists p | p in HostOf(r).ports :: p !in cc.ports)
  {
    NoneMatchesAny(e, Image(r), cc.images);
    NoneMatchesAny(e, NameOf(e, uri), cc.names);
    forall b: string ensures NoneMatches(e, b, cc.mounts) <==> cc.mounts != [] && !MatchesAny(e, b, cc.mounts) {
      NoneMatchesAny(e, b, cc.mounts);
    }
    if b :| b in HostOf(r).binds && NoneMatches(e, b, cc.mounts) {
      assert BindsViolated(e, cc, r);
    }
  }

  lemma MountsSpelled(e: Engine, cc: ContainerRule, r: CreateRequest)
    ensures MountsViolated(e, cc, r) <==>
            exists m | m in HostOf(r).mounts ::
              NoneMatches(e, m.source + ":" + m.target, cc.mounts) && NoneMatches(e, m.target, cc.mounts)
  {
    forall s: string ensures NoneMatches(e, s, cc.mounts) <==> cc.mounts != [] && !MatchesAny(e, s, cc.mounts) {
      NoneMatchesAny(e, s, cc.mounts);
    }
    if m :| m in HostOf(r).mounts && NoneMatches(e, m.source + ":" + m.target, cc.mounts)
            && NoneMatches(e, m.target, cc.mounts) {
      assert !MountMatches(e, m, cc.mounts);
    }
  }

  /** A rule that asks for privilege, or for none, and has no lists: it applies exactly to the create
      requests that are as it says; a request without a host configuration is not privileged. */
  lemma PrivilegeEndToEnd(e: Engine, verb: string, prefix: seq<string>, query: string, body: string,
                          privileged: bool, id: string, action: string, default: string)
    requires EqualFold(verb, "POST") && default != "" && Plain(prefix)
    ensures var q := Request(verb, UriOf(prefix + ["containers", "create"], query), body);
            var host := e.createRequest(body).host;
            var isPrivileged := body != "" && host.Some? && host.value.privileged;
            var part := ContainerRule(Some(privileged), [], [], [], []);
            Decide(e, Lone(Bare(id, action).(container := Some(part)), default), q)
            == if isPrivileged == privileged then Outcome(Bare(id, action)) else Decision(default, "", "default")
  {
    var q := Request(verb, UriOf(prefix + ["containers", "create"], query), body);
    CreateType(verb, prefix, query);
    LoneDecides(e, Bare(id, action).(container := Some(ContainerRule(Some(privileged), [], [], [], []))), default, q);
  }
}
