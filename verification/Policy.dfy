/** The YAML RBAC policy engine and the data-plane authorization built on it. */
module Policy {
  import opened Claims
  import opened Text
  import opened Wrappers

  datatype Plane = Control | Data

  datatype ResourceKind = AdapterResource | ToolResource | GatewayResource

  datatype DefaultDecision = Allow | Deny

  datatype Rule = Rule(
    plane: Option<Plane>,
    action: string,
    target: Option<string>,
    targetTags: seq<string>,
    allowRoles: seq<string>
  )

  datatype RbacPolicy = RbacPolicy(default: DefaultDecision, rules: seq<Rule>, source: string)

  datatype PolicyInput = PolicyInput(
    user: UserContext,
    plane: Plane,
    action: string,
    tool: Option<string>,
    kind: ResourceKind,
    name: string,
    tags: seq<string>,
    requiredRoles: seq<string>
  )

  datatype Decision = Decision(allow: bool, reason: Option<string>, policyId: Option<string>)

  function ActionGlobMatches(pattern: string, action: string): bool {
    if pattern == "*" || pattern == action then true
    else if EndsWith(pattern, ".*") then
      var prefix := pattern[..|pattern| - 2];
      action == prefix || StartsWith(action, prefix + ".")
    else if EndsWith(pattern, "*") then StartsWith(action, pattern[..|pattern| - 1])
    else false
  }

  predicate RuleMatches(rule: Rule, input: PolicyInput) {
    && (rule.plane.Some? ==> rule.plane.value == input.plane)
    && ActionGlobMatches(rule.action, input.action)
    && (rule.target.Some? ==> rule.target.value == input.name)
    && forall tag :: tag in rule.targetTags ==> tag in input.tags
  }

  predicate RolesAllowed(rule: Rule, input: PolicyInput) {
    exists r :: r in rule.allowRoles && (r == "*" || r in input.user.roles)
  }

  predicate Admits(rule: Rule, input: PolicyInput) {
    RuleMatches(rule, input) && RolesAllowed(rule, input)
  }

  /** The rule loop: the first admitting rule decides, then the default. */
  function DecideBy(rules: seq<Rule>, p: RbacPolicy, input: PolicyInput): Decision {
    if rules == [] then
      match p.default
      case Allow => Decision(true, Some("default-allow"), Some("yaml-rbac:" + p.source))
      case Deny => Decision(false, Some("default-deny"), Some("yaml-rbac:" + p.source))
    else if Admits(rules[0], input) then
      Decision(true, Some("rule:" + rules[0].action), Some("yaml-rbac:" + p.source))
    else DecideBy(rules[1..], p, input)
  }

  function Decide(p: RbacPolicy, input: PolicyInput): Decision {
    DecideBy(p.rules, p, input)
  }

  lemma {:induction false} DecideByMeaning(rules: seq<Rule>, p: RbacPolicy, input: PolicyInput)
    ensures DecideBy(rules, p, input).allow
       <==> p.default.Allow? || exists rule :: rule in rules && Admits(rule, input)
  {
    if rules != [] {
      DecideByMeaning(rules[1..], p, input);
      assert rules == [rules[0]] + rules[1..];
    }
  }

  /** An allow names its reason: the first admitting rule, or the default when
      there is none; and every decision carries the policy's identity. */
  lemma {:induction false} FirstRuleExplains(rules: seq<Rule>, p: RbacPolicy, input: PolicyInput, i: nat)
    requires i <= |rules| && forall j :: 0 <= j < i ==> !Admits(rules[j], input)
    ensures DecideBy(rules, p, input).policyId == Some("yaml-rbac:" + p.source)
    ensures i < |rules| && Admits(rules[i], input) ==>
      DecideBy(rules, p, input).reason == Some("rule:" + rules[i].action)
    ensures i == |rules| ==>
      DecideBy(rules, p, input).reason == Some(if p.default.Allow? then "default-allow" else "default-deny")
  {
    hide Admits;
    if i > 0 {
      FirstRuleExplains(rules[1..], p, input, i - 1);
    } else if rules != [] && !Admits(rules[0], input) {
      FirstRuleExplains(rules[1..], p, input, 0);
    }
  }

  /** The allow bit depends on the rules only as a set. */
  lemma RuleOrderFree(p: RbacPolicy, p': RbacPolicy, input: PolicyInput)
    requires p.default == p'.default
    requires forall rule :: rule in p.rules <==> rule in p'.rules
    ensures Decide(p, input).allow == Decide(p', input).allow
  {
    DecideByMeaning(p.rules, p, input);
    DecideByMeaning(p'.rules, p', input);
  }

  /** `i'` asks for the same thing with at least the roles and tags of `i`. */
  ghost predicate Extends(i: PolicyInput, i': PolicyInput) {
    && i'.plane == i.plane && i'.action == i.action && i'.name == i.name
    && (forall r :: r in i.user.roles ==> r in i'.user.roles)
    && (forall t :: t in i.tags ==> t in i'.tags)
  }

  /** `p'` has at least the rules of `p` and no stricter default. */
  ghost predicate Loosens(p: RbacPolicy, p': RbacPolicy) {
    && (forall rule :: rule in p.rules ==> rule in p'.rules)
    && (p.default.Allow? ==> p'.default.Allow?)
  }

  /** Adding roles, tags or rules never turns allow into deny. */
  lemma DecisionMonotone(p: RbacPolicy, p': RbacPolicy, i: PolicyInput, i': PolicyInput)
    requires Extends(i, i') && Loosens(p, p')
    requires Decide(p, i).allow
    ensures Decide(p', i').allow
  {
    DecideByMeaning(p.rules, p, i);
    DecideByMeaning(p'.rules, p', i');
    if !p.default.Allow? {
      var rule :| rule in p.rules && Admits(rule, i);
      assert Admits(rule, i');
    }
  }

  predicate RequiredRolesSatisfied(required: seq<string>, userRoles: seq<string>) {
    required == [] || exists r :: r in required && r in userRoles
  }

  /** The engine's decision and the resource's own role list must both agree. */
  function AuthorizeDataPlane(p: RbacPolicy, user: UserContext, m: string, tool: Option<string>,
                              kind: ResourceKind, name: string, tags: seq<string>, required: seq<string>)
    : Result<Option<string>, string>
  {
    var decision := Decide(p, PolicyInput(user, Data, m, tool, kind, name, tags, required));
    if !decision.allow then Err(decision.reason.GetOr("forbidden"))
    else if !RequiredRolesSatisfied(required, user.roles) then Err("required_roles")
    else Ok(decision.policyId)
  }

  /** End to end: more roles, more tags, more rules, or more alternatives in a
      role list that already restricts, never lock a caller out. */
  lemma DataPlaneMonotone(p: RbacPolicy, p': RbacPolicy, user: UserContext, user': UserContext,
                          m: string, tool: Option<string>, kind: ResourceKind, name: string,
                          tags: seq<string>, tags': seq<string>, required: seq<string>, required': seq<string>)
    requires Loosens(p, p')
    requires forall r :: r in user.roles ==> r in user'.roles
    requires forall t :: t in tags ==> t in tags'
    requires required' == [] || (required != [] && forall r :: r in required ==> r in required')
    requires AuthorizeDataPlane(p, user, m, tool, kind, name, tags, required).Ok?
    ensures AuthorizeDataPlane(p', user', m, tool, kind, name, tags', required').Ok?
  {
    DecisionMonotone(p, p', PolicyInput(user, Data, m, tool, kind, name, tags, required),
                     PolicyInput(user', Data, m, tool, kind, name, tags', required'));
  }

  /** A caller whose token lists roles under the same claim paths in another
      order, or twice, gets the same decisions. */
  lemma ClaimPathOrderFree(p: RbacPolicy, user: UserContext, claims: Json, paths: seq<string>, paths': seq<string>,
                           i: PolicyInput)
    requires forall path :: path in paths <==> path in paths'
    ensures Decide(p, i.(user := user.(roles := Canonical(claims, paths))))
         == Decide(p, i.(user := user.(roles := Canonical(claims, paths'))))
  {
    CanonicalOrderFree(claims, paths, paths');
  }

  /** `p.*` matches an action exactly when the dotted segments of `p` begin the
      dotted segments of the action. */
  lemma DottedGlobIsSegmentPrefix(p: string, action: string)
    ensures ActionGlobMatches(p + ".*", action) <==> Split(p, '.') <= Split(action, '.')
  {
    DottedGlobUnfolds(p, action);
    if action == p || StartsWith(action, p + ".") {
      SegmentsOfExtension(p, action);
    }
    if Split(p, '.') <= Split(action, '.') {
      SegmentPrefixExtends(p, action);
    }
  }

  lemma DottedGlobUnfolds(p: string, action: string)
    ensures ActionGlobMatches(p + ".*", action) <==> action == p || StartsWith(action, p + ".")
  {
    var pattern := p + ".*";
    assert pattern[|p|] == '.' && pattern[|p| + 1] == '*';
    assert EndsWith(pattern, ".*") && pattern[..|pattern| - 2] == p;
    if pattern == action {
      assert p + "." == action[..|p| + 1];
    }
  }

  lemma SegmentsOfExtension(p: string, action: string)
    requires action == p || StartsWith(action, p + ".")
    ensures Split(p, '.') <= Split(action, '.')
  {
    if action != p {
      var rest := action[|p| + 1..];
      assert action == p + ("." + rest);
      SplitConcat(p, rest, '.');
    }
  }

  lemma SegmentPrefixExtends(p: string, action: string)
    requires Split(p, '.') <= Split(action, '.')
    ensures action == p || StartsWith(action, p + ".")
  {
    var a, b := Split(p, '.'), Split(action, '.');
    JoinSplit(p, '.');
    JoinSplit(action, '.');
    if |a| == |b| {
      assert a == b;
    } else {
      assert b == a + b[|a|..];
      JoinConcat(a, b[|a|..], '.');
    }
  }

  /** The other shapes of pattern: everything, a plain prefix, or the action
      itself. */
  lemma PlainGlobMeaning(pattern: string, action: string)
    requires !EndsWith(pattern, ".*")
    ensures ActionGlobMatches(pattern, action)
       <==> if EndsWith(pattern, "*") then StartsWith(action, pattern[..|pattern| - 1]) else action == pattern
  {
    if EndsWith(pattern, "*") {
      assert pattern == pattern[..|pattern| - 1] + "*";
    } else {
      assert pattern != "*" by {
        assert "*"[|"*"| - 1..] == "*";
      }
    }
  }

  /** The actions a pattern covers: everything below a dotted prefix, everything
      with a plain prefix, or one action. */
  ghost predicate Covers(pattern: string, action: string) {
    if EndsWith(pattern, ".*") then Split(pattern[..|pattern| - 2], '.') <= Split(action, '.')
    else if EndsWith(pattern, "*") then pattern[..|pattern| - 1] <= action
    else pattern == action
  }

  lemma GlobCovers(pattern: string, action: string)
    ensures ActionGlobMatches(pattern, action) <==> Covers(pattern, action)
  {
    if EndsWith(pattern, ".*") {
      var p := pattern[..|pattern| - 2];
      assert pattern == p + ".*";
      DottedGlobIsSegmentPrefix(p, action);
    } else {
      PlainGlobMeaning(pattern, action);
    }
  }

  /** What a rule grants, in its own fields: it is silent on the plane or names
      it, silent on the target or names it, every tag it asks for is there, its
      action pattern covers the action, and it lists one of the caller's roles or
      everyone. */
  ghost predicate Grants(rule: Rule, plane: Plane, action: string, name: string, tags: seq<string>,
                         roles: seq<string>)
  {
    && (rule.plane == None || rule.plane == Some(plane))
    && (rule.target == None || rule.target == Some(name))
    && (forall tag :: tag in rule.targetTags ==> tag in tags)
    && (exists role :: role in rule.allowRoles && (role == "*" || role in roles))
    && Covers(rule.action, action)
  }

  /** A policy permits by its default or through some rule. */
  ghost predicate Permits(p: RbacPolicy, plane: Plane, action: string, name: string, tags: seq<string>,
                          roles: seq<string>)
  {
    p.default.Allow? || exists rule :: rule in p.rules && Grants(rule, plane, action, name, tags, roles)
  }

  /** What decides, exactly. */
  lemma DecidePermits(p: RbacPolicy, i: PolicyInput)
    ensures Decide(p, i).allow <==> Permits(p, i.plane, i.action, i.name, i.tags, i.user.roles)
  {
    hide ActionGlobMatches, Covers;
    DecideByMeaning(p.rules, p, i);
    forall rule
      ensures Admits(rule, i) <==> Grants(rule, i.plane, i.action, i.name, i.tags, i.user.roles)
    {
      GlobCovers(rule.action, i.action);
    }
  }

  /** A denial is always the default's, and every decision carries the policy's
      identity. */
  lemma {:induction false} DecisionNames(rules: seq<Rule>, p: RbacPolicy, i: PolicyInput)
    ensures DecideBy(rules, p, i).policyId == Some("yaml-rbac:" + p.source)
    ensures !DecideBy(rules, p, i).allow ==> DecideBy(rules, p, i).reason == Some("default-deny")
  {
    hide Admits;
    if rules != [] {
      DecisionNames(rules[1..], p, i);
    }
  }

  /** A call on the data plane is cleared exactly when the policy permits it and
      the resource lists no roles, or one the caller has; otherwise it is refused
      by the policy first and for the roles second. */
  lemma DataPlaneExactly(p: RbacPolicy, user: UserContext, m: string, tool: Option<string>, kind: ResourceKind,
                         name: string, tags: seq<string>, required: seq<string>)
    ensures AuthorizeDataPlane(p, user, m, tool, kind, name, tags, required) ==
      if !Permits(p, Data, m, name, tags, user.roles) then Err("default-deny")
      else if required != [] && forall r :: r in required ==> r !in user.roles then Err("required_roles")
      else Ok(Some("yaml-rbac:" + p.source))
  {
    hide Permits, DecideBy;
    var input := PolicyInput(user, Data, m, tool, kind, name, tags, required);
    DecidePermits(p, input);
    DecisionNames(p.rules, p, input);
  }
}
