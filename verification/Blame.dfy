/** Who is blamed and what is applied, case by case, from what the renderer and
    the validator say of explicit configs. */
module Blame {
  import opened Base
  import opened Verdicts
  import opened Decide

  // ---- What a check of one config says ----

  /** The edition the config of input runs as. */
  function RunsAs(input: RenderInput): Edition {
    if input.gateway.edition == EE && !input.ceFallback then EE else CE
  }

  ghost predicate Accepts(env: Env, input: RenderInput, mode: Mode) {
    env.render(input).Some? && env.validate(env.render(input).value.json, RunsAs(input), mode).None?
  }

  /** The validator rejects the config of input, and shows output, cut to what
      is stored. */
  ghost predicate Rejects(env: Env, input: RenderInput, mode: Mode, output: Text) {
    && env.render(input).Some?
    && var rejection := env.validate(env.render(input).value.json, RunsAs(input), mode);
       rejection.Some? && output == TruncateEllipsis(rejection.value.output, 16 * 1024)
  }

  lemma LintSays(env: Env, input: RenderInput)
    ensures Accepts(env, input, Lint) <==> PassesLint(env, input)
    ensures forall o :: Rejects(env, input, Lint, o) <==>
      FailsLint(env, input) && LintOf(env, input).value.output == o
  {}

  // ---- One endpoint ----

  /** policy and nothing else of the user's: the only backend of the only
      endpoint of a Community gateway. */
  function Alone(policy: Policy): RenderInput {
    var n := Name(policy.name.namespace, "policy-lint");
    RenderInput(Gateway(n, CE, ""), [Endpoint(n, [policy.name], "policy-lint")], map[policy.name := policy],
      false, None)
  }

  /** The gateway root with the endpoint of u and policies. */
  function With(u: Unit, policies: Policies): RenderInput {
    RenderInput(u.gateway, [u.endpoint], policies, u.ceFallback, u.dragonfly)
  }

  predicate IsForeign(u: Unit, key: Name) {
    key in u.endpoint.policyKeys && key.namespace != u.endpoint.name.namespace
  }

  /** The policies of u with no content in those of other namespaces. */
  function OwnContent(u: Unit): Policies {
    map k | k in u.policies :: if IsForeign(u, k) then Policy(u.policies[k].name, "") else u.policies[k]
  }

  /** The policy key of u is rejected on its own. */
  ghost predicate PolicyFails(env: Env, u: Unit, key: Name) {
    key in u.policies && exists o :: Rejects(env, Alone(u.policies[key]), Lint, o)
  }

  /** The policies that some key of u's endpoint makes fail. */
  ghost predicate NamesFailing(env: Env, u: Unit, names: seq<Name>) {
    forall p :: p in names <==>
      exists k :: k in u.endpoint.policyKeys && PolicyFails(env, u, k) && u.policies[k].name == p
  }

  /** The verdict on an endpoint whose policies all exist and pass alone. */
  ghost predicate OwnVerdict(env: Env, u: Unit, v: EndpointVerdict) {
    && (Accepts(env, With(u, u.policies), Lint) ==> v == Passes)
    && (forall o :: Rejects(env, With(u, u.policies), Lint, o) && (forall k :: !IsForeign(u, k)) ==>
          v == Fails(EndpointInvalid, [], false, o))
    && (forall o, k :: Rejects(env, With(u, u.policies), Lint, o) && IsForeign(u, k) ==>
          && (Accepts(env, With(u, OwnContent(u)), Lint) ==>
                && v.Fails? && v.reason == PolicyInvalid && !v.policiesFailAlone && v.output == []
                && forall p :: p in v.policies <==> IsForeign(u, p))
          && forall q :: Rejects(env, With(u, OwnContent(u)), Lint, q) ==> v == Fails(EndpointInvalid, [], false, q))
  }

  lemma PoliciesSay(env: Env, u: Unit)
    requires FreshPolicies(env, u.policies, u.endpoint.policyKeys).value.Some?
    ensures var r := FreshPolicies(env, u.policies, u.endpoint.policyKeys).value.value;
      && (r.Missing? <==> !AllPresent(u))
      && (r.Failing? ==> NamesFailing(env, u, r.policies))
  {
    hide FreshPolicies, Rejects;
    FailingAlone(env, u.policies, u.endpoint.policyKeys);
    forall k | k in u.policies
      ensures PolicyFails(env, u, k) <==> FailsLint(env, PolicyAlone(u.policies[k]))
    {
      LintSays(env, Alone(u.policies[k]));
      if FailsLint(env, PolicyAlone(u.policies[k])) {
        assert Rejects(env, Alone(u.policies[k]), Lint, LintOf(env, Alone(u.policies[k])).value.output);
      }
    }
    hide FailsLint, PolicyFails;
  }

  lemma EmptiedIsOwnContent(u: Unit)
    requires AllPresent(u)
    ensures Emptied(u.policies, Foreign(u)) == OwnContent(u)
    ensures forall k :: k in Foreign(u) <==> IsForeign(u, k)
  {}

  lemma UnitSays(env: Env, u: Unit)
    requires AllPresent(u) && FreshUnit(env, u).value.Some?
    ensures OwnVerdict(env, u, FreshUnit(env, u).value.value)
  {
    hide Rejects, Accepts, ForeignPolicies, Emptied, OwnContent, IsForeign;
    EmptiedIsOwnContent(u);
    LintSays(env, With(u, u.policies));
    LintSays(env, With(u, OwnContent(u)));
    assert UnitInput(u, u.policies) == With(u, u.policies);
    assert UnitInput(u, Emptied(u.policies, Foreign(u))) == With(u, OwnContent(u));
    if Foreign(u) != [] { assert Foreign(u)[0] in Foreign(u); }
  }

  /** The verdict on an endpoint, whenever there is one. A missing policy ends
      the check without blame. Otherwise each policy that fails alone is named,
      and only when none does is the endpoint itself looked at. */
  lemma EndpointByCase(env: Env, u: Unit)
    requires FreshEndpoint(env, u).value.Some?
    ensures var v := FreshEndpoint(env, u).value.value;
      && (!AllPresent(u) ==> v == Passes)
      && (AllPresent(u) && (exists k :: k in u.endpoint.policyKeys && PolicyFails(env, u, k)) ==>
            && v.Fails? && v.reason == PolicyInvalid && v.policiesFailAlone && v.output == []
            && v.policies != [] && NamesFailing(env, u, v.policies))
      && (AllPresent(u) && (forall k :: k in u.endpoint.policyKeys ==> !PolicyFails(env, u, k)) ==>
            OwnVerdict(env, u, v))
  {
    hide FreshUnit, OwnVerdict, PolicyFails, FreshPolicies;
    PoliciesSay(env, u);
    if FreshPolicies(env, u.policies, u.endpoint.policyKeys).value.value.Failing? {
      if FreshUnit(env, u).value.Some? { UnitSays(env, u); }
      NobodyNamed(env, u, FreshPolicies(env, u.policies, u.endpoint.policyKeys).value.value.policies);
    }
  }

  lemma NobodyNamed(env: Env, u: Unit, names: seq<Name>)
    requires NamesFailing(env, u, names)
    ensures names == [] <==> forall k :: k in u.endpoint.policyKeys ==> !PolicyFails(env, u, k)
  {
    hide Rejects;
    if names != [] { assert names[0] in names; }
    forall k | k in u.endpoint.policyKeys && PolicyFails(env, u, k) ensures u.policies[k].name in names {}
  }

  // ---- The gateway ----

  /** e fails on its own, on the gateway of x, with v. */
  ghost predicate FailsOnItsOwn(env: Env, x: Inputs, e: Endpoint, v: EndpointVerdict) {
    && v.Fails?
    && FreshEndpoint(env, Unit(x.input.gateway, e, x.input.policies, x.input.ceFallback, x.input.dragonfly)).value
         == Some(v)
  }

  /** excluded are exactly the endpoints of eps that fail on their own, by
      name, each with why. */
  ghost predicate AreThoseThatFail(env: Env, x: Inputs, eps: seq<Endpoint>, excluded: Excluded) {
    && (forall e, v :: e in eps && FailsOnItsOwn(env, x, e, v) ==> e.name in excluded)
    && (forall n :: n in excluded ==> exists e :: e in eps && e.name == n && FailsOnItsOwn(env, x, e, excluded[n]))
  }

  lemma {:induction false} JudgedAreThoseThatFail(env: Env, x: Inputs, eps: seq<Endpoint>)
    requires FreshJudge(env, x, eps).value.Some?
    ensures AreThoseThatFail(env, x, eps, FreshJudge(env, x, eps).value.value)
  {
    hide FreshEndpoint;
    if eps != [] {
      var front, e := eps[..|eps| - 1], eps[|eps| - 1];
      JudgedAreThoseThatFail(env, x, front);
      assert eps == front + [e] && e in eps;
      assert forall f :: f in front ==> f in eps;
      hide FailsOnItsOwn;
      assert forall v :: FailsOnItsOwn(env, x, e, v) <==>
        v.Fails? && FreshEndpoint(env, x.UnitOf(e)).value == Some(v) by { OwnUnit(env, x, e); }
    }
  }

  lemma OwnUnit(env: Env, x: Inputs, e: Endpoint)
    ensures forall v :: FailsOnItsOwn(env, x, e, v) <==>
      v.Fails? && FreshEndpoint(env, x.UnitOf(e)).value == Some(v)
  {
    hide FreshEndpoint;
  }

  /** The gateway with nothing on it. */
  function RootOf(x: Inputs): RenderInput {
    RenderInput(x.input.gateway, [], map[], x.input.ceFallback, x.input.dragonfly)
  }

  /** A render is the applied config when it has the recorded checksum and runs
      as the recorded edition. A status that records none is taken at the word
      of its image: only the image of the other edition speaks against it. */
  lemma AppliedByCase(env: Env, x: Inputs, out: Rendered)
    ensures var gw, active := x.input.gateway, x.status.activeImage;
      var byImage := gw.edition == EE && env.image(gw, false) != env.image(gw, true);
      x.Applied(env, out) <==>
        && out.checksum == x.status.checksum
        && (x.status.edition.Some? ==> x.status.edition.value == RunsAs(x.input))
        && (x.status.edition.None? && byImage && active == env.image(gw, false) ==> RunsAs(x.input) == EE)
        && (x.status.edition.None? && byImage && active == env.image(gw, true) ==> RunsAs(x.input) == CE)
  {}

  /** The newest render is the applied config, and no endpoint it masks fails
      on its own. */
  ghost predicate StaysApplied(env: Env, x: Inputs) {
    && x.Applied(env, x.full)
    && forall e, v :: e in x.input.endpoints && e.name in x.full.masked ==> !FailsOnItsOwn(env, x, e, v)
  }

  predicate AcceptsConfig(env: Env, x: Inputs, json: string) {
    env.validate(json, RunsAs(x.input), Validate).None?
  }

  /** The endpoints the newest render does not vouch for: all when it is
      rejected, else those it masks. */
  ghost predicate AreSuspects(env: Env, x: Inputs, eps: seq<Endpoint>) {
    forall e :: e in eps <==>
      e in x.input.endpoints && (!AcceptsConfig(env, x, x.full.json) || e.name in x.full.masked)
  }

  /** d once the root passes: nobody fails, or everyone who does is left out of
      the config. */
  ghost predicate DecidesWith(env: Env, x: Inputs, excluded: Excluded, d: Decision) {
    if excluded == map[] then
      d == if AcceptsConfig(env, x, x.full.json) then Apply(x.full, map[])
        else Refuse(CombinedConfigInvalid, map[], true)
    else
      exists eps: seq<Endpoint> ::
        && (forall e :: e in eps <==> e in x.input.endpoints && e.name !in excluded)
        && env.render(x.input.(endpoints := eps)).Some?
        && var out := env.render(x.input.(endpoints := eps)).value;
           d == if x.Applied(env, out) || AcceptsConfig(env, x, out.json) then Apply(out, excluded)
                else Refuse(CombinedConfigInvalid, excluded, true)
  }

  /** The decision, whenever there is one. What is applied stays while nothing
      it masks fails. Otherwise a root that fails alone is refused, blaming
      nobody, whatever else fails; and past a root that passes, exactly the
      endpoints that are not vouched for and fail on their own are left out. */
  lemma DecisionByCase(env: Env, x: Inputs)
    requires FreshDecide(env, x).value.Some?
    ensures var d := FreshDecide(env, x).value.value;
      && (StaysApplied(env, x) ==> d == Apply(x.full, map[]))
      && (!StaysApplied(env, x) ==>
            && (forall o :: Rejects(env, RootOf(x), Lint, o) ==> d == Refuse(GatewayRootInvalid(o), map[], false))
            && (Accepts(env, RootOf(x), Lint) ==> exists suspects, excluded ::
                  && AreSuspects(env, x, suspects) && AreThoseThatFail(env, x, suspects, excluded)
                  && DecidesWith(env, x, excluded, d))
            && (Accepts(env, RootOf(x), Lint) || exists o :: Rejects(env, RootOf(x), Lint, o)))
  {
    hide FreshEndpoint, FreshJudge, FreshWhole, IsApplied, AreThoseThatFail, FailsOnItsOwn, Rejects, Accepts,
         DecidesWith, AreSuspects;
    LintSays(env, RootOf(x));
    var masked := Masked(x);
    if x.Applied(env, x.full) && FreshJudge(env, x, masked).value.Some? {
      JudgedAreThoseThatFail(env, x, masked);
      NobodyFails(env, x, masked, FreshJudge(env, x, masked).value.value);
    }
    if !StaysApplied(env, x) {
      RootFirst(env, x);
      if Accepts(env, RootOf(x), Lint) { WholeByCase(env, x); }
    }
  }

  lemma NobodyFails(env: Env, x: Inputs, masked: seq<Endpoint>, excluded: Excluded)
    requires AreThoseThatFail(env, x, masked, excluded)
    ensures excluded == map[] <==> forall e, v :: e in masked ==> !FailsOnItsOwn(env, x, e, v)
  {
    hide FailsOnItsOwn;
    if excluded != map[] {
      var n :| n in excluded;
      var e :| e in masked && e.name == n && FailsOnItsOwn(env, x, e, excluded[n]);
    }
  }

  /** Deciding anew starts with the root. */
  lemma RootFirst(env: Env, x: Inputs)
    requires FreshAnew(env, x).value.Some?
    ensures Accepts(env, RootOf(x), Lint) ==> FreshAnew(env, x).value == FreshWhole(env, x).value
    ensures forall o :: Rejects(env, RootOf(x), Lint, o) ==>
      FreshAnew(env, x).value == Some(Refuse(GatewayRootInvalid(o), map[], false))
    ensures Accepts(env, RootOf(x), Lint) || exists o :: Rejects(env, RootOf(x), Lint, o)
  {
    hide FreshWhole, Accepts, Rejects;
    LintSays(env, RootOf(x));
    var lint := LintOf(env, RootOf(x));
    if lint.Some? && !lint.value.ok { assert Rejects(env, RootOf(x), Lint, lint.value.output); }
  }

  lemma WholeByCase(env: Env, x: Inputs)
    requires FreshWhole(env, x).value.Some?
    ensures exists suspects, excluded ::
      && AreSuspects(env, x, suspects) && AreThoseThatFail(env, x, suspects, excluded)
      && DecidesWith(env, x, excluded, FreshWhole(env, x).value.value)
  {
    hide FreshEndpoint, FreshJudge, IsApplied, AreThoseThatFail, FreshRest, DecidesWith;
    var whole := Judge(env, x.full.json, x.Edition(), Validate);
    var suspects := Suspects(x.input.endpoints, Verdict(whole, x.full.masked));
    assert AreSuspects(env, x, suspects);
    JudgedAreThoseThatFail(env, x, suspects);
    RestByCase(env, x, FreshJudge(env, x, suspects).value.value);
  }

  lemma RestByCase(env: Env, x: Inputs, excluded: Excluded)
    requires FreshRest(env, x, Judge(env, x.full.json, x.Edition(), Validate), excluded).value.Some?
    ensures DecidesWith(env, x, excluded,
      FreshRest(env, x, Judge(env, x.full.json, x.Edition(), Validate), excluded).value.value)
  {
    hide IsApplied;
    var eps := Without(x.input.endpoints, excluded.Keys);
    assert x.Rest(excluded) == x.input.(endpoints := eps);
  }

  // ---- When there is a verdict and a decision ----

  ghost predicate RendersAll(env: Env) {
    forall input :: env.render(input).Some?
  }

  lemma {:induction false} PoliciesAreJudged(env: Env, policies: Policies, keys: seq<Name>)
    requires RendersAll(env)
    ensures FreshPolicies(env, policies, keys).value.Some?
  {
    if keys != [] { PoliciesAreJudged(env, policies, keys[..|keys| - 1]); }
  }

  lemma {:induction false} EndpointsAreJudged(env: Env, x: Inputs, eps: seq<Endpoint>)
    requires RendersAll(env)
    ensures FreshJudge(env, x, eps).value.Some?
  {
    if eps != [] {
      EndpointsAreJudged(env, x, eps[..|eps| - 1]);
      var u := x.UnitOf(eps[|eps| - 1]);
      PoliciesAreJudged(env, u.policies, u.endpoint.policyKeys);
    }
  }

  /** Only a render that fails keeps a gateway from being decided. */
  lemma EveryGatewayIsDecided(env: Env, x: Inputs)
    requires RendersAll(env)
    ensures FreshDecide(env, x).value.Some?
  {
    hide FreshJudge, Judge, IsApplied, FreshEndpoint;
    EndpointsAreJudged(env, x, Masked(x));
    EndpointsAreJudged(env, x, Suspects(x.input.endpoints,
      Verdict(Judge(env, x.full.json, x.Edition(), Validate), x.full.masked)));
  }
}
