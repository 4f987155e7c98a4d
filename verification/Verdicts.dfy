/** What a config check judges, and what it says: independent of any memo, of
    which checks can run, and of the order in which they do. */
module Verdicts {

  import opened Base

  newtype byte = x: int | 0 <= x < 256
  type Text = seq<byte>

  // ---- Bounded output ----

  const MAX_STORED_OUTPUT: nat := 16 * 1024
  const ELLIPSIS: Text := [46, 46, 46]

  /** b starts a UTF-8 character: it is not a continuation byte. */
  predicate RuneStart(b: byte) {
    !(0x80 <= b < 0xC0)
  }

  /** cut is the last place at most limit where s can be cut between runes. */
  ghost predicate IsCut(s: Text, limit: nat, cut: nat)
    requires limit < |s|
  {
    && cut <= limit
    && (cut > 0 ==> RuneStart(s[cut]))
    && forall i :: cut < i <= limit ==> !RuneStart(s[i])
  }

  function CutAt(s: Text, limit: nat): (cut: nat)
    requires limit < |s|
    ensures IsCut(s, limit, cut)
  {
    if limit == 0 || RuneStart(s[limit]) then limit else CutAt(s, limit - 1)
  }

  lemma CutIsUnique(s: Text, limit: nat, a: nat, b: nat)
    requires limit < |s| && IsCut(s, limit, a) && IsCut(s, limit, b)
    ensures a == b
  {}

  function Truncate(s: Text, limit: nat): Text {
    if |s| <= limit then s else s[..CutAt(s, limit)]
  }

  function TruncateEllipsis(s: Text, limit: nat): (r: Text)
    ensures |r| <= limit
    ensures |ELLIPSIS| <= limit ==> (r == [] <==> s == [])
    ensures |s| <= limit ==> r == s
    ensures 3 <= limit < |s| ==> exists cut: nat :: IsCut(s, limit - 3, cut) && r == s[..cut] + [46, 46, 46]
  {
    if |s| <= limit then s
    else if limit < |ELLIPSIS| then Truncate(s, limit)
    else Truncate(s, limit - |ELLIPSIS|) + ELLIPSIS
  }

  method TruncateLoop(s: Text, limit: nat) returns (r: Text)
    ensures r == Truncate(s, limit)
  {
    if |s| <= limit { return s; }
    var cut := limit;
    while cut > 0 && !RuneStart(s[cut])
      invariant 0 <= cut <= limit
      invariant forall i :: cut < i <= limit ==> !RuneStart(s[i])
    {
      cut := cut - 1;
    }
    CutIsUnique(s, limit, cut, CutAt(s, limit));
    r := s[..cut];
  }

  // ---- Judgements ----

  datatype Edition = CE | EE
  datatype Mode = Lint | Validate
  datatype Stage = StageUnknown | StageEEWildcard | StageRoute | StageCheck
  datatype Rejection = Rejection(output: Text, stage: Stage)

  /** What a memo holds about a content: acceptance, or the bounded output and
      the stage of its rejection. */
  datatype Judgement = Judgement(ok: bool, output: Text, stage: Stage)

  function JudgementFor(rejection: Option<Rejection>): Judgement {
    match rejection
    case None => Judgement(true, [], StageUnknown)
    case Some(r) => Judgement(false, TruncateEllipsis(r.output, MAX_STORED_OUTPUT), r.stage)
  }

  /** A memo entry is trusted only when it is exactly one of an acceptance and
      a rejection. */
  predicate IsJudged(kept: Judgement) {
    kept.ok != (kept.output != [] || kept.stage != StageUnknown)
  }

  /** The one judgement that is never answered from a memo: a rejection with
      no output from an unknown check. */
  lemma UntrustedIffBlank(rejection: Option<Rejection>)
    ensures IsJudged(JudgementFor(rejection)) <==> rejection != Some(Rejection([], StageUnknown))
  {}

  // ---- Objects and renders ----

  datatype Gateway = Gateway(name: Name, edition: Edition, spec: string)

  /** policyKeys: each policy the endpoint references, once. */
  datatype Endpoint = Endpoint(name: Name, policyKeys: seq<Name>, spec: string)

  datatype Policy = Policy(name: Name, content: string)

  type Policies = map<Name, Policy>

  function EmptyPolicy(name: Name): Policy {
    Policy(name, "")
  }

  datatype RenderInput = RenderInput(
    gateway: Gateway,
    endpoints: seq<Endpoint>,
    policies: Policies,
    ceFallback: bool,
    dragonfly: Option<string>)

  /** masked: the endpoints that lost an entry in the render. */
  datatype Rendered = Rendered(json: string, checksum: string, masked: set<Name>)

  function EditionFor(gateway: Gateway, ceFallback: bool): Edition {
    if gateway.edition == EE && !ceFallback then EE else CE
  }

  /** The renderer (None: it fails), the validator (None: it accepts), the
      checksum and the image of a gateway, with or without the CE fallback. */
  datatype Env = Env(
    render: RenderInput -> Option<Rendered>,
    validate: (string, Edition, Mode) -> Option<Rejection>,
    hash: string -> string,
    image: (Gateway, bool) -> string)

  /** Different configs have different checksums, none of them empty, and a
      render carries its config's checksum. */
  ghost predicate Trusted(env: Env) {
    && (forall a, b :: env.hash(a) == env.hash(b) ==> a == b)
    && (forall a :: env.hash(a) != "")
    && (forall input :: env.render(input).Some? ==>
          env.render(input).value.checksum == env.hash(env.render(input).value.json))
  }

  function Judge(env: Env, json: string, edition: Edition, mode: Mode): Judgement {
    JudgementFor(env.validate(json, edition, mode))
  }

  /** The content a check judges. */
  datatype Key = Key(checksum: string, edition: Edition, mode: Mode)

  function KeyFor(out: Rendered, edition: Edition, mode: Mode): Key {
    Key(out.checksum, edition, mode)
  }

  /** The check of a group of endpoints, and those it did not judge. */
  datatype Verdict = Verdict(judgement: Judgement, masked: set<Name>)
  {
    predicate Suspect(name: Name) {
      !judgement.ok || name in masked
    }
  }

  /** A check's result (None: a render failed) and the contents it judges. */
  datatype Fresh<T> = Fresh(value: Option<T>, keys: set<Key>)

  function FreshLint(env: Env, input: RenderInput): Fresh<Verdict> {
    match env.render(input)
    case None => Fresh(None, {})
    case Some(out) =>
      var edition := EditionFor(input.gateway, input.ceFallback);
      Fresh(Some(Verdict(Judge(env, out.json, edition, Lint), out.masked)), {KeyFor(out, edition, Lint)})
  }

  // ---- One endpoint on its own ----

  datatype Reason = EndpointInvalid | PolicyInvalid

  datatype EndpointVerdict =
    | Passes
    | Fails(reason: Reason, policies: seq<Name>, policiesFailAlone: bool, output: Text)

  datatype Unit = Unit(
    gateway: Gateway, endpoint: Endpoint, policies: Policies, ceFallback: bool, dragonfly: Option<string>)

  const POLICY_LINT := "policy-lint"

  /** policy on its own: the only backend of a synthetic endpoint on a default
      CE gateway references it. */
  function PolicyAlone(policy: Policy): RenderInput {
    var name := Name(policy.name.namespace, POLICY_LINT);
    RenderInput(Gateway(name, CE, ""), [Endpoint(name, [policy.name], POLICY_LINT)], map[policy.name := policy],
      false, None)
  }

  function UnitInput(u: Unit, policies: Policies): RenderInput {
    RenderInput(u.gateway, [u.endpoint], policies, u.ceFallback, u.dragonfly)
  }

  function ForeignPolicies(namespace: string, keys: seq<Name>): (foreign: seq<Name>)
    ensures forall k :: k in foreign <==> k in keys && k.namespace != namespace
  {
    if keys == [] then []
    else (if keys[0].namespace != namespace then [keys[0]] else []) + ForeignPolicies(namespace, keys[1..])
  }

  /** policies with each of keys replaced by an empty policy of its name. */
  function Emptied(policies: Policies, keys: seq<Name>): (r: Policies)
    requires forall k :: k in keys ==> k in policies
    ensures r.Keys == policies.Keys
    ensures forall k :: k in r ==> r[k] == if k in keys then EmptyPolicy(policies[k].name) else policies[k]
  {
    map k | k in policies :: if k in keys then EmptyPolicy(policies[k].name) else policies[k]
  }

  /** What checking each of keys alone finds. */
  datatype PolicyCheck = Missing | Failing(policies: seq<Name>)

  function FreshPolicies(env: Env, policies: Policies, keys: seq<Name>): Fresh<PolicyCheck> {
    if keys == [] then Fresh(Some(Failing([])), {})
    else
      var before := FreshPolicies(env, policies, keys[..|keys| - 1]);
      var key := keys[|keys| - 1];
      if before.value.None? || before.value.value.Missing? then before
      else if key !in policies then Fresh(Some(Missing), before.keys)
      else
        var alone := FreshLint(env, PolicyAlone(policies[key]));
        match alone.value
        case None => Fresh(None, before.keys + alone.keys)
        case Some(v) =>
          Fresh(Some(Failing(before.value.value.policies + if v.judgement.ok then [] else [policies[key].name])),
                before.keys + alone.keys)
  }

  /** The endpoint on its own, in the order that blames each object only for
      its own content. */
  function FreshEndpoint(env: Env, u: Unit): Fresh<EndpointVerdict> {
    var keys := u.endpoint.policyKeys;
    var alone := FreshPolicies(env, u.policies, keys);
    match alone.value
    case None => Fresh(None, alone.keys)
    case Some(Missing) => Fresh(Some(Passes), alone.keys)
    case Some(Failing(failing)) =>
      if failing != [] then Fresh(Some(Fails(PolicyInvalid, failing, true, [])), alone.keys)
      else
        FailingMeansPresent(env, u.policies, keys);
        var rest := FreshUnit(env, u);
        Fresh(rest.value, alone.keys + rest.keys)
  }

  lemma {:induction false} FailingMeansPresent(env: Env, policies: Policies, keys: seq<Name>)
    ensures var r := FreshPolicies(env, policies, keys);
      r.value.Some? && r.value.value.Failing? ==> forall k :: k in keys ==> k in policies
  {
    if keys != [] {
      FailingMeansPresent(env, policies, keys[..|keys| - 1]);
      assert keys == keys[..|keys| - 1] + [keys[|keys| - 1]];
    }
  }

  /** The gateway root with the endpoint and its policies and, when that fails,
      with the policies of other namespaces rendered empty. */
  function FreshUnit(env: Env, u: Unit): Fresh<EndpointVerdict>
    requires forall k :: k in u.endpoint.policyKeys ==> k in u.policies
  {
    var whole := FreshLint(env, UnitInput(u, u.policies));
    var foreign := ForeignPolicies(u.endpoint.name.namespace, u.endpoint.policyKeys);
    if whole.value.None? then Fresh(None, whole.keys)
    else if whole.value.value.judgement.ok then Fresh(Some(Passes), whole.keys)
    else if foreign == [] then
      Fresh(Some(Fails(EndpointInvalid, [], false, whole.value.value.judgement.output)), whole.keys)
    else
      var own := FreshLint(env, UnitInput(u, Emptied(u.policies, foreign)));
      match own.value
      case None => Fresh(None, whole.keys + own.keys)
      case Some(v) =>
        Fresh(Some(if v.judgement.ok then Fails(PolicyInvalid, foreign, false, [])
                   else Fails(EndpointInvalid, [], false, v.judgement.output)),
              whole.keys + own.keys)
  }

  // ---- Blame ----

  /** The policies the endpoint references in other namespaces. */
  function Foreign(u: Unit): seq<Name> {
    ForeignPolicies(u.endpoint.name.namespace, u.endpoint.policyKeys)
  }

  function LintOf(env: Env, input: RenderInput): Option<Judgement> {
    match FreshLint(env, input).value case Some(v) => Some(v.judgement) case None => None
  }

  predicate FailsLint(env: Env, input: RenderInput) {
    LintOf(env, input).Some? && !LintOf(env, input).value.ok
  }

  predicate PassesLint(env: Env, input: RenderInput) {
    LintOf(env, input).Some? && LintOf(env, input).value.ok
  }

  predicate AllPresent(u: Unit) {
    forall k :: k in u.endpoint.policyKeys ==> k in u.policies
  }

  /** The policies named as failing on their own are exactly those that do. */
  lemma {:induction false} FailingAlone(env: Env, policies: Policies, keys: seq<Name>)
    ensures var r := FreshPolicies(env, policies, keys).value;
      r.Some? && r.value.Failing? ==>
        && (forall k :: k in keys ==> k in policies && LintOf(env, PolicyAlone(policies[k])).Some?)
        && (forall p :: p in r.value.policies <==>
              exists k :: k in keys && k in policies && policies[k].name == p &&
                FailsLint(env, PolicyAlone(policies[k])))
    ensures var r := FreshPolicies(env, policies, keys).value;
      r.Some? && r.value.Missing? ==> exists k :: k in keys && k !in policies
  {
    if keys != [] {
      var front, key := keys[..|keys| - 1], keys[|keys| - 1];
      FailingAlone(env, policies, front);
      assert keys == front + [key];
    }
  }

  /** Who is blamed, and for what. An endpoint that is blamed still fails with
      every policy of another namespace rendered empty, and is shown only what
      that check printed; policies are blamed for failing alone, or for making
      an endpoint fail that passes with them empty. */
  lemma BlameIsExact(env: Env, u: Unit)
    requires FreshEndpoint(env, u).value.Some?
    ensures match FreshEndpoint(env, u).value.value
      case Passes => !AllPresent(u) || PassesLint(env, UnitInput(u, u.policies))
      case Fails(reason, policies, alone, output) =>
        && AllPresent(u)
        && (reason == EndpointInvalid ==> FailsLint(env, UnitInput(u, Emptied(u.policies, Foreign(u)))))
        && (reason == EndpointInvalid ==>
              output == LintOf(env, UnitInput(u, Emptied(u.policies, Foreign(u)))).value.output)
        && (reason == PolicyInvalid && !alone ==> policies == Foreign(u) && policies != [])
        && (reason == PolicyInvalid && !alone ==> FailsLint(env, UnitInput(u, u.policies)))
        && (reason == PolicyInvalid && !alone ==> PassesLint(env, UnitInput(u, Emptied(u.policies, Foreign(u)))))
        && (reason == PolicyInvalid && alone ==> policies != [] && forall p :: p in policies <==>
              exists k :: k in u.endpoint.policyKeys && u.policies[k].name == p &&
                FailsLint(env, PolicyAlone(u.policies[k])))
  {
    FailingAlone(env, u.policies, u.endpoint.policyKeys);
    if Foreign(u) == [] { assert Emptied(u.policies, Foreign(u)) == u.policies || !AllPresent(u); }
  }

  /** A render depends on no policy its endpoints do not reference. */
  ghost predicate RendersReferencedOnly(env: Env) {
    forall a: RenderInput, b: RenderInput :: SameReferenced(a, b) ==> env.render(a) == env.render(b)
  }

  ghost predicate SameReferenced(a: RenderInput, b: RenderInput) {
    && b == a.(policies := b.policies)
    && forall e, k :: e in a.endpoints && k in e.policyKeys ==>
         (k in a.policies <==> k in b.policies) && (k in a.policies ==> a.policies[k] == b.policies[k])
  }

  /** more is policies with other content in the other namespaces. */
  ghost predicate DifferAbroad(namespace: string, policies: Policies, more: Policies) {
    && more.Keys == policies.Keys
    && forall k :: k in policies ==>
         more[k].name == policies[k].name && (k.namespace == namespace ==> more[k] == policies[k])
  }

  /** What an endpoint's owner is shown never depends on the content of a
      policy of another namespace. */
  lemma ForeignContentIsNeverShown(env: Env, u: Unit, more: Policies)
    requires RendersReferencedOnly(env)
    requires DifferAbroad(u.endpoint.name.namespace, u.policies, more)
    requires FreshEndpoint(env, u).value.Some? && FreshEndpoint(env, u.(policies := more)).value.Some?
    requires FreshEndpoint(env, u).value.value.Fails? && FreshEndpoint(env, u.(policies := more)).value.value.Fails?
    requires FreshEndpoint(env, u).value.value.reason == EndpointInvalid
    requires FreshEndpoint(env, u.(policies := more)).value.value.reason == EndpointInvalid
    ensures FreshEndpoint(env, u).value == FreshEndpoint(env, u.(policies := more)).value
  {
    hide FreshEndpoint, FailsLint, PassesLint, Emptied, ForeignPolicies;
    var v := u.(policies := more);
    BlameIsExact(env, u);
    BlameIsExact(env, v);
    var a, b := UnitInput(u, Emptied(u.policies, Foreign(u))), UnitInput(v, Emptied(more, Foreign(v)));
    assert Foreign(u) == Foreign(v);
    assert SameReferenced(a, b);
    OnlyOutput(env, u);
    OnlyOutput(env, v);
  }

  lemma OnlyOutput(env: Env, u: Unit)
    ensures var v := FreshEndpoint(env, u).value;
      v.Some? && v.value.Fails? && v.value.reason == EndpointInvalid ==>
        v.value == Fails(EndpointInvalid, [], false, v.value.output)
  {}
}
