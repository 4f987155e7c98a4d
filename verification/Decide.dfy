/** What a gateway applies: the newest render, that render without the
    endpoints that fail on their own, or nothing. */
module Decide {
  import opened Base
  import opened Verdicts
  import opened VerdictMemo
  import opened Checker

  // ---- The applied config ----

  /** What the gateway's status records of its applied config. */
  datatype Status = Status(checksum: string, edition: Option<Edition>, activeImage: string)

  /** The edition a status that records none was validated for. */
  function AdoptedEdition(env: Env, gw: Gateway, status: Status, current: Edition): Edition {
    var ee, ce := env.image(gw, false), env.image(gw, true);
    if gw.edition != EE || ee == ce then current
    else if status.activeImage == ee then EE
    else if status.activeImage == ce then CE
    else current
  }

  predicate IsApplied(env: Env, status: Status, gw: Gateway, out: Rendered, edition: Edition) {
    out.checksum == status.checksum &&
    edition == (match status.edition case Some(e) => e case None => AdoptedEdition(env, gw, status, edition))
  }

  // ---- The decision, without a memo ----

  type Excluded = map<Name, EndpointVerdict>

  datatype Failure = GatewayRootInvalid(output: Text) | CombinedConfigInvalid

  /** Apply: the render to apply, the gathered endpoints less excluded. Refuse:
      nothing can be applied; judged says every endpoint was judged. */
  datatype Decision =
    | Apply(output: Rendered, excluded: Excluded)
    | Refuse(failure: Failure, excluded: Excluded, judged: bool)

  /** A pass's inputs and its newest render. */
  datatype Inputs = Inputs(status: Status, input: RenderInput, full: Rendered)
  {
    function Edition(): Edition {
      EditionFor(input.gateway, input.ceFallback)
    }

    function UnitOf(e: Endpoint): Unit {
      Unit(input.gateway, e, input.policies, input.ceFallback, input.dragonfly)
    }

    function Root(): RenderInput {
      RenderInput(input.gateway, [], map[], input.ceFallback, input.dragonfly)
    }

    function Rest(excluded: Excluded): RenderInput {
      input.(endpoints := Without(input.endpoints, excluded.Keys))
    }

    predicate Applied(env: Env, out: Rendered) {
      IsApplied(env, status, input.gateway, out, Edition())
    }
  }

  function Suspects(endpoints: seq<Endpoint>, v: Verdict): (r: seq<Endpoint>)
    ensures forall e :: e in r <==> e in endpoints && v.Suspect(e.name)
  {
    if endpoints == [] then []
    else (if v.Suspect(endpoints[0].name) then [endpoints[0]] else []) + Suspects(endpoints[1..], v)
  }

  function Without(endpoints: seq<Endpoint>, names: set<Name>): (r: seq<Endpoint>)
    ensures forall e :: e in r <==> e in endpoints && e.name !in names
  {
    if endpoints == [] then []
    else (if endpoints[0].name in names then [] else [endpoints[0]]) + Without(endpoints[1..], names)
  }

  /** Each suspect on its own; those that fail, with why. */
  function FreshJudge(env: Env, x: Inputs, suspects: seq<Endpoint>): Fresh<Excluded> {
    if suspects == [] then Fresh(Some(map[]), {})
    else
      var before, e := FreshJudge(env, x, suspects[..|suspects| - 1]), suspects[|suspects| - 1];
      if before.value.None? then before
      else
        var own := FreshEndpoint(env, x.UnitOf(e));
        match own.value
        case None => Fresh(None, before.keys + own.keys)
        case Some(Passes) => Fresh(before.value, before.keys + own.keys)
        case Some(v) => Fresh(Some(before.value.value[e.name := v]), before.keys + own.keys)
  }

  function FreshFull(env: Env, out: Rendered, edition: Edition): Fresh<Judgement> {
    Fresh(Some(Judge(env, out.json, edition, Validate)), {KeyFor(out, edition, Validate)})
  }

  const Vouched := Judgement(true, [], StageUnknown)

  /** The endpoints to judge when the full render is the applied config. */
  function Masked(x: Inputs): seq<Endpoint> {
    Suspects(x.input.endpoints, Verdict(Vouched, x.full.masked))
  }

  function FreshDecide(env: Env, x: Inputs): Fresh<Decision> {
    if !x.Applied(env, x.full) then FreshAnew(env, x)
    else
      var masked := FreshJudge(env, x, Masked(x));
      match masked.value
      case None => Fresh(None, masked.keys)
      case Some(excluded) =>
        if excluded == map[] then Fresh(Some(Apply(x.full, map[])), masked.keys)
        else
          var rest := FreshAnew(env, x);
          Fresh(rest.value, masked.keys + rest.keys)
  }

  /** The gateway root alone, before anything else is judged. */
  function FreshAnew(env: Env, x: Inputs): Fresh<Decision> {
    var root := FreshLint(env, x.Root());
    match root.value
    case None => Fresh(None, root.keys)
    case Some(v) =>
      if !v.judgement.ok then Fresh(Some(Refuse(GatewayRootInvalid(v.judgement.output), map[], false)), root.keys)
      else
        var rest := FreshWhole(env, x);
        Fresh(rest.value, root.keys + rest.keys)
  }

  /** The render as a whole, then each endpoint it does not vouch for. */
  function FreshWhole(env: Env, x: Inputs): Fresh<Decision> {
    var whole := FreshFull(env, x.full, x.Edition());
    var rest := FreshSuspects(env, x, whole.value.value);
    Fresh(rest.value, whole.keys + rest.keys)
  }

  function FreshSuspects(env: Env, x: Inputs, whole: Judgement): Fresh<Decision> {
    var judged := FreshJudge(env, x, Suspects(x.input.endpoints, Verdict(whole, x.full.masked)));
    match judged.value
    case None => Fresh(None, judged.keys)
    case Some(excluded) =>
      var rest := FreshRest(env, x, whole, excluded);
      Fresh(rest.value, judged.keys + rest.keys)
  }

  /** The render without the endpoints that fail, checked once more. */
  function FreshRest(env: Env, x: Inputs, whole: Judgement, excluded: Excluded): Fresh<Decision> {
    if excluded == map[] then
      Fresh(Some(if whole.ok then Apply(x.full, map[]) else Refuse(CombinedConfigInvalid, map[], true)), {})
    else
      match env.render(x.Rest(excluded))
      case None => Fresh(None, {})
      case Some(out) =>
        if x.Applied(env, out) then Fresh(Some(Apply(out, excluded)), {})
        else
          var safety := FreshFull(env, out, x.Edition());
          Fresh(Some(if safety.value.value.ok then Apply(out, excluded)
            else Refuse(CombinedConfigInvalid, excluded, true)),
                safety.keys)
  }

  // ---- The decision, through a memo ----

  lemma {:induction false} JudgeEnd(env: Env, x: Inputs, suspects: seq<Endpoint>, i: nat)
    requires i <= |suspects|
    ensures FreshJudge(env, x, suspects[..i]).keys <= FreshJudge(env, x, suspects).keys
    ensures var front := FreshJudge(env, x, suspects[..i]);
      front.value.None? ==> FreshJudge(env, x, suspects) == front
  {
    hide FreshEndpoint;
    if i == |suspects| {
      assert suspects[..i] == suspects;
    } else {
      var shorter := suspects[..|suspects| - 1];
      JudgeEnd(env, x, shorter, i);
      assert shorter[..i] == suspects[..i];
    }
  }

  lemma JudgeNext(env: Env, x: Inputs, suspects: seq<Endpoint>, i: nat)
    requires i < |suspects|
    ensures FreshJudge(env, x, suspects[..0]) == Fresh(Some(map[]), {})
    ensures var front, more := FreshJudge(env, x, suspects[..i]), FreshJudge(env, x, suspects[..i + 1]);
      var own := FreshEndpoint(env, x.UnitOf(suspects[i]));
      front.value.Some? ==>
        && more.keys == front.keys + own.keys
        && (own.value.None? ==> more.value.None?)
        && (own.value.Some? && own.value.value.Passes? ==> more.value == front.value)
        && (own.value.Some? && own.value.value.Fails? ==>
              more.value == Some(front.value.value[suspects[i].name := own.value.value]))
  {
    hide FreshEndpoint;
    assert suspects[..i + 1][..i] == suspects[..i];
  }

  class Reconciler {
    const env: Env
    const checker: Checker
    const verdicts: Memo

    constructor (env: Env, checker: Checker, verdicts: Memo)
      requires checker.env == env
      ensures this.env == env && this.checker == checker && this.verdicts == verdicts && Valid()
    {
      this.env, this.checker, this.verdicts := env, checker, verdicts;
    }

    ghost predicate Valid() {
      checker.env == env
    }

    method JudgeEndpoints(x: Inputs, suspects: seq<Endpoint>, memo: PassMemo) returns (r: Option<Excluded>)
      requires Valid() && checker.Ready(memo)
      modifies checker`runs, memo
      ensures Checked(env, checker.available, old(memo.Value()), memo.Value(), FreshJudge(env, x, suspects), r,
        old(checker.runs), checker.runs)
    {
      hide FreshEndpoint, FreshJudge, Checked, PassSound, Trusted;
      var excluded: Excluded := map[];
      assert FreshJudge(env, x, suspects[..0]) == Fresh(Some(map[]), {}) by { NoSuspects(env, x, suspects); }
      NothingChecked(env, checker.available, memo.Value(), Some(excluded), checker.runs);
      for i := 0 to |suspects|
        invariant checker.Ready(memo)
        invariant Checked(env, checker.available, old(memo.Value()), memo.Value(), FreshJudge(env, x, suspects[..i]),
                          Some(excluded), old(checker.runs), checker.runs)
      {
        ghost var p, a, before := memo.Value(), checker.runs, excluded;
        ghost var front, more := FreshJudge(env, x, suspects[..i]), FreshJudge(env, x, suspects[..i + 1]);
        JudgeNext(env, x, suspects, i);
        JudgeEnd(env, x, suspects, i + 1);
        GivenIsFresh(env, checker.available, old(memo.Value()), p, front, Some(excluded), old(checker.runs), a);
        ghost var own := FreshEndpoint(env, x.UnitOf(suspects[i]));
        var v := checker.CheckEndpoint(x.UnitOf(suspects[i]), memo);
        GivenIsFresh(env, checker.available, p, memo.Value(), own, v, a, checker.runs);
        if v.None? {
          Then(env, checker.available, old(memo.Value()), p, memo.Value(), front, own, more,
               Some(before), v, None, old(checker.runs), a, checker.runs);
          Ends(env, checker.available, old(memo.Value()), memo.Value(), more, FreshJudge(env, x, suspects), None,
            old(checker.runs), checker.runs);
          return None;
        }
        if v.value.Fails? { excluded := excluded[suspects[i].name := v.value]; }
        Then(env, checker.available, old(memo.Value()), p, memo.Value(), front, own, more,
             Some(before), v, Some(excluded), old(checker.runs), a, checker.runs);
      }
      assert suspects[..|suspects|] == suspects;
      return Some(excluded);
    }

    method CheckFull(out: Rendered, edition: Edition, memo: PassMemo) returns (r: Option<Judgement>)
      requires Valid() && checker.Ready(memo) && out.checksum == env.hash(out.json)
      modifies checker`runs, memo
      ensures Checked(env, checker.available, old(memo.Value()), memo.Value(), FreshFull(env, out, edition), r,
        old(checker.runs), checker.runs)
    {
      r := checker.Remembered(out, edition, Validate, memo);
    }

    method ApplyRest(x: Inputs, whole: Judgement, excluded: Excluded, memo: PassMemo) returns (r: Option<Decision>)
      requires Valid() && checker.Ready(memo)
      modifies checker`runs, memo
      ensures Checked(env, checker.available, old(memo.Value()), memo.Value(), FreshRest(env, x, whole, excluded), r,
        old(checker.runs), checker.runs)
    {
      hide Checked, PassSound, Judge, IsApplied;
      ghost var p := memo.Value();
      r := None;
      if excluded == map[] {
        r := Some(if whole.ok then Apply(x.full, map[]) else Refuse(CombinedConfigInvalid, map[], true));
        NothingChecked(env, checker.available, p, r, checker.runs);
        return;
      }
      var rendered := env.render(x.Rest(excluded));
      if rendered.None? {
        NothingChecked(env, checker.available, p, r, checker.runs);
        return;
      }
      var out := rendered.value;
      if x.Applied(env, out) {
        r := Some(Apply(out, excluded));
        NothingChecked(env, checker.available, p, r, checker.runs);
        return;
      }
      ghost var full := FreshFull(env, out, x.Edition());
      var safety := CheckFull(out, x.Edition(), memo);
      GivenIsFresh(env, checker.available, p, memo.Value(), full, safety, old(checker.runs), checker.runs);
      if safety.Some? {
        r := Some(if safety.value.ok then Apply(out, excluded) else Refuse(CombinedConfigInvalid, excluded, true));
      }
      NothingChecked(env, checker.available, p, Some(()), old(checker.runs));
      Then(env, checker.available, p, p, memo.Value(), Fresh(Some(()), {}), full, FreshRest(env, x, whole, excluded),
           Some(()), safety, r, old(checker.runs), old(checker.runs), checker.runs);
    }

    method JudgeSuspects(x: Inputs, whole: Judgement, memo: PassMemo) returns (r: Option<Decision>)
      requires Valid() && checker.Ready(memo)
      modifies checker`runs, memo
      ensures Checked(env, checker.available, old(memo.Value()), memo.Value(), FreshSuspects(env, x, whole), r,
        old(checker.runs), checker.runs)
    {
      hide Checked, PassSound, Trusted, FreshJudge, FreshRest;
      var suspects := Suspects(x.input.endpoints, Verdict(whole, x.full.masked));
      ghost var p, judge := memo.Value(), FreshJudge(env, x, suspects);
      var excluded := JudgeEndpoints(x, suspects, memo);
      GivenIsFresh(env, checker.available, p, memo.Value(), judge, excluded, old(checker.runs), checker.runs);
      if excluded.None? {
        Ends(env, checker.available, p, memo.Value(), judge, FreshSuspects(env, x, whole), None, old(checker.runs),
          checker.runs);
        return None;
      }
      ghost var q, a, rest := memo.Value(), checker.runs, FreshRest(env, x, whole, excluded.value);
      r := ApplyRest(x, whole, excluded.value, memo);
      GivenIsFresh(env, checker.available, q, memo.Value(), rest, r, a, checker.runs);
      Then(env, checker.available, p, q, memo.Value(), judge, rest, FreshSuspects(env, x, whole), excluded, r, r,
        old(checker.runs), a, checker.runs);
    }

    method DecideWhole(x: Inputs, memo: PassMemo) returns (r: Option<Decision>)
      requires Valid() && checker.Ready(memo) && x.full.checksum == env.hash(x.full.json)
      modifies checker`runs, memo
      ensures Checked(env, checker.available, old(memo.Value()), memo.Value(), FreshWhole(env, x), r,
        old(checker.runs), checker.runs)
    {
      hide Checked, PassSound, Trusted, FreshSuspects, Judge;
      ghost var p, full := memo.Value(), FreshFull(env, x.full, x.Edition());
      var whole := CheckFull(x.full, x.Edition(), memo);
      GivenIsFresh(env, checker.available, p, memo.Value(), full, whole, old(checker.runs), checker.runs);
      if whole.None? {
        Ends(env, checker.available, p, memo.Value(), full, FreshWhole(env, x), None, old(checker.runs), checker.runs);
        return None;
      }
      ghost var q, a, rest := memo.Value(), checker.runs, FreshSuspects(env, x, whole.value);
      r := JudgeSuspects(x, whole.value, memo);
      GivenIsFresh(env, checker.available, q, memo.Value(), rest, r, a, checker.runs);
      Then(env, checker.available, p, q, memo.Value(), full, rest, FreshWhole(env, x), whole, r, r, old(checker.runs),
        a, checker.runs);
    }

    method DecideAnew(x: Inputs, memo: PassMemo) returns (r: Option<Decision>)
      requires Valid() && checker.Ready(memo) && x.full.checksum == env.hash(x.full.json)
      modifies checker`runs, memo
      ensures Checked(env, checker.available, old(memo.Value()), memo.Value(), FreshAnew(env, x), r, old(checker.runs),
        checker.runs)
    {
      hide Checked, PassSound, Trusted, FreshLint, FreshWhole;
      ghost var p, lint := memo.Value(), FreshLint(env, x.Root());
      var root := checker.LintInput(x.Root(), memo);
      GivenIsFresh(env, checker.available, p, memo.Value(), lint, root, old(checker.runs), checker.runs);
      if root.None? {
        Ends(env, checker.available, p, memo.Value(), lint, FreshAnew(env, x), None, old(checker.runs), checker.runs);
        return None;
      }
      if !root.value.judgement.ok {
        r := Some(Refuse(GatewayRootInvalid(root.value.judgement.output), map[], false));
        NothingChecked(env, checker.available, memo.Value(), r, checker.runs);
        Then(env, checker.available, p, memo.Value(), memo.Value(), lint, Fresh(r, {}), FreshAnew(env, x),
             root, r, r, old(checker.runs), checker.runs, checker.runs);
        return;
      }
      ghost var q, a, rest := memo.Value(), checker.runs, FreshWhole(env, x);
      r := DecideWhole(x, memo);
      GivenIsFresh(env, checker.available, q, memo.Value(), rest, r, a, checker.runs);
      Then(env, checker.available, p, q, memo.Value(), lint, rest, FreshAnew(env, x), root, r, r, old(checker.runs), a,
        checker.runs);
    }

    method DecideIn(x: Inputs, memo: PassMemo) returns (r: Option<Decision>)
      requires Valid() && checker.Ready(memo) && x.full.checksum == env.hash(x.full.json)
      modifies checker`runs, memo
      ensures Checked(env, checker.available, old(memo.Value()), memo.Value(), FreshDecide(env, x), r,
        old(checker.runs), checker.runs)
    {
      hide Checked, PassSound, Trusted, FreshJudge, FreshAnew, IsApplied;
      if !x.Applied(env, x.full) {
        r := DecideAnew(x, memo);
        return;
      }
      ghost var p, judge := memo.Value(), FreshJudge(env, x, Masked(x));
      var excluded := JudgeEndpoints(x, Masked(x), memo);
      GivenIsFresh(env, checker.available, p, memo.Value(), judge, excluded, old(checker.runs), checker.runs);
      if excluded.None? {
        Ends(env, checker.available, p, memo.Value(), judge, FreshDecide(env, x), None, old(checker.runs),
          checker.runs);
        return None;
      }
      if excluded.value == map[] {
        r := Some(Apply(x.full, map[]));
        NothingChecked(env, checker.available, memo.Value(), r, checker.runs);
        Then(env, checker.available, p, memo.Value(), memo.Value(), judge, Fresh(r, {}), FreshDecide(env, x),
             excluded, r, r, old(checker.runs), checker.runs, checker.runs);
        return;
      }
      ghost var q, a, rest := memo.Value(), checker.runs, FreshAnew(env, x);
      r := DecideAnew(x, memo);
      GivenIsFresh(env, checker.available, q, memo.Value(), rest, r, a, checker.runs);
      Then(env, checker.available, p, q, memo.Value(), judge, rest, FreshDecide(env, x), excluded, r, r,
        old(checker.runs), a, checker.runs);
    }

    /** Decides in a pass of the gateway's memo. A decision is the one made
        without any memo. A successful pass keeps exactly the contents it
        judged; a failed one forgets nothing. When the memo knows every content
        the decision judges, no check runs; and when every run it needs can be
        made, the pass decides whatever a pass without a memo would. */
    method DecidePass(x: Inputs) returns (r: Option<Decision>)
      requires Valid() && Trusted(env) && verdicts.IsSound(env) && x.full.checksum == env.hash(x.full.json)
      modifies checker`runs, verdicts
      ensures verdicts.IsSound(env) && old(checker.runs) <= checker.runs
      ensures r.Some? ==> r == FreshDecide(env, x).value
      ensures r.Some? ==> KeptFor(verdicts.owners, x.input.gateway.name).Keys == FreshDecide(env, x).keys
      ensures r.None? ==>
        old(KeptFor(verdicts.owners, x.input.gateway.name)).Keys <= KeptFor(verdicts.owners, x.input.gateway.name).Keys
      ensures forall o :: o != x.input.gateway.name ==> KeptFor(verdicts.owners, o) == old(KeptFor(verdicts.owners, o))
      ensures (forall k :: k in FreshDecide(env, x).keys ==>
                Pass(old(KeptFor(verdicts.owners, x.input.gateway.name)), map[]).Knows(k)) ==>
              r == FreshDecide(env, x).value && checker.runs == old(checker.runs)
      ensures (forall n :: old(checker.runs) <= n < checker.runs ==> checker.available(n)) ==>
        r == FreshDecide(env, x).value
    {
      hide FreshDecide, Judge;
      var pass := verdicts.Begin(x.input.gateway.name);
      r := DecideIn(x, pass);
      verdicts.End(x.input.gateway.name, pass, r.None?);
    }
  }

  lemma NoSuspects(env: Env, x: Inputs, suspects: seq<Endpoint>)
    ensures FreshJudge(env, x, suspects[..0]) == Fresh(Some(map[]), {})
  {}

  // ---- What a decision means ----

  predicate PassesFull(env: Env, out: Rendered, edition: Edition) {
    Judge(env, out.json, edition, Validate).ok
  }

  /** e's own check, as far as it goes, does not fail: a missing policy ends it
      without blame. */
  predicate PassesAlone(env: Env, x: Inputs, e: Endpoint) {
    FreshEndpoint(env, x.UnitOf(e)).value == Some(Passes)
  }

  /** One of eps, called n, fails on its own with v. */
  ghost predicate FailsAmong(env: Env, x: Inputs, eps: seq<Endpoint>, n: Name, v: EndpointVerdict) {
    exists e :: e in eps && e.name == n && v.Fails? && FreshEndpoint(env, x.UnitOf(e)).value == Some(v)
  }

  /** Each excluded endpoint fails on its own with that verdict. */
  ghost predicate FailAlone(env: Env, x: Inputs, excluded: Excluded) {
    forall n :: n in excluded ==> FailsAmong(env, x, x.input.endpoints, n, excluded[n])
  }

  lemma {:induction false} JudgedAlone(env: Env, x: Inputs, suspects: seq<Endpoint>)
    requires FreshJudge(env, x, suspects).value.Some?
    ensures var excluded := FreshJudge(env, x, suspects).value.value;
      && (forall e :: e in suspects && e.name !in excluded ==> PassesAlone(env, x, e))
      && (forall n :: n in excluded ==> FailsAmong(env, x, suspects, n, excluded[n]))
  {
    hide FreshEndpoint, FailsAmong;
    if suspects != [] {
      var front, e := suspects[..|suspects| - 1], suspects[|suspects| - 1];
      JudgedAlone(env, x, front);
      assert suspects == front + [e];
      forall n, v | FailsAmong(env, x, front, n, v) ensures FailsAmong(env, x, suspects, n, v) {
        StillAmong(env, x, front, e, n, v);
      }
      LastFails(env, x, front, e);
    }
  }

  lemma StillAmong(env: Env, x: Inputs, front: seq<Endpoint>, e: Endpoint, n: Name, v: EndpointVerdict)
    requires FailsAmong(env, x, front, n, v)
    ensures FailsAmong(env, x, front + [e], n, v)
  {
    var f :| f in front && f.name == n && v.Fails? && FreshEndpoint(env, x.UnitOf(f)).value == Some(v);
    assert f in front + [e];
  }

  lemma LastFails(env: Env, x: Inputs, front: seq<Endpoint>, e: Endpoint)
    ensures var own := FreshEndpoint(env, x.UnitOf(e)).value;
      own.Some? && own.value.Fails? ==> FailsAmong(env, x, front + [e], e.name, own.value)
  {
    hide FreshEndpoint;
    assert e in front + [e];
  }

  /** The endpoints vouched for by a full render: they lost no entry in it, and
      it is the applied config or passes the full check. */
  predicate VouchedFor(env: Env, x: Inputs, e: Endpoint) {
    e.name !in x.full.masked && (x.Applied(env, x.full) || PassesFull(env, x.full, x.Edition()))
  }

  /** Every endpoint not excluded was vouched for or does not fail on its
      own. */
  ghost predicate OthersJudged(env: Env, x: Inputs, excluded: Excluded) {
    forall e :: e in x.input.endpoints && e.name !in excluded ==> VouchedFor(env, x, e) || PassesAlone(env, x, e)
  }

  ghost predicate Justified(env: Env, x: Inputs, d: Decision) {
    match d
    case Apply(out, excluded) =>
      && (x.Applied(env, out) || PassesFull(env, out, x.Edition()))
      && FailAlone(env, x, excluded)
      && env.render(if excluded == map[] then x.input else x.Rest(excluded)) == Some(out)
      && (forall e :: e in x.Rest(excluded).endpoints ==> e.name !in excluded)
      && OthersJudged(env, x, excluded)
    case Refuse(GatewayRootInvalid(output), excluded, judged) =>
      FailsLint(env, x.Root()) && LintOf(env, x.Root()).value.output == output && excluded == map[] && !judged
    case Refuse(CombinedConfigInvalid, excluded, judged) =>
      && FailAlone(env, x, excluded) && OthersJudged(env, x, excluded) && judged
      && (if excluded == map[] then !PassesFull(env, x.full, x.Edition())
          else env.render(x.Rest(excluded)).Some? && !PassesFull(env, env.render(x.Rest(excluded)).value, x.Edition()))
  }

  lemma RestIsJustified(env: Env, x: Inputs, excluded: Excluded)
    requires env.render(x.input) == Some(x.full)
    requires FailAlone(env, x, excluded) && OthersJudged(env, x, excluded)
    ensures var r := FreshRest(env, x, Judge(env, x.full.json, x.Edition(), Validate), excluded).value;
      r.Some? ==> Justified(env, x, r.value)
  {
    hide Judge, FailAlone, OthersJudged, IsApplied, FreshLint;
  }

  lemma SuspectsAreSound(env: Env, x: Inputs)
    requires env.render(x.input) == Some(x.full)
    ensures var r := FreshSuspects(env, x, Judge(env, x.full.json, x.Edition(), Validate)).value;
      r.Some? ==> Justified(env, x, r.value)
  {
    hide FreshEndpoint, FreshJudge, Judge, FreshRest, Justified;
    var whole := Judge(env, x.full.json, x.Edition(), Validate);
    var suspects := Suspects(x.input.endpoints, Verdict(whole, x.full.masked));
    var judged := FreshJudge(env, x, suspects);
    if judged.value.Some? {
      JudgedAlone(env, x, suspects);
      assert OthersJudged(env, x, judged.value.value);
      RestIsJustified(env, x, judged.value.value);
    }
  }

  /** What is applied is the applied config or passes the full check; it is the
      render without the excluded endpoints, each of which fails on its own;
      and every other endpoint was vouched for or does not fail on its own. A refusal
      excludes an endpoint only for failing on its own, blames the root only
      when it fails alone, and otherwise nobody. */
  lemma DecisionIsSound(env: Env, x: Inputs)
    requires FreshDecide(env, x).value.Some? && env.render(x.input) == Some(x.full)
    ensures Justified(env, x, FreshDecide(env, x).value.value)
  {
    hide FreshEndpoint, FreshJudge, Judge, FreshSuspects, IsApplied;
    SuspectsAreSound(env, x);
    if FreshDecide(env, x).value == Some(Apply(x.full, map[])) && x.Applied(env, x.full) {
      AppliedIsSound(env, x);
    }
  }

  lemma AppliedIsSound(env: Env, x: Inputs)
    requires x.Applied(env, x.full) && env.render(x.input) == Some(x.full)
    requires FreshDecide(env, x).value == Some(Apply(x.full, map[]))
    ensures Justified(env, x, Apply(x.full, map[]))
  {
    hide FreshEndpoint, FreshJudge, Judge, FreshLint, FreshRest, IsApplied;
    var masked := FreshJudge(env, x, Masked(x));
    JudgedAlone(env, x, Masked(x));
    if masked.value == Some(map[]) {
      assert OthersJudged(env, x, map[]);
    } else {
      SuspectsAreSound(env, x);
    }
  }

  // ---- Runs of passes ----

  /** The status once out, rendered for edition, is recorded as applied. */
  function Record(status: Status, out: Rendered, edition: Edition): Status {
    status.(checksum := out.checksum, edition := Some(edition))
  }

  /** A status that records no edition for its config records the one it was
      validated for, once and for all. */
  function Adopt(env: Env, gw: Gateway, status: Status, current: Edition): Status {
    if status.checksum != "" && status.edition.None?
    then status.(edition := Some(AdoptedEdition(env, gw, status, current)))
    else status
  }

  /** Nothing is applied, or the applied config passes the full check of the
      edition it is recorded for. */
  ghost predicate AppliedPasses(env: Env, status: Status) {
    status.checksum == "" ||
    (status.edition.Some? &&
     exists json :: env.hash(json) == status.checksum && Judge(env, json, status.edition.value, Validate).ok)
  }

  /** One pass: its inputs, whether every check it needs can run, whether its
      config is published and recorded, and the image it leaves running. */
  datatype PassEvent = PassEvent(input: RenderInput, completes: bool, published: bool, image: string)
  {
    /** The status the pass starts its checks with. */
    function Adopted(env: Env, status: Status): Status {
      Adopt(env, input.gateway, status, EditionFor(input.gateway, input.ceFallback))
    }
  }

  function AfterPass(env: Env, status: Status, p: PassEvent): Status {
    match env.render(p.input)
    case None => status
    case Some(full) =>
      var x := Inputs(p.Adopted(env, status), p.input, full);
      var d := FreshDecide(env, x).value;
      var next := if p.completes && d.Some? && d.value.Apply? && (p.published || x.Applied(env, d.value.output))
                  then Record(x.status, d.value.output, x.Edition()) else x.status;
      next.(activeImage := p.image)
  }

  function AfterPasses(env: Env, status: Status, passes: seq<PassEvent>): Status
    decreases |passes|
  {
    if passes == [] then status else AfterPasses(env, AfterPass(env, status, passes[0]), passes[1..])
  }

  /** The applied config passes the full check of its recorded edition, or of
      the one the first pass that renders adopts it for. */
  ghost predicate StartsSound(env: Env, status: Status, passes: seq<PassEvent>)
    decreases |passes|
  {
    if passes == [] then AppliedPasses(env, status)
    else if env.render(passes[0].input).None? then StartsSound(env, status, passes[1..])
    else AppliedPasses(env, passes[0].Adopted(env, status))
  }

  lemma PassKeepsApplied(env: Env, status: Status, p: PassEvent)
    requires Trusted(env) && env.render(p.input).Some? && AppliedPasses(env, p.Adopted(env, status))
    ensures AppliedPasses(env, AfterPass(env, status, p))
  {
    hide FreshDecide, Judge, FailAlone, OthersJudged, AdoptedEdition;
    var x := Inputs(p.Adopted(env, status), p.input, env.render(p.input).value);
    if FreshDecide(env, x).value.Some? { DecisionIsSound(env, x); }
  }

  /** A recorded edition is never adopted again. */
  lemma {:induction false} RecordedStartsSound(env: Env, status: Status, passes: seq<PassEvent>)
    requires AppliedPasses(env, status)
    ensures StartsSound(env, status, passes)
    decreases |passes|
  {
    if passes != [] { RecordedStartsSound(env, status, passes[1..]); }
  }

  /** Over any run of passes, whatever fails in them, the applied config passes
      the full check of its recorded edition. */
  lemma {:induction false} AppliedAlwaysPasses(env: Env, status: Status, passes: seq<PassEvent>)
    requires Trusted(env) && StartsSound(env, status, passes)
    ensures AppliedPasses(env, AfterPasses(env, status, passes))
    decreases |passes|
  {
    if passes != [] {
      hide AppliedPasses, AfterPass;
      var next := AfterPass(env, status, passes[0]);
      if env.render(passes[0].input).Some? {
        PassKeepsApplied(env, status, passes[0]);
        RecordedStartsSound(env, next, passes[1..]);
      } else {
        NoRenderNoChange(env, status, passes[0]);
      }
      AppliedAlwaysPasses(env, next, passes[1..]);
    }
  }

  lemma NoRenderNoChange(env: Env, status: Status, p: PassEvent)
    requires env.render(p.input).None?
    ensures AfterPass(env, status, p) == status
  {}

  // ---- Steady state ----

  /** The inputs of the next pass when nothing but the recorded status changed. */
  function Settled(x: Inputs, d: Decision): Inputs {
    if d.Apply? then x.(status := Record(x.status, d.output, x.Edition())) else x
  }

  lemma {:induction false} JudgeIgnoresStatus(env: Env, x: Inputs, y: Inputs, suspects: seq<Endpoint>)
    requires y == x.(status := y.status)
    ensures FreshJudge(env, y, suspects) == FreshJudge(env, x, suspects)
  {
    hide FreshEndpoint;
    if suspects != [] { JudgeIgnoresStatus(env, x, y, suspects[..|suspects| - 1]); }
  }

  /** Deciding anew to apply out reaches the same decision, with no other
      check, once out is the applied config. */
  lemma AnewSettles(env: Env, x: Inputs, y: Inputs, out: Rendered, excluded: Excluded)
    requires y == x.(status := y.status) && y.Applied(env, out)
    requires FreshAnew(env, x).value == Some(Apply(out, excluded)) && excluded != map[]
    ensures FreshAnew(env, y).value == FreshAnew(env, x).value
    ensures FreshAnew(env, y).keys <= FreshAnew(env, x).keys
    ensures FreshJudge(env, x,
      Suspects(x.input.endpoints, Verdict(Judge(env, x.full.json, x.Edition(), Validate), x.full.masked))).value
            == Some(excluded)
    ensures FreshJudge(env, x,
      Suspects(x.input.endpoints, Verdict(Judge(env, x.full.json, x.Edition(), Validate), x.full.masked))).keys
            <= FreshAnew(env, x).keys
    ensures x.Applied(env, out) || PassesFull(env, out, x.Edition())
  {
    hide FreshJudge, Judge, FreshLint, IsApplied;
    var whole := Judge(env, x.full.json, x.Edition(), Validate);
    JudgeIgnoresStatus(env, x, y, Suspects(x.input.endpoints, Verdict(whole, x.full.masked)));
  }

  lemma AcceptedIsVouched(env: Env, json: string, edition: Edition)
    ensures Judge(env, json, edition, Validate).ok ==> Judge(env, json, edition, Validate) == Vouched
  {}

  /** Applying the whole render: what it masks was judged and passes. */
  lemma WholeSettles(env: Env, x: Inputs)
    requires FreshDecide(env, x).value.Some? && FreshDecide(env, x).value.value.Apply?
    requires FreshDecide(env, x).value.value.excluded == map[]
    ensures FreshDecide(env, x).value.value.output == x.full
    ensures FreshJudge(env, x, Masked(x)).value == Some(map[])
    ensures FreshJudge(env, x, Masked(x)).keys <= FreshDecide(env, x).keys
  {
    hide FreshJudge, Judge, FreshLint, IsApplied;
    AcceptedIsVouched(env, x.full.json, x.Edition());
  }

  /** When the excluded render has the full one's content, what the full one
      masks was judged, and some of it fails. */
  lemma SameContentSettles(env: Env, x: Inputs)
    requires Trusted(env) && env.render(x.input) == Some(x.full)
    requires FreshDecide(env, x).value.Some? && FreshDecide(env, x).value.value.Apply?
    requires FreshDecide(env, x).value.value.excluded != map[]
    requires FreshDecide(env, x).value.value.output.checksum == x.full.checksum
    ensures FreshJudge(env, x, Masked(x)).value.Some? && FreshJudge(env, x, Masked(x)).value != Some(map[])
    ensures FreshJudge(env, x, Masked(x)).keys <= FreshDecide(env, x).keys
  {
    hide FreshJudge, Judge, FreshLint, FreshAnew;
    var d := FreshDecide(env, x).value.value;
    if !x.Applied(env, x.full) {
      AnewSettles(env, x, Settled(x, d), d.output, d.excluded);
      assert env.render(x.Rest(d.excluded)) == Some(d.output) by { DecisionIsSound(env, x); }
      assert d.output.json == x.full.json;
      AcceptedIsVouched(env, x.full.json, x.Edition());
    }
  }

  /** Repeating a pass after its decision is recorded decides the same, and
      judges no content the first did not. */
  lemma DecisionSettles(env: Env, x: Inputs)
    requires Trusted(env) && env.render(x.input) == Some(x.full)
    requires FreshDecide(env, x).value.Some?
    ensures var d := FreshDecide(env, x).value.value;
      && FreshDecide(env, Settled(x, d)).value == Some(d)
      && FreshDecide(env, Settled(x, d)).keys <= FreshDecide(env, x).keys
      && Settled(Settled(x, d), d) == Settled(x, d)
  {
    hide FreshJudge, Judge, FreshLint, FreshAnew;
    var d := FreshDecide(env, x).value.value;
    var y := Settled(x, d);
    JudgeIgnoresStatus(env, x, y, Masked(x));
    if d.Apply? {
      if d.excluded == map[] {
        WholeSettles(env, x);
      } else {
        AnewSettles(env, x, y, d.output, d.excluded);
        if y.Applied(env, x.full) { SameContentSettles(env, x); }
      }
    }
  }

  /** The validator says which check rejected a config. */
  ghost predicate NeverBlank(env: Env) {
    forall json, edition, mode :: env.validate(json, edition, mode) != Some(Rejection([], StageUnknown))
  }

  lemma KeptIsKnown(env: Env, kept: Kept, keys: set<Key>)
    requires NeverBlank(env) && VerdictMemo.Sound(env, kept) && keys <= kept.Keys
    ensures forall k :: k in keys ==> Pass(kept, map[]).Knows(k)
  {
    hide TruncateEllipsis;
    forall k | k in keys ensures Pass(kept, map[]).Knows(k) {
      var json :| env.hash(json) == k.checksum && kept[k] == Judge(env, json, k.edition, k.mode);
      UntrustedIffBlank(env.validate(json, k.edition, k.mode));
    }
  }

  /** A first pass that decides, then n more on the same inputs: every one of
      them decides the same, and none runs the validator. */
  method RepeatPasses(r: Reconciler, x: Inputs, n: nat)
    returns (first: Option<Decision>, later: seq<Option<Decision>>, runs: nat)
    requires r.Valid() && Trusted(r.env) && NeverBlank(r.env) && r.verdicts.IsSound(r.env)
    requires r.env.render(x.input) == Some(x.full)
    modifies r.checker`runs, r.verdicts
    ensures r.verdicts.IsSound(r.env)
    ensures first.Some? ==> first == FreshDecide(r.env, x).value && r.checker.runs == runs
    ensures first.Some? ==> |later| == n && forall i :: 0 <= i < n ==> later[i] == first
    ensures (forall k :: old(r.checker.runs) <= k < runs ==> r.checker.available(k)) ==>
      first == FreshDecide(r.env, x).value
  {
    hide FreshDecide, VerdictMemo.Sound, Judge;
    first := r.DecidePass(x);
    runs, later := r.checker.runs, [];
    if first.None? { return; }
    DecisionSettles(r.env, x);
    var y := Settled(x, first.value);
    for i := 0 to n
      invariant r.verdicts.IsSound(r.env) && r.checker.runs == runs
      invariant FreshDecide(r.env, y).keys <= KeptFor(r.verdicts.owners, x.input.gateway.name).Keys
      invariant FreshDecide(r.env, y).value == first
      invariant |later| == i && forall j :: 0 <= j < i ==> later[j] == first
    {
      OwnerSound(r.env, r.verdicts.owners, x.input.gateway.name);
      KeptIsKnown(r.env, KeptFor(r.verdicts.owners, x.input.gateway.name), FreshDecide(r.env, y).keys);
      var again := r.DecidePass(y);
      later := later + [again];
    }
  }

  /** A pass on some inputs, or a gateway that is gone. */
  datatype PassStep = Decides(x: Inputs) | Forgotten(owner: Name)

  /** Over any passes of any gateways, whichever runs of the validator can be
      made, each remembered verdict is what a fresh check of it returns. */
  method RunPasses(r: Reconciler, steps: seq<PassStep>)
    requires r.Valid() && Trusted(r.env) && r.verdicts.IsSound(r.env)
    modifies r.checker`runs, r.verdicts
    ensures r.verdicts.IsSound(r.env)
  {
    hide FreshDecide, VerdictMemo.Sound;
    for i := 0 to |steps|
      invariant r.verdicts.IsSound(r.env)
    {
      match steps[i]
      case Decides(x) =>
        if x.full.checksum == r.env.hash(x.full.json) {
          var d := r.DecidePass(x);
        }
      case Forgotten(owner) => r.verdicts.Forget(owner);
    }
  }

  lemma OwnerSound(env: Env, owners: map<Name, Kept>, owner: Name)
    requires forall o :: o in owners ==> VerdictMemo.Sound(env, owners[o])
    ensures VerdictMemo.Sound(env, KeptFor(owners, owner))
  {}
}
