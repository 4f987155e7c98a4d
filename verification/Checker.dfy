/** The config checks, answered from a pass's memo when it already judged the
    same content. A run of the validator may be unavailable. */
module Checker {
  import opened Base
  import opened Verdicts
  import opened VerdictMemo

  /** What a check does to its pass, whatever the memo held: a result is the
      fresh one, and then the pass has used exactly the contents it judges; a
      check whose contents are all known runs nothing and has one; and so has
      every check whose runs could all be made. */
  ghost predicate Checked<T(!new)>(env: Env, available: nat -> bool, p: Pass, q: Pass, f: Fresh<T>, r: Option<T>,
      before: nat, after: nat)
  {
    && PassSound(env, q) && q.kept == p.kept && before <= after
    && p.used.Keys <= q.used.Keys <= p.used.Keys + f.keys
    && (forall k :: p.Knows(k) ==> q.Knows(k))
    && (r.Some? ==> r == f.value && q.used.Keys == p.used.Keys + f.keys)
    && ((forall k :: k in f.keys ==> p.Knows(k)) ==> r == f.value && after == before)
    && ((forall n :: before <= n < after ==> available(n)) ==> r == f.value)
  }

  /** One check after another that gave a result, and the result drawn from
      the second. */
  lemma Then<S(!new), T(!new), U(!new)>(env: Env, available: nat -> bool, p: Pass, q: Pass, t: Pass, f: Fresh<S>,
      g: Fresh<T>, whole: Fresh<U>, r1: Option<S>, r2: Option<T>, r: Option<U>, a: nat, b: nat, c: nat)
    requires Checked(env, available, p, q, f, r1, a, b) && r1.Some?
    requires Checked(env, available, q, t, g, r2, b, c)
    requires whole.keys == f.keys + g.keys
    requires r2.Some? ==> r == whole.value
    requires r2.None? ==> r.None?
    requires g.value.None? ==> whole.value.None?
    ensures Checked(env, available, p, t, whole, r, a, c)
  {}

  /** A check that gave no result ends the whole. */
  lemma Ends<S(!new), T(!new)>(env: Env, available: nat -> bool, p: Pass, q: Pass, f: Fresh<S>, whole: Fresh<T>,
      r: Option<S>, a: nat, b: nat)
    requires Checked(env, available, p, q, f, r, a, b) && r.None?
    requires f.keys <= whole.keys
    requires f.value.None? ==> whole.value.None?
    ensures Checked(env, available, p, q, whole, None, a, b)
  {}

  lemma NothingChecked<T(!new)>(env: Env, available: nat -> bool, p: Pass, value: Option<T>, runs: nat)
    requires PassSound(env, p)
    ensures Checked(env, available, p, p, Fresh(value, {}), value, runs, runs)
  {}

  /** A policy check that ends early ends the whole list. */
  lemma {:induction false} PoliciesEnd(env: Env, policies: Policies, keys: seq<Name>, i: nat)
    requires i <= |keys|
    ensures FreshPolicies(env, policies, keys[..i]).keys <= FreshPolicies(env, policies, keys).keys
    ensures var front := FreshPolicies(env, policies, keys[..i]);
      front.value.None? || front.value.value.Missing? ==> FreshPolicies(env, policies, keys) == front
  {
    if i == |keys| {
      assert keys[..i] == keys;
    } else {
      var shorter := keys[..|keys| - 1];
      PoliciesEnd(env, policies, shorter, i);
      assert shorter[..i] == keys[..i];
    }
  }

  class Checker {
    const env: Env
    /** Whether the validator's n-th run can be made. */
    const available: nat -> bool
    var runs: nat

    constructor (env: Env, available: nat -> bool)
      ensures this.env == env && this.available == available && runs == 0
    {
      this.env, this.available, runs := env, available, 0;
    }

    ghost predicate Ready(memo: PassMemo)
      reads memo
    {
      Trusted(env) && PassSound(env, memo.Value())
    }

    /** Judges out in mode as edition. None: the validator was unavailable, and
        nothing is stored. */
    method Remembered(out: Rendered, edition: Edition, mode: Mode, memo: PassMemo) returns (r: Option<Judgement>)
      requires Ready(memo) && out.checksum == env.hash(out.json)
      modifies this`runs, memo
      ensures Checked(env, available, old(memo.Value()), memo.Value(),
                      Fresh(Some(Judge(env, out.json, edition, mode)), {KeyFor(out, edition, mode)}), r,
                        old(runs), runs)
    {
      hide Judge, Sound, Trusted;
      StoredSound(env, memo.Value(), out.json, edition, mode);
      var key := KeyFor(out, edition, mode);
      var kept := memo.Lookup(key);
      if kept.Some? && IsJudged(kept.value) { return kept; }
      StoredSound(env, memo.Value(), out.json, edition, mode);
      runs := runs + 1;
      if !available(runs - 1) { return None; }
      var verdict := Judge(env, out.json, edition, mode);
      memo.Store(key, verdict);
      return Some(verdict);
    }

    /** Renders input and lints the render. What is masked comes from this
        render, never from the memo. */
    method LintInput(input: RenderInput, memo: PassMemo) returns (r: Option<Verdict>)
      requires Ready(memo)
      modifies this`runs, memo
      ensures Checked(env, available, old(memo.Value()), memo.Value(), FreshLint(env, input), r, old(runs), runs)
    {
      hide Judge;
      match env.render(input)
      case None => return None;
      case Some(out) =>
        var judgement := Remembered(out, EditionFor(input.gateway, input.ceFallback), Lint, memo);
        if judgement.None? { return None; }
        return Some(Verdict(judgement.value, out.masked));
    }

    /** Each policy the endpoint references, alone. */
    method CheckPolicies(policies: Policies, keys: seq<Name>, memo: PassMemo) returns (r: Option<PolicyCheck>)
      requires Ready(memo)
      modifies this`runs, memo
      ensures Checked(env, available, old(memo.Value()), memo.Value(), FreshPolicies(env, policies, keys), r,
        old(runs), runs)
    {
      hide FreshLint, FreshPolicies, Checked, PassSound, Trusted;
      var failing: seq<Name> := [];
      PoliciesStart(env, policies, keys);
      NothingChecked(env, available, memo.Value(), Some(Failing([])), runs);
      for i := 0 to |keys|
        invariant Ready(memo)
        invariant Checked(env, available, old(memo.Value()), memo.Value(), FreshPolicies(env, policies, keys[..i]),
                          Some(Failing(failing)), old(runs), runs)
      {
        ghost var p, a, front := memo.Value(), runs, FreshPolicies(env, policies, keys[..i]);
        ghost var more := FreshPolicies(env, policies, keys[..i + 1]);
        PoliciesNext(env, policies, keys, i);
        PoliciesEnd(env, policies, keys, i + 1);
        GivenIsFresh(env, available, old(memo.Value()), p, front, Some(Failing(failing)), old(runs), a);
        if keys[i] !in policies {
          NothingChecked(env, available, p, Some(Missing), a);
          Then(env, available, old(memo.Value()), p, p, front, Fresh(Some(Missing), {}), more,
               Some(Failing(failing)), Some(Missing), Some(Missing), old(runs), a, a);
          return Some(Missing);
        }
        ghost var lint := FreshLint(env, PolicyAlone(policies[keys[i]]));
        var alone := LintInput(PolicyAlone(policies[keys[i]]), memo);
        GivenIsFresh(env, available, p, memo.Value(), lint, alone, a, runs);
        if alone.None? {
          Then(env, available, old(memo.Value()), p, memo.Value(), front, lint, more,
               Some(Failing(failing)), alone, None, old(runs), a, runs);
          Ends(env, available, old(memo.Value()), memo.Value(), more, FreshPolicies(env, policies, keys), None,
            old(runs), runs);
          return None;
        }
        ghost var failingBefore := failing;
        if !alone.value.judgement.ok {
          failing := failing + [policies[keys[i]].name];
        } else {
          assert failing + [] == failing;
        }
        Then(env, available, old(memo.Value()), p, memo.Value(), front, lint, more,
             Some(Failing(failingBefore)), alone, Some(Failing(failing)), old(runs), a, runs);
      }
      assert keys[..|keys|] == keys;
      return Some(Failing(failing));
    }

    /** The gateway root with the endpoint and, when that fails, again with the
        policies of other namespaces rendered empty. */
    method CheckUnit(u: Unit, memo: PassMemo) returns (r: Option<EndpointVerdict>)
      requires Ready(memo) && AllPresent(u)
      modifies this`runs, memo
      ensures Checked(env, available, old(memo.Value()), memo.Value(), FreshUnit(env, u), r, old(runs), runs)
    {
      hide FreshLint, Checked, PassSound, Trusted, Emptied, ForeignPolicies;
      ghost var p0, whole0 := memo.Value(), FreshLint(env, UnitInput(u, u.policies));
      var whole := LintInput(UnitInput(u, u.policies), memo);
      GivenIsFresh(env, available, p0, memo.Value(), whole0, whole, old(runs), runs);
      if whole.None? {
        Ends(env, available, p0, memo.Value(), whole0, FreshUnit(env, u), None, old(runs), runs);
        return None;
      }
      var foreign := Foreign(u);
      if whole.value.judgement.ok || foreign == [] {
        r := Some(if whole.value.judgement.ok then Passes
                  else Fails(EndpointInvalid, [], false, whole.value.judgement.output));
        NothingChecked(env, available, memo.Value(), r, runs);
        Then(env, available, p0, memo.Value(), memo.Value(), whole0, Fresh(r, {}), FreshUnit(env, u), whole, r, r,
          old(runs), runs, runs);
        return;
      }
      ghost var p1, a, own0 := memo.Value(), runs, FreshLint(env, UnitInput(u, Emptied(u.policies, foreign)));
      var own := LintInput(UnitInput(u, Emptied(u.policies, foreign)), memo);
      GivenIsFresh(env, available, p1, memo.Value(), own0, own, a, runs);
      if own.None? {
        r := None;
      } else if own.value.judgement.ok {
        r := Some(Fails(PolicyInvalid, foreign, false, []));
      } else {
        r := Some(Fails(EndpointInvalid, [], false, own.value.judgement.output));
      }
      Then(env, available, p0, p1, memo.Value(), whole0, own0, FreshUnit(env, u), whole, own, r, old(runs), a, runs);
    }

    /** Judges the endpoint on its own. */
    method CheckEndpoint(u: Unit, memo: PassMemo) returns (r: Option<EndpointVerdict>)
      requires Ready(memo)
      modifies this`runs, memo
      ensures Checked(env, available, old(memo.Value()), memo.Value(), FreshEndpoint(env, u), r, old(runs), runs)
    {
      hide FreshPolicies, FreshUnit, Checked, PassSound, Trusted;
      var keys := u.endpoint.policyKeys;
      ghost var p0, alone0 := memo.Value(), FreshPolicies(env, u.policies, keys);
      FailingMeansPresent(env, u.policies, keys);
      var alone := CheckPolicies(u.policies, keys, memo);
      GivenIsFresh(env, available, p0, memo.Value(), alone0, alone, old(runs), runs);
      if alone.None? {
        Ends(env, available, p0, memo.Value(), alone0, FreshEndpoint(env, u), None, old(runs), runs);
        return None;
      }
      if alone.value.Missing? || alone.value.policies != [] {
        r := Some(if alone.value.Missing? then Passes else Fails(PolicyInvalid, alone.value.policies, true, []));
        NothingChecked(env, available, memo.Value(), r, runs);
        Then(env, available, p0, memo.Value(), memo.Value(), alone0, Fresh(r, {}), FreshEndpoint(env, u),
             alone, r, r, old(runs), runs, runs);
        return;
      }
      ghost var p1, a, rest0 := memo.Value(), runs, FreshUnit(env, u);
      r := CheckUnit(u, memo);
      GivenIsFresh(env, available, p1, memo.Value(), rest0, r, a, runs);
      Then(env, available, p0, p1, memo.Value(), alone0, rest0, FreshEndpoint(env, u), alone, r, r, old(runs), a, runs);
    }
  }

  lemma GivenIsFresh<T(!new)>(env: Env, available: nat -> bool, p: Pass, q: Pass, f: Fresh<T>, r: Option<T>, a: nat,
      b: nat)
    requires Checked(env, available, p, q, f, r, a, b)
    ensures r.Some? ==> r == f.value
    ensures PassSound(env, q)
  {}

  lemma PoliciesStart(env: Env, policies: Policies, keys: seq<Name>)
    ensures FreshPolicies(env, policies, keys[..0]) == Fresh(Some(Failing([])), {})
  {}

  /** What checking one more policy adds to a list none of which is missing. */
  lemma PoliciesNext(env: Env, policies: Policies, keys: seq<Name>, i: nat)
    requires i < |keys|
    ensures var front, more := FreshPolicies(env, policies, keys[..i]), FreshPolicies(env, policies, keys[..i + 1]);
      front.value.Some? && front.value.value.Failing? ==>
        if keys[i] !in policies then more == Fresh(Some(Missing), front.keys)
        else
          var alone := FreshLint(env, PolicyAlone(policies[keys[i]]));
          && more.keys == front.keys + alone.keys
          && (alone.value.None? ==> more.value.None?)
          && (alone.value.Some? ==>
                var own := if alone.value.value.judgement.ok then [] else [policies[keys[i]].name];
                more.value == Some(Failing(front.value.value.policies + own)))
  {
    hide FreshLint;
    assert keys[..i + 1][..i] == keys[..i];
  }
}
