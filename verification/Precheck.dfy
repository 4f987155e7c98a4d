/** Which of the endpoints a pass would write it must hold. */
module Precheck {
  import opened Base
  import opened Clash
  import opened Cluster
  import opened RouteCollisions
  import Verdicts

  // ---- Holds ----

  /** Why an endpoint is not written. */
  datatype Hold =
    | LosesRoute(survivor: string)
    | UsesEnterpriseOnly
    | NewClash(clash: Clash)
    | ClashesCapped
    | FailsAlone(verdict: Verdicts.EndpointVerdict)
    | Refused(error: Error)

  type Holds = map<string, Hold>

  function WithoutHeld(eps: seq<Desired>, held: set<string>): (r: seq<Desired>)
    ensures forall ep :: ep in r <==> ep in eps && ep.name !in held
    ensures |r| <= |eps|
    ensures (exists ep :: ep in eps && ep.name in held) ==> |r| < |eps|
  {
    if eps == [] then []
    else (if eps[0].name in held then [] else [eps[0]]) + WithoutHeld(eps[1..], held)
  }

  lemma {:induction false} WithoutHeldIsDistinct(eps: seq<Desired>, held: set<string>)
    requires Distinct(eps)
    ensures Distinct(WithoutHeld(eps, held))
  {
    if eps != [] {
      WithoutHeldIsDistinct(eps[1..], held);
      assert forall ep :: ep in eps[1..] ==> ep.name != eps[0].name;
    }
  }

  lemma {:induction false} WithoutHeldTwice(eps: seq<Desired>, a: set<string>, b: set<string>)
    ensures WithoutHeld(WithoutHeld(eps, a), b) == WithoutHeld(eps, a + b)
  {
    if eps != [] {
      var rest := WithoutHeld(eps[1..], a);
      WithoutHeldTwice(eps[1..], a, b);
      if eps[0].name in a {
        assert WithoutHeld(eps, a) == [] + rest == rest;
      } else {
        HeadOf(eps[0], rest, b);
        assert WithoutHeld(eps, a) == [eps[0]] + rest;
      }
    }
  }

  lemma HeadOf(ep: Desired, rest: seq<Desired>, held: set<string>)
    ensures WithoutHeld([ep] + rest, held) == (if ep.name in held then [] else [ep]) + WithoutHeld(rest, held)
  {
    assert ([ep] + rest)[1..] == rest;
  }

  lemma {:induction false} WithoutNobody(eps: seq<Desired>)
    ensures WithoutHeld(eps, {}) == eps
  {
    if eps != [] { WithoutNobody(eps[1..]); }
  }

  /** Some endpoint of eps is called n. */
  ghost predicate Named(eps: seq<Desired>, n: string) {
    exists ep :: ep in eps && ep.name == n
  }

  // ---- The checks ----

  /** An endpoint as a check renders it: as it will be written, with the
      creation time the cluster gives it, or stored but emptied. */
  datatype Replacement = Candidate(ep: Desired, created: int) | Emptied(stored: Stored)

  type CheckSet = map<string, Replacement>

  /** The candidates and, when withoutStale, each stale endpoint emptied. */
  function CheckSetOf(candidates: seq<Desired>, stale: Objects, order: CreationOrder, withoutStale: bool): CheckSet
    requires Distinct(candidates)
  {
    (map ep | ep in candidates :: ep.name := Candidate(ep, CreatedAt(order, ep.name))) +
    if withoutStale then map n | n in stale :: Emptied(stale[n]) else map[]
  }

  /** What the checks say of the gateway (None: a check could not run): the
      conflicts of its render with some endpoints replaced, whether its root
      passes alone, the root with a group, and with one endpoint. */
  datatype Checks = Checks(
    namespace: string,
    conflicts: CheckSet -> Option<RouteConflicts>,
    rootPasses: Option<bool>,
    group: CheckSet -> Option<Verdicts.Verdict>,
    alone: Desired -> Option<Verdicts.EndpointVerdict>,
    enterpriseOnly: Desired -> bool)
  {
    function Key(ep: Desired): Name {
      Name(namespace, ep.name)
    }

    function Keys(eps: seq<Desired>): (keys: set<Name>) {
      set ep | ep in eps :: Key(ep)
    }
  }

  /** Every check can run. */
  ghost predicate AllRun(checks: Checks) {
    && checks.rootPasses.Some?
    && (forall replace :: checks.conflicts(replace).Some?)
    && (forall replace :: checks.group(replace).Some?)
    && (forall ep :: checks.alone(ep).Some?)
  }

  datatype GatewayRead = Missing | Unreadable | Found(ce: bool)

  // ---- What the precheck promises ----

  /** c is a clash that writing eps would add. */
  ghost predicate Adds(checks: Checks, eps: seq<Desired>, stale: Objects, order: CreationOrder, withoutStale: bool,
      c: Clash)
    requires Distinct(eps)
  {
    var before, after := checks.conflicts(map[]), checks.conflicts(CheckSetOf(eps, stale, order, withoutStale));
    before.Some? && after.Some? && IsNew(before.value, after.value, Some(checks.Keys(eps)), c)
  }

  ghost predicate Capped(checks: Checks, eps: seq<Desired>, stale: Objects, order: CreationOrder, withoutStale: bool)
    requires Distinct(eps)
  {
    var after := checks.conflicts(CheckSetOf(eps, stale, order, withoutStale));
    after.Some? && after.value.capped
  }

  /** Writing eps adds no clash, and none could go unnoticed. */
  ghost predicate Clear(checks: Checks, eps: seq<Desired>, stale: Objects, order: CreationOrder, withoutStale: bool)
    requires Distinct(eps)
  {
    eps != [] ==>
      && checks.conflicts(map[]).Some?
      && checks.conflicts(CheckSetOf(eps, stale, order, withoutStale)).Some?
      && !Capped(checks, eps, stale, order, withoutStale)
      && forall c :: !Adds(checks, eps, stale, order, withoutStale, c)
  }

  // ---- The same, from what the gateway's render says ----

  /** set is eps rendered as they will be written, with the creation time the
      cluster gives each, and with withoutStale each stale endpoint emptied.
      Nothing else is replaced. */
  ghost predicate Renders(replaced: CheckSet, eps: seq<Desired>, stale: Objects, order: CreationOrder,
      withoutStale: bool) {
    && replaced.Keys == Names(eps) + (if withoutStale then stale.Keys else {})
    && (forall ep :: ep in eps && (withoutStale ==> ep.name !in stale) ==>
          && ep.name in replaced
          && replaced[ep.name] == Candidate(ep, if ep.name in order then order[ep.name] else 253402300799))
    && (withoutStale ==> forall n :: n in stale ==> n in replaced && replaced[n] == Emptied(stale[n]))
  }

  lemma CheckSetRenders(eps: seq<Desired>, stale: Objects, order: CreationOrder, withoutStale: bool)
    requires Distinct(eps)
    ensures Renders(CheckSetOf(eps, stale, order, withoutStale), eps, stale, order, withoutStale)
  {
    forall ep | ep in eps ensures ep.name in Names(eps) {}
  }

  /** The entry of loser with e's method and path is lost to e's winner,
      whatever the router says of it. */
  ghost predicate AlreadyLoses(before: RouteConflicts, loser: Name, e: EntryConflict) {
    loser in before.lost && exists f | f in before.lost[loser] ::
      f.winner == e.winner && f.verb == e.verb && f.path == e.path
  }

  /** In the render with replaced, and not as the gateway is now, the entry e of
      loser is lost to the winner it names, in the router's words, and one of
      the two is in eps. */
  ghost predicate NewlyLoses(checks: Checks, eps: seq<Desired>, replaced: CheckSet, loser: Name, e: EntryConflict) {
    var before, after := checks.conflicts(map[]), checks.conflicts(replaced);
    && before.Some? && after.Some?
    && loser in after.value.lost && e in after.value.lost[loser] && e.detail != ""
    && !AlreadyLoses(before.value, loser, e)
    && (IsOneOf(checks, eps, loser) || IsOneOf(checks, eps, e.winner))
  }

  ghost predicate IsOneOf(checks: Checks, eps: seq<Desired>, key: Name) {
    key.namespace == checks.namespace && Named(eps, key.name)
  }

  /** Written over the gateway as it is, eps lose nobody a route and lose none,
      and the render tells. */
  ghost predicate LosesNothing(checks: Checks, eps: seq<Desired>, replaced: CheckSet) {
    && checks.conflicts(map[]).Some? && checks.conflicts(replaced).Some? && !checks.conflicts(replaced).value.capped
    && forall loser, e :: !NewlyLoses(checks, eps, replaced, loser, e)
  }

  /** ep loses an entry in the render with replaced, or wins one of an endpoint
      that is not in eps. */
  ghost predicate InTheWay(checks: Checks, eps: seq<Desired>, replaced: CheckSet, ep: Desired) {
    exists loser, e :: NewlyLoses(checks, eps, replaced, loser, e) &&
      (loser == checks.Key(ep) || (e.winner == checks.Key(ep) && !IsOneOf(checks, eps, loser)))
  }

  lemma OneOfKeys(checks: Checks, eps: seq<Desired>, key: Name)
    ensures key in checks.Keys(eps) <==> IsOneOf(checks, eps, key)
  {
    if IsOneOf(checks, eps, key) {
      var ep :| ep in eps && ep.name == key.name;
      assert checks.Key(ep) == key;
    }
  }

  lemma AddsIsNewlyLoses(checks: Checks, eps: seq<Desired>, stale: Objects, order: CreationOrder, withoutStale: bool,
      c: Clash)
    requires Distinct(eps)
    ensures Adds(checks, eps, stale, order, withoutStale, c) <==>
      NewlyLoses(checks, eps, CheckSetOf(eps, stale, order, withoutStale), c.loser, c.entry)
  {
    hide CheckSetOf, IsOneOf;
    OneOfKeys(checks, eps, c.loser);
    OneOfKeys(checks, eps, c.entry.winner);
    var before := checks.conflicts(map[]);
    if before.Some? { KnownByEntry(before.value, c); }
  }

  lemma KnownByEntry(before: RouteConflicts, c: Clash)
    ensures IsKnown(before, KeyOf(c.loser, c.entry)) <==> AlreadyLoses(before, c.loser, c.entry)
  {
    if c.loser in before.lost {
      forall f | f in before.lost[c.loser] &&
        f.winner == c.entry.winner && f.verb == c.entry.verb && f.path == c.entry.path
        ensures IsKnown(before, KeyOf(c.loser, c.entry))
      {
        assert Has(before, c.loser, f) && KeyOf(c.loser, f) == KeyOf(c.loser, c.entry);
      }
    }
  }

  lemma ClearLosesNothing(checks: Checks, eps: seq<Desired>, stale: Objects, order: CreationOrder, withoutStale: bool)
    requires Distinct(eps) && Clear(checks, eps, stale, order, withoutStale) && eps != []
    ensures exists replaced ::
      Renders(replaced, eps, stale, order, withoutStale) && LosesNothing(checks, eps, replaced)
  {
    hide CheckSetOf, Renders, NewlyLoses;
    var replaced := CheckSetOf(eps, stale, order, withoutStale);
    CheckSetRenders(eps, stale, order, withoutStale);
    forall loser, e ensures !NewlyLoses(checks, eps, replaced, loser, e) {
      AddsIsNewlyLoses(checks, eps, stale, order, withoutStale, Clash(loser, e));
    }
  }

  // ---- Holds for a cause ----

  /** The candidate a clash holds: the loser, or else the winner. */
  predicate Blames(checks: Checks, eps: seq<Desired>, c: Clash, ep: Desired) {
    ep in eps && if c.loser in checks.Keys(eps) then checks.Key(ep) == c.loser else checks.Key(ep) == c.entry.winner
  }

  ghost predicate ClashHolds(checks: Checks, eps: seq<Desired>, stale: Objects, order: CreationOrder,
      withoutStale: bool, ep: Desired, hold: Hold)
    requires Distinct(eps)
  {
    if Capped(checks, eps, stale, order, withoutStale) then ep in eps && hold == ClashesCapped
    else
      && hold.NewClash? && Blames(checks, eps, hold.clash, ep)
      && Adds(checks, eps, stale, order, withoutStale, hold.clash)
  }

  /** ep fails on its own, and the group with eps does not vouch for it. */
  ghost predicate JudgedBad(checks: Checks, eps: seq<Desired>, order: CreationOrder, ep: Desired)
    requires Distinct(eps)
  {
    var group := checks.group(CheckSetOf(eps, map[], order, false));
    && ep in eps && checks.rootPasses == Some(true)
    && group.Some? && group.value.Suspect(checks.Key(ep))
    && checks.alone(ep).Some? && checks.alone(ep).value.Fails?
  }

  /** ep passes on its own, or the group with eps vouches for it. */
  ghost predicate VouchedFor(checks: Checks, eps: seq<Desired>, order: CreationOrder, ep: Desired)
    requires Distinct(eps)
  {
    var group := checks.group(CheckSetOf(eps, map[], order, false));
    && ep in eps && group.Some?
    && (group.value.Suspect(checks.Key(ep)) ==> checks.alone(ep).Some? && checks.alone(ep).value.Passes?)
  }

  /** ep is held for a reason some check of writes gives. */
  ghost predicate HeldForCause(checks: Checks, writes: seq<Desired>, stale: Objects, order: CreationOrder, ce: bool,
      ep: Desired, hold: Hold) {
    match hold
    case UsesEnterpriseOnly => ce && checks.enterpriseOnly(ep)
    case FailsAlone(v) => checks.rootPasses == Some(true) && checks.alone(ep) == Some(v) && v.Fails?
    case NewClash(_) => ClashCause(checks, writes, stale, order, ep, hold)
    case ClashesCapped => ClashCause(checks, writes, stale, order, ep, hold)
    case _ => false
  }

  ghost predicate ClashCause(checks: Checks, writes: seq<Desired>, stale: Objects, order: CreationOrder, ep: Desired,
      hold: Hold) {
    exists eps: seq<Desired>, withoutStale: bool ::
      Distinct(eps) && (forall e :: e in eps ==> e in writes) &&
        ClashHolds(checks, eps, stale, order, withoutStale, ep, hold)
  }

  ghost predicate AllForCause(checks: Checks, writes: seq<Desired>, stale: Objects, order: CreationOrder, ce: bool,
      held: Holds) {
    && (forall n :: n in held ==> Named(writes, n))
    && forall ep :: ep in writes && ep.name in held ==>
      HeldForCause(checks, writes, stale, order, ce, ep, held[ep.name])
  }

  /** Each of eps is vouched for by the group judged, or passes on its own. */
  ghost predicate AllVouchedFor(checks: Checks, judged: seq<Desired>, order: CreationOrder, eps: seq<Desired>) {
    Distinct(judged) && forall ep :: ep in eps ==> VouchedFor(checks, judged, order, ep)
  }

  /** What the endpoints a precheck lets through meet. */
  ghost predicate Passed(checks: Checks, ce: bool, all: seq<Desired>, stale: Objects, order: CreationOrder,
      withoutStale: bool, eps: seq<Desired>) {
    && Distinct(eps) && Clear(checks, eps, stale, order, withoutStale)
    && (ce ==> forall ep :: ep in eps ==> !checks.enterpriseOnly(ep))
    && SomeGroupVouches(checks, all, order, eps)
  }

  // ---- The checks of one round ----

  method HoldAll(eps: seq<Desired>, hold: Hold) returns (held: Holds)
    ensures held.Keys == Names(eps) && forall n :: n in held ==> held[n] == hold
  {
    held := map[];
    for i := 0 to |eps|
      invariant forall n :: n in held <==> exists j :: 0 <= j < i && eps[j].name == n
      invariant forall n :: n in held ==> held[n] == hold
    {
      held := held[eps[i].name := hold];
    }
  }

  method CandidatesByKey(checks: Checks, eps: seq<Desired>) returns (candidates: map<Name, Desired>)
    requires Distinct(eps)
    ensures candidates.Keys == checks.Keys(eps)
    ensures forall key :: key in candidates ==> candidates[key] in eps && checks.Key(candidates[key]) == key
  {
    candidates := map[];
    for i := 0 to |eps|
      invariant candidates.Keys == checks.Keys(eps[..i])
      invariant forall key :: key in candidates ==> candidates[key] in eps && checks.Key(candidates[key]) == key
    {
      assert eps[..i + 1] == eps[..i] + [eps[i]];
      candidates := candidates[checks.Key(eps[i]) := eps[i]];
    }
    assert eps[..|eps|] == eps;
  }

  /** held names the blamed candidate of each of clashes, with one of them. */
  ghost predicate HoldsBlamed(checks: Checks, eps: seq<Desired>, clashes: seq<Clash>, held: Holds) {
    && (forall n :: n in held ==> Named(eps, n))
    && (forall ep :: ep in eps && ep.name in held ==>
          held[ep.name].NewClash? && held[ep.name].clash in clashes && Blames(checks, eps, held[ep.name].clash, ep))
    && (forall c, ep :: c in clashes && Blames(checks, eps, c, ep) ==> ep.name in held)
    && (clashes != [] ==> held != map[])
  }

  method HoldBlamed(checks: Checks, eps: seq<Desired>, clashes: seq<Clash>) returns (held: Holds)
    requires Distinct(eps)
    requires forall c :: c in clashes ==> Involves(Some(checks.Keys(eps)), c.loser, c.entry.winner)
    ensures HoldsBlamed(checks, eps, clashes, held)
  {
    var candidates := CandidatesByKey(checks, eps);
    held := map[];
    for i := 0 to |clashes|
      invariant HoldsBlamed(checks, eps, clashes[..i], held)
    {
      var c := clashes[i];
      var key := if c.loser in candidates then c.loser else c.entry.winner;
      var blamed := candidates[key];
      var was := held;
      held := held[blamed.name := NewClash(c)];
      assert clashes[..i + 1] == clashes[..i] + [c];
      BlameOneMore(checks, eps, clashes[..i], c, blamed, was, held);
    }
    assert clashes[..|clashes|] == clashes;
  }

  lemma BlameOneMore(checks: Checks, eps: seq<Desired>, clashes: seq<Clash>, c: Clash, blamed: Desired, was: Holds,
      held: Holds)
    requires Distinct(eps) && HoldsBlamed(checks, eps, clashes, was) && Blames(checks, eps, c, blamed)
    requires held == was[blamed.name := NewClash(c)]
    ensures HoldsBlamed(checks, eps, clashes + [c], held)
  {
    assert blamed.name in held;
    forall ep | ep in eps && ep.name == blamed.name ensures ep == blamed { SameName(eps, ep, blamed); }
    forall ep | ep in eps && Blames(checks, eps, c, ep) ensures ep.name == blamed.name {}
  }

  /** Holds each candidate that, written, takes part in a clash the gateway
      does not have now, and every one when a new clash cannot be told apart. */
  method RouterClashes(checks: Checks, writes: seq<Desired>, stale: Objects, order: CreationOrder, withoutStale: bool)
    returns (ran: bool, held: Holds)
    requires Distinct(writes)
    ensures forall n :: n in held ==> Named(writes, n)
    ensures forall ep :: ep in writes && ep.name in held ==>
              ClashHolds(checks, writes, stale, order, withoutStale, ep, held[ep.name])
    ensures AllRun(checks) ==> ran
    ensures ran && held == map[] ==> Clear(checks, writes, stale, order, withoutStale)
    ensures ran && !Capped(checks, writes, stale, order, withoutStale) ==>
              forall c, ep :: Adds(checks, writes, stale, order, withoutStale, c) && Blames(checks, writes, c, ep) ==>
                ep.name in held
    ensures ran && writes != [] ==> exists replaced ::
      Renders(replaced, writes, stale, order, withoutStale) && HoldsInTheWay(checks, writes, replaced, held)
  {
    hide IsNew, Blames, Renders, HoldsInTheWay, ClashHolds, Adds, Clear, CheckSetOf, Named, Involves;
    if writes != [] { CheckSetRenders(writes, stale, order, withoutStale); }
    held := map[];
    if writes == [] {
      NobodyToBlame(checks, stale, order, withoutStale);
      return true, held;
    }
    ghost var replaced := CheckSetOf(writes, stale, order, withoutStale);
    var before := checks.conflicts(map[]);
    if before.None? { return false, held; }
    var after := checks.conflicts(CheckSetOf(writes, stale, order, withoutStale));
    if after.None? { return false, held; }
    if after.value.capped {
      held := HoldAll(writes, ClashesCapped);
      AllInTheWay(checks, writes, replaced, held);
      CappedHolds(checks, writes, stale, order, withoutStale, held);
      return true, held;
    }
    var clashes := NewClashes(before.value, after.value, Some(checks.Keys(writes)));
    InvolveCandidates(checks, writes, before.value, after.value);
    held := HoldBlamed(checks, writes, clashes);
    NewAreAdded(checks, writes, stale, order, withoutStale, clashes);
    BlamedHolds(checks, writes, stale, order, withoutStale, clashes, held);
    BlamedAreInTheWay(checks, writes, stale, order, withoutStale, clashes, held);
    return true, held;
  }

  /** Exactly the endpoints of eps in the way are held, or all of them when the
      render with replaced cannot tell; and what loses nothing is not held. */
  ghost predicate HoldsInTheWay(checks: Checks, eps: seq<Desired>, replaced: CheckSet, held: Holds) {
    && checks.conflicts(replaced).Some?
    && (forall ep :: ep in eps ==>
          (ep.name in held <==>
             checks.conflicts(replaced).value.capped || InTheWay(checks, eps, replaced, ep)))
    && (held == map[] ==> LosesNothing(checks, eps, replaced))
  }

  lemma AllInTheWay(checks: Checks, eps: seq<Desired>, replaced: CheckSet, held: Holds)
    requires checks.conflicts(replaced).Some? && checks.conflicts(replaced).value.capped
    requires eps != [] && held.Keys == Names(eps)
    ensures HoldsInTheWay(checks, eps, replaced, held)
  {
    hide InTheWay, LosesNothing;
    assert eps[0].name in held;
    forall ep | ep in eps ensures ep.name in held {}
  }

  lemma BlamedIsInTheWay(checks: Checks, eps: seq<Desired>, replaced: CheckSet, c: Clash, ep: Desired)
    requires NewlyLoses(checks, eps, replaced, c.loser, c.entry) && Blames(checks, eps, c, ep)
    ensures InTheWay(checks, eps, replaced, ep)
  {
    hide NewlyLoses;
    OneOfKeys(checks, eps, c.loser);
  }

  lemma InTheWayIsBlamed(checks: Checks, eps: seq<Desired>, c: Clash, ep: Desired)
    requires ep in eps
    requires c.loser == checks.Key(ep) || (c.entry.winner == checks.Key(ep) && !IsOneOf(checks, eps, c.loser))
    ensures Blames(checks, eps, c, ep)
  {
    OneOfKeys(checks, eps, c.loser);
  }

  lemma BlamedAreInTheWay(checks: Checks, eps: seq<Desired>, stale: Objects, order: CreationOrder, withoutStale: bool,
      clashes: seq<Clash>, held: Holds)
    requires Distinct(eps) && HoldsBlamed(checks, eps, clashes, held)
    requires forall c :: c in clashes <==> Adds(checks, eps, stale, order, withoutStale, c)
    requires checks.conflicts(map[]).Some?
    requires var after := checks.conflicts(CheckSetOf(eps, stale, order, withoutStale));
      after.Some? && !after.value.capped
    ensures HoldsInTheWay(checks, eps, CheckSetOf(eps, stale, order, withoutStale), held)
  {
    hide CheckSetOf, Adds, Blames, NewlyLoses, IsOneOf;
    var replaced := CheckSetOf(eps, stale, order, withoutStale);
    forall c ensures c in clashes <==> NewlyLoses(checks, eps, replaced, c.loser, c.entry) {
      AddsIsNewlyLoses(checks, eps, stale, order, withoutStale, c);
    }
    forall ep | ep in eps ensures ep.name in held <==> InTheWay(checks, eps, replaced, ep) {
      if ep.name in held { BlamedIsInTheWay(checks, eps, replaced, held[ep.name].clash, ep); }
      if loser, e :| NewlyLoses(checks, eps, replaced, loser, e) &&
                     (loser == checks.Key(ep) || (e.winner == checks.Key(ep) && !IsOneOf(checks, eps, loser))) {
        var c := Clash(loser, e);
        assert c in clashes;
        InTheWayIsBlamed(checks, eps, c, ep);
      }
    }
    if held == map[] {
      forall loser, e ensures !NewlyLoses(checks, eps, replaced, loser, e) { assert Clash(loser, e) !in clashes; }
    }
  }

  lemma NobodyToBlame(checks: Checks, stale: Objects, order: CreationOrder, withoutStale: bool)
    ensures forall c, ep :: !Blames(checks, [], c, ep)
    ensures Clear(checks, [], stale, order, withoutStale)
  {}

  lemma CappedHolds(checks: Checks, eps: seq<Desired>, stale: Objects, order: CreationOrder, withoutStale: bool,
      held: Holds)
    requires Distinct(eps) && eps != [] && Capped(checks, eps, stale, order, withoutStale)
    requires held.Keys == Names(eps) && forall n :: n in held ==> held[n] == ClashesCapped
    ensures held != map[] && forall n :: n in held ==> Named(eps, n)
    ensures forall ep :: ep in eps && ep.name in held ==>
      ClashHolds(checks, eps, stale, order, withoutStale, ep, held[ep.name])
  {
    hide Capped, Distinct;
    assert eps[0].name in held;
  }

  lemma NewAreAdded(checks: Checks, eps: seq<Desired>, stale: Objects, order: CreationOrder, withoutStale: bool,
      clashes: seq<Clash>)
    requires Distinct(eps) && checks.conflicts(map[]).Some?
    requires var after := checks.conflicts(CheckSetOf(eps, stale, order, withoutStale));
      && after.Some?
      && forall c :: c in clashes <==>
           IsNew(checks.conflicts(map[]).value, after.value, Some(checks.Keys(eps)), c)
    ensures forall c :: c in clashes <==> Adds(checks, eps, stale, order, withoutStale, c)
  {
    hide IsNew, CheckSetOf, Distinct;
  }

  lemma BlamedHolds(checks: Checks, eps: seq<Desired>, stale: Objects, order: CreationOrder, withoutStale: bool,
      clashes: seq<Clash>, held: Holds)
    requires Distinct(eps) && HoldsBlamed(checks, eps, clashes, held)
    requires checks.conflicts(map[]).Some?
    requires checks.conflicts(CheckSetOf(eps, stale, order, withoutStale)).Some?
    requires !Capped(checks, eps, stale, order, withoutStale)
    requires forall c :: c in clashes <==> Adds(checks, eps, stale, order, withoutStale, c)
    ensures forall n :: n in held ==> Named(eps, n)
    ensures forall ep :: ep in eps && ep.name in held ==>
      ClashHolds(checks, eps, stale, order, withoutStale, ep, held[ep.name])
    ensures held == map[] ==> Clear(checks, eps, stale, order, withoutStale)
    ensures forall c, ep :: Adds(checks, eps, stale, order, withoutStale, c) && Blames(checks, eps, c, ep) ==>
      ep.name in held
  {
    hide Adds, Capped, Blames, CheckSetOf, Distinct, Named;
  }

  lemma InvolveCandidates(checks: Checks, eps: seq<Desired>, before: RouteConflicts, after: RouteConflicts)
    ensures forall c :: IsNew(before, after, Some(checks.Keys(eps)), c) ==>
      Involves(Some(checks.Keys(eps)), c.loser, c.entry.winner)
  {}

  lemma Judged(checks: Checks, eps: seq<Desired>, order: CreationOrder, ep: Desired)
    requires Distinct(eps) && ep in eps && checks.rootPasses == Some(true)
    requires checks.group(CheckSetOf(eps, map[], order, false)).Some?
    ensures var suspect := checks.group(CheckSetOf(eps, map[], order, false)).value.Suspect(checks.Key(ep));
      && (suspect && checks.alone(ep).Some? && checks.alone(ep).value.Fails? ==> JudgedBad(checks, eps, order, ep))
      && (!suspect || (checks.alone(ep).Some? && !checks.alone(ep).value.Fails?) ==> VouchedFor(checks, eps, order, ep))
  {
    hide CheckSetOf;
  }

  /** Holds each candidate that fails on its own: none when the root fails
      alone, and only those the group does not vouch for. */
  method JudgeCandidates(checks: Checks, candidates: seq<Desired>, order: CreationOrder)
    returns (ran: bool, held: Holds)
    requires Distinct(candidates)
    ensures AllRun(checks) ==> ran
    ensures forall n :: n in held ==> Named(candidates, n)
    ensures ran ==> forall ep :: ep in candidates ==> (ep.name in held <==> JudgedBad(checks, candidates, order, ep))
    ensures ran ==> forall ep :: ep in candidates && ep.name in held ==>
              held[ep.name].FailsAlone? && Some(held[ep.name].verdict) == checks.alone(ep)
    ensures ran && checks.rootPasses == Some(true) ==>
              forall ep :: ep in candidates && ep.name !in held ==> VouchedFor(checks, candidates, order, ep)
  {
    held := map[];
    if candidates == [] { return true, held; }
    if checks.rootPasses != Some(true) { return checks.rootPasses.Some?, held; }
    var group := checks.group(CheckSetOf(candidates, map[], order, false));
    if group.None? { return false, held; }
    for i := 0 to |candidates|
      invariant forall n :: n in held ==> Named(candidates[..i], n)
      invariant forall ep :: ep in candidates[..i] ==>
          (if ep.name in held then JudgedBad(checks, candidates, order, ep)
            else VouchedFor(checks, candidates, order, ep))
      invariant forall ep :: ep in candidates[..i] && ep.name in held ==>
        held[ep.name] == FailsAlone(checks.alone(ep).value)
    {
      var ep := candidates[i];
      assert candidates[..i + 1] == candidates[..i] + [ep];
      Judged(checks, candidates, order, ep);
      hide JudgedBad, VouchedFor, CheckSetOf;
      if group.value.Suspect(checks.Key(ep)) {
        var v := checks.alone(ep);
        if v.None? { return false, held; }
        if v.value.Fails? { held := held[ep.name := FailsAlone(v.value)]; }
      }
    }
    assert candidates[..|candidates|] == candidates;
    return true, held;
  }

  // ---- The precheck ----

  /** Holds the candidates that use what only the Enterprise edition serves. */
  method HoldEnterprise(checks: Checks, writes: seq<Desired>) returns (held: Holds)
    requires Distinct(writes)
    ensures forall n :: n in held ==> Named(writes, n) && held[n] == UsesEnterpriseOnly
    ensures forall ep :: ep in writes ==> (ep.name in held <==> checks.enterpriseOnly(ep))
  {
    held := map[];
    for i := 0 to |writes|
      invariant forall n :: n in held ==> Named(writes[..i], n) && held[n] == UsesEnterpriseOnly
      invariant forall ep :: ep in writes[..i] ==> (ep.name in held <==> checks.enterpriseOnly(ep))
    {
      var ep := writes[i];
      assert writes[..i + 1] == writes[..i] + [ep];
      if checks.enterpriseOnly(ep) { held := held[ep.name := UsesEnterpriseOnly]; }
    }
    assert writes[..|writes|] == writes;
  }

  lemma MergedKeys(a: Holds, b: Holds)
    ensures (a + b).Keys == a.Keys + b.Keys
    ensures b == map[] ==> a + b == a
  {}

  lemma MergeForCause(checks: Checks, writes: seq<Desired>, stale: Objects, order: CreationOrder, ce: bool, a: Holds,
      b: Holds)
    requires AllForCause(checks, writes, stale, order, ce, a) && AllForCause(checks, writes, stale, order, ce, b)
    ensures AllForCause(checks, writes, stale, order, ce, a + b)
  {
    hide HeldForCause;
  }

  lemma ClashesForCause(checks: Checks, writes: seq<Desired>, eps: seq<Desired>, stale: Objects, order: CreationOrder,
      ce: bool, withoutStale: bool, held: Holds)
    requires Distinct(writes) && Distinct(eps) && forall e :: e in eps ==> e in writes
    requires forall n :: n in held ==> Named(eps, n)
    requires forall ep :: ep in eps && ep.name in held ==>
      ClashHolds(checks, eps, stale, order, withoutStale, ep, held[ep.name])
    ensures AllForCause(checks, writes, stale, order, ce, held)
  {
    hide Blames, Adds, Capped, Distinct;
    forall ep | ep in writes && ep.name in held
      ensures HeldForCause(checks, writes, stale, order, ce, ep, held[ep.name])
    {
      var e :| e in eps && e.name == ep.name;
      SameName(writes, e, ep);
      assert ClashHolds(checks, eps, stale, order, withoutStale, ep, held[ep.name]);
    }
    forall n | n in held ensures Named(writes, n) {
      var e :| e in eps && e.name == n;
      assert e in writes;
    }
  }

  lemma JudgedForCause(checks: Checks, writes: seq<Desired>, eps: seq<Desired>, stale: Objects, order: CreationOrder,
      ce: bool, held: Holds)
    requires Distinct(writes) && Distinct(eps) && forall e :: e in eps ==> e in writes
    requires forall n :: n in held ==> Named(eps, n)
    requires forall ep :: ep in eps && ep.name in held ==> JudgedBad(checks, eps, order, ep)
    requires forall ep :: ep in eps && ep.name in held ==>
      held[ep.name].FailsAlone? && Some(held[ep.name].verdict) == checks.alone(ep)
    ensures AllForCause(checks, writes, stale, order, ce, held)
  {
    hide Distinct;
    forall ep | ep in writes && ep.name in held
      ensures HeldForCause(checks, writes, stale, order, ce, ep, held[ep.name])
    {
      var e :| e in eps && e.name == ep.name;
      SameName(writes, e, ep);
    }
    forall n | n in held ensures Named(writes, n) {
      var e :| e in eps && e.name == n;
      assert e in writes;
    }
  }

  /** After the holds so far, holds again what clashes until nothing new does:
      each round that goes on holds some endpoint still to be written. */
  method HoldClashing(checks: Checks, all: seq<Desired>, stale: Objects, order: CreationOrder, ce: bool, was: Holds)
    returns (ran: bool, held: Holds)
    requires Distinct(all) && AllForCause(checks, all, stale, order, ce, was)
    ensures AllRun(checks) ==> ran
    ensures ran ==> AllForCause(checks, all, stale, order, ce, held) && was.Keys <= held.Keys
    ensures ran ==>
      Distinct(WithoutHeld(all, held.Keys)) && Clear(checks, WithoutHeld(all, held.Keys), stale, order, false)
    ensures ran && WithoutHeld(all, held.Keys) != [] ==> exists replaced ::
      Renders(replaced, WithoutHeld(all, held.Keys), stale, order, false) &&
      LosesNothing(checks, WithoutHeld(all, held.Keys), replaced)
  {
    hide HeldForCause, ClashHolds, Adds, Capped, Distinct, AllForCause;
    held := was;
    var writes := WithoutHeld(all, held.Keys);
    WithoutHeldIsDistinct(all, held.Keys);
    while |writes| > 0
      invariant writes == WithoutHeld(all, held.Keys) && Distinct(writes)
      invariant AllForCause(checks, all, stale, order, ce, held) && was.Keys <= held.Keys
      decreases |writes|
    {
      var clashes;
      ran, clashes := RouterClashes(checks, writes, stale, order, false);
      if !ran { return false, held; }
      if clashes == map[] { return true, held; }
      ClashesForCause(checks, all, writes, stale, order, ce, false, clashes);
      MergeForCause(checks, all, stale, order, ce, held, clashes);
      SomeHeld(writes, clashes);
      WithoutHeldTwice(all, held.Keys, clashes.Keys);
      WithoutHeldIsDistinct(all, (held + clashes).Keys);
      MergedKeys(held, clashes);
      held := held + clashes;
      writes := WithoutHeld(writes, clashes.Keys);
    }
    return true, held;
  }

  lemma SomeHeld(writes: seq<Desired>, held: Holds)
    requires held != map[] && forall n :: n in held ==> Named(writes, n)
    ensures |WithoutHeld(writes, held.Keys)| < |writes|
  {
    var n :| n in held;
    assert Named(writes, n);
  }

  /** Some group of the endpoints to write vouches for eps. */
  ghost predicate SomeGroupVouches(checks: Checks, all: seq<Desired>, order: CreationOrder, eps: seq<Desired>) {
    checks.rootPasses == Some(true) ==>
      exists judged :: AllVouchedFor(checks, judged, order, eps) && forall ep :: ep in judged ==> ep in all
  }

  /** The first round: what clashes as the pass means to leave the gateway,
      then what fails on its own. settled: neither held anything more. */
  method FirstRound(checks: Checks, all: seq<Desired>, stale: Objects, order: CreationOrder, withoutStale: bool,
      ce: bool, was: Holds)
    returns (ran: bool, settled: bool, held: Holds)
    requires Distinct(all) && AllForCause(checks, all, stale, order, ce, was)
    ensures AllRun(checks) ==> ran
    ensures ran ==> AllForCause(checks, all, stale, order, ce, held) && was.Keys <= held.Keys
    ensures ran ==> SomeGroupVouches(checks, all, order, WithoutHeld(all, held.Keys))
    ensures ran && settled ==> held == was && Distinct(WithoutHeld(all, was.Keys))
    ensures ran && settled ==> Clear(checks, WithoutHeld(all, was.Keys), stale, order, withoutStale)
    ensures ran && !settled ==> held != map[]
    ensures ran && NothingAmiss(checks, WithoutHeld(all, was.Keys), stale, order, withoutStale) ==> settled
  {
    hide HeldForCause, ClashHolds, Adds, Capped, Distinct, JudgedBad, VouchedFor, AllForCause, Clear, Renders,
         NothingAmiss, HoldsInTheWay;
    held, settled := was, false;
    var candidates := WithoutHeld(all, held.Keys);
    WithoutHeldIsDistinct(all, held.Keys);
    var clashes, judged;
    ran, clashes := RouterClashes(checks, candidates, stale, order, withoutStale);
    if !ran { return; }
    ClashesForCause(checks, all, candidates, stale, order, ce, withoutStale, clashes);
    MergeForCause(checks, all, stale, order, ce, held, clashes);
    WithoutHeldTwice(all, held.Keys, clashes.Keys);
    MergedKeys(held, clashes);
    held := held + clashes;
    var writes := WithoutHeld(candidates, clashes.Keys);
    WithoutHeldIsDistinct(all, held.Keys);

    ran, judged := JudgeCandidates(checks, writes, order);
    if !ran { return; }
    JudgedForCause(checks, all, writes, stale, order, ce, judged);
    MergeForCause(checks, all, stale, order, ce, held, judged);
    WithoutHeldTwice(all, held.Keys, judged.Keys);
    MergedKeys(held, judged);
    held := held + judged;
    assert checks.rootPasses == Some(true) ==> AllVouchedFor(checks, writes, order, WithoutHeld(writes, judged.Keys));
    settled := clashes == map[] && judged == map[];
    if settled { WithoutNobody(candidates); }
    if NothingAmiss(checks, candidates, stale, order, withoutStale) {
      NobodyInTheWay(checks, candidates, stale, order, withoutStale, clashes);
      NobodyBad(checks, candidates, writes, stale, order, withoutStale, judged);
    }
  }

  /** Written as they are to be, eps lose nothing, and pass alone. */
  ghost predicate NothingAmiss(checks: Checks, eps: seq<Desired>, stale: Objects, order: CreationOrder,
      withoutStale: bool) {
    && (forall replaced | Renders(replaced, eps, stale, order, withoutStale) :: LosesNothing(checks, eps, replaced))
    && forall ep :: ep in eps ==> checks.alone(ep) == Some(Verdicts.Passes)
  }

  lemma NobodyInTheWay(checks: Checks, eps: seq<Desired>, stale: Objects, order: CreationOrder, withoutStale: bool,
      held: Holds)
    requires NothingAmiss(checks, eps, stale, order, withoutStale)
    requires forall n :: n in held ==> Named(eps, n)
    requires eps != [] ==> exists replaced ::
      Renders(replaced, eps, stale, order, withoutStale) && HoldsInTheWay(checks, eps, replaced, held)
    ensures held == map[]
  {
    hide Renders, NewlyLoses;
    if eps != [] {
      var replaced :| Renders(replaced, eps, stale, order, withoutStale) && HoldsInTheWay(checks, eps, replaced, held);
      assert LosesNothing(checks, eps, replaced);
      forall ep | ep in eps ensures ep.name !in held {}
    }
  }

  lemma NobodyBad(checks: Checks, all: seq<Desired>, eps: seq<Desired>, stale: Objects, order: CreationOrder,
      withoutStale: bool, held: Holds)
    requires NothingAmiss(checks, all, stale, order, withoutStale) && Distinct(eps)
    requires forall ep :: ep in eps ==> ep in all
    requires forall n :: n in held ==> Named(eps, n)
    requires forall ep :: ep in eps ==> (ep.name in held <==> JudgedBad(checks, eps, order, ep))
    ensures held == map[]
  {
    hide Renders, LosesNothing, CheckSetOf;
    forall ep | ep in eps ensures ep.name !in held {}
  }

  /** The first round and, when it held any, the rounds until nothing clashes.
      The stale endpoints count as gone in the first only, and only when nothing
      was held before. */
  method Rounds(checks: Checks, all: seq<Desired>, stale: Objects, order: CreationOrder, heldBefore: bool, ce: bool,
      was: Holds)
    returns (ran: bool, held: Holds)
    requires Distinct(all) && AllForCause(checks, all, stale, order, ce, was)
    ensures AllRun(checks) ==> ran
    ensures ran ==> AllForCause(checks, all, stale, order, ce, held) && was.Keys <= held.Keys
    ensures ran ==> SomeGroupVouches(checks, all, order, WithoutHeld(all, held.Keys))
    ensures ran ==> Distinct(WithoutHeld(all, held.Keys))
    ensures ran ==> Clear(checks, WithoutHeld(all, held.Keys), stale, order, !heldBefore && held == map[])
    ensures ran && NothingAmiss(checks, WithoutHeld(all, was.Keys), stale, order, !heldBefore && was == map[]) ==>
      held == was
  {
    hide HeldForCause, ClashHolds, Distinct, JudgedBad, VouchedFor, AllVouchedFor, NothingAmiss, SomeGroupVouches,
         Clear, Renders, LosesNothing, AllForCause, WithoutHeld, AllRun, Named;
    var settled;
    ran, settled, held := FirstRound(checks, all, stale, order, !heldBefore && was == map[], ce, was);
    if !ran || settled { return; }
    ghost var judged := WithoutHeld(all, held.Keys);
    ran, held := HoldClashing(checks, all, stale, order, ce, held);
    if !ran { return; }
    FewerVouched(checks, all, order, judged, WithoutHeld(all, held.Keys));
  }

  /** No endpoint uses what the gateway's edition ignores. */
  ghost predicate ServedBy(checks: Checks, gateway: GatewayRead, eps: seq<Desired>) {
    gateway == Found(true) ==> forall ep :: ep in eps ==> !checks.enterpriseOnly(ep)
  }

  /** The endpoints of all that must be held. heldBefore: the pass already
      holds some endpoint, so it deletes no stale one. */
  method Precheck(checks: Checks, gateway: GatewayRead, all: seq<Desired>, stale: Objects, order: CreationOrder,
      heldBefore: bool)
    returns (ran: bool, held: Holds)
    requires Distinct(all)
    ensures AllRun(checks) && !gateway.Unreadable? ==> ran
    ensures ran ==>
      (forall n :: n in held ==> Named(all, n)) && AllForCause(checks, all, stale, order, gateway == Found(true), held)
    ensures ran && gateway.Found? ==>
              Passed(checks, gateway.ce, all, stale, order, !heldBefore && held == map[], WithoutHeld(all, held.Keys))
    ensures ran && !gateway.Found? ==> held == map[] && (all == [] || gateway.Missing?)
    ensures ran && gateway.Found? && WithoutHeld(all, held.Keys) != [] ==> exists replaced ::
      Renders(replaced, WithoutHeld(all, held.Keys), stale, order, !heldBefore && held == map[]) &&
      LosesNothing(checks, WithoutHeld(all, held.Keys), replaced)
    ensures ran && NothingAmiss(checks, all, stale, order, !heldBefore) && ServedBy(checks, gateway, all) ==>
      held == map[]
  {
    hide HeldForCause, ClashHolds, Adds, Capped, Distinct, JudgedBad, VouchedFor, AllVouchedFor, NothingAmiss,
         SomeGroupVouches, Clear, Renders, LosesNothing;
    held := map[];
    if all == [] {
      NothingPasses(checks, gateway, stale, order, !heldBefore);
      return true, held;
    }
    if !gateway.Found? { return gateway.Missing?, held; }
    if gateway.ce { held := HoldEnterprise(checks, all); }
    EnterpriseForCause(checks, all, stale, order, gateway.ce, held);
    NobodyEnterprise(checks, gateway, all, held);
    hide ServedBy, WithoutHeld, Passed, Named;
    ghost var first := held;
    ran, held := Rounds(checks, all, stale, order, heldBefore, gateway.ce, held);
    if !ran { return; }
    NoneEnterpriseOnly(checks, gateway.ce, all, first, held.Keys);
    WhatPasses(checks, gateway.ce, all, stale, order, !heldBefore && held == map[], WithoutHeld(all, held.Keys));
  }

  lemma NoneEnterpriseOnly(checks: Checks, ce: bool, all: seq<Desired>, first: Holds, held: set<string>)
    requires first.Keys <= held
    requires ce ==> forall ep :: ep in all ==> (ep.name in first <==> checks.enterpriseOnly(ep))
    ensures ce ==> forall ep :: ep in WithoutHeld(all, held) ==> !checks.enterpriseOnly(ep)
  {
    hide WithoutHeld;
  }

  lemma WhatPasses(checks: Checks, ce: bool, all: seq<Desired>, stale: Objects, order: CreationOrder,
      withoutStale: bool, eps: seq<Desired>)
    requires Distinct(eps) && Clear(checks, eps, stale, order, withoutStale)
    requires ce ==> forall ep :: ep in eps ==> !checks.enterpriseOnly(ep)
    requires SomeGroupVouches(checks, all, order, eps)
    ensures Passed(checks, ce, all, stale, order, withoutStale, eps)
    ensures eps != [] ==> exists replaced ::
      Renders(replaced, eps, stale, order, withoutStale) && LosesNothing(checks, eps, replaced)
  {
    hide Clear, SomeGroupVouches, Renders, LosesNothing;
    if eps != [] { ClearLosesNothing(checks, eps, stale, order, withoutStale); }
  }

  /** Where nobody uses what the edition ignores, nobody is held for that. */
  lemma NobodyEnterprise(checks: Checks, gateway: GatewayRead, all: seq<Desired>, held: Holds)
    requires forall n :: n in held ==> Named(all, n) && held[n] == UsesEnterpriseOnly
    requires held != map[] ==> gateway == Found(true)
    requires forall ep :: ep in all && ep.name in held ==> checks.enterpriseOnly(ep)
    ensures ServedBy(checks, gateway, all) ==> held == map[] && WithoutHeld(all, held.Keys) == all
  {
    hide WithoutHeld;
    if ServedBy(checks, gateway, all) {
      assert forall n :: n in held ==> !Named(all, n);
      assert held == map[] && held.Keys == {};
      WithoutNobody(all);
    }
  }

  lemma FewerVouched(checks: Checks, all: seq<Desired>, order: CreationOrder, eps: seq<Desired>, fewer: seq<Desired>)
    requires SomeGroupVouches(checks, all, order, eps) && forall ep :: ep in fewer ==> ep in eps
    ensures SomeGroupVouches(checks, all, order, fewer)
  {
    hide VouchedFor;
    if checks.rootPasses == Some(true) {
      var judged :| AllVouchedFor(checks, judged, order, eps) && forall ep :: ep in judged ==> ep in all;
      assert AllVouchedFor(checks, judged, order, fewer);
    }
  }

  lemma NothingPasses(checks: Checks, gateway: GatewayRead, stale: Objects, order: CreationOrder, withoutStale: bool)
    ensures gateway.Found? ==> Passed(checks, gateway.ce, [], stale, order, withoutStale, [])
  {
    assert AllVouchedFor(checks, [], order, []);
  }

  lemma EnterpriseForCause(checks: Checks, all: seq<Desired>, stale: Objects, order: CreationOrder, ce: bool,
      held: Holds)
    requires forall n :: n in held ==> Named(all, n) && held[n] == UsesEnterpriseOnly
    requires held != map[] ==> ce
    requires forall ep :: ep in all && ep.name in held ==> checks.enterpriseOnly(ep)
    ensures AllForCause(checks, all, stale, order, ce, held)
  {}
}
