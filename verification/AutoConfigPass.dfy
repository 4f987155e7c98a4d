/** A whole pass over the endpoints of an AutoConfig. */
module AutoConfigPass {
  import opened Base
  import opened Cluster
  import opened RouteCollisions
  import opened Precheck
  import opened AutoConfig
  import opened Reconcile

  // ---- From adoption to the writes ----

  lemma AdoptedIsBuilt(owner: Owner, desired: seq<Desired>, start: Objects, now: Objects)
    requires OnlyAdopted(owner, desired, start, now)
    ensures Built(owner, desired, start, now)
  {
    hide LabelsContain, Named;
  }

  lemma AdoptedSinceIsBuilt(owner: Owner, desired: seq<Desired>, start: Objects, trace: seq<Objects>, since: nat)
    requires OnlyAdoptedSince(owner, desired, start, trace, since)
    ensures BuiltSince(owner, desired, start, trace, since)
  {
    hide Built, OnlyAdopted;
    forall i | since <= i < |trace| ensures Built(owner, desired, start, trace[i]) {
      AdoptedIsBuilt(owner, desired, start, trace[i]);
    }
  }

  lemma BuiltSinceIsSafe(owner: Owner, desired: seq<Desired>, start: Objects, trace: seq<Objects>, since: nat)
    requires BuiltSince(owner, desired, start, trace, since)
    ensures SafeSince(owner, desired, start, trace, since)
  {
    hide Built, MakeBeforeBreak;
    forall i | since <= i < |trace| ensures MakeBeforeBreak(owner, desired, start, trace[i]) {
      BuiltIsMadeBeforeBroken(owner, desired, start, trace[i]);
    }
  }

  /** What is not to be written is as desired already, unless something failed
      or is held. */
  lemma StartWriting(owner: Owner, desired: seq<Desired>, start: Objects, now: Objects, controlled: Objects,
      writes: seq<Desired>, claimed: set<string>, holds: set<string>)
    requires OnlyAdopted(owner, desired, start, now) && Listed(owner, controlled, now)
    requires KeptAsStored(claimed, start, now) && forall n :: n in holds ==> Named(desired, n)
    requires forall d :: d in writes ==> d in desired
    requires forall d :: d in desired && !UpToDate(controlled, d) ==>
      d in writes || d.name in holds || d.name in claimed
    ensures forall excused :: claimed + holds <= excused ==>
      Writing(owner, desired, start, now, writes, claimed + holds, excused)
  {
    hide LabelsContain;
    AdoptedIsBuilt(owner, desired, start, now);
    forall d | d in desired ensures Named(desired, d.name) {}
    hide Named;
    forall d | d in desired ensures d in writes || d.name in claimed + holds || owner.MadeIn(now, d) {}
  }

  function LosesRoutes(collisions: map<string, string>): (held: Holds)
    ensures held.Keys == collisions.Keys && forall n :: n in held ==> held[n] == LosesRoute(collisions[n])
  {
    map n | n in collisions :: LosesRoute(collisions[n])
  }

  /** Some write names an endpoint that the last status recorded as rejected. */
  predicate RecursRejection(refusedBefore: set<string>, writes: seq<Desired>) {
    exists i :: 0 <= i < |writes| && writes[i].name in refusedBefore
  }

  /** What a pass settled before it wrote: the endpoints it would write, those
      it would delete, and the creation order it held by. */
  datatype Plan = Plan(writes: seq<Desired>, stale: Objects, order: CreationOrder, withoutStale: bool)

  /** What a pass lets through met the precheck against its plan, and what
      loses its route is held. */
  ghost predicate Cleared(checks: Checks, gateway: GatewayRead, desired: seq<Desired>, plan: Plan, held: Holds) {
    && (gateway.Found? ==> Passed(checks, gateway.ce, plan.writes, plan.stale, plan.order, plan.withoutStale,
          WithoutHeld(plan.writes, held.Keys)))
    && (forall d :: d in desired && Loses(SetOf(desired), plan.order, d) ==> d.name in held)
    && (plan.withoutStale ==> held == map[])
  }

  /** n is held for a reason some check of the plan's writes gives. */
  ghost predicate IsChecked(checks: Checks, gateway: GatewayRead, plan: Plan, n: string, hold: Hold) {
    exists ep | ep in plan.writes && ep.name == n ::
      HeldForCause(checks, plan.writes, plan.stale, plan.order, gateway == Found(true), ep, hold)
  }

  /** Every hold has a cause: a lost route, what a check says, or a refusal of
      what is not desired. */
  ghost predicate EveryHoldIsDue(checks: Checks, gateway: GatewayRead, desired: seq<Desired>, plan: Plan, held: Holds) {
    forall n :: n in held ==>
      || RouteIsLost(desired, plan.order, n, held[n])
      || IsChecked(checks, gateway, plan, n, held[n])
      || (held[n].Refused? && !Named(desired, n))
  }

  lemma StillWithoutHeld(eps: seq<Desired>, a: set<string>, b: set<string>)
    ensures WithoutHeld(WithoutHeld(eps, a), a + b) == WithoutHeld(WithoutHeld(eps, a), b)
  {
    WithoutHeldTwice(eps, a, a + b);
    WithoutHeldTwice(eps, a, b);
    assert a + (a + b) == a + b;
  }

  /** order holds the creation time of every endpoint the owner controls, and of
      desired ones that exist and nobody controls. */
  ghost predicate KnowsAges(controlled: Objects, desired: seq<Desired>, objects: Objects, order: CreationOrder) {
    && (forall n :: n in controlled ==> n in order && order[n] == controlled[n].created)
    && forall n :: n in order && n !in controlled ==>
         Named(desired, n) && n in objects && objects[n].controller.None? && order[n] == objects[n].created
  }

  /** A desired endpoint is stored in objects and nobody controls it. */
  predicate IsUnclaimed(objects: Objects, d: Desired) {
    d.name in objects && objects[d.name].controller.None?
  }

  /** What is held besides held is held as before. */
  ghost predicate HoldsBesides(held: set<string>, was: Holds, now: Holds) {
    forall n :: n in now && n !in held ==> n in was && now[n] == was[n]
  }

  /** n is held for losing its route to the endpoint that keeps it. */
  ghost predicate RouteIsLost(desired: seq<Desired>, order: CreationOrder, n: string, hold: Hold) {
    hold.LosesRoute? && exists d | d in desired && d.name == n ::
      Loses(SetOf(desired), order, d) && KeptBy(SetOf(desired), order, d, hold.survivor)
  }

  /** Holds exactly the desired endpoints that lose their route, by the creation
      order of what exists. */
  method HoldCollisions(api: Api, desired: seq<Desired>, controlled: Objects, out: EndpointOutcome)
    returns (order: CreationOrder, ghost held: set<string>)
    requires Distinct(desired)
    modifies api`calls, out
    ensures out.rejected.Keys == old(out.rejected).Keys + held && forall n :: n in held ==> Named(desired, n)
    ensures forall d :: d in desired && Loses(SetOf(desired), order, d) ==> d.name in held
    ensures forall n :: n in held ==> RouteIsLost(desired, order, n, out.rejected[n])
    ensures HoldsBesides(held, old(out.rejected), out.rejected)
    ensures out.Excused() == old(out.Excused()) + held
    ensures KnowsAges(controlled, desired, api.objects, order)
    ensures old(api.Faultless()) ==>
      forall d :: d in desired && IsUnclaimed(api.objects, d) ==> d.name in order
    ensures out.transient == old(out.transient) && out.raced == old(out.raced)
    ensures old(out.AnyFailed()) || held != {} <==> out.AnyFailed()
    ensures old(api.Faultless()) ==> api.Faultless()
  {
    hide Loses, KeptBy, IsOlderRival, NamesOf, EndpointOutcome.Excused, RouteIsLost, HoldsBesides, KnowsAges, Named,
         IsUnclaimed, Distinct, NewCreationOrder, SetOf;
    var existing := WithUncontrolled(api, controlled, desired);
    order := NewCreationOrder(existing);
    KnownAges(controlled, desired, api.objects, existing);
    var lost := LostRoutes(desired, order);
    held := lost.Keys;
    MergedBesides(out.rejected, lost);
    out.Hold(lost);
  }

  /** The desired endpoints that lose their route, each with the one that keeps it. */
  method LostRoutes(desired: seq<Desired>, order: CreationOrder) returns (held: Holds)
    requires Distinct(desired)
    ensures forall n :: n in held ==> Named(desired, n) && RouteIsLost(desired, order, n, held[n])
    ensures forall d :: d in desired && Loses(SetOf(desired), order, d) ==> d.name in held
  {
    hide Loses, KeptBy, IsOlderRival, Distinct;
    var collisions := RouteCollisions.RouteCollisions(desired, order);
    LosersAreNamed(desired, order, collisions);
    held := LosesRoutes(collisions);
  }

  lemma LosersAreNamed(desired: seq<Desired>, order: CreationOrder, collisions: map<string, string>)
    requires forall n :: n in collisions <==> exists d :: d in desired && d.name == n && Loses(SetOf(desired), order, d)
    requires forall d :: d in desired && d.name in collisions ==>
      KeptBy(SetOf(desired), order, d, collisions[d.name])
    ensures forall n :: n in collisions ==> Named(desired, n)
    ensures forall n :: n in collisions ==> RouteIsLost(desired, order, n, LosesRoute(collisions[n]))
  {
    hide Loses, KeptBy;
  }

  lemma KnownAges(controlled: Objects, desired: seq<Desired>, objects: Objects, existing: Objects)
    requires forall n :: n in controlled ==> n in existing && existing[n] == controlled[n]
    requires forall n :: n in existing && n !in controlled ==>
      Named(desired, n) && n in objects && existing[n] == objects[n] && existing[n].controller.None?
    ensures KnowsAges(controlled, desired, objects, NewCreationOrder(existing))
    ensures (forall d :: d in desired && d.name in objects && objects[d.name].controller.None? ==> d.name in existing)
      ==> forall d :: d in desired && IsUnclaimed(objects, d) ==> d.name in NewCreationOrder(existing)
  {
    hide Named;
  }

  /** Holds what the precheck holds of writes. */
  method HoldChecked(checks: Checks, gateway: GatewayRead, writes: seq<Desired>, stale: Objects, order: CreationOrder,
      heldBefore: bool, out: EndpointOutcome)
    returns (ran: bool, plan: Plan, ghost held: set<string>)
    requires Distinct(writes) && (out.AnyFailed() ==> heldBefore)
    modifies out
    ensures AllRun(checks) && !gateway.Unreadable? ==> ran
    ensures plan.writes == writes && plan.stale == stale && plan.order == order
    ensures out.rejected.Keys == old(out.rejected).Keys + held && forall n :: n in held ==> Named(writes, n)
    ensures forall n :: n in held ==> IsChecked(checks, gateway, plan, n, out.rejected[n])
    ensures HoldsBesides(held, old(out.rejected), out.rejected)
    ensures out.Excused() == old(out.Excused()) + held
    ensures ran && NothingAmiss(checks, writes, stale, order, !heldBefore) && ServedBy(checks, gateway, writes) ==>
      held == {}
    ensures ran ==> (plan.withoutStale <==> !heldBefore && held == {})
    ensures ran && gateway.Found? ==>
      Passed(checks, gateway.ce, writes, stale, order, plan.withoutStale, WithoutHeld(writes, held))
    ensures plan.withoutStale ==> out.rejected == map[]
    ensures out.transient == old(out.transient) && out.raced == old(out.raced)
    ensures old(out.AnyFailed()) || held != {} <==> out.AnyFailed()
  {
    hide Passed, HeldForCause, AllForCause, IsChecked, NothingAmiss, ServedBy, NamesOf, EndpointOutcome.Excused,
         Renders, LosesNothing, WithoutHeld, HoldsBesides, Named, AllRun, Distinct;
    var checked;
    ran, checked := Precheck.Precheck(checks, gateway, writes, stale, order, heldBefore);
    plan := Plan(writes, stale, order, !heldBefore && checked == map[]);
    held := {};
    if ran {
      held := checked.Keys;
      CheckedForCause(checks, gateway, plan, checked);
      out.Hold(checked);
    }
    MergedBesides(old(out.rejected), if ran then checked else map[]);
    NothingHeld(out.rejected);
  }

  lemma MergedBesides(was: Holds, held: Holds)
    ensures HoldsBesides(held.Keys, was, was + held) && forall n :: n in held ==> (was + held)[n] == held[n]
    ensures held == map[] ==> was + held == was
  {}

  lemma CheckedForCause(checks: Checks, gateway: GatewayRead, plan: Plan, checked: Holds)
    requires AllForCause(checks, plan.writes, plan.stale, plan.order, gateway == Found(true), checked)
    ensures forall n :: n in checked ==> IsChecked(checks, gateway, plan, n, checked[n])
  {
    hide HeldForCause;
    forall n | n in checked ensures IsChecked(checks, gateway, plan, n, checked[n]) {
      var ep :| ep in plan.writes && ep.name == n;
      assert HeldForCause(checks, plan.writes, plan.stale, plan.order, gateway == Found(true), ep, checked[ep.name]);
    }
  }

  /** plan is drawn up from what is controlled. */
  ghost predicate PlannedFrom(controlled: Objects, desired: seq<Desired>, plan: Plan) {
    && Distinct(plan.writes) && (forall d :: d in plan.writes ==> d in desired && !UpToDate(controlled, d))
    && (forall n :: n in plan.stale <==> n in controlled && !Named(desired, n))
    && (forall n :: n in plan.stale ==> plan.stale[n] == controlled[n])
  }

  lemma PlanOf(controlled: Objects, desired: seq<Desired>, writes: seq<Desired>, held: set<string>, plan: Plan)
    requires Distinct(plan.writes) && plan.writes == WithoutHeld(writes, held)
    requires forall d :: d in writes <==> d in desired && !UpToDate(controlled, d)
    requires forall n :: n in plan.stale <==> n in controlled && !Named(desired, n)
    requires forall n :: n in plan.stale ==> plan.stale[n] == controlled[n]
    ensures PlannedFrom(controlled, desired, plan)
  {
    hide Named, Distinct, UpToDate;
  }

  /** The pass may go on to delete what is stale, as far as it is known before
      it writes: nothing is held back, and no write was refused before. */
  ghost predicate MayDelete(held: bool, plan: Plan, refusedBefore: set<string>) {
    !held && forall d :: d in plan.writes ==> d.name !in refusedBefore
  }

  lemma MayDeleteUnlessRefused(held: bool, plan: Plan, refusedBefore: set<string>)
    ensures MayDelete(held, plan, refusedBefore) <==> !held && !RecursRejection(refusedBefore, plan.writes)
  {
    if d :| d in plan.writes && d.name in refusedBefore {
      var i :| 0 <= i < |plan.writes| && plan.writes[i] == d;
      assert plan.writes[i].name in refusedBefore;
    }
  }

  /** No desired endpoint loses its route, and none of the plan's writes
      anything else: as the pass leaves the gateway, unless the API server is
      known to refuse one. */
  ghost predicate NothingWrong(checks: Checks, gateway: GatewayRead, desired: seq<Desired>, plan: Plan,
      refusedBefore: set<string>) {
    && (forall d :: d in desired ==> !Loses(SetOf(desired), plan.order, d))
    && NothingAmiss(checks, plan.writes, plan.stale, plan.order, MayDelete(false, plan, refusedBefore))
    && ServedBy(checks, gateway, plan.writes)
  }

  /** Plans the pass and holds what must be held. */
  method PlanPass(api: Api, owner: Owner, desired: seq<Desired>, controlled: Objects, held: bool, checks: Checks,
      gateway: GatewayRead, refusedBefore: set<string>, out: EndpointOutcome, ghost start: Objects)
    returns (ran: bool, plan: Plan)
    requires Distinct(desired)
    requires OnlyAdopted(owner, desired, start, api.objects) && Listed(owner, controlled, api.objects)
    requires KeptAsStored(out.rejected.Keys, start, api.objects)
    requires forall n :: n in out.rejected ==> out.rejected[n].Refused? && !Named(desired, n)
    modifies api`calls, out
    ensures AllRun(checks) && !gateway.Unreadable? ==> ran
    ensures old(out.AnyFailed()) ==> out.AnyFailed()
    ensures out.transient == old(out.transient) && out.raced == old(out.raced)
    ensures old(api.Faultless()) ==> api.Faultless()
    ensures PlannedFrom(controlled, desired, plan)
    ensures Writing(owner, desired, start, api.objects, plan.writes, out.rejected.Keys, out.Excused())
    ensures ran ==> EveryHoldIsDue(checks, gateway, desired, plan, out.rejected)
    ensures KnowsAges(controlled, desired, api.objects, plan.order)
    ensures old(api.Faultless()) ==>
      forall d :: d in desired && IsUnclaimed(api.objects, d) ==> d.name in plan.order
    ensures ran && !held && !old(out.AnyFailed()) && NothingWrong(checks, gateway, desired, plan, refusedBefore) ==>
      !out.AnyFailed()
    ensures ran ==> Cleared(checks, gateway, desired, plan, out.rejected)
    ensures ran ==> (plan.withoutStale <==> MayDelete(held, plan, refusedBefore) && !out.AnyFailed())
  {
    hide LabelsContain, OnlyAdopted, Listed, Writing, UpToDate, KeptAsStored, Passed, Loses, PlannedFrom, Distinct,
         Named, RouteIsLost, IsChecked, KnowsAges, IsUnclaimed, NothingAmiss, ServedBy, NamesOf,
         EndpointOutcome.Excused, HoldsBesides, EveryHoldIsDue, WithoutHeld, MayDelete, RecursRejection;
    var writes, stale := PlanEndpoints(controlled, desired);
    out.RejectedIsExcused();
    ghost var before := out.rejected;
    ghost var claimed, lost, checked := out.rejected.Keys, {}, {};
    var order;
    order, lost := HoldCollisions(api, desired, controlled, out);
    ghost var was, collided := out.rejected.Keys, out.rejected;
    var todo := WithoutHeld(writes, out.rejected.Keys);
    WithoutHeldIsDistinct(writes, out.rejected.Keys);
    ran, plan, checked := HoldChecked(checks, gateway, todo, stale, order,
                                      held || out.AnyFailed() || RecursRejection(refusedBefore, todo), out);
    StillWithoutHeld(writes, was, checked);
    PlanOf(controlled, desired, writes, was, plan);
    PlannedWriting(owner, desired, start, api.objects, controlled, todo, claimed, lost, checked, out.Excused());
    HoldsAreDue(checks, gateway, desired, plan, before, collided, out.rejected, lost, checked);
    NobodyLoses(desired, order, collided, lost);
    MayDeleteUnlessRefused(held, plan, refusedBefore);
    MayDeleteUnlessRefused(false, plan, refusedBefore);
  }

  lemma NobodyLoses(desired: seq<Desired>, order: CreationOrder, held: Holds, lost: set<string>)
    requires forall n :: n in lost ==> n in held && RouteIsLost(desired, order, n, held[n])
    ensures (forall d :: d in desired ==> !Loses(SetOf(desired), order, d)) ==> lost == {}
  {
    hide Loses, KeptBy;
  }

  lemma HoldsAreDue(checks: Checks, gateway: GatewayRead, desired: seq<Desired>, plan: Plan, before: Holds,
      collided: Holds, now: Holds, lost: set<string>, checked: set<string>)
    requires forall n :: n in before ==> before[n].Refused? && !Named(desired, n)
    requires HoldsBesides(lost, before, collided) && HoldsBesides(checked, collided, now)
    requires forall n :: n in lost ==> n in collided && RouteIsLost(desired, plan.order, n, collided[n])
    requires forall n :: n in checked ==> n in now && IsChecked(checks, gateway, plan, n, now[n])
    ensures EveryHoldIsDue(checks, gateway, desired, plan, now)
  {
    hide Named, RouteIsLost, IsChecked;
  }

  lemma NothingHeld(held: Holds)
    ensures |held| == 0 <==> held == map[]
  {}

  lemma PlannedWriting(owner: Owner, desired: seq<Desired>, start: Objects, now: Objects, controlled: Objects,
      writes: seq<Desired>, claimed: set<string>, lost: set<string>, checked: set<string>, excused: set<string>)
    requires OnlyAdopted(owner, desired, start, now) && Listed(owner, controlled, now) &&
      KeptAsStored(claimed, start, now)
    requires forall n :: n in lost ==> Named(desired, n)
    requires forall n :: n in checked ==> Named(writes, n)
    requires forall d :: d in writes ==> d in desired
    requires forall d :: d in desired && !UpToDate(controlled, d) ==> d in writes || d.name in claimed + lost
    requires claimed + lost + checked <= excused
    ensures Writing(owner, desired, start, now, writes, claimed + lost + checked, excused)
  {
    hide OnlyAdopted, Listed, KeptAsStored, Writing, UpToDate;
    assert claimed + (lost + checked) == claimed + lost + checked;
    StartWriting(owner, desired, start, now, controlled, writes, claimed, lost + checked);
  }

  // ---- From the writes to the deletes ----

  /** A stale endpoint is the owner's, as listed, and not desired. */
  lemma StaleIsListed(owner: Owner, desired: seq<Desired>, start: Objects, claimed: Objects, now: Objects,
      controlled: Objects, plan: Plan, eps: seq<Desired>, n: string)
    requires OnlyAdopted(owner, desired, start, claimed) && Listed(owner, controlled, claimed)
    requires PlannedFrom(controlled, desired, plan) && n in plan.stale
    requires OnlyChanges(eps, claimed, now) && (Named(eps, n) ==> Named(desired, n))
    ensures n in now && now[n] == plan.stale[n] && n in start && !owner.Foreign(start[n]) && !Named(desired, n)
  {
    hide LabelsContain, Named;
  }

  /** Everything was made: the stale endpoints may go. */
  lemma StartDeleting(owner: Owner, desired: seq<Desired>, start: Objects, claimed: Objects, now: Objects,
      controlled: Objects, plan: Plan, eps: seq<Desired>, rejected: set<string>)
    requires OnlyAdopted(owner, desired, start, claimed) && Listed(owner, controlled, claimed)
    requires AllListed(owner, desired, controlled, claimed)
    requires PlannedFrom(controlled, desired, plan)
    requires Writing(owner, desired, start, now, [], rejected, {})
    requires OnlyChanges(eps, claimed, now) && forall d :: d in eps ==> d in desired
    ensures Deleting(owner, desired, start, now, plan.stale, plan.stale.Keys, rejected, false)
  {
    hide LabelsContain, OnlyAdopted, Built, MakeBeforeBreak, MayBecome, Distinct;
    BuiltIsMadeBeforeBroken(owner, desired, start, now);
    FewerNamed(eps, desired);
    hide Named;
    forall n | n in plan.stale
      ensures n in now && now[n] == plan.stale[n] && n in start && !owner.Foreign(start[n]) && !Named(desired, n)
    {
      StaleIsListed(owner, desired, start, claimed, now, controlled, plan, eps, n);
    }
    OnlyStaleIsLeft(owner, desired, claimed, now, controlled, plan, eps);
    hide PlannedFrom, AllListed, Listed, OnlyChanges, KeptAsStored;
    AllIsMade(owner, desired, start, now, rejected);
  }

  lemma OnlyStaleIsLeft(owner: Owner, desired: seq<Desired>, claimed: Objects, now: Objects, controlled: Objects,
      plan: Plan, eps: seq<Desired>)
    requires AllListed(owner, desired, controlled, claimed) && PlannedFrom(controlled, desired, plan)
    requires OnlyChanges(eps, claimed, now) && forall n :: Named(eps, n) ==> Named(desired, n)
    ensures forall n :: n in now && !owner.Foreign(now[n]) ==> Named(desired, n) || n in plan.stale
  {
    hide Named, LabelsContain, Distinct;
  }

  lemma AllIsMade(owner: Owner, desired: seq<Desired>, start: Objects, now: Objects, rejected: set<string>)
    requires Writing(owner, desired, start, now, [], rejected, {})
    ensures AllMade(owner, now, desired) && KeptOrAdopted(owner, rejected, start, now)
  {
    hide Built, LabelsContain;
  }

  lemma FewerNamed(eps: seq<Desired>, desired: seq<Desired>)
    requires forall d :: d in eps ==> d in desired
    ensures forall n :: Named(eps, n) ==> Named(desired, n)
  {}

  /** What is stored differently from start, other than by adoption, is named
      in eps. */
  ghost predicate WritesOnly(owner: Owner, eps: seq<Desired>, start: Objects, now: Objects) {
    forall n :: n in now ==> Named(eps, n) || (n in start && (now[n] == start[n] || now[n] == owner.Adopted(start[n])))
  }

  lemma DeletedOnly(owner: Owner, desired: seq<Desired>, eps: seq<Desired>, start: Objects, claimed: Objects,
      now: Objects)
    requires OnlyAdopted(owner, desired, start, claimed) && OnlyChanges(eps, claimed, now)
    ensures WritesOnly(owner, eps, start, now)
  {
    hide LabelsContain, Named;
  }

  lemma HasAFirst(eps: seq<Desired>)
    ensures eps != [] ==> eps[0] in eps
  {}

  /** A converged cluster has nothing to write and nothing stale. */
  lemma ConvergedPlanIsEmpty(owner: Owner, desired: seq<Desired>, objects: Objects, controlled: Objects, plan: Plan)
    requires Converged(owner, objects, desired) && Listed(owner, controlled, objects)
    requires forall n :: n in objects && owner.Controls(objects[n]) ==> n in controlled
    requires PlannedFrom(controlled, desired, plan)
    ensures plan.writes == [] && plan.stale == map[]
  {
    hide LabelsContain;
    forall d | d in desired ensures d !in plan.writes {
      assert owner.MadeIn(objects, d);
    }
    HasAFirst(plan.writes);
    forall n | n in controlled ensures n !in plan.stale {
      assert owner.Controls(objects[n]);
      assert !owner.Foreign(objects[n]);
    }
    assert forall n :: n !in plan.stale;
  }

  /** Every desired endpoint is made, or something is recorded of it. */
  ghost predicate MadeOrExcused(owner: Owner, desired: seq<Desired>, now: Objects, excused: set<string>) {
    forall d :: d in desired ==> d.name in excused || owner.MadeIn(now, d)
  }

  lemma AllMadeIsMade(owner: Owner, desired: seq<Desired>, now: Objects, excused: set<string>)
    requires AllMade(owner, now, desired)
    ensures MadeOrExcused(owner, desired, now, excused)
  {}

  /** Writes what is not held and, when nothing failed, deletes what is stale. */
  method WriteAndDelete(api: Api, owner: Owner, desired: seq<Desired>, controlled: Objects, plan: Plan, held: bool,
      out: EndpointOutcome, ghost start: Objects, ghost since: nat)
    requires Distinct(desired) && OnlyAdopted(owner, desired, start, api.objects) &&
      Listed(owner, controlled, api.objects)
    requires !out.AnyFailed() ==> AllListed(owner, desired, controlled, api.objects)
    requires PlannedFrom(controlled, desired, plan)
    requires Writing(owner, desired, start, api.objects, plan.writes, out.rejected.Keys, out.Excused())
    requires BuiltSince(owner, desired, start, api.trace, since)
    modifies api, out
    ensures |api.trace| >= |old(api.trace)|
    ensures SafeSince(owner, desired, start, api.trace, since) && MakeBeforeBreak(owner, desired, start, api.objects)
    ensures KeptOrAdopted(owner, out.rejected.Keys, start, api.objects)
    ensures held ==> BuiltSince(owner, desired, start, api.trace, since)
    ensures !held && !out.AnyFailed() ==> Converged(owner, api.objects, desired)
    ensures MadeOrExcused(owner, desired, api.objects, out.Excused())
    ensures RefusesMore(old(out.rejected), out.rejected)
    ensures old(api.Faultless()) && (forall d :: d in plan.writes ==> !IsOthers(owner, start, d.name)) ==>
      out.AnyFailed() == old(out.AnyFailed())
    ensures WritesOnly(owner, WithoutHeld(plan.writes, old(out.rejected).Keys), start, api.objects)
    ensures plan.writes == [] && plan.stale == map[] ==> api.trace == old(api.trace)
    ensures old(api.Faultless()) ==> out.transient == old(out.transient) && out.raced == old(out.raced)
  {
    hide LabelsContain, OnlyAdopted, Listed, AllListed, BuiltSince, SafeSince, Writing, Built, MakeBeforeBreak,
         Deleting, OnlyChanges, WritesOnly, KeptOrAdopted, Converged, UpToDate, Named, MadeOrExcused, IsOthers, NamesOf,
         EndpointOutcome.Excused, AllMade;
    ghost var eps, claimed := WithoutHeld(plan.writes, out.rejected.Keys), api.objects;
    WriteAll(api, owner, desired, plan.writes, out, start, since);
    BuiltSinceIsSafe(owner, desired, start, api.trace, since);
    DeletedOnly(owner, desired, eps, start, claimed, api.objects);
    Written(owner, desired, start, api.objects, out.rejected.Keys, out.Excused());
    out.FailedIsExcused();
    if held || out.AnyFailed() { return; }
    NothingHeld(out.rejected);
    StartDeleting(owner, desired, start, claimed, api.objects, controlled, plan, eps, out.rejected.Keys);
    ghost var written := api.objects;
    DeleteAll(api, owner, desired, plan.stale, out, start, since);
    DeletedAll(owner, desired, eps, start, written, api.objects, plan.stale, out.rejected.Keys, out.AnyFailed());
    AllMadeIsMade(owner, desired, api.objects, out.Excused());
  }

  lemma Written(owner: Owner, desired: seq<Desired>, start: Objects, now: Objects, rejected: set<string>,
      excused: set<string>)
    requires Writing(owner, desired, start, now, [], rejected, excused)
    ensures MakeBeforeBreak(owner, desired, start, now) && KeptOrAdopted(owner, rejected, start, now)
    ensures MadeOrExcused(owner, desired, now, excused)
  {
    hide Built, MakeBeforeBreak, LabelsContain;
    BuiltIsMadeBeforeBroken(owner, desired, start, now);
  }

  lemma DeletedAll(owner: Owner, desired: seq<Desired>, eps: seq<Desired>, start: Objects, written: Objects,
      now: Objects, stale: Objects, rejected: set<string>, failed: bool)
    requires Deleting(owner, desired, start, now, stale, {}, rejected, failed)
    requires WritesOnly(owner, eps, start, written) && forall n :: n in now ==> n in written && now[n] == written[n]
    ensures MakeBeforeBreak(owner, desired, start, now) && KeptOrAdopted(owner, rejected, start, now)
    ensures WritesOnly(owner, eps, start, now)
    ensures AllMade(owner, now, desired)
    ensures !failed ==> Converged(owner, now, desired)
  {
    hide MakeBeforeBreak, LabelsContain;
    if !failed {
      forall n | n in now && !owner.Foreign(now[n]) ensures owner.Controls(now[n]) {
        var d :| d in desired && d.name == n;
        assert owner.MadeIn(now, d);
      }
    }
  }

  // ---- The pass ----

  /** order holds the creation times of start: of every endpoint the owner
      controls, and otherwise only of what it controls or nobody does. */
  ghost predicate AgesOf(owner: Owner, start: Objects, order: CreationOrder) {
    && (forall n :: n in start && owner.Controls(start[n]) ==> n in order)
    && forall n :: n in order ==>
         && n in start && order[n] == start[n].created
         && (start[n].controller.None? || owner.Controls(start[n]))
  }

  /** Adoption changes no creation time. */
  lemma AgesAreOfStart(owner: Owner, desired: seq<Desired>, start: Objects, now: Objects, controlled: Objects,
      order: CreationOrder)
    requires OnlyAdopted(owner, desired, start, now) && Listed(owner, controlled, now)
    requires forall n :: n in start && owner.Controls(start[n]) ==> n in controlled
    requires KnowsAges(controlled, desired, now, order)
    ensures AgesOf(owner, start, order)
  {
    hide LabelsContain, Named;
  }

  lemma UnclaimedStays(owner: Owner, desired: seq<Desired>, start: Objects, now: Objects)
    requires OnlyAdopted(owner, desired, start, now)
    ensures forall d :: d in desired && IsUnclaimed(start, d) ==> IsUnclaimed(now, d)
  {
    hide LabelsContain;
    forall d | d in desired && IsUnclaimed(start, d) ensures IsUnclaimed(now, d) { assert Named(desired, d.name); }
  }

  /** No desired endpoint is stored under the control of another object. */
  ghost predicate NobodyElses(owner: Owner, desired: seq<Desired>, objects: Objects) {
    forall d :: d in desired ==> !IsOthers(owner, objects, d.name)
  }

  /** One pass. done: it got as far as writing. settled: what it held before
      it wrote. Whatever fails, each desired endpoint is made in the end, or
      something is recorded of it, and each hold has a cause. When every call
      and every check answers, nobody else controls what is desired and nothing
      is wrong with it, the pass converges. */
  method ReconcileEndpoints(api: Api, owner: Owner, desired: seq<Desired>, held: bool, checks: Checks,
      gateway: GatewayRead, refusedBefore: set<string>)
    returns (done: bool, out: EndpointOutcome, plan: Plan, ghost settled: Holds)
    requires Distinct(desired)
    modifies api
    ensures fresh(out)
    ensures SafeSince(owner, desired, old(api.objects), api.trace, |old(api.trace)|)
    ensures MakeBeforeBreak(owner, desired, old(api.objects), api.objects)
    ensures !done ==> OnlyAdoptedSince(owner, desired, old(api.objects), api.trace, |old(api.trace)|)
    ensures !done ==> OnlyAdopted(owner, desired, old(api.objects), api.objects)
    ensures held ==> BuiltSince(owner, desired, old(api.objects), api.trace, |old(api.trace)|)
    ensures KeptOrAdopted(owner, out.rejected.Keys, old(api.objects), api.objects) || !done
    ensures done && !held && !out.AnyFailed() ==> Converged(owner, api.objects, desired)
    ensures done ==> Cleared(checks, gateway, desired, plan, settled)
    ensures done ==> WritesOnly(owner, WithoutHeld(plan.writes, settled.Keys), old(api.objects), api.objects)
    ensures Converged(owner, old(api.objects), desired) ==> api.trace == old(api.trace)
    ensures old(api.Faultless()) && AllRun(checks) && !gateway.Unreadable? ==> done
    ensures old(api.Faultless()) && done ==> out.transient == [] && out.raced == []
    ensures done ==> MadeOrExcused(owner, desired, api.objects, out.Excused())
    ensures done ==> EveryHoldIsDue(checks, gateway, desired, plan, settled) && RefusesMore(settled, out.rejected)
    ensures done && plan.withoutStale ==> MayDelete(held, plan, refusedBefore) && settled == map[]
    ensures old(api.Faultless()) && done && MayDelete(held, plan, refusedBefore) && settled == map[] ==>
      plan.withoutStale
    ensures done ==> AgesOf(owner, old(api.objects), plan.order)
    ensures old(api.Faultless()) && done ==>
      forall d :: d in desired && IsUnclaimed(old(api.objects), d) ==> d.name in plan.order
    ensures old(api.Faultless()) && done && !held && NothingWrong(checks, gateway, desired, plan, refusedBefore) ==>
      NobodyElses(owner, desired, old(api.objects)) ==> Converged(owner, api.objects, desired)
  {
    hide LabelsContain, OnlyAdopted, OnlyAdoptedSince, Listed, AllListed, BuiltSince, SafeSince, Writing, Built,
         MakeBeforeBreak, WritesOnly, KeptOrAdopted, KeptAsStored, Converged, Cleared, PlannedFrom, NoOrphans, Distinct,
         MadeOrExcused, EveryHoldIsDue, RefusesMore, AgesOf, KnowsAges, NothingWrong, IsOthers, NamesOf, IsUnclaimed,
         EndpointOutcome.Excused, Named, MayDelete;
    ghost var start, since := api.objects, |api.trace|;
    out := new EndpointOutcome();
    plan, settled := Plan([], map[], map[], false), map[];
    var controlled := ClaimEndpoints(api, owner, desired, out);
    AdoptedSinceIsBuilt(owner, desired, start, api.trace, since);
    BuiltSinceIsSafe(owner, desired, start, api.trace, since);
    AdoptedIsBuilt(owner, desired, start, api.objects);
    BuiltIsMadeBeforeBroken(owner, desired, start, api.objects);
    if Converged(owner, start, desired) { NothingToAdopt(owner, desired, start, api.objects); }
    if controlled.None? { return false, out, plan, settled; }
    done, plan := PlanPass(api, owner, desired, controlled.value, held, checks, gateway, refusedBefore, out, start);
    if Converged(owner, start, desired) {
      ConvergedPlanIsEmpty(owner, desired, start, controlled.value, plan);
    }
    settled := out.rejected;
    if !done { return; }
    NothingHeld(settled);
    assert plan.withoutStale ==> settled == map[] by { ClearedIsUnheld(checks, gateway, desired, plan, settled); }
    AgesAreOfStart(owner, desired, start, api.objects, controlled.value, plan.order);
    UnclaimedStays(owner, desired, start, api.objects);
    WritesAreDesired(controlled.value, desired, plan);
    WriteAndDelete(api, owner, desired, controlled.value, plan, held, out, start, since);
  }

  lemma ClearedIsUnheld(checks: Checks, gateway: GatewayRead, desired: seq<Desired>, plan: Plan, held: Holds)
    requires Cleared(checks, gateway, desired, plan, held)
    ensures plan.withoutStale ==> held == map[]
  {
    hide Passed, Loses;
  }

  lemma WritesAreDesired(controlled: Objects, desired: seq<Desired>, plan: Plan)
    requires PlannedFrom(controlled, desired, plan)
    ensures forall d :: d in plan.writes ==> d in desired
  {}

  lemma NothingToAdopt(owner: Owner, desired: seq<Desired>, start: Objects, now: Objects)
    requires Converged(owner, start, desired) && OnlyAdopted(owner, desired, start, now)
    ensures NoOrphans(owner, desired, start) && now == start
  {}
}
