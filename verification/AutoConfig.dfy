/** One pass that converges the endpoints an AutoConfig controls to the desired
    ones: adopt, plan, hold, write, and only then delete. */
module AutoConfig {
  import opened Base
  import opened Cluster
  import opened RouteCollisions
  import opened Precheck

  // ---- Objects and plans ----

  predicate LabelsContain(have: Labels, want: Labels) {
    forall k :: k in want ==> k in have && have[k] == want[k]
  }

  /** The AutoConfig: its UID and the labels that mark its endpoints. */
  datatype Owner = Owner(uid: Uid, labels: Labels)
  {
    predicate Controls(o: Stored) {
      o.controller == Some(uid)
    }

    /** An orphan that carries the owner's labels. */
    predicate Adoptable(o: Stored) {
      o.controller.None? && !o.terminating && LabelsContain(o.labels, labels)
    }

    function Adopted(o: Stored): Stored {
      o.(controller := Some(uid))
    }

    /** o as a write of d leaves it. */
    function Written(o: Stored, d: Desired): Stored {
      o.(controller := Some(uid), labels := o.labels + d.labels, spec := d.spec)
    }

    /** o is controlled, has d's spec and d's labels. */
    predicate Made(o: Stored, d: Desired) {
      Controls(o) && o.spec == d.spec && LabelsContain(o.labels, d.labels)
    }

    predicate MadeIn(objects: Objects, d: Desired) {
      d.name in objects && Made(objects[d.name], d)
    }

    /** Neither the owner's nor up for adoption. */
    predicate Foreign(o: Stored) {
      !Controls(o) && !Adoptable(o)
    }
  }

  /** Every desired endpoint exists as desired. */
  ghost predicate AllMade(owner: Owner, objects: Objects, desired: seq<Desired>) {
    forall d :: d in desired ==> owner.MadeIn(objects, d)
  }

  /** The controlled endpoints are exactly the desired ones, as desired, and no
      orphan is left to adopt. */
  ghost predicate Converged(owner: Owner, objects: Objects, desired: seq<Desired>) {
    && AllMade(owner, objects, desired)
    && forall n :: n in objects && !owner.Foreign(objects[n]) ==> Named(desired, n) && owner.Controls(objects[n])
  }

  function Find(desired: seq<Desired>, name: string): (r: Option<Desired>)
    ensures r.Some? ==> r.value in desired && r.value.name == name
    ensures r.None? <==> !Named(desired, name)
  {
    if desired == [] then None
    else if desired[0].name == name then Some(desired[0])
    else Find(desired[1..], name)
  }

  // ---- What a pass may do to the cluster ----

  /** o, stored before the pass, is now o2: unchanged, adopted, or written. */
  ghost predicate MayBecome(owner: Owner, desired: seq<Desired>, n: string, o: Stored, o2: Stored) {
    || o2 == o
    || (owner.Adoptable(o) && !Named(desired, n) && o2 == owner.Adopted(o))
    || ((o.controller.None? || owner.Controls(o)) && exists d ::
          d in desired && d.name == n && o2 == owner.Written(o, d))
  }

  /** From start, a pass that has deleted nothing yet may have reached now. */
  ghost predicate Built(owner: Owner, desired: seq<Desired>, start: Objects, now: Objects) {
    && (forall n :: n in start ==> n in now && MayBecome(owner, desired, n, start[n], now[n]))
    && (forall n :: n in now && n !in start ==> exists d :: d in desired && d.name == n && owner.Made(now[n], d))
  }

  /** From start, a pass may have reached now: what is gone was the owner's
      and is not desired, and it went only once everything desired was made. */
  ghost predicate MakeBeforeBreak(owner: Owner, desired: seq<Desired>, start: Objects, now: Objects) {
    && (forall n :: n in start && n !in now ==>
          !Named(desired, n) && !owner.Foreign(start[n]) && AllMade(owner, now, desired))
    && (forall n :: n in start && n in now ==> MayBecome(owner, desired, n, start[n], now[n]))
    && (forall n :: n in now && n !in start ==> exists d :: d in desired && d.name == n && owner.Made(now[n], d))
  }

  lemma BuiltIsMadeBeforeBroken(owner: Owner, desired: seq<Desired>, start: Objects, now: Objects)
    requires Built(owner, desired, start, now)
    ensures MakeBeforeBreak(owner, desired, start, now)
  {}

  /** o2 is o after a write of d for the owner uid: the same object, with d's
      spec and labels; its other labels stay. */
  ghost predicate IsMerged(uid: Uid, d: Desired, o: Stored, o2: Stored) {
    && o2.uid == o.uid && o2.created == o.created && o2.terminating == o.terminating
    && o2.controller == Some(uid) && o2.spec == d.spec
    && (forall k :: k in d.labels ==> k in o2.labels && o2.labels[k] == d.labels[k])
    && (forall k :: k !in d.labels ==> (k in o2.labels <==> k in o.labels))
    && (forall k :: k !in d.labels && k in o.labels ==> o2.labels[k] == o.labels[k])
  }

  /** o may be adopted: nobody controls it, it is not being deleted, and it
      carries every label. */
  predicate IsOrphan(o: Stored, labels: Labels) {
    && o.controller.None? && !o.terminating
    && forall k :: k in labels ==> k in o.labels && o.labels[k] == labels[k]
  }

  /** o, stored as n before the pass, is now o2. Somebody else's endpoint stays
      as it is, a desired one is at most merged with what is desired, and any
      other is at most adopted: an orphan, whose controller alone changes. */
  ghost predicate LivesOn(uid: Uid, labels: Labels, desired: seq<Desired>, n: string, o: Stored, o2: Stored) {
    || o2 == o
    || (Named(desired, n) && (o.controller.None? || o.controller == Some(uid)) && exists d ::
          d in desired && d.name == n && IsMerged(uid, d, o, o2))
    || (!Named(desired, n) && IsOrphan(o, labels) && o2 == o.(controller := Some(uid)))
  }

  lemma MayLiveOn(owner: Owner, desired: seq<Desired>, n: string, o: Stored, o2: Stored)
    requires MayBecome(owner, desired, n, o, o2)
    ensures LivesOn(owner.uid, owner.labels, desired, n, o, o2)
  {
    if d :| d in desired && d.name == n && o2 == owner.Written(o, d) {
      assert IsMerged(owner.uid, d, o, o2);
    }
  }

  /** The desired endpoint d is there, the owner's, with its spec and labels. */
  predicate IsThere(uid: Uid, objects: Objects, d: Desired) {
    && d.name in objects && objects[d.name].controller == Some(uid) && objects[d.name].spec == d.spec
    && forall k :: k in d.labels ==> k in objects[d.name].labels && objects[d.name].labels[k] == d.labels[k]
  }

  /** What a pass changes of what was there, whatever fails: what stays lives
      on; what goes was the owner's or an orphan, is not desired, and goes when
      everything desired is there. */
  lemma WhatAPassChanges(owner: Owner, desired: seq<Desired>, start: Objects, now: Objects, n: string)
    requires MakeBeforeBreak(owner, desired, start, now) && n in start
    ensures n in now ==> LivesOn(owner.uid, owner.labels, desired, n, start[n], now[n])
    ensures n !in now ==> !Named(desired, n)
    ensures n !in now ==> start[n].controller == Some(owner.uid) || IsOrphan(start[n], owner.labels)
    ensures n !in now ==> forall d :: d in desired ==> IsThere(owner.uid, now, d)
  {
    hide MayBecome, LivesOn, Named, LabelsContain;
    if n in now {
      MayLiveOn(owner, desired, n, start[n], now[n]);
    } else {
      GoesAsOrphan(owner, start[n]);
      forall d | d in desired ensures IsThere(owner.uid, now, d) { MadeIsThere(owner, now, d); }
    }
  }

  /** Convergence: everything desired is there, and what is the owner's or an
      orphan it would adopt is desired and its own. */
  lemma ConvergedMeans(owner: Owner, objects: Objects, desired: seq<Desired>)
    ensures Converged(owner, objects, desired) <==>
      && (forall d :: d in desired ==> IsThere(owner.uid, objects, d))
      && (forall n :: n in objects ==> !IsOrphan(objects[n], owner.labels))
      && (forall n :: n in objects && objects[n].controller == Some(owner.uid) ==> Named(desired, n))
  {
    hide LabelsContain, IsOrphan, IsThere, Named;
    forall n | n in objects ensures
      owner.Foreign(objects[n]) <==> objects[n].controller != Some(owner.uid) && !IsOrphan(objects[n], owner.labels)
    {
      GoesAsOrphan(owner, objects[n]);
    }
    forall d | d in desired ensures owner.MadeIn(objects, d) <==> IsThere(owner.uid, objects, d) {
      MadeIsThere(owner, objects, d);
    }
    OrphansAreNotOwned(objects, owner);
  }

  lemma OrphansAreNotOwned(objects: Objects, owner: Owner)
    ensures forall n :: n in objects && IsOrphan(objects[n], owner.labels) ==> !owner.Controls(objects[n])
  {}

  lemma GoesAsOrphan(owner: Owner, o: Stored)
    ensures owner.Foreign(o) <==> o.controller != Some(owner.uid) && !IsOrphan(o, owner.labels)
  {}

  lemma MadeIsThere(owner: Owner, objects: Objects, d: Desired)
    ensures owner.MadeIn(objects, d) <==> IsThere(owner.uid, objects, d)
  {}

  // ---- Outcomes ----

  /** What a pass could not do. */
  class EndpointOutcome {
    var transient: seq<(string, Error)>
    var raced: seq<(string, Error)>
    var rejected: Holds

    constructor ()
      ensures transient == [] && raced == [] && rejected == map[]
    {
      transient, raced, rejected := [], [], map[];
    }

    predicate AnyFailed()
      reads this
    {
      |transient| > 0 || |raced| > 0 || |rejected| > 0
    }

    /** The endpoints something is recorded of. */
    ghost function Excused(): set<string>
      reads this
    {
      rejected.Keys + NamesOf(raced) + NamesOf(transient)
    }

    lemma RejectedIsExcused()
      ensures rejected.Keys <= Excused()
    {}

    lemma FailedIsExcused()
      ensures AnyFailed() <==> Excused() != {}
    {
      if |raced| > 0 { assert raced[0].0 in Excused(); }
      if |transient| > 0 { assert transient[0].0 in Excused(); }
      if |rejected| > 0 { var n :| n in rejected; assert n in Excused(); }
      if |rejected| == 0 { assert rejected == map[]; }
    }

    /** A lost race, a persistent rejection, or anything else. */
    method Record(name: string, e: Error)
      modifies this
      ensures AnyFailed()
      ensures raced == if e == Failed(Conflict) || e == Failed(AlreadyExists) then old(raced) + [(name, e)]
        else old(raced)
      ensures rejected == if e == Failed(Invalid) || e == AlreadyOwned then old(rejected)[name := Refused(e)]
        else old(rejected)
      ensures transient == if e == NotFound || e == Failed(Unavailable) then old(transient) + [(name, e)]
        else old(transient)
      ensures Excused() == old(Excused()) + {name}
    {
      hide NamesOf;
      ghost var a, b, c := rejected.Keys, NamesOf(raced), NamesOf(transient);
      NamesOneMore(raced, (name, e));
      NamesOneMore(transient, (name, e));
      match e
      case Failed(Conflict) => raced := raced + [(name, e)];
      case Failed(AlreadyExists) => raced := raced + [(name, e)];
      case Failed(Invalid) => rejected := rejected[name := Refused(e)];
      case AlreadyOwned => rejected := rejected[name := Refused(e)];
      case _ => transient := transient + [(name, e)];
      OneOfThree(a, b, c, name, rejected.Keys, NamesOf(raced), NamesOf(transient));
    }

    method Hold(held: Holds)
      modifies this
      ensures transient == old(transient) && raced == old(raced) && rejected == old(rejected) + held
      ensures rejected.Keys == old(rejected).Keys + held.Keys
      ensures Excused() == old(Excused()) + held.Keys
      ensures old(AnyFailed()) || held != map[] <==> AnyFailed()
    {
      MergedKeys(rejected, held);
      rejected := rejected + held;
      if held != map[] { assert rejected != map[]; }
    }
  }

  lemma OneOfThree(a: set<string>, b: set<string>, c: set<string>, n: string, a2: set<string>, b2: set<string>,
      c2: set<string>)
    requires (a2 == a + {n} && b2 == b && c2 == c) || (a2 == a && b2 == b + {n} && c2 == c) ||
             (a2 == a && b2 == b && c2 == c + {n})
    ensures a2 + b2 + c2 == a + b + c + {n}
  {}

  function NamesOf(errors: seq<(string, Error)>): set<string> {
    set i | 0 <= i < |errors| :: errors[i].0
  }

  lemma NamesOneMore(errors: seq<(string, Error)>, more: (string, Error))
    ensures NamesOf(errors + [more]) == NamesOf(errors) + {more.0}
  {
    forall n | n in NamesOf(errors) ensures n in NamesOf(errors + [more]) {
      var i :| 0 <= i < |errors| && errors[i].0 == n;
      assert (errors + [more])[i].0 == n;
    }
    assert (errors + [more])[|errors|].0 == more.0;
  }

  /** now holds nothing more than was, but what the API or another owner
      refused. */
  ghost predicate RefusesMore(was: Holds, now: Holds) {
    forall n :: n in now ==> (n in was && now[n] == was[n]) || now[n].Refused?
  }

  // ---- Adoption ----

  /** From start, a pass that only adopts may have reached now. */
  ghost predicate OnlyAdopted(owner: Owner, desired: seq<Desired>, start: Objects, now: Objects) {
    && (forall n :: n in start <==> n in now)
    && forall n :: n in start ==>
         now[n] == start[n] || (owner.Adoptable(start[n]) && !Named(desired, n) && now[n] == owner.Adopted(start[n]))
  }

  lemma AdoptOneMore(owner: Owner, desired: seq<Desired>, start: Objects, now: Objects, n: string)
    requires OnlyAdopted(owner, desired, start, now) && n in start && now[n] == start[n]
    requires owner.Adoptable(start[n]) && !Named(desired, n)
    ensures OnlyAdopted(owner, desired, start, now[n := owner.Adopted(start[n])])
  {}

  ghost predicate OnlyAdoptedSince(owner: Owner, desired: seq<Desired>, start: Objects, trace: seq<Objects>,
      since: nat) {
    forall i :: since <= i < |trace| ==> OnlyAdopted(owner, desired, start, trace[i])
  }

  /** The named endpoints are stored as they were. */
  ghost predicate KeptAsStored(names: set<string>, start: Objects, now: Objects) {
    forall n :: n in names ==> (n in start <==> n in now) && (n in start ==> now[n] == start[n])
  }

  /** controlled lists only what the owner controls, as stored. */
  ghost predicate Listed(owner: Owner, controlled: Objects, objects: Objects) {
    forall n :: n in controlled ==> n in objects && controlled[n] == objects[n] && owner.Controls(objects[n])
  }

  /** controlled misses nothing of the owner's but the orphans to be written. */
  ghost predicate AllListed(owner: Owner, desired: seq<Desired>, controlled: Objects, objects: Objects) {
    forall n :: n in objects && !owner.Foreign(objects[n]) ==> n in controlled || Named(desired, n)
  }

  /** Every orphan that could be adopted is desired. */
  ghost predicate NoOrphans(owner: Owner, desired: seq<Desired>, objects: Objects) {
    forall n :: n in objects && owner.Adoptable(objects[n]) ==> Named(desired, n)
  }

  /** The orphans in todo are still to be looked at. */
  ghost predicate Claiming(owner: Owner, desired: seq<Desired>, start: Objects, now: Objects, claimed: Objects,
      todo: set<string>, rejected: set<string>, failed: bool) {
    && OnlyAdopted(owner, desired, start, now)
    && Listed(owner, claimed, now)
    && (forall n :: n in todo ==> n in now && now[n] == start[n])
    && (!failed ==> forall n :: n in now && !owner.Foreign(now[n]) ==> n in claimed || Named(desired, n) || n in todo)
    && KeptAsStored(rejected, start, now) && rejected !! todo
  }

  lemma LeaveAlone(owner: Owner, desired: seq<Desired>, start: Objects, now: Objects, claimed: Objects,
      todo: set<string>, rejected: set<string>, failed: bool, n: string)
    requires Claiming(owner, desired, start, now, claimed, todo, rejected, failed) && n in todo
    requires (owner.Controls(now[n]) ==> n in claimed) && (owner.Adoptable(now[n]) ==> Named(desired, n))
    ensures Claiming(owner, desired, start, now, claimed, todo - {n}, rejected, failed)
  {
    hide LabelsContain, Named;
  }

  lemma ClaimOneMore(owner: Owner, desired: seq<Desired>, start: Objects, now: Objects, claimed: Objects,
      todo: set<string>, rejected: set<string>, failed: bool, n: string)
    requires Claiming(owner, desired, start, now, claimed, todo, rejected, failed) && n in todo
    requires owner.Adoptable(now[n]) && !Named(desired, n)
    ensures var o := owner.Adopted(now[n]);
      Claiming(owner, desired, start, now[n := o], claimed[n := o], todo - {n}, rejected, failed)
  {
    hide LabelsContain, Named;
    AdoptOneMore(owner, desired, start, now, n);
  }

  lemma ClaimFails(owner: Owner, desired: seq<Desired>, start: Objects, now: Objects, now2: Objects, claimed: Objects,
      todo: set<string>, rejected: set<string>, rejected2: set<string>, failed: bool, n: string)
    requires Claiming(owner, desired, start, now, claimed, todo, rejected, failed) && n in todo && n !in claimed
    requires owner.Adoptable(now[n]) && !Named(desired, n)
    requires now2 == now || (now2 == now[n := owner.Adopted(now[n])] && rejected2 == rejected)
    requires rejected2 == rejected || rejected2 == rejected + {n}
    ensures Claiming(owner, desired, start, now2, claimed, todo - {n}, rejected2, true)
  {
    hide LabelsContain, Named;
    AdoptOneMore(owner, desired, start, now, n);
  }

  /** Makes the owner the orphan's controller. */
  method Adopt(api: Api, owner: Owner, n: string, orphan: Stored, out: EndpointOutcome) returns (adopted: bool)
    requires n in api.objects && api.objects[n] == orphan
    modifies api, out
    ensures api.trace == old(api.trace) + [api.objects]
    ensures api.objects == old(api.objects) || api.objects == old(api.objects)[n := owner.Adopted(orphan)]
    ensures adopted ==>
      api.objects == old(api.objects)[n := owner.Adopted(orphan)] && out.AnyFailed() == old(out.AnyFailed())
    ensures !adopted ==> out.AnyFailed()
    ensures out.rejected.Keys == old(out.rejected).Keys ||
            (out.rejected.Keys == old(out.rejected).Keys + {n} && !adopted && api.objects == old(api.objects))
    ensures adopted ==> out.rejected == old(out.rejected)
    ensures RefusesMore(old(out.rejected), out.rejected)
    ensures old(api.Faultless()) ==> api.Faultless() && adopted
  {
    var e := api.Update(n, owner.Adopted(orphan));
    if e.Some? && e != Some(NotFound) { out.Record(n, e.value); }
    return e.None?;
  }

  lemma TraceGrows(owner: Owner, desired: seq<Desired>, start: Objects, trace: seq<Objects>, since: nat, now: Objects)
    requires OnlyAdoptedSince(owner, desired, start, trace, since) && OnlyAdopted(owner, desired, start, now)
    ensures OnlyAdoptedSince(owner, desired, start, trace + [now], since)
  {
    hide OnlyAdopted;
  }

  /** Adopts the orphan n unless it is desired. */
  method ClaimOne(api: Api, owner: Owner, desired: seq<Desired>, n: string, orphan: Stored, was: Objects,
      out: EndpointOutcome, ghost start: Objects, ghost todo: set<string>, ghost since: nat)
    returns (claimed: Objects)
    requires n in todo && n in start && orphan == start[n]
    requires LabelsContain(orphan.labels, owner.labels) && (n in was <==> owner.Controls(orphan))
    requires Claiming(owner, desired, start, api.objects, was, todo, out.rejected.Keys, out.AnyFailed())
    requires OnlyAdoptedSince(owner, desired, start, api.trace, since)
    modifies api, out
    ensures |api.trace| >= |old(api.trace)|
    ensures Claiming(owner, desired, start, api.objects, claimed, todo - {n}, out.rejected.Keys, out.AnyFailed())
    ensures OnlyAdoptedSince(owner, desired, start, api.trace, since)
    ensures forall k :: k != n ==> (k in claimed <==> k in was)
    ensures n in was ==> n in claimed
    ensures !owner.Adoptable(orphan) || Named(desired, n) ==> api.trace == old(api.trace)
    ensures !owner.Adoptable(orphan) || Named(desired, n) ==> out.AnyFailed() == old(out.AnyFailed())
    ensures RefusesMore(old(out.rejected), out.rejected)
    ensures forall k :: k in out.rejected ==> k in old(out.rejected) || !Named(desired, k)
    ensures old(api.Faultless()) ==> api.Faultless() && out.AnyFailed() == old(out.AnyFailed())
  {
    hide LabelsContain, OnlyAdopted, OnlyAdoptedSince, Named;
    claimed := was;
    ghost var objects, rejected, failed, trace := api.objects, out.rejected.Keys, out.AnyFailed(), api.trace;
    var wanted := Find(desired, n);
    if orphan.controller.Some? || orphan.terminating || wanted.Some? {
      LeaveAlone(owner, desired, start, objects, was, todo, rejected, failed, n);
      return;
    }
    var adopted := Adopt(api, owner, n, orphan, out);
    if adopted {
      ClaimOneMore(owner, desired, start, objects, was, todo, rejected, failed, n);
      claimed := claimed[n := owner.Adopted(orphan)];
    } else {
      ClaimFails(owner, desired, start, objects, api.objects, was, todo, rejected, out.rejected.Keys, failed, n);
    }
    TraceGrows(owner, desired, start, trace, since, api.objects);
  }

  /** Adopts the labelled orphans that are not desired, and lists what the
      owner controls. None: a list failed. */
  method ClaimEndpoints(api: Api, owner: Owner, desired: seq<Desired>, out: EndpointOutcome)
    returns (controlled: Option<Objects>)
    requires !out.AnyFailed()
    modifies api, out
    ensures |api.trace| >= |old(api.trace)|
    ensures OnlyAdoptedSince(owner, desired, old(api.objects), api.trace, |old(api.trace)|)
    ensures OnlyAdopted(owner, desired, old(api.objects), api.objects)
    ensures controlled.Some? ==> Listed(owner, controlled.value, api.objects)
    ensures controlled.Some? && !out.AnyFailed() ==> AllListed(owner, desired, controlled.value, api.objects)
    ensures controlled.Some? ==> forall n :: n in old(api.objects) && owner.Controls(old(api.objects)[n]) ==>
      n in controlled.value
    ensures NoOrphans(owner, desired, old(api.objects)) ==> api.trace == old(api.trace) && !out.AnyFailed()
    ensures KeptAsStored(out.rejected.Keys, old(api.objects), api.objects)
    ensures forall n :: n in out.rejected ==> out.rejected[n].Refused? && !Named(desired, n)
    ensures old(api.Faultless()) ==> api.Faultless() && controlled.Some? && !out.AnyFailed()
  {
    hide LabelsContain, OnlyAdopted, OnlyAdoptedSince, Claiming;
    ghost var start, since := api.objects, |api.trace|;
    NothingAdopted(owner, desired, start, api.trace);
    var owned := api.List((o: Stored) => owner.Controls(o));
    if owned.None? { return None; }
    var labelled := api.List((o: Stored) => LabelsContain(o.labels, owner.labels));
    if labelled.None? { return None; }
    var todo := labelled.value.Keys;
    var claimed := owned.value;
    StartClaiming(owner, desired, start, claimed, todo, out.rejected);
    while todo != {}
      invariant forall n :: n in todo ==> n in labelled.value && n in start && labelled.value[n] == start[n]
      invariant forall n :: n in todo ==>
        LabelsContain(start[n].labels, owner.labels) && (n in claimed <==> owner.Controls(start[n]))
      invariant |api.trace| >= since && OnlyAdoptedSince(owner, desired, start, api.trace, since)
      invariant Claiming(owner, desired, start, api.objects, claimed, todo, out.rejected.Keys, out.AnyFailed())
      invariant forall n :: n in start && owner.Controls(start[n]) ==> n in claimed
      invariant NoOrphans(owner, desired, start) ==> api.trace == old(api.trace) && !out.AnyFailed()
      invariant forall n :: n in out.rejected ==> out.rejected[n].Refused? && !Named(desired, n)
      invariant old(api.Faultless()) ==> api.Faultless() && !out.AnyFailed()
      decreases |todo|
    {
      var n :| n in todo;
      claimed := ClaimOne(api, owner, desired, n, labelled.value[n], claimed, out, start, todo, since);
      todo := todo - {n};
    }
    AllClaimed(owner, desired, start, api.objects, claimed, out.rejected.Keys, out.AnyFailed());
    return Some(claimed);
  }

  lemma AllClaimed(owner: Owner, desired: seq<Desired>, start: Objects, now: Objects, claimed: Objects,
      rejected: set<string>, failed: bool)
    requires Claiming(owner, desired, start, now, claimed, {}, rejected, failed)
    ensures OnlyAdopted(owner, desired, start, now) && Listed(owner, claimed, now) && KeptAsStored(rejected, start, now)
    ensures !failed ==> AllListed(owner, desired, claimed, now)
  {}

  lemma StartClaiming(owner: Owner, desired: seq<Desired>, start: Objects, owned: Objects, todo: set<string>,
      rejected: Holds)
    requires forall n :: n in owned <==> n in start && owner.Controls(start[n])
    requires forall n :: n in owned ==> owned[n] == start[n]
    requires forall n :: n in todo <==> n in start && LabelsContain(start[n].labels, owner.labels)
    requires |rejected| == 0
    ensures Claiming(owner, desired, start, start, owned, todo, rejected.Keys, false)
  {
    hide LabelsContain, Named;
  }

  lemma NothingAdopted(owner: Owner, desired: seq<Desired>, start: Objects, trace: seq<Objects>)
    ensures OnlyAdopted(owner, desired, start, start)
    ensures OnlyAdoptedSince(owner, desired, start, trace, |trace|)
  {}
}
