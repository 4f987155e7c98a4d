/** The steps of a pass after adoption, the pass, and the passes after it. */
module Reconcile {
  import opened Base
  import opened Cluster
  import opened RouteCollisions
  import opened Precheck
  import opened AutoConfig

  // ---- The plan ----

  /** d's controlled copy needs no write. */
  predicate UpToDate(controlled: Objects, d: Desired) {
    d.name in controlled && LabelsContain(controlled[d.name].labels, d.labels) && controlled[d.name].spec == d.spec
  }

  method PlanEndpoints(controlled: Objects, desired: seq<Desired>) returns (writes: seq<Desired>, stale: Objects)
    requires Distinct(desired)
    ensures Distinct(writes) && forall d :: d in writes <==> d in desired && !UpToDate(controlled, d)
    ensures forall n :: n in stale <==> n in controlled && !Named(desired, n)
    ensures forall n :: n in stale ==> stale[n] == controlled[n]
  {
    hide LabelsContain;
    writes := [];
    var wanted := {};
    for i := 0 to |desired|
      invariant forall n :: n in wanted <==> Named(desired[..i], n)
      invariant forall d :: d in writes <==> d in desired[..i] && !UpToDate(controlled, d)
      invariant Distinct(writes)
    {
      var d := desired[i];
      assert desired[..i + 1] == desired[..i] + [d];
      wanted := wanted + {d.name};
      if !UpToDate(controlled, d) {
        assert forall w :: w in writes ==> w.name != d.name;
        writes := writes + [d];
      }
    }
    assert desired[..|desired|] == desired;
    stale := map n | n in controlled && n !in wanted :: controlled[n];
  }

  /** The controlled endpoints and the stored copy of each desired one that
      exists and that nobody controls. A failed read leaves its name unknown. */
  method WithUncontrolled(api: Api, controlled: Objects, desired: seq<Desired>) returns (existing: Objects)
    modifies api`calls
    ensures forall n :: n in controlled ==> n in existing && existing[n] == controlled[n]
    ensures forall n :: n in existing && n !in controlled ==>
              Named(desired, n) && n in api.objects && existing[n] == api.objects[n] && existing[n].controller.None?
    ensures old(api.Faultless()) ==> api.Faultless()
    ensures old(api.Faultless()) ==>
              forall d :: d in desired && d.name in api.objects && api.objects[d.name].controller.None? ==>
                d.name in existing
  {
    existing := controlled;
    for i := 0 to |desired|
      invariant forall n :: n in controlled ==> n in existing && existing[n] == controlled[n]
      invariant forall n :: n in existing && n !in controlled ==>
          (Named(desired, n) && n in api.objects && existing[n] == api.objects[n] && existing[n].controller.None?)
      invariant old(api.Faultless()) ==> api.Faultless()
      invariant old(api.Faultless()) ==>
          forall d :: d in desired[..i] && d.name in api.objects && api.objects[d.name].controller.None? ==>
            d.name in existing
    {
      var d := desired[i];
      assert desired[..i + 1] == desired[..i] + [d];
      if d.name !in controlled {
        var stored, e := api.Get(d.name);
        if e.None? && stored.value.controller.None? { existing := existing[d.name := stored.value]; }
      }
    }
    assert desired[..|desired|] == desired;
  }

  // ---- Writing ----

  /** now2 is now with d written. */
  ghost predicate Wrote(owner: Owner, now: Objects, now2: Objects, d: Desired) {
    && d.name in now2 && now2 == now[d.name := now2[d.name]]
    && if d.name in now
       then (now[d.name].controller.None? || owner.Controls(now[d.name])) &&
         now2[d.name] == owner.Written(now[d.name], d)
       else owner.Made(now2[d.name], d)
  }

  /** n is stored, and another object controls it. */
  predicate IsOthers(owner: Owner, objects: Objects, n: string) {
    n in objects && objects[n].controller.Some? && !owner.Controls(objects[n])
  }

  /** Creates or updates d's live copy, unless another object controls it. */
  method WriteEndpoint(api: Api, owner: Owner, d: Desired) returns (e: Option<Error>)
    modifies api
    ensures api.trace == old(api.trace) || api.trace == old(api.trace) + [api.objects]
    ensures api.trace == old(api.trace) ==> api.objects == old(api.objects)
    ensures api.objects == old(api.objects) || Wrote(owner, old(api.objects), api.objects, d)
    ensures e.None? ==> owner.MadeIn(api.objects, d)
    ensures e == Some(AlreadyOwned) || e == Some(Failed(Invalid)) ==> api.objects == old(api.objects)
    ensures old(api.Faultless()) ==> api.Faultless() && (e.None? || e == Some(AlreadyOwned))
    ensures old(api.Faultless()) && e.Some? ==> IsOthers(owner, old(api.objects), d.name)
  {
    var live;
    live, e := api.Get(d.name);
    if e == Some(NotFound) {
      e := api.Create(d.name, owner.uid, map[] + d.labels, d.spec);
      return;
    }
    if e.Some? { return; }
    if live.value.controller.Some? && !owner.Controls(live.value) { return Some(AlreadyOwned); }
    var written := owner.Written(live.value, d);
    if written == live.value { return None; }
    e := api.Update(d.name, written);
  }

  ghost predicate BuiltSince(owner: Owner, desired: seq<Desired>, start: Objects, trace: seq<Objects>, since: nat) {
    forall i :: since <= i < |trace| ==> Built(owner, desired, start, trace[i])
  }

  /** The endpoints in todo are still to be written or passed over; every other
      desired one is made, or something is recorded of it. */
  ghost predicate Writing(owner: Owner, desired: seq<Desired>, start: Objects, now: Objects, todo: seq<Desired>,
      rejected: set<string>, excused: set<string>) {
    && Built(owner, desired, start, now)
    && (forall d :: d in todo ==>
          (d.name in start <==> d.name in now) && (d.name in start ==> now[d.name] == start[d.name]))
    && (forall d :: d in desired ==> d in todo || d.name in excused || owner.MadeIn(now, d))
    && KeptAsStored(rejected, start, now)
  }

  lemma BuiltOneMore(owner: Owner, desired: seq<Desired>, start: Objects, now: Objects, now2: Objects, d: Desired)
    requires Built(owner, desired, start, now) && d in desired && Wrote(owner, now, now2, d)
    requires (d.name in start <==> d.name in now) && (d.name in start ==> now[d.name] == start[d.name])
    ensures Built(owner, desired, start, now2)
  {
    hide LabelsContain;
    forall n | n in start ensures n in now2 && MayBecome(owner, desired, n, start[n], now2[n]) {
      assert n in now;
    }
  }

  /** d was written, or not: without effect when it is rejected. */
  lemma WriteOneMore(owner: Owner, desired: seq<Desired>, start: Objects, now: Objects, now2: Objects, d: Desired,
      todo: seq<Desired>, rejected: set<string>, rejected2: set<string>, excused: set<string>, excused2: set<string>)
    requires Writing(owner, desired, start, now, [d] + todo, rejected, excused)
    requires d in desired && forall w :: w in todo ==> w.name != d.name
    requires now2 == now || (Wrote(owner, now, now2, d) && d.name !in rejected && rejected2 == rejected)
    requires rejected2 == rejected || rejected2 == rejected + {d.name}
    requires excused <= excused2 && (d.name in excused2 || owner.MadeIn(now2, d))
    requires Distinct(desired)
    ensures Writing(owner, desired, start, now2, todo, rejected2, excused2)
  {
    hide Built, LabelsContain;
    assert d in [d] + todo;
    assert forall w :: w in todo ==> w in [d] + todo;
    if now2 != now { BuiltOneMore(owner, desired, start, now, now2, d); }
    forall x | x in desired ensures x in todo || x.name in excused2 || owner.MadeIn(now2, x) {
      if x.name == d.name { SameName(desired, x, d); }
    }
  }

  /** Writes d, and records why when it cannot. */
  method TryWrite(api: Api, owner: Owner, d: Desired, out: EndpointOutcome)
    modifies api, out
    ensures api.trace == old(api.trace) || api.trace == old(api.trace) + [api.objects]
    ensures api.trace == old(api.trace) ==> api.objects == old(api.objects)
    ensures api.objects == old(api.objects) ||
      (Wrote(owner, old(api.objects), api.objects, d) && out.rejected == old(out.rejected))
    ensures out.Excused() == old(out.Excused()) || out.Excused() == old(out.Excused()) + {d.name}
    ensures d.name in out.Excused() || owner.MadeIn(api.objects, d)
    ensures old(out.AnyFailed()) ==> out.AnyFailed()
    ensures out.rejected == old(out.rejected) ||
      exists e :: out.rejected == old(out.rejected)[d.name := Refused(e)]
    ensures old(api.Faultless()) ==>
      api.Faultless() && out.transient == old(out.transient) && out.raced == old(out.raced)
    ensures old(api.Faultless()) ==> out.rejected == old(out.rejected) || IsOthers(owner, old(api.objects), d.name)
  {
    hide Wrote, LabelsContain;
    var e := WriteEndpoint(api, owner, d);
    if e.Some? { out.Record(d.name, e.value); }
  }

  /** Writes d unless it is held. */
  method WriteOne(api: Api, owner: Owner, desired: seq<Desired>, d: Desired, out: EndpointOutcome,
      ghost start: Objects, ghost todo: seq<Desired>, ghost since: nat)
    requires Distinct(desired) && d in desired && forall w :: w in todo ==> w.name != d.name
    requires Writing(owner, desired, start, api.objects, [d] + todo, out.rejected.Keys, out.Excused())
    requires BuiltSince(owner, desired, start, api.trace, since)
    modifies api, out
    ensures |api.trace| >= |old(api.trace)|
    ensures Writing(owner, desired, start, api.objects, todo, out.rejected.Keys, out.Excused())
    ensures RefusesMore(old(out.rejected), out.rejected)
    ensures old(api.Faultless()) ==> out.rejected == old(out.rejected) || IsOthers(owner, start, d.name)
    ensures BuiltSince(owner, desired, start, api.trace, since)
    ensures old(out.rejected).Keys <= out.rejected.Keys && (old(out.AnyFailed()) ==> out.AnyFailed())
    ensures api.objects == old(api.objects) ||
      (Wrote(owner, old(api.objects), api.objects, d) && d.name !in old(out.rejected))
    ensures old(api.Faultless()) ==>
      api.Faultless() && out.transient == old(out.transient) && out.raced == old(out.raced)
  {
    hide Wrote, Built, BuiltSince, Writing, LabelsContain, Distinct, NamesOf, IsOthers, EndpointOutcome.Excused;
    ghost var now, rejected, excused, trace := api.objects, out.rejected.Keys, out.Excused(), api.trace;
    out.RejectedIsExcused();
    if d.name in out.rejected {
      WriteOneMore(owner, desired, start, now, now, d, todo, rejected, rejected, excused, excused);
      return;
    }
    NextIsAsStored(owner, desired, start, now, d, todo, rejected, excused);
    TryWrite(api, owner, d, out);
    WriteOneMore(owner, desired, start, now, api.objects, d, todo, rejected, out.rejected.Keys, excused,
      out.Excused());
    WritingIsBuilt(owner, desired, start, api.objects, todo, out.rejected.Keys, out.Excused());
    BuiltSoFar(owner, desired, start, trace, since, api.objects);
  }

  lemma BuiltSoFar(owner: Owner, desired: seq<Desired>, start: Objects, trace: seq<Objects>, since: nat, now: Objects)
    requires BuiltSince(owner, desired, start, trace, since) && Built(owner, desired, start, now)
    ensures BuiltSince(owner, desired, start, trace + [now], since)
  {
    hide Built;
  }

  lemma WritingIsBuilt(owner: Owner, desired: seq<Desired>, start: Objects, now: Objects, todo: seq<Desired>,
      rejected: set<string>, excused: set<string>)
    requires Writing(owner, desired, start, now, todo, rejected, excused)
    ensures Built(owner, desired, start, now)
  {}

  /** What is written next is still as the pass found it. */
  lemma NextIsAsStored(owner: Owner, desired: seq<Desired>, start: Objects, now: Objects, d: Desired,
      todo: seq<Desired>, rejected: set<string>, excused: set<string>)
    requires Writing(owner, desired, start, now, [d] + todo, rejected, excused)
    ensures (d.name in start <==> d.name in now) && (d.name in start ==> now[d.name] == start[d.name])
    ensures IsOthers(owner, start, d.name) <==> IsOthers(owner, now, d.name)
  {
    assert d in [d] + todo;
  }

  /** Only the names of eps are stored differently. */
  ghost predicate OnlyChanges(eps: seq<Desired>, was: Objects, now: Objects) {
    forall n :: !Named(eps, n) ==> (n in was <==> n in now) && (n in was ==> now[n] == was[n])
  }

  lemma NothingChanged(eps: seq<Desired>, now: Objects)
    ensures OnlyChanges(eps, now, now)
  {}

  lemma OneMoreChange(owner: Owner, eps: seq<Desired>, was: Objects, now: Objects, now2: Objects, d: Desired)
    requires OnlyChanges(eps, was, now) && d in eps && (now2 == now || Wrote(owner, now, now2, d))
    ensures OnlyChanges(eps, was, now2)
  {}

  /** Writes each of writes that is not held, whatever fails. */
  method WriteAll(api: Api, owner: Owner, desired: seq<Desired>, writes: seq<Desired>, out: EndpointOutcome,
      ghost start: Objects, ghost since: nat)
    requires Distinct(desired) && Distinct(writes) && forall d :: d in writes ==> d in desired
    requires Writing(owner, desired, start, api.objects, writes, out.rejected.Keys, out.Excused())
    requires BuiltSince(owner, desired, start, api.trace, since)
    modifies api, out
    ensures |api.trace| >= |old(api.trace)|
    ensures Writing(owner, desired, start, api.objects, [], out.rejected.Keys, out.Excused())
    ensures RefusesMore(old(out.rejected), out.rejected)
    ensures old(api.Faultless()) && (forall d :: d in writes ==> !IsOthers(owner, start, d.name)) ==>
      out.rejected == old(out.rejected)
    ensures BuiltSince(owner, desired, start, api.trace, since)
    ensures OnlyChanges(WithoutHeld(writes, old(out.rejected).Keys), old(api.objects), api.objects)
    ensures old(out.AnyFailed()) ==> out.AnyFailed()
    ensures writes == [] ==> api.trace == old(api.trace)
    ensures old(api.Faultless()) ==>
      api.Faultless() && out.transient == old(out.transient) && out.raced == old(out.raced)
  {
    hide Wrote, Built, BuiltSince, Writing, LabelsContain, OnlyChanges, NamesOf, EndpointOutcome.Excused, IsOthers;
    ghost var allowed := WithoutHeld(writes, out.rejected.Keys);
    assert writes[0..] == writes;
    NothingChanged(allowed, api.objects);
    for i := 0 to |writes|
      invariant |api.trace| >= |old(api.trace)|
      invariant Writing(owner, desired, start, api.objects, writes[i..], out.rejected.Keys, out.Excused())
      invariant RefusesMore(old(out.rejected), out.rejected)
      invariant old(api.Faultless()) && (forall d :: d in writes ==> !IsOthers(owner, start, d.name)) ==>
        out.rejected == old(out.rejected)
      invariant BuiltSince(owner, desired, start, api.trace, since)
      invariant OnlyChanges(allowed, old(api.objects), api.objects)
      invariant old(out.rejected).Keys <= out.rejected.Keys && (old(out.AnyFailed()) ==> out.AnyFailed())
      invariant writes == [] ==> api.trace == old(api.trace)
      invariant old(api.Faultless()) ==>
        api.Faultless() && out.transient == old(out.transient) && out.raced == old(out.raced)
    {
      ghost var now, rejected := api.objects, out.rejected.Keys;
      assert writes[i..] == [writes[i]] + writes[i + 1..];
      WriteOne(api, owner, desired, writes[i], out, start, writes[i + 1..], since);
      if api.objects != now {
        OneMoreChange(owner, allowed, old(api.objects), now, api.objects, writes[i]);
      }
    }
    assert writes[|writes|..] == [];
  }

  // ---- Deleting ----

  ghost predicate SafeSince(owner: Owner, desired: seq<Desired>, start: Objects, trace: seq<Objects>, since: nat) {
    forall i :: since <= i < |trace| ==> MakeBeforeBreak(owner, desired, start, trace[i])
  }

  /** The named endpoints are stored as they were, or merely adopted. */
  ghost predicate KeptOrAdopted(owner: Owner, names: set<string>, start: Objects, now: Objects) {
    && (forall n :: n in names ==> (n in start <==> n in now))
    && (forall n :: n in names && n in start ==>
          now[n] == start[n] || (owner.Adoptable(start[n]) && now[n] == owner.Adopted(start[n])))
  }

  /** The stale endpoints in todo are still to be deleted. */
  ghost predicate Deleting(owner: Owner, desired: seq<Desired>, start: Objects, now: Objects, stale: Objects,
      todo: set<string>, rejected: set<string>, failed: bool) {
    && MakeBeforeBreak(owner, desired, start, now) && AllMade(owner, now, desired)
    && (forall n :: n in todo ==>
          n in stale && n in now && now[n] == stale[n] && n in start && !owner.Foreign(start[n]) && !Named(desired, n))
    && (!failed ==> forall n :: n in now && !owner.Foreign(now[n]) ==> Named(desired, n) || n in todo)
    && KeptOrAdopted(owner, rejected, start, now)
  }

  /** Deleting what is not desired leaves everything desired made. */
  lemma BreakOneMore(owner: Owner, desired: seq<Desired>, start: Objects, now: Objects, n: string)
    requires MakeBeforeBreak(owner, desired, start, now) && AllMade(owner, now, desired)
    requires n in start && !owner.Foreign(start[n]) && !Named(desired, n)
    ensures AllMade(owner, now - {n}, desired) && MakeBeforeBreak(owner, desired, start, now - {n})
  {
    hide LabelsContain, MayBecome;
    forall d | d in desired ensures owner.MadeIn(now - {n}, d) {
      assert owner.MadeIn(now, d) && Named(desired, d.name);
    }
  }

  lemma RejectOneMore(owner: Owner, desired: seq<Desired>, start: Objects, now: Objects, rejected: set<string>,
      n: string)
    requires KeptOrAdopted(owner, rejected, start, now) && MakeBeforeBreak(owner, desired, start, now)
    requires n in start && n in now && !Named(desired, n)
    ensures KeptOrAdopted(owner, rejected + {n}, start, now)
  {
    hide LabelsContain;
    assert MayBecome(owner, desired, n, start[n], now[n]);
  }

  lemma DeleteOneMore(owner: Owner, desired: seq<Desired>, start: Objects, now: Objects, now2: Objects, stale: Objects,
      todo: set<string>, rejected: set<string>, rejected2: set<string>, failed: bool, failed2: bool, n: string)
    requires Deleting(owner, desired, start, now, stale, todo, rejected, failed) && n in todo
    requires now2 == now || (now2 == now - {n} && rejected2 == rejected && n !in rejected)
    requires rejected2 == rejected || rejected2 == rejected + {n}
    requires failed ==> failed2
    requires !failed2 ==> n !in now2
    ensures Deleting(owner, desired, start, now2, stale, todo - {n}, rejected2, failed2)
    ensures MakeBeforeBreak(owner, desired, start, now2)
  {
    hide LabelsContain, MakeBeforeBreak, AllMade, Named;
    BreakOneMore(owner, desired, start, now, n);
    RejectOneMore(owner, desired, start, now, rejected, n);
  }

  /** Deletes the stale endpoint n, while its UID is the one listed. */
  method DeleteOne(api: Api, owner: Owner, desired: seq<Desired>, stale: Objects, n: string, out: EndpointOutcome,
      ghost start: Objects, ghost todo: set<string>, ghost since: nat)
    requires n in todo && todo <= stale.Keys && out.rejected.Keys !! todo
    requires Deleting(owner, desired, start, api.objects, stale, todo, out.rejected.Keys, out.AnyFailed())
    requires SafeSince(owner, desired, start, api.trace, since)
    modifies api, out
    ensures |api.trace| >= |old(api.trace)|
    ensures SafeSince(owner, desired, start, api.trace, since)
    ensures Deleting(owner, desired, start, api.objects, stale, todo - {n}, out.rejected.Keys, out.AnyFailed())
    ensures out.rejected.Keys <= old(out.rejected).Keys + {n}
    ensures api.objects == old(api.objects) || api.objects == old(api.objects) - {n}
    ensures RefusesMore(old(out.rejected), out.rejected)
    ensures old(api.Faultless()) ==> api.Faultless() && out.AnyFailed() == old(out.AnyFailed())
  {
    hide MakeBeforeBreak, LabelsContain, SafeSince, Deleting, NamesOf, EndpointOutcome.Excused, Named;
    ghost var now, rejected, failed, trace := api.objects, out.rejected.Keys, out.AnyFailed(), api.trace;
    StillThere(owner, desired, start, now, stale, todo, rejected, failed, n);
    var e := api.Delete(n, stale[n].uid);
    if e.Some? && e != Some(NotFound) { out.Record(n, e.value); }
    DeleteOneMore(owner, desired, start, now, api.objects, stale, todo, rejected, out.rejected.Keys, failed,
      out.AnyFailed(), n);
    SafeOneMore(owner, desired, start, trace, since, api.objects);
  }

  /** Deletes the stale endpoints. */
  method DeleteAll(api: Api, owner: Owner, desired: seq<Desired>, stale: Objects, out: EndpointOutcome,
      ghost start: Objects, ghost since: nat)
    requires !out.AnyFailed() && out.rejected.Keys !! stale.Keys
    requires Deleting(owner, desired, start, api.objects, stale, stale.Keys, out.rejected.Keys, false)
    requires SafeSince(owner, desired, start, api.trace, since)
    modifies api, out
    ensures |api.trace| >= |old(api.trace)|
    ensures SafeSince(owner, desired, start, api.trace, since)
    ensures Deleting(owner, desired, start, api.objects, stale, {}, out.rejected.Keys, out.AnyFailed())
    ensures forall n :: n in api.objects ==> n in old(api.objects) && api.objects[n] == old(api.objects)[n]
    ensures stale == map[] ==> api.trace == old(api.trace)
    ensures RefusesMore(old(out.rejected), out.rejected)
    ensures old(api.Faultless()) ==> !out.AnyFailed()
  {
    hide MakeBeforeBreak, LabelsContain, SafeSince, Deleting;
    var todo := stale.Keys;
    while todo != {}
      invariant todo <= stale.Keys && out.rejected.Keys !! todo
      invariant |api.trace| >= |old(api.trace)|
      invariant SafeSince(owner, desired, start, api.trace, since)
      invariant Deleting(owner, desired, start, api.objects, stale, todo, out.rejected.Keys, out.AnyFailed())
      invariant forall n :: n in api.objects ==> n in old(api.objects) && api.objects[n] == old(api.objects)[n]
      invariant stale == map[] ==> api.trace == old(api.trace)
      invariant RefusesMore(old(out.rejected), out.rejected)
      invariant old(api.Faultless()) ==> api.Faultless() && !out.AnyFailed()
      decreases |todo|
    {
      var n :| n in todo;
      DeleteOne(api, owner, desired, stale, n, out, start, todo, since);
      todo := todo - {n};
    }
  }

  lemma StillThere(owner: Owner, desired: seq<Desired>, start: Objects, now: Objects, stale: Objects,
      todo: set<string>, rejected: set<string>, failed: bool, n: string)
    requires Deleting(owner, desired, start, now, stale, todo, rejected, failed) && n in todo
    ensures n in stale && n in now && now[n] == stale[n]
  {}

  lemma SafeOneMore(owner: Owner, desired: seq<Desired>, start: Objects, trace: seq<Objects>, since: nat, now: Objects)
    requires SafeSince(owner, desired, start, trace, since) && MakeBeforeBreak(owner, desired, start, now)
    ensures SafeSince(owner, desired, start, trace + [now], since)
  {
    hide MakeBeforeBreak;
  }
}
