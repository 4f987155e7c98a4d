/** The endpoints of one namespace as the API server holds them, and the calls
    a pass makes on them. */
module Cluster {
  import opened Base

  type Labels = map<string, string>
  type Uid = nat

  /** An endpoint's spec as a JSON value: two encodings of one value are the
      same spec. route is the method and route shape of its first entry. */
  datatype Spec = Spec(route: Option<string>, content: string)

  datatype Stored = Stored(
    uid: Uid, controller: Option<Uid>, labels: Labels, spec: Spec, terminating: bool, created: int)

  type Objects = map<string, Stored>

  /** What the generator asks for. */
  datatype Desired = Desired(name: string, labels: Labels, spec: Spec)

  function Names(eps: seq<Desired>): (r: set<string>)
    ensures forall n :: n in r <==> exists i :: 0 <= i < |eps| && eps[i].name == n
  {
    set i | 0 <= i < |eps| :: eps[i].name
  }

  /** Pairwise distinct names, as the generator gives them. */
  ghost predicate Distinct(eps: seq<Desired>) {
    forall i, j :: 0 <= i < j < |eps| ==> eps[i].name != eps[j].name
  }

  // ---- The API ----

  /** A call may fail without effect, or take effect and lose its reply. */
  datatype Fault = Conflict | AlreadyExists | Invalid | Unavailable
  datatype Outcome = Delivered | Lost(fault: Fault) | TimedOut

  datatype Error = NotFound | AlreadyOwned | Failed(fault: Fault)

  class Api {
    /** How the n-th call ends. */
    const outcome: nat -> Outcome
    var calls: nat
    var objects: Objects
    var nextUid: Uid
    var clock: int
    /** Every state of the cluster so far. */
    ghost var trace: seq<Objects>

    constructor (outcome: nat -> Outcome, objects: Objects, nextUid: Uid, clock: int)
      ensures this.outcome == outcome && this.objects == objects && trace == [objects]
    {
      this.outcome, this.objects, this.nextUid, this.clock := outcome, objects, nextUid, clock;
      calls := 0;
      trace := [objects];
    }

    /** No call from now on fails. */
    ghost predicate Faultless()
      reads this
    {
      forall k :: calls <= k ==> outcome(k).Delivered?
    }

    /** The objects select accepts, or None when the list fails. */
    method List(select: Stored -> bool) returns (r: Option<Objects>)
      modifies this`calls
      ensures r.Some? ==> forall n :: n in r.value <==> n in objects && select(objects[n])
      ensures r.Some? ==> forall n :: n in r.value ==> r.value[n] == objects[n]
      ensures old(Faultless()) ==> r.Some? && Faultless()
    {
      var end := outcome(calls);
      calls := calls + 1;
      return if end.Delivered? then Some(map n | n in objects && select(objects[n]) :: objects[n]) else None;
    }

    method Get(name: string) returns (r: Option<Stored>, e: Option<Error>)
      modifies this`calls
      ensures r.Some? <==> e.None?
      ensures r.Some? ==> name in objects && r.value == objects[name]
      ensures e == Some(NotFound) ==> name !in objects
      ensures e != Some(AlreadyOwned)
      ensures old(Faultless()) ==> Faultless() && (e.None? || e == Some(NotFound))
    {
      var end := outcome(calls);
      calls := calls + 1;
      if end.Lost? { return None, Some(Failed(end.fault)); }
      if end.TimedOut? { return None, Some(Failed(Unavailable)); }
      if name !in objects { return None, Some(NotFound); }
      return Some(objects[name]), None;
    }

    method Update(name: string, o: Stored) returns (e: Option<Error>)
      modifies this`calls, this`objects, this`trace
      ensures trace == old(trace) + [objects]
      ensures objects == old(objects) || (name in old(objects) && objects == old(objects)[name := o])
      ensures e.None? ==> name in old(objects) && objects == old(objects)[name := o]
      ensures e.Some? && e.value.Failed? && !e.value.fault.Unavailable? ==> objects == old(objects)
      ensures e == Some(NotFound) ==> name !in old(objects)
      ensures e != Some(AlreadyOwned)
      ensures old(Faultless()) ==> Faultless() && (e.None? || e == Some(NotFound))
    {
      var end := outcome(calls);
      calls := calls + 1;
      if end.Lost? {
        e := Some(Failed(end.fault));
      } else if name !in objects {
        e := Some(NotFound);
      } else {
        objects := objects[name := o];
        e := if end.TimedOut? then Some(Failed(Unavailable)) else None;
      }
      trace := trace + [objects];
    }

    method Create(name: string, controller: Uid, labels: Labels, spec: Spec) returns (e: Option<Error>)
      modifies this`calls, this`objects, this`trace, this`nextUid
      ensures trace == old(trace) + [objects]
      ensures var o := Stored(old(nextUid), Some(controller), labels, spec, false, clock);
        && (objects == old(objects) || (name !in old(objects) && objects == old(objects)[name := o]))
        && (e.None? ==> name !in old(objects) && objects == old(objects)[name := o])
      ensures e.Some? && e.value.Failed? && !e.value.fault.Unavailable? ==> objects == old(objects)
      ensures e != Some(AlreadyOwned) && e != Some(NotFound)
      ensures old(Faultless()) ==> Faultless() && (name !in old(objects) ==> e.None?)
    {
      var end := outcome(calls);
      calls := calls + 1;
      if end.Lost? {
        e := Some(Failed(end.fault));
      } else if name in objects {
        e := Some(Failed(AlreadyExists));
      } else {
        objects := objects[name := Stored(nextUid, Some(controller), labels, spec, false, clock)];
        nextUid := nextUid + 1;
        e := if end.TimedOut? then Some(Failed(Unavailable)) else None;
      }
      trace := trace + [objects];
    }

    /** Deletes name when its UID is still uid: Conflict otherwise. */
    method Delete(name: string, uid: Uid) returns (e: Option<Error>)
      modifies this`calls, this`objects, this`trace
      ensures trace == old(trace) + [objects]
      ensures objects == old(objects) ||
        (name in old(objects) && old(objects)[name].uid == uid && objects == old(objects) - {name})
      ensures e.None? || e == Some(NotFound) ==> name !in objects
      ensures e.Some? && e.value.Failed? && !e.value.fault.Unavailable? ==> objects == old(objects)
      ensures e != Some(AlreadyOwned)
      ensures old(Faultless()) ==> Faultless() && (name in old(objects) && old(objects)[name].uid == uid ==> e.None?)
    {
      var end := outcome(calls);
      calls := calls + 1;
      if end.Lost? {
        e := Some(Failed(end.fault));
      } else if name !in objects {
        e := Some(NotFound);
      } else if objects[name].uid != uid {
        e := Some(Failed(Conflict));
      } else {
        objects := objects - {name};
        e := if end.TimedOut? then Some(Failed(Unavailable)) else None;
      }
      trace := trace + [objects];
    }
  }
}
