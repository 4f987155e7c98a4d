/** Which of the desired endpoints that share a route keeps it. */
module RouteCollisions {
  import opened Base
  import opened Cluster

  /** The end of year 9999: the creation time of an endpoint that has none. */
  const NOT_YET_CREATED: int := 253402300799

  /** The creation time of each endpoint known to exist. */
  type CreationOrder = map<string, int>

  function NewCreationOrder(existing: Objects): CreationOrder {
    map n | n in existing :: existing[n].created
  }

  function CreatedAt(order: CreationOrder, name: string): int {
    if name in order then order[name] else NOT_YET_CREATED
  }

  /** The renderer serves a rather than b: the older first, then by name. */
  predicate Before(order: CreationOrder, a: string, b: string) {
    CreatedAt(order, a) < CreatedAt(order, b) || (CreatedAt(order, a) == CreatedAt(order, b) && Less(a, b))
  }

  lemma BeforeIsAStrictOrder(order: CreationOrder, a: string, b: string)
    ensures a != b ==> (Before(order, a, b) <==> !Before(order, b, a))
    ensures !Before(order, a, a)
  {
    LessIsTotal(a, b);
    LessIsAsymmetric(a, b);
  }

  lemma BeforeIsTransitive(order: CreationOrder, a: string, b: string, c: string)
    requires Before(order, a, b) && Before(order, b, c)
    ensures Before(order, a, c)
  {
    if Less(a, b) && Less(b, c) { LessIsTransitive(a, b, c); }
  }

  // ---- What is held ----

  /** a and b are different desired endpoints on one route. */
  predicate Rivals(a: Desired, b: Desired) {
    a.name != b.name && a.spec.route.Some? && a.spec.route == b.spec.route
  }

  /** ep loses its route to an older rival. */
  ghost predicate Loses(desired: set<Desired>, order: CreationOrder, ep: Desired) {
    exists rival :: rival in desired && Rivals(ep, rival) && Before(order, rival.name, ep.name)
  }

  /** s serves ep's route: no rival of s comes before it. */
  ghost predicate Serves(desired: set<Desired>, order: CreationOrder, s: Desired, ep: Desired) {
    s in desired && s.spec.route.Some? && s.spec.route == ep.spec.route && !Loses(desired, order, s)
  }

  /** Every desired endpoint with a route has one that serves it. */
  lemma {:induction false} EveryRouteIsServed(desired: set<Desired>, order: CreationOrder, ep: Desired)
    returns (s: Desired)
    requires ep in desired && ep.spec.route.Some?
    ensures Serves(desired, order, s, ep)
    ensures s == ep || Before(order, s.name, ep.name)
    decreases set e | e in desired && Before(order, e.name, ep.name)
  {
    if !Loses(desired, order, ep) { return ep; }
    var rival :| rival in desired && Rivals(ep, rival) && Before(order, rival.name, ep.name);
    var nearer := set e | e in desired && Before(order, e.name, rival.name);
    var all := set e | e in desired && Before(order, e.name, ep.name);
    forall e | e in nearer ensures e in all { BeforeIsTransitive(order, e.name, rival.name, ep.name); }
    BeforeIsAStrictOrder(order, rival.name, rival.name);
    assert rival in all && rival !in nearer;
    s := EveryRouteIsServed(desired, order, rival);
    if s != rival { BeforeIsTransitive(order, s.name, rival.name, ep.name); }
  }

  /** One owner per route: of two rivals, one loses. */
  lemma OneOwnerPerRoute(desired: set<Desired>, order: CreationOrder, a: Desired, b: Desired)
    requires a in desired && b in desired && a.name != b.name
    requires a.spec.route.Some? && a.spec.route == b.spec.route
    ensures Loses(desired, order, a) || Loses(desired, order, b)
  {
    BeforeIsAStrictOrder(order, a.name, b.name);
  }

  /** Endpoints that do not exist yet never displace one that does. */
  lemma NewcomersDisplaceNobody(desired: set<Desired>, more: set<Desired>, order: CreationOrder, ep: Desired)
    requires ep.name in order && order[ep.name] < NOT_YET_CREATED
    requires forall e :: e in more ==> e.name !in order
    ensures Loses(desired + more, order, ep) <==> Loses(desired, order, ep)
  {
    if Loses(desired + more, order, ep) {
      var rival :| rival in desired + more && Rivals(ep, rival) && Before(order, rival.name, ep.name);
      assert rival in desired;
    }
    if Loses(desired, order, ep) {
      var rival :| rival in desired && Rivals(ep, rival) && Before(order, rival.name, ep.name);
      assert rival in desired + more;
    }
  }

  /** Writing what is not held settles the holds: whichever of the survivors
      the pass created, before the end of time, the next pass holds the same
      endpoints. */
  lemma HoldsAreStable(desired: set<Desired>, order: CreationOrder, next: CreationOrder)
    requires forall a, b :: a in desired && b in desired && a.name == b.name ==> a == b
    requires forall n :: n in order ==> order[n] < NOT_YET_CREATED && n in next && next[n] == order[n]
    requires forall ep :: ep in desired && ep.name in next && ep.name !in order ==>
               !Loses(desired, order, ep) && next[ep.name] < NOT_YET_CREATED
    ensures forall ep :: ep in desired ==> (Loses(desired, next, ep) <==> Loses(desired, order, ep))
  {
    forall ep, rival | ep in desired && rival in desired && Rivals(ep, rival) && Before(order, rival.name, ep.name)
      ensures Loses(desired, next, ep)
    {
      assert Loses(desired, order, ep);
      var s := EveryRouteIsServed(desired, order, ep);
      BeforeIsAStrictOrder(order, s.name, ep.name);
      assert Before(next, s.name, ep.name);
      assert Rivals(ep, s);
    }
    forall ep, rival | ep in desired && rival in desired && Rivals(ep, rival) && Before(next, rival.name, ep.name)
      ensures Loses(desired, order, ep)
    {
      if !Before(order, rival.name, ep.name) {
        BeforeIsAStrictOrder(order, rival.name, ep.name);
      }
    }
  }

  /** s keeps ep's route: it is on the same route, was created no later, and it
      exists already if ep does. */
  ghost predicate IsOlderRival(desired: set<Desired>, order: CreationOrder, s: Desired, ep: Desired) {
    && s in desired && s.name != ep.name && ep.spec.route.Some? && s.spec.route == ep.spec.route
    && (ep.name in order && s.name in order ==> order[s.name] <= order[ep.name])
    && (ep.name in order && order[ep.name] < 253402300799 ==> s.name in order)
  }

  /** Whoever loses a route loses it to an older rival, and so does not lose it
      by age to anybody: a strictly older rival always makes it lose. */
  lemma LosersAreYounger(desired: set<Desired>, order: CreationOrder, ep: Desired, name: string)
    requires ep in desired
    ensures Loses(desired, order, ep) && KeptBy(desired, order, ep, name) ==>
      exists s: Desired :: s.name == name && IsOlderRival(desired, order, s, ep) && !Loses(desired, order, s)
    ensures forall s | s in desired && Rivals(ep, s) && s.name in order && ep.name in order ::
      order[s.name] < order[ep.name] ==> Loses(desired, order, ep)
  {
    if Loses(desired, order, ep) && KeptBy(desired, order, ep, name) {
      var s: Desired :| s.name == name && Serves(desired, order, s, ep);
      var rival :| rival in desired && Rivals(ep, rival) && Before(order, rival.name, ep.name);
      assert s.name == ep.name ==> Rivals(s, rival);
      BeforeIsAStrictOrder(order, s.name, ep.name);
      assert Rivals(s, ep);
      assert IsOlderRival(desired, order, s, ep);
    }
  }

  /** The endpoint called name serves ep's route. */
  ghost predicate KeptBy(desired: set<Desired>, order: CreationOrder, ep: Desired, name: string) {
    exists s: Desired :: s.name == name && Serves(desired, order, s, ep)
  }

  // ---- The grouping loop ----

  /** The desired endpoints of each route. */
  method GroupByRoute(desired: seq<Desired>) returns (groups: map<string, seq<Desired>>)
    ensures forall key :: key in groups ==> groups[key] != []
    ensures forall key, ep :: key in groups ==> (ep in groups[key] <==> ep in desired && ep.spec.route == Some(key))
    ensures forall ep :: ep in desired && ep.spec.route.Some? ==> ep.spec.route.value in groups
  {
    groups := map[];
    for i := 0 to |desired|
      invariant forall key :: key in groups ==> groups[key] != []
      invariant forall key, ep :: key in groups ==>
        (ep in groups[key] <==> ep in desired[..i] && ep.spec.route == Some(key))
      invariant forall ep :: ep in desired[..i] && ep.spec.route.Some? ==> ep.spec.route.value in groups
    {
      var ep := desired[i];
      assert desired[..i + 1] == desired[..i] + [ep];
      if ep.spec.route.Some? {
        var key := ep.spec.route.value;
        groups := groups[key := (if key in groups then groups[key] else []) + [ep]];
      }
    }
    assert desired[..|desired|] == desired;
  }

  /** The first of group as the renderer serves it. */
  method Survivor(group: seq<Desired>, order: CreationOrder) returns (s: Desired)
    requires group != []
    ensures s in group && forall ep :: ep in group && ep.name != s.name ==> Before(order, s.name, ep.name)
  {
    s := group[0];
    for i := 1 to |group|
      invariant s in group[..i]
      invariant forall ep :: ep in group[..i] && ep.name != s.name ==> Before(order, s.name, ep.name)
    {
      var ep := group[i];
      assert group[..i + 1] == group[..i] + [ep];
      BeforeIsAStrictOrder(order, s.name, ep.name);
      if Before(order, ep.name, s.name) {
        forall e | e in group[..i] && e.name != s.name ensures Before(order, ep.name, e.name) {
          BeforeIsTransitive(order, ep.name, s.name, e.name);
        }
        s := ep;
      }
    }
    assert group[..|group|] == group;
  }

  function SetOf<T>(s: seq<T>): set<T> {
    set x | x in s
  }

  /** n is in group but not its survivor s. */
  ghost predicate IsBehind(group: seq<Desired>, s: Desired, n: string) {
    n != s.name && exists ep :: ep in group && ep.name == n
  }

  /** held is was, and everything in group behind s. */
  ghost predicate HoldsBehind(group: seq<Desired>, s: Desired, was: map<string, string>, held: map<string, string>) {
    && (forall n :: n in held <==> n in was || IsBehind(group, s, n))
    && (forall n :: n in held ==> held[n] == if IsBehind(group, s, n) then s.name else was[n])
  }

  lemma BehindOneMore(group: seq<Desired>, s: Desired, ep: Desired, n: string)
    ensures IsBehind(group + [ep], s, n) <==> IsBehind(group, s, n) || (n == ep.name && n != s.name)
  {
    assert ep in group + [ep];
  }

  method HoldLosers(group: seq<Desired>, s: Desired, was: map<string, string>) returns (held: map<string, string>)
    ensures HoldsBehind(group, s, was, held)
  {
    hide IsBehind;
    held := was;
    assert forall n :: !IsBehind([], s, n) by { NothingBehind(s); }
    for i := 0 to |group|
      invariant HoldsBehind(group[..i], s, was, held)
    {
      var ep := group[i];
      assert group[..i + 1] == group[..i] + [ep];
      forall n ensures IsBehind(group[..i + 1], s, n) <==> IsBehind(group[..i], s, n) || (n == ep.name && n != s.name) {
        BehindOneMore(group[..i], s, ep, n);
      }
      if ep.name != s.name { held := held[ep.name := s.name]; }
    }
    assert group[..|group|] == group;
  }

  lemma NothingBehind(s: Desired)
    ensures forall n :: !IsBehind([], s, n)
  {}

  /** ep is held exactly when its route is settled and it loses it. */
  ghost predicate HeldRightly(desired: seq<Desired>, order: CreationOrder, settled: set<string>,
      held: map<string, string>, ep: Desired) {
    && (ep.name in held <==> ep.spec.route.Some? && ep.spec.route.value in settled && Loses(SetOf(desired), order, ep))
    && (ep.name in held ==> KeptBy(SetOf(desired), order, ep, held[ep.name]))
  }

  /** held is what the routes in settled hold. */
  ghost predicate HoldsOf(desired: seq<Desired>, order: CreationOrder, settled: set<string>,
      held: map<string, string>) {
    && (forall n :: n in held ==> exists ep :: ep in desired && ep.name == n)
    && (forall ep :: ep in desired ==> HeldRightly(desired, order, settled, held, ep))
  }

  lemma BehindByName(desired: seq<Desired>, group: seq<Desired>, s: Desired, ep: Desired)
    requires Distinct(desired) && (forall e :: e in group ==> e in desired) && ep in desired
    ensures IsBehind(group, s, ep.name) <==> ep in group && ep.name != s.name
  {}

  lemma HoldsOfOneMore(desired: seq<Desired>, order: CreationOrder, settled: set<string>, key: string,
      group: seq<Desired>, s: Desired, was: map<string, string>, held: map<string, string>)
    requires Distinct(desired) && HoldsOf(desired, order, settled, was) && key !in settled
    requires forall ep :: ep in group <==> ep in desired && ep.spec.route == Some(key)
    requires s in group && forall ep :: ep in group && ep.name != s.name ==> Before(order, s.name, ep.name)
    requires HoldsBehind(group, s, was, held)
    ensures HoldsOf(desired, order, settled + {key}, held)
  {
    hide Before, Loses, IsBehind;
    SurvivorServes(desired, order, group, key, s);
    forall ep | ep in desired ensures HeldRightly(desired, order, settled + {key}, held, ep) {
      assert HeldRightly(desired, order, settled, was, ep);
      BehindByName(desired, group, s, ep);
      if ep in group && !IsBehind(group, s, ep.name) { SameName(desired, ep, s); }
    }
    forall n | n in held ensures exists ep :: ep in desired && ep.name == n {
      if IsBehind(group, s, n) { BehindIsDesired(desired, group, s, n); }
    }
  }

  lemma SameName(desired: seq<Desired>, a: Desired, b: Desired)
    requires Distinct(desired) && a in desired && b in desired && a.name == b.name
    ensures a == b
  {}

  lemma BehindIsDesired(desired: seq<Desired>, group: seq<Desired>, s: Desired, n: string)
    requires (forall e :: e in group ==> e in desired) && IsBehind(group, s, n)
    ensures exists ep :: ep in desired && ep.name == n
  {}

  /** The name of each desired endpoint that loses its route, with the one
      that keeps it. */
  method RouteCollisions(desired: seq<Desired>, order: CreationOrder) returns (held: map<string, string>)
    requires Distinct(desired)
    ensures forall n :: n in held <==> exists ep :: ep in desired && ep.name == n && Loses(SetOf(desired), order, ep)
    ensures forall ep :: ep in desired && ep.name in held ==> KeptBy(SetOf(desired), order, ep, held[ep.name])
    ensures forall ep :: ep in desired && ep.name in held ==>
      exists s: Desired :: s.name == held[ep.name] && s.name !in held && IsOlderRival(SetOf(desired), order, s, ep)
  {
    hide Before, Loses, KeptBy, IsOlderRival;
    var groups := GroupByRoute(desired);
    held := map[];
    var todo := groups.Keys;
    while todo != {}
      invariant todo <= groups.Keys
      invariant HoldsOf(desired, order, groups.Keys - todo, held)
      decreases |todo|
    {
      var key :| key in todo;
      var s := Survivor(groups[key], order);
      var now := HoldLosers(groups[key], s, held);
      HoldsOfOneMore(desired, order, groups.Keys - todo, key, groups[key], s, held, now);
      assert groups.Keys - todo + {key} == groups.Keys - (todo - {key});
      held, todo := now, todo - {key};
    }
    LosersHaveRoutes(desired, order);
    KeepersAreOlder(desired, order, held);
  }

  lemma KeepersAreOlder(desired: seq<Desired>, order: CreationOrder, held: map<string, string>)
    requires Distinct(desired)
    requires forall n :: n in held <==> exists e :: e in desired && e.name == n && Loses(SetOf(desired), order, e)
    requires forall ep :: ep in desired && ep.name in held ==> KeptBy(SetOf(desired), order, ep, held[ep.name])
    ensures forall ep :: ep in desired && ep.name in held ==>
      exists s: Desired :: s.name == held[ep.name] && s.name !in held && IsOlderRival(SetOf(desired), order, s, ep)
  {
    hide Loses, KeptBy;
    forall s, e | s in desired && e in desired && e.name == s.name ensures e == s { SameName(desired, s, e); }
    forall ep | ep in desired && ep.name in held
      ensures exists s: Desired ::
        s.name == held[ep.name] && s.name !in held && IsOlderRival(SetOf(desired), order, s, ep)
    {
      LosersAreYounger(SetOf(desired), order, ep, held[ep.name]);
    }
  }

  lemma LosersHaveRoutes(desired: seq<Desired>, order: CreationOrder)
    ensures forall ep :: ep in desired && Loses(SetOf(desired), order, ep) ==> ep.spec.route.Some?
  {}

  /** The survivor of a route's group keeps the route and the others lose it. */
  lemma SurvivorServes(desired: seq<Desired>, order: CreationOrder, group: seq<Desired>, key: string, s: Desired)
    requires forall ep :: ep in group <==> ep in desired && ep.spec.route == Some(key)
    requires s in group && forall ep :: ep in group && ep.name != s.name ==> Before(order, s.name, ep.name)
    ensures forall ep :: ep in group ==> Serves(SetOf(desired), order, s, ep)
    ensures forall ep :: ep in group && ep.name != s.name ==> Loses(SetOf(desired), order, ep)
  {
    if Loses(SetOf(desired), order, s) {
      var rival :| rival in SetOf(desired) && Rivals(s, rival) && Before(order, rival.name, s.name);
      BeforeIsAStrictOrder(order, s.name, rival.name);
    }
    forall ep | ep in group && ep.name != s.name ensures Loses(SetOf(desired), order, ep) {
      assert s in SetOf(desired) && Rivals(ep, s);
    }
  }
}
