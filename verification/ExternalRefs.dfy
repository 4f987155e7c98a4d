/** Resolving the external references of a whole spec: the walk, and what it
    collected placed under the spec's components. */
module ExternalRefs {
  import opened Base
  import opened JsonModel
  import opened RefNames
  import opened References
  import opened RefResolver

  /** The fields of the object components.kind; none when it is not an object. */
  function ComponentsOf(root: Json, kind: string): seq<Field> {
    match Member(root, "components")
    case Some(Object(fields)) =>
      (match Get(fields, kind)
       case Some(Object(members)) => members
       case _ => [])
    case _ => []
  }

  /** The member components.kind, whatever it is. */
  function Component(root: Json, kind: string): Option<Json> {
    match Member(root, "components")
    case Some(Object(fields)) => Get(fields, kind)
    case _ => None
  }

  predicate IsObject(v: Option<Json>) {
    v.Some? && v.value.Object?
  }

  /** root with members as its components.kind object, created when absent. */
  function WithComponents(root: Json, kind: string, members: seq<Field>): (r: Json)
    requires root.Object?
    ensures r.Object? && ComponentsOf(r, kind) == members
    ensures IsObject(Member(r, "components")) && Component(r, kind) == Some(Object(members))
    ensures forall k :: k != kind ==> Component(r, k) == Component(root, k)
    ensures forall k :: k != kind ==> ComponentsOf(r, k) == ComponentsOf(root, k)
    ensures forall k :: k != "components" ==> Member(r, k) == Member(root, k)
  {
    var components := match Member(root, "components") case Some(Object(fields)) => fields case _ => [];
    Object(Put(root.fields, "components", Object(Put(components, kind, Object(members)))))
  }

  function NamesIn(fields: seq<Field>): (r: set<string>)
    ensures forall n :: n in r <==> Get(fields, n).Some?
  {
    set i | 0 <= i < |fields| :: fields[i].key
  }

  /** The spec's own schemas win; each one in the way is warned about. */
  method AddSchemas(schemas: seq<Field>, inlined: map<string, Json>) returns (out: seq<Field>, warnings: seq<Warning>)
    ensures forall n :: Get(out, n) ==
                        if Get(schemas, n).Some? || n !in inlined then Get(schemas, n) else Some(inlined[n])
    ensures forall msg :: msg in warnings <==>
                          msg.SchemaExists? && msg.name in inlined && Get(schemas, msg.name).Some?
  {
    hide Put, Get;
    out, warnings := schemas, [];
    var todo := inlined.Keys;
    while todo != {}
      invariant todo <= inlined.Keys
      invariant forall n :: Get(out, n) ==
                            if Get(schemas, n).Some? || n !in inlined || n in todo then Get(schemas, n)
                            else Some(inlined[n])
      invariant forall msg :: msg in warnings <==> msg.SchemaExists? && msg.name in inlined.Keys - todo
                                                   && Get(schemas, msg.name).Some?
      decreases todo
    {
      var name :| name in todo;
      if Get(out, name).Some? {
        warnings := warnings + [SchemaExists(name)];
      } else {
        out := Put(out, name, inlined[name]);
      }
      todo := todo - {name};
    }
  }

  method AddExamples(examples: seq<Field>, inlined: map<string, Json>) returns (out: seq<Field>)
    ensures forall n :: Get(out, n) == if n in inlined then Some(inlined[n]) else Get(examples, n)
  {
    hide Put, Get;
    out := examples;
    var todo := inlined.Keys;
    while todo != {}
      invariant todo <= inlined.Keys
      invariant forall n :: Get(out, n) == if n in inlined && n !in todo then Some(inlined[n]) else Get(examples, n)
      decreases todo
    {
      var name :| name in todo;
      out := Put(out, name, inlined[name]);
      todo := todo - {name};
    }
  }

  datatype Outcome = Success(out: Json, warnings: seq<Warning>) | FetchFailed(url: string, warnings: seq<Warning>)

  /** The keys resolution gives a name: those reachable from root that have a
      target. */
  ghost function NamedKeys(w: World, root: Json): set<Key> {
    set key | key in Reach(w, root) && Target(w, key).Some?
  }

  ghost predicate CleanName(name: string, warnings: seq<Warning>) {
    NameCollision(name) !in warnings && SchemaExists(name) !in warnings
  }

  /** Every site of root and of every named key is settled. */
  ghost predicate NothingLeft(w: World, root: Json, names: Names, warnings: seq<Warning>) {
    && (forall s :: s in Sites(w, root, w.baseURL) ==> Settled(w, s, names, warnings))
    && forall key, s :: key in names && s in TargetSites(w, key) ==> Settled(w, s, names, warnings)
  }

  /** out is root inlined through names, with key's body under its components. */
  ghost predicate BodiesIn(w: World, root: Json, names: Names, out: Json, warnings: seq<Warning>) {
    && HaveTargets(w, names)
    && (forall key :: key in names && key.role.SchemaRole? ==>
          var body := Get(ComponentsOf(out, "schemas"), names[key]);
          body.Some? && (CleanName(names[key], warnings) ==> body.value == InlineTarget(w, key, names)))
    && (forall key :: key in names && key.role.ExampleRole? ==>
          Get(ComponentsOf(out, "examples"), names[key]) == Some(InlineTarget(w, key, names)))
  }

  /** Nothing else changed: every other entry is root's, inlined. */
  ghost predicate RestKept(w: World, root: Json, names: Names, out: Json) {
    var walked := Inline(w, root, w.baseURL, names);
    && (forall k :: k != "components" ==> Member(out, k) == Member(walked, k))
    && (forall k :: k != "schemas" && k != "examples" ==> ComponentsOf(out, k) == ComponentsOf(walked, k))
    && (forall n :: Get(ComponentsOf(walked, "schemas"), n).Some? ==>
          Get(ComponentsOf(out, "schemas"), n) == Get(ComponentsOf(walked, "schemas"), n))
    && (forall n :: Get(ComponentsOf(walked, "examples"), n).Some? && n in NamesIn(ComponentsOf(root, "examples")) ==>
          Get(ComponentsOf(out, "examples"), n) == Get(ComponentsOf(walked, "examples"), n))
    && (forall n :: Get(ComponentsOf(out, "schemas"), n).Some? ==>
          Get(ComponentsOf(walked, "schemas"), n).Some? || exists key ::
            key in names && key.role.SchemaRole? && names[key] == n)
    && (forall n :: Get(ComponentsOf(out, "examples"), n).Some? ==>
          Get(ComponentsOf(walked, "examples"), n).Some? || exists key ::
            key in names && key.role.ExampleRole? && names[key] == n)
  }

  /** Two keys that share a schema name are reported, and so is a schema name
      the spec already holds; nothing else is. */
  ghost predicate CollisionsReported(w: World, root: Json, names: Names, warnings: seq<Warning>) {
    var walked := Inline(w, root, w.baseURL, names);
    && (forall n :: NameCollision(n) in warnings <==>
          exists k1, k2 :: k1 in names && k2 in names && k1 != k2 && k1.role.SchemaRole? && k2.role.SchemaRole?
            && names[k1] == n && names[k2] == n)
    && (forall n :: SchemaExists(n) in warnings <==>
          Get(ComponentsOf(walked, "schemas"), n).Some? && exists key ::
            key in names && key.role.SchemaRole? && names[key] == n)
  }

  /** The names of Example Objects: each the first that was free for it. */
  ghost predicate ExampleNamesGiven(w: World, existing: set<string>, names: Names) {
    exists taken :: ExampleNamesOk(existing, taken, names) && FirstNamesOk(w, taken, names)
  }

  /** What becomes of components: with nothing added, nothing; otherwise it is
      an object, each kind that something was added to is an object in it, and
      every other member is as it was. */
  ghost predicate PlacesKept(walked: Json, schemas: bool, examples: bool, out: Json) {
    && out.Object?
    && (!schemas && !examples ==> out == walked)
    && (schemas || examples ==> IsObject(Member(out, "components")))
    && (forall k :: k != "schemas" && k != "examples" ==> Component(out, k) == Component(walked, k))
    && (if schemas then IsObject(Component(out, "schemas"))
          else Component(out, "schemas") == Component(walked, "schemas"))
    && (if examples then IsObject(Component(out, "examples"))
          else Component(out, "examples") == Component(walked, "examples"))
  }

  ghost predicate AnyNamed(names: Names, role: Role) {
    exists key :: key in names && key.role == role
  }

  /** What a successful resolution promises. */
  ghost predicate Faithful(w: World, root: Json, names: Names, out: Json, warnings: seq<Warning>) {
    && names.Keys == NamedKeys(w, root)
    && SchemaNamesOk(w, names)
    && ExampleNamesGiven(w, NamesIn(ComponentsOf(root, "examples")), names)
    && NothingLeft(w, root, names, warnings)
    && BodiesIn(w, root, names, out, warnings)
    && RestKept(w, root, names, out)
    && PlacesKept(Inline(w, root, w.baseURL, names), AnyNamed(names, SchemaRole), AnyNamed(names, ExampleRole), out)
    && CollisionsReported(w, root, names, warnings)
  }

  lemma AllSettledHere(w: World, root: Json, existing: set<string>, s: State)
    requires Inv(w, existing, Reach(w, root), s) && s.fatal.None? && s.busy == {}
    requires AllSettled(w, Sites(w, root, w.baseURL), s)
    ensures NothingLeft(w, root, s.names, s.warnings)
  {
    hide Sites, TargetSites, InlineTarget, Settled;
    forall key, site | key in s.names && site in TargetSites(w, key)
      ensures Settled(w, site, s.names, s.warnings)
    {
      assert RefResolver.Done(s, key) && BodyOk(w, key, s);
    }
  }

  lemma AllReached(w: World, root: Json, names: Names, warnings: seq<Warning>)
    requires HaveTargets(w, names) && names.Keys <= Reach(w, root)
    requires NothingLeft(w, root, names, warnings)
    ensures names.Keys == NamedKeys(w, root)
  {
    hide Sites, TargetSites, Target, Reach;
    var reach := Reach(w, root);
    ReachIsClosed(w, root);
    var found := names.Keys + set key | key in reach && Target(w, key).None?;
    forall site | site in Sites(w, root, w.baseURL) && KeyOf(w, site).Some? ensures KeyOf(w, site).value in found {
      assert Settled(w, site, names, warnings);
    }
    forall key, site | key in found && site in TargetSites(w, key) && KeyOf(w, site).Some?
      ensures KeyOf(w, site).value in found
    {
      assert key in reach && KeysIn(w, TargetSites(w, key), reach);
      if Target(w, key).None? { NoTargetNoSites(w, key); }
      assert Settled(w, site, names, warnings);
    }
    assert Closed(w, root, found);
    forall key | key in reach ensures key in found { assert Reached(w, root, key); }
  }

  lemma NoTargetNoSites(w: World, key: Key)
    ensures Target(w, key).None? ==> TargetSites(w, key) == {}
  {}

  /** out is walked with the collected bodies added. */
  ghost predicate Merged(walked: Json, inlined: map<string, Json>, inlinedExamples: map<string, Json>, out: Json,
      exist: seq<Warning>) {
    && (forall k :: k != "components" ==> Member(out, k) == Member(walked, k))
    && (forall k :: k != "schemas" && k != "examples" ==> ComponentsOf(out, k) == ComponentsOf(walked, k))
    && (forall n :: Get(ComponentsOf(out, "schemas"), n) ==
          var own := Get(ComponentsOf(walked, "schemas"), n);
          if own.Some? || n !in inlined then own else Some(inlined[n]))
    && (forall n :: Get(ComponentsOf(out, "examples"), n) ==
          if n in inlinedExamples then Some(inlinedExamples[n]) else Get(ComponentsOf(walked, "examples"), n))
    && (forall msg :: msg in exist <==>
          msg.SchemaExists? && msg.name in inlined && Get(ComponentsOf(walked, "schemas"), msg.name).Some?)
  }

  method AddComponents(walked: Json, inlined: map<string, Json>, inlinedExamples: map<string, Json>)
    returns (out: Json, exist: seq<Warning>)
    requires walked.Object?
    ensures Merged(walked, inlined, inlinedExamples, out, exist)
    ensures PlacesKept(walked, inlined != map[], inlinedExamples != map[], out)
  {
    hide Put, Get, WithComponents, ComponentsOf, Component, Member, Merged, PlacesKept;
    out, exist := walked, [];
    var schemas, examples := ComponentsOf(walked, "schemas"), [];
    if inlined != map[] {
      schemas, exist := AddSchemas(ComponentsOf(out, "schemas"), inlined);
      out := WithComponents(out, "schemas", schemas);
    }
    ghost var mid := out;
    if inlinedExamples != map[] {
      examples := AddExamples(ComponentsOf(out, "examples"), inlinedExamples);
      out := WithComponents(out, "examples", examples);
    }
    MergedParts(walked, inlined, inlinedExamples, mid, out, schemas, examples, exist);
    PlacedParts(walked, inlined != map[], inlinedExamples != map[], mid, out, schemas, examples);
  }

  lemma MergedParts(walked: Json, inlined: map<string, Json>, inlinedExamples: map<string, Json>, mid: Json, out: Json,
      schemas: seq<Field>, examples: seq<Field>, exist: seq<Warning>)
    requires walked.Object?
    requires mid == if inlined != map[] then WithComponents(walked, "schemas", schemas) else walked
    requires out == if inlinedExamples != map[] then WithComponents(mid, "examples", examples) else mid
    requires forall n :: Get(schemas, n) ==
                         var own := Get(ComponentsOf(walked, "schemas"), n);
                         if own.Some? || n !in inlined then own else Some(inlined[n])
    requires inlinedExamples != map[] ==>
               forall n :: Get(examples, n) ==
                 if n in inlinedExamples then Some(inlinedExamples[n]) else Get(ComponentsOf(mid, "examples"), n)
    requires forall msg :: msg in exist <==>
                           msg.SchemaExists? && msg.name in inlined &&
                             Get(ComponentsOf(walked, "schemas"), msg.name).Some?
    ensures Merged(walked, inlined, inlinedExamples, out, exist)
  {
    hide Put, Get, WithComponents, ComponentsOf, Component, Member;
    assert |"schemas"| != |"examples"|;
  }

  lemma PlacedParts(walked: Json, someSchemas: bool, someExamples: bool, mid: Json, out: Json, schemas: seq<Field>,
      examples: seq<Field>)
    requires walked.Object?
    requires mid == if someSchemas then WithComponents(walked, "schemas", schemas) else walked
    requires out == if someExamples then WithComponents(mid, "examples", examples) else mid
    ensures PlacesKept(walked, someSchemas, someExamples, out)
  {
    hide Put, Get, WithComponents, ComponentsOf, Component, Member;
    assert |"schemas"| != |"examples"|;
  }

  lemma MergedBodies(w: World, root: Json, existing: set<string>, s: State, walked: Json, out: Json,
      exist: seq<Warning>)
    requires Inv(w, existing, Reach(w, root), s) && s.fatal.None? && s.busy == {}
    requires Merged(walked, s.inlined, s.inlinedExamples, out, exist)
    ensures BodiesIn(w, root, s.names, out, s.warnings + exist)
  {
    forall key | key in s.names && key.role.SchemaRole?
      ensures var body := Get(ComponentsOf(out, "schemas"), s.names[key]);
        body.Some? &&
        (CleanName(s.names[key], s.warnings + exist) ==> body.value == InlineTarget(w, key, s.names))
    {
      assert RefResolver.Done(s, key) && BodyOk(w, key, s);
      var n := s.names[key];
      assert SchemaExists(n) in exist <==> Get(ComponentsOf(walked, "schemas"), n).Some?;
    }
    forall key | key in s.names && key.role.ExampleRole?
      ensures Get(ComponentsOf(out, "examples"), s.names[key]) == Some(InlineTarget(w, key, s.names))
    {
      assert RefResolver.Done(s, key) && BodyOk(w, key, s);
    }
  }

  lemma StoredNames(w: World, existing: set<string>, bound: set<Key>, s: State)
    requires Inv(w, existing, bound, s) && s.busy == {}
    ensures forall n :: n in s.inlined ==> exists key :: key in s.names && key.role.SchemaRole? && s.names[key] == n
    ensures forall n :: n in s.inlinedExamples ==>
      n !in existing && exists key :: key in s.names && key.role.ExampleRole? && s.names[key] == n
  {
    hide Inline, InlineTarget, Target, TargetSites, BodiesOk;
    forall n | n in s.inlined ensures exists key :: key in s.names && key.role.SchemaRole? && s.names[key] == n {
      var key :| Gives(s, key, n);
      assert key in s.names;
    }
    forall n | n in s.inlinedExamples
      ensures n !in existing && exists key :: key in s.names && key.role.ExampleRole? && s.names[key] == n
    {
      var key :| GivesExample(s, key, n);
      assert key in s.names;
    }
  }

  /** Something is stored for a role exactly when some key of it has a name. */
  lemma StoredRoles(w: World, existing: set<string>, bound: set<Key>, s: State)
    requires Inv(w, existing, bound, s) && s.busy == {}
    ensures AnyNamed(s.names, SchemaRole) <==> s.inlined != map[]
    ensures AnyNamed(s.names, ExampleRole) <==> s.inlinedExamples != map[]
  {
    StoredByRole(s);
  }

  lemma StoredByRole(s: State)
    requires BodiesExist(s) && s.busy == {}
    ensures AnyNamed(s.names, SchemaRole) <==> s.inlined != map[]
    ensures AnyNamed(s.names, ExampleRole) <==> s.inlinedExamples != map[]
  {
    forall key | key in s.names ensures Gives(s, key, s.names[key]) || GivesExample(s, key, s.names[key]) {}
    forall key | key in s.names
      ensures if key.role.SchemaRole? then s.names[key] in s.inlined else s.names[key] in s.inlinedExamples
    {}
    if n :| n in s.inlined {
      var key :| Gives(s, key, n);
      assert key in s.names;
    }
    if n :| n in s.inlinedExamples {
      var key :| GivesExample(s, key, n);
      assert key in s.names;
    }
  }

  lemma MergedRest(w: World, root: Json, existing: set<string>, s: State, walked: Json, out: Json, exist: seq<Warning>)
    requires Inv(w, existing, Reach(w, root), s) && s.fatal.None? && s.busy == {}
    requires existing == NamesIn(ComponentsOf(root, "examples"))
    requires walked == Inline(w, root, w.baseURL, s.names) && Merged(walked, s.inlined, s.inlinedExamples, out, exist)
    ensures RestKept(w, root, s.names, out)
  {
    hide Inv, Inline, Reach;
    StoredNames(w, existing, Reach(w, root), s);
  }

  lemma MergedCollisions(w: World, root: Json, existing: set<string>, s: State, walked: Json, out: Json,
      exist: seq<Warning>)
    requires Inv(w, existing, Reach(w, root), s) && s.fatal.None? && s.busy == {}
    requires walked == Inline(w, root, w.baseURL, s.names) && Merged(walked, s.inlined, s.inlinedExamples, out, exist)
    ensures CollisionsReported(w, root, s.names, s.warnings + exist)
  {
    var all := s.warnings + exist;
    forall n
      ensures NameCollision(n) in all <==>
        exists k1, k2 :: k1 in s.names && k2 in s.names && k1 != k2 && k1.role.SchemaRole? && k2.role.SchemaRole?
          && s.names[k1] == n && s.names[k2] == n
    {
      assert NameCollision(n) in all <==> NameCollision(n) in s.warnings;
      forall k1, k2 | k1 in s.names && k2 in s.names && k1 != k2 && k1.role.SchemaRole? && k2.role.SchemaRole?
          && s.names[k1] == n && s.names[k2] == n
        ensures Collides(s, n)
      {
        assert Gives(s, k1, n) && Gives(s, k2, n);
      }
    }
    forall n
      ensures SchemaExists(n) in all <==>
        Get(ComponentsOf(walked, "schemas"), n).Some? && exists key ::
          key in s.names && key.role.SchemaRole? && s.names[key] == n
    {
      assert SchemaExists(n) in all <==> SchemaExists(n) in exist;
      assert n in s.inlined <==> exists key :: Gives(s, key, n);
      forall key | key in s.names && key.role.SchemaRole? && s.names[key] == n ensures n in s.inlined {
        assert Gives(s, key, n);
      }
    }
  }

  method ResolveExternalRefs(w: World, root: Json) returns (r: Outcome, ghost names: Names)
    requires root.Object?
    ensures r.FetchFailed? ==> w.online && r.url !in w.docs && exists key :: key in Reach(w, root) && key.url == r.url
    ensures r.Success? ==> Faithful(w, root, names, r.out, r.warnings)
  {
    ReachIsClosed(w, root);
    var existing := NamesIn(ComponentsOf(root, "examples"));
    var resolver := new Resolver(w, existing, Reach(w, root));
    var walked := resolver.Walk(root, w.baseURL);
    names := resolver.names;
    if resolver.fatal.Some? { return FetchFailed(resolver.fatal.value, resolver.warnings), names; }
    ghost var s := resolver.S();
    AllSettledHere(w, root, existing, s);
    AllReached(w, root, s.names, s.warnings);
    var out, exist := AddComponents(walked, resolver.inlined, resolver.inlinedExamples);
    MergedBodies(w, root, existing, s, walked, out, exist);
    MergedRest(w, root, existing, s, walked, out, exist);
    MergedCollisions(w, root, existing, s, walked, out, exist);
    StoredRoles(w, existing, Reach(w, root), s);
    MoreWarnings(w, root, names, s.warnings, exist);
    r := Success(out, resolver.warnings + exist);
  }

  lemma MoreWarnings(w: World, root: Json, names: Names, warnings: seq<Warning>, more: seq<Warning>)
    requires NothingLeft(w, root, names, warnings)
    ensures NothingLeft(w, root, names, warnings + more)
  {
    hide Sites, TargetSites, Target, KeyOf;
    var all := warnings + more;
    forall site | Settled(w, site, names, warnings) ensures Settled(w, site, names, all) {}
  }
}
