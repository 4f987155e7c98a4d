/** The resolver that inlines external references into an OpenAPI spec: a
    recursive walk over a possibly cyclic graph of documents. */
module RefResolver {
  import opened Base
  import opened JsonModel
  import opened RefNames
  import opened References

  datatype Warning =
    | StaysLocal(ref: string, base: string)
    | NotInDocument(ref: string, base: string)
    | Unresolved(site: Site)
    | CycleDetected(key: Key)
    | NameCollision(name: string)
    | SchemaExists(name: string)

  /** Fatal: the document at url could not be fetched. Failed: this reference
      alone cannot be resolved. */
  datatype Resolution = Resolved(name: string) | Failed | Fatal(url: string)

  datatype Lookup = Found(target: Json) | Missing | Unfetchable

  /** What a resolution has done so far: names holds the local name of every
      key met, and busy the keys whose targets are still being walked. */
  datatype State = State(
    docs: map<string, Json>,
    inlined: map<string, Json>,
    inlinedExamples: map<string, Json>,
    takenExamples: set<string>,
    names: Names,
    busy: set<Key>,
    warnings: seq<Warning>,
    warned: set<Warning>,
    fatal: Option<string>)

  function LeftWarning(site: Site): Warning {
    if IsLocal(site.ref) then NotInDocument(site.ref, site.base) else Unresolved(site)
  }

  /** What happened to site: its document was fetched, and either its target
      has a name or a warning says it is left as it is. */
  ghost predicate Settled(w: World, site: Site, names: Names, warnings: seq<Warning>) {
    match KeyOf(w, site)
    case None => LeftWarning(site) in warnings
    case Some(key) =>
      && (w.online ==> key.url in w.docs)
      && (if Target(w, key).Some? then key in names else LeftWarning(site) in warnings)
  }

  ghost predicate AllSettled(w: World, sites: set<Site>, s: State) {
    forall site :: site in sites ==> Settled(w, site, s.names, s.warnings)
  }

  /** Each schema key has its sanitized name. */
  ghost predicate SchemaNamesOk(w: World, names: Names) {
    forall key :: key in names && key.role.SchemaRole? ==> names[key] == SchemaName(w, key)
  }

  /** name is the first of stem, stem_2, stem_3, ... that is not taken. */
  ghost predicate FirstFree(stem: string, name: string, taken: set<string>) {
    exists n :: 1 <= n && name == Numbered(stem, n) && forall m :: 1 <= m < n ==> Numbered(stem, m) in taken
  }

  /** taken holds the names the spec holds and those given, and no other. */
  ghost predicate OnlyTaken(existing: set<string>, taken: set<string>, names: Names) {
    && existing <= taken
    && forall n :: n in taken ==>
      n in existing || exists key :: key in names && key.role.ExampleRole? && names[key] == n
  }

  /** Each Example Object has the first name free for it. */
  ghost predicate FirstNamesOk(w: World, taken: set<string>, names: Names) {
    forall key :: key in names && key.role.ExampleRole? ==> FirstFree(SchemaName(w, key), names[key], taken)
  }

  /** Each Example Object has its own name, one the spec does not hold. */
  ghost predicate ExampleNamesOk(existing: set<string>, taken: set<string>, names: Names) {
    && OnlyTaken(existing, taken, names)
    && (forall key :: key in names && key.role.ExampleRole? ==>
          IsName(names[key]) && names[key] in taken && names[key] !in existing)
    && (forall k1, k2 :: k1 in names && k2 in names && k1.role.ExampleRole? && k2.role.ExampleRole? && k1 != k2 ==>
          names[k1] != names[k2])
  }

  ghost predicate NamesOk(w: World, existing: set<string>, s: State) {
    && s.busy <= s.names.Keys
    && HaveTargets(w, s.names)
    && SchemaNamesOk(w, s.names)
    && ExampleNamesOk(existing, s.takenExamples, s.names)
    && FirstNamesOk(w, s.takenExamples, s.names)
  }

  ghost predicate Done(s: State, key: Key) {
    key in s.names && key !in s.busy
  }

  /** key is a resolved schema key whose local name is name. */
  ghost predicate Gives(s: State, key: Key, name: string) {
    Done(s, key) && key.role.SchemaRole? && s.names[key] == name
  }

  /** key is a resolved Example Object key whose local name is name. */
  ghost predicate GivesExample(s: State, key: Key, name: string) {
    Done(s, key) && key.role.ExampleRole? && s.names[key] == name
  }

  /** name is the local name of two different resolved schema keys. */
  ghost predicate Collides(s: State, name: string) {
    exists k1, k2 :: k1 != k2 && Gives(s, k1, name) && Gives(s, k2, name)
  }

  /** A collision is reported exactly when it happened. */
  ghost predicate CollisionsOk(s: State) {
    forall name :: NameCollision(name) in s.warnings <==> Collides(s, name)
  }

  /** Exactly the resolved keys have bodies. */
  ghost predicate BodiesExist(s: State) {
    && (forall name :: name in s.inlined <==> exists key :: Gives(s, key, name))
    && (forall name :: name in s.inlinedExamples <==> exists key :: GivesExample(s, key, name))
  }

  /** key's body is its target, inlined through the names. */
  ghost predicate BodyOk(w: World, key: Key, s: State)
    requires key in s.names
  {
    && AllSettled(w, TargetSites(w, key), s)
    && Target(w, key).Some?
    && var name, body := s.names[key], InlineTarget(w, key, s.names);
      if key.role.ExampleRole? then name in s.inlinedExamples && s.inlinedExamples[name] == body
      else name in s.inlined && (s.inlined[name] == body || NameCollision(name) in s.warnings)
  }

  ghost predicate BodiesOk(w: World, s: State) {
    s.fatal.None? ==> forall key :: Done(s, key) ==> BodyOk(w, key, s)
  }

  /** found is closed under following references. */
  ghost predicate ClosedUnder(w: World, bound: set<Key>) {
    forall key :: key in bound ==> KeysIn(w, TargetSites(w, key), bound)
  }

  ghost predicate FetchesOk(w: World, bound: set<Key>, s: State) {
    && (forall url :: url in s.docs ==> w.online && url in w.docs && s.docs[url] == w.docs[url])
    && (s.fatal.Some? ==> w.online && s.fatal.value !in w.docs && exists key ::
          key in bound && key.url == s.fatal.value)
  }

  ghost predicate Inv(w: World, existing: set<string>, bound: set<Key>, s: State) {
    && NamesOk(w, existing, s)
    && BodiesExist(s)
    && CollisionsOk(s)
    && BodiesOk(w, s)
    && s.names.Keys <= bound
    && FetchesOk(w, bound, s)
    && (forall msg :: msg in s.warned ==> msg in s.warnings)
    && (forall msg :: msg in s.warnings ==> !msg.SchemaExists?)
  }

  /** What every step of the walk keeps. */
  ghost predicate Grows(s: State, t: State) {
    && t.busy == s.busy
    && Extends(s.names, t.names)
    && s.warnings <= t.warnings
    && (s.fatal.Some? ==> t.fatal.Some?)
  }

  lemma GrowsSettled(w: World, sites: set<Site>, s: State, t: State)
    requires Extends(s.names, t.names) && s.warnings <= t.warnings
    requires AllSettled(w, sites, s)
    ensures AllSettled(w, sites, t)
  {}

  // ---- A warning, a fetch or a fatal error is recorded ----

  ghost predicate Noted(s: State, t: State) {
    && t.names == s.names && t.busy == s.busy && t.takenExamples == s.takenExamples
    && t.inlined == s.inlined && t.inlinedExamples == s.inlinedExamples
    && s.warnings <= t.warnings
    && (forall msg :: msg in t.warnings && (msg.NameCollision? || msg.SchemaExists?) ==> msg in s.warnings)
    && (s.fatal.Some? ==> t.fatal.Some?)
  }

  lemma NoteBodies(w: World, s: State, t: State)
    requires BodiesOk(w, s) && Noted(s, t)
    ensures BodiesOk(w, t)
  {
    if t.fatal.None? {
      forall k | Done(t, k) ensures BodyOk(w, k, t) {
        assert BodyOk(w, k, s);
        GrowsSettled(w, TargetSites(w, k), s, t);
      }
    }
  }

  lemma NoteCollisions(s: State, t: State)
    requires CollisionsOk(s) && BodiesExist(s) && Noted(s, t)
    ensures CollisionsOk(t) && BodiesExist(t)
  {
    assert forall k, n :: Gives(t, k, n) <==> Gives(s, k, n);
    assert forall k, n :: GivesExample(t, k, n) <==> GivesExample(s, k, n);
    assert forall n :: Collides(t, n) <==> Collides(s, n);
    assert forall n :: NameCollision(n) in t.warnings <==> NameCollision(n) in s.warnings;
  }

  lemma NoteKeeps(w: World, existing: set<string>, bound: set<Key>, s: State, t: State)
    requires Inv(w, existing, bound, s) && Noted(s, t) && FetchesOk(w, bound, t)
    requires forall msg :: msg in t.warned ==> msg in t.warnings
    ensures Inv(w, existing, bound, t) && Grows(s, t)
  {
    NoteBodies(w, s, t);
    NoteCollisions(s, t);
  }

  // ---- A key starts being resolved ----

  ghost predicate Started(w: World, s: State, key: Key, name: string, t: State) {
    && key !in s.names && Target(w, key).Some?
    && t.names == s.names[key := name] && t.busy == s.busy + {key}
    && t.inlined == s.inlined && t.inlinedExamples == s.inlinedExamples
    && t.warnings == s.warnings && t.warned == s.warned && t.docs == s.docs && t.fatal == s.fatal
    && if key.role.SchemaRole? then name == SchemaName(w, key) && t.takenExamples == s.takenExamples
       else IsName(name) && name !in s.takenExamples && t.takenExamples == s.takenExamples + {name}
            && FirstFree(SchemaName(w, key), name, s.takenExamples)
  }

  lemma StillFirst(stem: string, name: string, taken: set<string>, more: set<string>)
    requires FirstFree(stem, name, taken) && taken <= more
    ensures FirstFree(stem, name, more)
  {}

  lemma StartNames(w: World, existing: set<string>, s: State, key: Key, name: string, t: State)
    requires NamesOk(w, existing, s) && Started(w, s, key, name, t)
    ensures NamesOk(w, existing, t) && Extends(s.names, t.names)
  {
    hide FirstNamesOk, ExampleNamesOk, SchemaNamesOk, HaveTargets, FirstFree, Target, SchemaName;
    StartExamples(w, existing, s, key, name, t);
    StartFirst(w, s, key, name, t);
    StartTargets(w, s, key, name, t);
  }

  lemma StartTargets(w: World, s: State, key: Key, name: string, t: State)
    requires HaveTargets(w, s.names) && SchemaNamesOk(w, s.names) && Started(w, s, key, name, t)
    ensures HaveTargets(w, t.names) && SchemaNamesOk(w, t.names)
  {
    hide Target, SchemaName, FirstFree;
  }

  lemma StartFirst(w: World, s: State, key: Key, name: string, t: State)
    requires FirstNamesOk(w, s.takenExamples, s.names) && Started(w, s, key, name, t)
    ensures FirstNamesOk(w, t.takenExamples, t.names)
  {
    hide Target, SchemaName, FirstFree;
    forall k | k in t.names && k.role.ExampleRole? ensures FirstFree(SchemaName(w, k), t.names[k], t.takenExamples) {
      StillFirst(SchemaName(w, k), t.names[k], s.takenExamples, t.takenExamples);
    }
  }

  lemma StartExamples(w: World, existing: set<string>, s: State, key: Key, name: string, t: State)
    requires ExampleNamesOk(existing, s.takenExamples, s.names) && Started(w, s, key, name, t)
    ensures ExampleNamesOk(existing, t.takenExamples, t.names)
  {
    StartTaken(w, existing, s, key, name, t);
    assert existing <= s.takenExamples;
    hide Target, SchemaName, FirstFree, OnlyTaken;
  }

  lemma StartTaken(w: World, existing: set<string>, s: State, key: Key, name: string, t: State)
    requires OnlyTaken(existing, s.takenExamples, s.names) && Started(w, s, key, name, t)
    ensures OnlyTaken(existing, t.takenExamples, t.names)
  {
    hide Target, SchemaName, FirstFree;
    forall n | n in t.takenExamples && n !in existing
      ensures exists k :: k in t.names && k.role.ExampleRole? && t.names[k] == n
    {
      if n in s.takenExamples {
        var k :| k in s.names && k.role.ExampleRole? && s.names[k] == n;
        assert t.names[k] == n;
      } else {
        assert t.names[key] == n;
      }
    }
  }

  lemma StartBodies(w: World, s: State, key: Key, name: string, t: State)
    requires BodiesOk(w, s) && Started(w, s, key, name, t)
    requires Extends(s.names, t.names) && HaveTargets(w, t.names)
    ensures BodiesOk(w, t)
  {
    if s.fatal.None? {
      forall k | Done(t, k) ensures BodyOk(w, k, t) {
        assert Done(s, k) && BodyOk(w, k, s);
        GrowsSettled(w, TargetSites(w, k), s, t);
        InlineTargetStable(w, k, s.names, t.names);
      }
    }
  }

  lemma StartResolving(w: World, existing: set<string>, bound: set<Key>, s: State, key: Key, name: string, t: State)
    requires Inv(w, existing, bound, s) && Started(w, s, key, name, t) && key in bound
    ensures Inv(w, existing, bound, t)
  {
    hide FirstNamesOk, FirstFree, OnlyTaken, SchemaName, Target, ExampleNamesOk;
    StartNames(w, existing, s, key, name, t);
    StartBodies(w, s, key, name, t);
    assert forall k, n :: Gives(t, k, n) <==> Gives(s, k, n);
    assert forall k, n :: GivesExample(t, k, n) <==> GivesExample(s, k, n);
  }

  // ---- A key's body is stored ----

  ghost predicate Stored(s: State, key: Key, name: string, body: Json, t: State) {
    && key in s.busy && key in s.names && s.names[key] == name
    && t.names == s.names && t.busy == s.busy - {key}
    && t.takenExamples == s.takenExamples && t.warned == s.warned && t.docs == s.docs && t.fatal == s.fatal
    && t.inlinedExamples == (if key.role.ExampleRole? then s.inlinedExamples[name := body] else s.inlinedExamples)
    && t.inlined == (if key.role.SchemaRole? && name !in s.inlined then s.inlined[name := body] else s.inlined)
    && t.warnings == s.warnings + (if key.role.SchemaRole? && name in s.inlined then [NameCollision(name)] else [])
  }

  lemma FinishExist(s: State, key: Key, name: string, body: Json, t: State)
    requires BodiesExist(s) && Stored(s, key, name, body, t)
    ensures BodiesExist(t)
    ensures forall k, n :: Gives(t, k, n) <==> Gives(s, k, n) || (k == key && n == name && key.role.SchemaRole?)
  {
    assert forall k, n :: GivesExample(t, k, n) <==>
      GivesExample(s, k, n) || (k == key && n == name && key.role.ExampleRole?);
    forall n | n in t.inlined ensures exists k :: Gives(t, k, n) {
      if n in s.inlined { var k :| Gives(s, k, n); assert Gives(t, k, n); } else { assert Gives(t, key, n); }
    }
    forall n | n in t.inlinedExamples ensures exists k :: GivesExample(t, k, n) {
      if n in s.inlinedExamples {
        var k :| GivesExample(s, k, n);
        assert GivesExample(t, k, n);
      } else {
        assert GivesExample(t, key, n);
      }
    }
    forall k, n | Gives(t, k, n) ensures n in t.inlined {
      assert Gives(s, k, n) ==> n in s.inlined;
    }
    forall k, n | GivesExample(t, k, n) ensures n in t.inlinedExamples {
      assert GivesExample(s, k, n) ==> n in s.inlinedExamples;
    }
  }

  lemma FinishCollisions(s: State, key: Key, name: string, body: Json, t: State)
    requires BodiesExist(s) && CollisionsOk(s) && Stored(s, key, name, body, t)
    ensures CollisionsOk(t)
  {
    FinishExist(s, key, name, body, t);
    forall n ensures NameCollision(n) in t.warnings <==> Collides(t, n) {
      assert Collides(s, n) ==> Collides(t, n);
      if key.role.SchemaRole? && n == name {
        assert Gives(t, key, name);
        if name in s.inlined {
          var k :| Gives(s, k, name);
          assert Gives(t, k, name);
        }
      }
    }
  }

  lemma FinishBodies(w: World, existing: set<string>, s: State, key: Key, name: string, body: Json, t: State)
    requires NamesOk(w, existing, s) && BodiesOk(w, s) && Stored(s, key, name, body, t)
    requires s.fatal.None? ==>
      Target(w, key).Some? && AllSettled(w, TargetSites(w, key), s) && body == InlineTarget(w, key, s.names)
    ensures BodiesOk(w, t)
  {
    if s.fatal.None? {
      forall k | Done(t, k) ensures BodyOk(w, k, t) {
        if k != key { assert Done(s, k) && BodyOk(w, k, s); }
        GrowsSettled(w, TargetSites(w, k), s, t);
      }
    }
  }

  lemma FinishResolving(w: World, existing: set<string>, bound: set<Key>, s: State, key: Key, name: string, body: Json,
      t: State)
    requires Inv(w, existing, bound, s) && Stored(s, key, name, body, t)
    requires s.fatal.None? ==>
      Target(w, key).Some? && AllSettled(w, TargetSites(w, key), s) && body == InlineTarget(w, key, s.names)
    ensures Inv(w, existing, bound, t)
  {
    FinishExist(s, key, name, body, t);
    FinishCollisions(s, key, name, body, t);
    FinishBodies(w, existing, s, key, name, body, t);
  }

  // ---- What a walk has settled stays settled ----

  lemma GrowsExtends(w: World, existing: set<string>, bound: set<Key>, s: State, t: State)
    requires Inv(w, existing, bound, t) && Grows(s, t)
    ensures Extends(s.names, t.names) && HaveTargets(w, t.names) && s.warnings <= t.warnings
  {}

  ghost predicate ItemsSettled(w: World, items: seq<Json>, base: string, s: State) {
    forall j :: 0 <= j < |items| ==> AllSettled(w, Sites(w, items[j], base), s)
  }

  ghost predicate FieldsSettled(w: World, fields: seq<Field>, base: string, s: State) {
    forall j :: 0 <= j < |fields| ==> AllSettled(w, FieldSites(w, fields[j], base), s)
  }

  ghost predicate MembersSettled(w: World, members: seq<Field>, base: string, s: State) {
    forall j :: 0 <= j < |members| ==> AllSettled(w, Sites(w, members[j].value, base), s)
  }

  ghost predicate EntriesSettled(w: World, entries: seq<Field>, base: string, s: State) {
    forall j :: 0 <= j < |entries| ==> AllSettled(w, SiteSet(ExampleSite(entries[j].value, base)), s)
  }

  lemma SettledNamed(w: World, sites: set<Site>, s: State)
    requires AllSettled(w, sites, s)
    ensures forall site :: site in sites ==> Named(w, site, s.names)
  {
    forall site | site in sites ensures Named(w, site, s.names) {
      assert Settled(w, site, s.names, s.warnings);
    }
  }

  lemma ItemsKept(w: World, items: seq<Json>, base: string, s: State, t: State)
    requires Extends(s.names, t.names) && HaveTargets(w, t.names) && s.warnings <= t.warnings
    requires ItemsSettled(w, items, base, s)
    ensures ItemsSettled(w, items, base, t)
    ensures InlineItems(w, items, base, s.names) == InlineItems(w, items, base, t.names)
  {
    forall j | 0 <= j < |items|
      ensures AllSettled(w, Sites(w, items[j], base), t)
      ensures forall site :: site in Sites(w, items[j], base) ==> Named(w, site, s.names)
    {
      GrowsSettled(w, Sites(w, items[j], base), s, t);
      SettledNamed(w, Sites(w, items[j], base), s);
    }
    InlineItemsStable(w, items, base, s.names, t.names);
  }

  lemma FieldsKept(w: World, fields: seq<Field>, base: string, s: State, t: State)
    requires Extends(s.names, t.names) && HaveTargets(w, t.names) && s.warnings <= t.warnings
    requires FieldsSettled(w, fields, base, s)
    ensures FieldsSettled(w, fields, base, t)
    ensures InlineFields(w, fields, base, s.names) == InlineFields(w, fields, base, t.names)
  {
    forall j | 0 <= j < |fields|
      ensures AllSettled(w, FieldSites(w, fields[j], base), t)
      ensures forall site :: site in FieldSites(w, fields[j], base) ==> Named(w, site, s.names)
    {
      GrowsSettled(w, FieldSites(w, fields[j], base), s, t);
      SettledNamed(w, FieldSites(w, fields[j], base), s);
    }
    InlineFieldsStable(w, fields, base, s.names, t.names);
  }

  lemma MembersKept(w: World, members: seq<Field>, base: string, s: State, t: State)
    requires Extends(s.names, t.names) && HaveTargets(w, t.names) && s.warnings <= t.warnings
    requires MembersSettled(w, members, base, s)
    ensures MembersSettled(w, members, base, t)
    ensures InlineMembers(w, members, base, s.names) == InlineMembers(w, members, base, t.names)
  {
    forall j | 0 <= j < |members|
      ensures AllSettled(w, Sites(w, members[j].value, base), t)
      ensures forall site :: site in Sites(w, members[j].value, base) ==> Named(w, site, s.names)
    {
      GrowsSettled(w, Sites(w, members[j].value, base), s, t);
      SettledNamed(w, Sites(w, members[j].value, base), s);
    }
    InlineMembersStable(w, members, base, s.names, t.names);
  }

  lemma EntriesKept(w: World, entries: seq<Field>, base: string, s: State, t: State)
    requires Extends(s.names, t.names) && HaveTargets(w, t.names) && s.warnings <= t.warnings
    requires EntriesSettled(w, entries, base, s)
    ensures EntriesSettled(w, entries, base, t)
    ensures InlineExamples(w, entries, base, s.names) == InlineExamples(w, entries, base, t.names)
  {
    forall j | 0 <= j < |entries|
      ensures AllSettled(w, SiteSet(ExampleSite(entries[j].value, base)), t)
      ensures forall site :: site in SiteSet(ExampleSite(entries[j].value, base)) ==> Named(w, site, s.names)
    {
      GrowsSettled(w, SiteSet(ExampleSite(entries[j].value, base)), s, t);
      SettledNamed(w, SiteSet(ExampleSite(entries[j].value, base)), s);
    }
    InlineExamplesStable(w, entries, base, s.names, t.names);
  }

  lemma NothingSettled(w: World, base: string, s: State)
    ensures ItemsSettled(w, [], base, s) && InlineItems(w, [], base, s.names) == []
    ensures FieldsSettled(w, [], base, s) && InlineFields(w, [], base, s.names) == []
    ensures MembersSettled(w, [], base, s) && InlineMembers(w, [], base, s.names) == []
    ensures EntriesSettled(w, [], base, s) && InlineExamples(w, [], base, s.names) == []
  {}

  lemma ItemsStep(w: World, existing: set<string>, bound: set<Key>, items: seq<Json>, i: nat, base: string,
      done: seq<Json>, item: Json, s: State, t: State)
    requires i < |items| && Inv(w, existing, bound, t) && Grows(s, t)
    requires ItemsSettled(w, items[..i], base, s) && done == InlineItems(w, items[..i], base, s.names)
    requires AllSettled(w, Sites(w, items[i], base), t)
    requires item == Inline(w, items[i], base, t.names)
    ensures ItemsSettled(w, items[..i + 1], base, t)
    ensures done + [item] == InlineItems(w, items[..i + 1], base, t.names)
  {
    GrowsExtends(w, existing, bound, s, t);
    ItemsKept(w, items[..i], base, s, t);
    assert items[..i + 1] == items[..i] + [items[i]];
  }

  lemma FieldsStep(w: World, existing: set<string>, bound: set<Key>, fields: seq<Field>, i: nat, base: string,
      done: seq<Field>, field: Field, s: State, t: State)
    requires i < |fields| && Inv(w, existing, bound, t) && Grows(s, t)
    requires FieldsSettled(w, fields[..i], base, s) && done == InlineFields(w, fields[..i], base, s.names)
    requires AllSettled(w, FieldSites(w, fields[i], base), t)
    requires field == InlineField(w, fields[i], base, t.names)
    ensures FieldsSettled(w, fields[..i + 1], base, t)
    ensures done + [field] == InlineFields(w, fields[..i + 1], base, t.names)
  {
    GrowsExtends(w, existing, bound, s, t);
    FieldsKept(w, fields[..i], base, s, t);
    assert fields[..i + 1] == fields[..i] + [fields[i]];
  }

  lemma MembersStep(w: World, existing: set<string>, bound: set<Key>, members: seq<Field>, i: nat, base: string,
      done: seq<Field>, value: Json, s: State, t: State)
    requires i < |members| && Inv(w, existing, bound, t) && Grows(s, t)
    requires MembersSettled(w, members[..i], base, s) && done == InlineMembers(w, members[..i], base, s.names)
    requires AllSettled(w, Sites(w, members[i].value, base), t)
    requires value == Inline(w, members[i].value, base, t.names)
    ensures MembersSettled(w, members[..i + 1], base, t)
    ensures done + [Field(members[i].key, value)] == InlineMembers(w, members[..i + 1], base, t.names)
  {
    GrowsExtends(w, existing, bound, s, t);
    MembersKept(w, members[..i], base, s, t);
    assert members[..i + 1] == members[..i] + [members[i]];
  }

  lemma ExamplesStep(w: World, existing: set<string>, bound: set<Key>, entries: seq<Field>, i: nat, base: string,
      done: seq<Field>, value: Json, s: State, t: State)
    requires i < |entries| && Inv(w, existing, bound, t) && Grows(s, t)
    requires EntriesSettled(w, entries[..i], base, s) && done == InlineExamples(w, entries[..i], base, s.names)
    requires AllSettled(w, SiteSet(ExampleSite(entries[i].value, base)), t)
    requires value == InlineExample(w, entries[i].value, base, t.names)
    ensures EntriesSettled(w, entries[..i + 1], base, t)
    ensures done + [Field(entries[i].key, value)] == InlineExamples(w, entries[..i + 1], base, t.names)
  {
    GrowsExtends(w, existing, bound, s, t);
    EntriesKept(w, entries[..i], base, s, t);
    assert entries[..i + 1] == entries[..i] + [entries[i]];
  }

  lemma ObjectSites(w: World, v: Json, base: string, bound: set<Key>)
    requires v.Object? && KeysIn(w, Sites(w, v, base), bound)
    ensures SchemaSite(w, v, base).Some? ==> KeysIn(w, {SchemaSite(w, v, base).value}, bound)
    ensures SchemaSite(w, v, base).None? || IsLocal(SchemaSite(w, v, base).value.ref) ==>
      forall j :: 0 <= j < |v.fields| ==> KeysIn(w, FieldSites(w, v.fields[j], base), bound)
  {
    hide KeyOf, FieldSites;
    forall j | 0 <= j < |v.fields|
      ensures SchemaSite(w, v, base).None? || IsLocal(SchemaSite(w, v, base).value.ref) ==>
        KeysIn(w, FieldSites(w, v.fields[j], base), bound)
    {
      if SchemaSite(w, v, base).None? || IsLocal(SchemaSite(w, v, base).value.ref) {
        assert FieldSites(w, v.fields[j], base) <= Sites(w, v, base);
      }
    }
  }

  lemma ReferenceDone(w: World, v: Json, base: string, ref: string, s: State)
    requires v.Object? && SchemaSite(w, v, base).Some? && !IsLocal(SchemaSite(w, v, base).value.ref)
    requires Settled(w, SchemaSite(w, v, base).value, s.names, s.warnings)
    requires ref == NewRef(w, SchemaSite(w, v, base).value, s.names)
    ensures AllSettled(w, Sites(w, v, base), s)
    ensures Object(SetRef(v.fields, ref)) == Inline(w, v, base, s.names)
  {
    hide KeyOf, Target;
  }

  lemma ObjectDone(w: World, existing: set<string>, bound: set<Key>, v: Json, base: string, ref: string,
      inner: seq<Field>, s: State, t: State)
    requires v.Object? && Inv(w, existing, bound, t) && Grows(s, t)
    requires var site := SchemaSite(w, v, base); site.Some? ==>
      IsLocal(site.value.ref) && Settled(w, site.value, s.names, s.warnings) && ref == NewRef(w, site.value, s.names)
    requires FieldsSettled(w, v.fields, base, t) && inner == InlineFields(w, v.fields, base, t.names)
    ensures AllSettled(w, Sites(w, v, base), t)
    ensures Object(if SchemaSite(w, v, base).Some? then SetRef(inner, ref) else inner) == Inline(w, v, base, t.names)
  {
    hide Inv, Target, FieldSites, InlineField;
    var site := SchemaSite(w, v, base);
    GrowsExtends(w, existing, bound, s, t);
    if site.Some? {
      assert AllSettled(w, SiteSet(site), s);
      GrowsSettled(w, SiteSet(site), s, t);
      SettledNamed(w, SiteSet(site), s);
      NewRefStable(w, site.value, s.names, t.names);
    }
    forall j, x | 0 <= j < |v.fields| && x in FieldSites(w, v.fields[j], base)
      ensures Settled(w, x, t.names, t.warnings)
    {
      assert AllSettled(w, FieldSites(w, v.fields[j], base), t);
    }
  }

  /** The resolver's two tables hold the names, every key in exactly one of
      them. */
  ghost predicate Tables(resolved: Names, resolving: Names, names: Names) {
    && resolved.Keys == names.Keys - resolving.Keys
    && (forall key :: key in resolving ==> key in names && resolving[key] == names[key])
    && (forall key :: key in resolved ==> resolved[key] == names[key])
  }

  lemma AddedToTables(resolved: Names, resolving: Names, names: Names, key: Key, name: string)
    requires Tables(resolved, resolving, names) && key !in names
    ensures Tables(resolved, resolving[key := name], names[key := name])
    ensures resolving[key := name].Keys == resolving.Keys + {key}
    ensures resolving[key := name] - {key} == resolving
  {}

  lemma MovedInTables(resolved: Names, resolving: Names, names: Names, key: Key, name: string)
    requires Tables(resolved, resolving, names) && key in resolving && resolving[key] == name
    ensures Tables(resolved[key := name], resolving - {key}, names)
    ensures (resolving - {key}).Keys == resolving.Keys - {key}
    ensures key in names && names[key] == name
  {}

  lemma TableLookup(resolved: Names, resolving: Names, names: Names, key: Key)
    requires Tables(resolved, resolving, names)
    ensures key in resolved ==> key in names && names[key] == resolved[key]
    ensures key in resolving ==> key in names && names[key] == resolving[key]
    ensures key !in resolved && key !in resolving ==> key !in names
  {}

  lemma TargetParts(w: World, bound: set<Key>, key: Key, target: Json)
    requires ClosedUnder(w, bound) && key in bound && Target(w, key) == Some(target)
    ensures KeysIn(w, TargetSites(w, key), bound)
    ensures TargetSites(w, key) ==
      if key.role.SchemaRole? then Sites(w, target, key.url) else SiteSet(ExampleSite(target, key.url))
    ensures forall names :: InlineTarget(w, key, names) ==
                            if key.role.SchemaRole? then Inline(w, target, key.url, names)
                            else InlineExample(w, target, key.url, names)
  {}

  // ---- The resolver ----

  class Resolver {
    const world: World
    ghost const existing: set<string>
    ghost const bound: set<Key>
    ghost var names: Names
    var docs: map<string, Json>
    var inlined: map<string, Json>
    var inlinedExamples: map<string, Json>
    var takenExamples: set<string>
    var resolving: Names
    var resolved: Names
    var warnings: seq<Warning>
    var warned: set<Warning>
    var fatal: Option<string>

    ghost function S(): State
      reads this
    {
      State(docs, inlined, inlinedExamples, takenExamples, names, resolving.Keys, warnings, warned, fatal)
    }

    ghost predicate Valid()
      reads this
    {
      Inv(world, existing, bound, S()) && Tables(resolved, resolving, names) && ClosedUnder(world, bound)
    }

    /** The reachable keys without a name: what bounds the recursion. */
    ghost function Unnamed(): set<Key>
      reads this
    {
      bound - names.Keys
    }

    constructor (world: World, takenExamples: set<string>, ghost bound: set<Key>)
      requires ClosedUnder(world, bound)
      ensures Valid() && this.world == world && this.existing == takenExamples && this.bound == bound
      ensures names == map[] && resolving == map[] && warnings == [] && fatal == None
      ensures fresh(this)
    {
      this.world, this.existing, this.bound := world, takenExamples, bound;
      this.takenExamples := takenExamples;
      docs, inlined, inlinedExamples, resolving, resolved, names := map[], map[], map[], map[], map[], map[];
      warnings, warned, fatal := [], {}, None;
    }

    method Warn(msg: Warning)
      requires Valid() && !msg.NameCollision? && !msg.SchemaExists?
      modifies this`warnings
      ensures Valid() && Noted(old(S()), S()) && Grows(old(S()), S()) && warnings == old(warnings) + [msg]
    {
      warnings := warnings + [msg];
      NoteKeeps(world, existing, bound, old(S()), S());
    }

    /** Records msg unless it was already recorded. */
    method WarnOnce(msg: Warning)
      requires Valid() && !msg.NameCollision? && !msg.SchemaExists?
      modifies this`warnings, this`warned
      ensures Valid() && Noted(old(S()), S()) && Grows(old(S()), S())
      ensures msg in warnings && fatal == old(fatal)
      ensures warnings == if msg in old(warned) then old(warnings) else old(warnings) + [msg]
    {
      if msg in warned { NoteKeeps(world, existing, bound, S(), S()); return; }
      warned := warned + {msg};
      warnings := warnings + [msg];
      NoteKeeps(world, existing, bound, old(S()), S());
    }

    method WarnLocalRef(ref: string, base: string)
      requires Valid()
      modifies this`warnings, this`warned
      ensures Valid() && Noted(old(S()), S()) && Grows(old(S()), S()) && fatal == old(fatal)
      ensures IsLocal(ref) && base != world.baseURL ==> StaysLocal(ref, base) in warnings
    {
      if IsLocal(ref) && base != world.baseURL {
        WarnOnce(StaysLocal(ref, base));
      } else {
        NoteKeeps(world, existing, bound, S(), S());
      }
    }

    /** The first of name, name_2, name_3, ... that is not taken, which it takes. */
    method FreeExampleName(name: string) returns (free: string)
      requires IsName(name)
      modifies this`takenExamples
      ensures IsName(free) && free !in old(takenExamples) && takenExamples == old(takenExamples) + {free}
      ensures FirstFree(name, free, old(takenExamples))
    {
      free := name;
      var n := 1;
      ghost var tried: set<string> := {};
      while free in takenExamples
        invariant 1 <= n && free == Numbered(name, n)
        invariant tried <= takenExamples
        invariant forall m :: 1 <= m < n ==> Numbered(name, m) in takenExamples
        invariant forall s :: s in tried ==> exists m :: 1 <= m < n && s == Numbered(name, m)
        decreases takenExamples - tried
      {
        forall m | 1 <= m < n ensures Numbered(name, m) != free { NumberedIsInjective(name, m, n); }
        assert free in takenExamples - tried;
        tried := tried + {free};
        n := n + 1;
        free := Numbered(name, n);
      }
      takenExamples := takenExamples + {free};
    }

    /** The fragment key addresses, fetching its document once. */
    method FindTarget(key: Key) returns (r: Lookup)
      requires Valid() && fatal.None?
      modifies this`docs
      ensures Valid() && Grows(old(S()), S()) && names == old(names)
      ensures r.Found? ==> Target(world, key) == Some(r.target)
      ensures r.Missing? ==> Target(world, key).None? && (world.online ==> key.url in world.docs)
      ensures r.Unfetchable? ==> world.online && key.url !in world.docs
    {
      if key.url !in docs {
        if !world.online { NoteKeeps(world, existing, bound, S(), S()); return Missing; }
        if key.url !in world.docs { NoteKeeps(world, existing, bound, S(), S()); return Unfetchable; }
        docs := docs[key.url := world.docs[key.url]];
      }
      NoteKeeps(world, existing, bound, old(S()), S());
      var found := PointerLookup(docs[key.url], key.fragment);
      return if found.Some? then Found(found.value) else Missing;
    }

    /** key starts being resolved, under the name its target will have. */
    method Begin(key: Key) returns (name: string)
      requires Valid() && key in bound && key !in names && Target(world, key).Some?
      modifies this`resolving, this`takenExamples, this`names
      ensures Valid() && resolving == old(resolving)[key := name] && names == old(names)[key := name]
    {
      hide Inv, ClosedUnder, Tables, Target, SchemaName;
      name := SchemaName(world, key);
      if key.role.ExampleRole? { name := FreeExampleName(name); }
      AddedToTables(resolved, resolving, names, key, name);
      resolving, names := resolving[key := name], names[key := name];
      StartResolving(world, existing, bound, old(S()), key, name, S());
    }

    /** key is resolved: its body is stored under name. A schema body never
        replaces one already stored under that name. */
    method Finish(key: Key, name: string, body: Json)
      requires Valid() && key in resolving && resolving[key] == name
      requires fatal.None? ==> Target(world, key).Some? && AllSettled(world, TargetSites(world, key), S())
      requires fatal.None? ==> body == InlineTarget(world, key, names)
      modifies this`inlined, this`inlinedExamples, this`warnings, this`resolved, this`resolving
      ensures Valid() && Stored(old(S()), key, name, body, S())
      ensures resolving == old(resolving) - {key}
    {
      hide Inv, ClosedUnder, Tables, Target, TargetSites, InlineTarget, AllSettled;
      ghost var s := S();
      if key.role.ExampleRole? {
        inlinedExamples := inlinedExamples[name := body];
      } else if name in inlined {
        warnings := warnings + [NameCollision(name)];
      } else {
        inlined := inlined[name := body];
      }
      MovedInTables(resolved, resolving, names, key, name);
      resolved := resolved[key := name];
      resolving := resolving - {key};
      FinishResolving(world, existing, bound, s, key, name, body, S());
    }

    /** Inlines site's target, unless it already has a name, and returns the
        name. A key being resolved is answered with the name it will have. */
    method ResolveExternal(site: Site) returns (r: Resolution)
      requires Valid() && fatal.None? && KeysIn(world, {site}, bound)
      modifies this
      ensures Valid() && Grows(old(S()), S())
      ensures r.Resolved? && fatal.None? ==> IsNamed(site, r.name)
      ensures !r.Resolved? ==> fatal.None?
      ensures r.Failed? ==> NoTarget(site)
      ensures r.Fatal? ==> world.online && r.url !in world.docs && KeyOf(world, site).Some?
      ensures r.Fatal? ==> KeyOf(world, site).value.url == r.url
      decreases Unnamed(), 1
    {
      hide Inv, ClosedUnder, Tables, Target, Inline;
      if KeyOf(world, site).None? { return Failed; }
      var key := KeyOf(world, site).value;
      TableLookup(resolved, resolving, names, key);
      if key in resolved { return Resolved(resolved[key]); }
      var lookup := FindTarget(key);
      if lookup.Missing? { return Failed; }
      if lookup.Unfetchable? { return Fatal(key.url); }
      TableLookup(resolved, resolving, names, key);
      if key in resolving {
        Warn(CycleDetected(key));
        return Resolved(resolving[key]);
      }
      var name := InlineNew(key, lookup.target);
      return Resolved(name);
    }

    /** Walks key's target, in its role, and stores the result. */
    method InlineNew(key: Key, target: Json) returns (name: string)
      requires Valid() && fatal.None? && key in bound && key !in names && Target(world, key) == Some(target)
      modifies this
      ensures Valid() && Grows(old(S()), S()) && key in names && names[key] == name
      decreases Unnamed(), 0
    {
      hide Inv, ClosedUnder, Tables, Target, TargetSites, InlineTarget, Inline, InlineExample, Sites, SiteSet,
           AllSettled;
      TargetParts(world, bound, key, target);
      AddedToTables(resolved, resolving, names, key, "");
      name := Begin(key);
      ghost var s := S();
      assert Unnamed() == old(Unnamed()) - {key} && key in old(Unnamed());
      var body := target;
      if key.role.SchemaRole? {
        body := Walk(target, key.url);
      } else {
        body := ResolveExample(target, key.url);
      }
      TableLookup(resolved, resolving, names, key);
      Finish(key, name, body);
      assert Extends(s.names, names);
    }

    ghost predicate IsNamed(site: Site, name: string)
      reads this
    {
      KeyOf(world, site).Some? && KeyOf(world, site).value in names
        && names[KeyOf(world, site).value] == name
    }

    ghost predicate NoTarget(site: Site) {
      KeyOf(world, site).Some? ==>
        (world.online ==> KeyOf(world, site).value.url in world.docs) && Target(world, KeyOf(world, site).value).None?
    }

    /** The text site's reference gets. A failure leaves it as it is, with a
        warning; a failed fetch stops the whole resolution. */
    method ResolveSite(site: Site) returns (ref: string)
      requires Valid() && fatal.None? && KeysIn(world, {site}, bound)
      modifies this
      ensures Valid() && Grows(old(S()), S())
      ensures fatal.None? ==> Settled(world, site, names, warnings) && ref == NewRef(world, site, names)
      decreases Unnamed(), 2
    {
      ref := site.ref;
      var r := ResolveExternal(site);
      ghost var s := S();
      match r
      case Resolved(name) => ref := ComponentsPath(site.role) + name;
      case Fatal(url) =>
        fatal := Some(url);
        NoteKeeps(world, existing, bound, s, S());
      case Failed =>
        if IsLocal(site.ref) {
          WarnOnce(NotInDocument(site.ref, site.base));
        } else {
          Warn(Unresolved(site));
        }
    }

    /** Rewrites the reference an Example Object is, and nothing inside it. */
    method ResolveExample(v: Json, base: string) returns (out: Json)
      requires Valid() && KeysIn(world, SiteSet(ExampleSite(v, base)), bound)
      modifies this
      ensures Valid() && Grows(old(S()), S())
      ensures fatal.None? ==>
        AllSettled(world, SiteSet(ExampleSite(v, base)), S()) && out == InlineExample(world, v, base, names)
      decreases Unnamed(), 3
    {
      out := v;
      if fatal.Some? || RefOf(v).None? { return; }
      WarnLocalRef(RefOf(v).value, base);
      var site := ExampleSite(v, base);
      if site.Some? {
        var ref := ResolveSite(site.value);
        out := Object(SetRef(v.fields, ref));
      }
    }

    /** Resolves every reference of v, part of the document at base. */
    method Walk(v: Json, base: string) returns (out: Json)
      requires Valid() && KeysIn(world, Sites(world, v, base), bound)
      modifies this
      ensures Valid() && Grows(old(S()), S())
      ensures fatal.None? ==>
        AllSettled(world, Sites(world, v, base), S()) && out == Inline(world, v, base, names)
      decreases Unnamed(), 4, v, 1
    {
      out := v;
      if fatal.Some? { return; }
      match v
      case Object(fields) => out := WalkObject(v, base);
      case Array(items) =>
        var done := WalkItems(items, base);
        out := Array(done);
      case _ =>
    }

    method WalkItems(items: seq<Json>, base: string) returns (done: seq<Json>)
      requires Valid() && fatal.None?
      requires forall j :: 0 <= j < |items| ==> KeysIn(world, Sites(world, items[j], base), bound)
      modifies this
      ensures Valid() && Grows(old(S()), S())
      ensures fatal.None? ==> ItemsSettled(world, items, base, S()) && done == InlineItems(world, items, base, names)
      decreases Unnamed(), 4, items, 0
    {
      hide Inv, ClosedUnder, Tables, Sites, AllSettled, ItemsSettled, Inline, InlineItems;
      NothingSettled(world, base, S());
      done := [];
      for i := 0 to |items|
        invariant Valid() && fatal.None? && Grows(old(S()), S())
        invariant ItemsSettled(world, items[..i], base, S())
        invariant done == InlineItems(world, items[..i], base, names)
      {
        ghost var s := S();
        var item := Walk(items[i], base);
        if fatal.Some? { return; }
        ItemsStep(world, existing, bound, items, i, base, done, item, s, S());
        done := done + [item];
      }
      assert items[..|items|] == items;
    }

    method WalkObject(v: Json, base: string) returns (out: Json)
      requires v.Object? && Valid() && fatal.None? && KeysIn(world, Sites(world, v, base), bound)
      modifies this
      ensures Valid() && Grows(old(S()), S())
      ensures fatal.None? ==>
        AllSettled(world, Sites(world, v, base), S()) && out == Inline(world, v, base, names)
      decreases Unnamed(), 4, v, 0
    {
      hide Inv, ClosedUnder, Tables, Sites, FieldSites, Inline, InlineFields, AllSettled, FieldsSettled, NewRef, KeysIn;
      out := v;
      var fields, site := v.fields, SchemaSite(world, v, base);
      ObjectSites(world, v, base, bound);
      if RefOf(v).Some? && site.None? { WarnLocalRef(RefOf(v).value, base); }
      var ref := "";
      if site.Some? {
        ref := ResolveSite(site.value);
        if fatal.Some? { return; }
        if !IsLocal(site.value.ref) {
          out := Object(SetRef(fields, ref));
          ReferenceDone(world, v, base, ref, S());
          return;
        }
      }
      ghost var s := S();
      var inner := WalkFields(fields, base);
      out := Object(if site.Some? then SetRef(inner, ref) else inner);
      if fatal.None? { ObjectDone(world, existing, bound, v, base, ref, inner, s, S()); }
    }

    method WalkFields(fields: seq<Field>, base: string) returns (done: seq<Field>)
      requires Valid() && fatal.None?
      requires forall j :: 0 <= j < |fields| ==> KeysIn(world, FieldSites(world, fields[j], base), bound)
      modifies this
      ensures Valid() && Grows(old(S()), S())
      ensures fatal.None? ==>
        FieldsSettled(world, fields, base, S()) && done == InlineFields(world, fields, base, names)
      decreases Unnamed(), 4, fields, 1
    {
      hide Inv, ClosedUnder, Tables, FieldSites, AllSettled, FieldsSettled, InlineField, InlineFields;
      NothingSettled(world, base, S());
      done := [];
      for i := 0 to |fields|
        invariant Valid() && fatal.None? && Grows(old(S()), S())
        invariant FieldsSettled(world, fields[..i], base, S())
        invariant done == InlineFields(world, fields[..i], base, names)
      {
        ghost var s := S();
        var field := WalkField(fields[i], base);
        if fatal.Some? { return; }
        FieldsStep(world, existing, bound, fields, i, base, done, field, s, S());
        done := done + [field];
      }
      assert fields[..|fields|] == fields;
    }

    /** A name-keyed map's members are walked as objects; example data is not
        walked, apart from the Example Objects an "examples" object refers to. */
    method WalkField(f: Field, base: string) returns (out: Field)
      requires Valid() && fatal.None? && KeysIn(world, FieldSites(world, f, base), bound)
      modifies this
      ensures Valid() && Grows(old(S()), S())
      ensures fatal.None? ==>
        AllSettled(world, FieldSites(world, f, base), S()) && out == InlineField(world, f, base, names)
      decreases Unnamed(), 4, f, 1
    {
      hide Inv, ClosedUnder, Tables, Sites, Inline;
      out := f;
      if IsNameKeyed(f.key, f.value) {
        var members := f.value.fields;
        assert forall j :: 0 <= j < |members| ==> Sites(world, members[j].value, base) <= FieldSites(world, f, base);
        var done := WalkMembers(members, base);
        out := Field(f.key, Object(done));
      } else if f.key == "examples" && f.value.Object? {
        var entries := f.value.fields;
        var done := WalkExamples(entries, base);
        out := Field(f.key, Object(done));
      } else if !IsExamplePayload(f.key) {
        var value := Walk(f.value, base);
        out := Field(f.key, value);
      }
    }

    method WalkMembers(members: seq<Field>, base: string) returns (done: seq<Field>)
      requires Valid() && fatal.None?
      requires forall j :: 0 <= j < |members| ==> KeysIn(world, Sites(world, members[j].value, base), bound)
      modifies this
      ensures Valid() && Grows(old(S()), S())
      ensures fatal.None? ==>
        MembersSettled(world, members, base, S()) && done == InlineMembers(world, members, base, names)
      decreases Unnamed(), 4, members, 0
    {
      hide Inv, ClosedUnder, Tables, Sites, AllSettled, MembersSettled, Inline, InlineMembers;
      NothingSettled(world, base, S());
      done := [];
      for i := 0 to |members|
        invariant Valid() && fatal.None? && Grows(old(S()), S())
        invariant MembersSettled(world, members[..i], base, S())
        invariant done == InlineMembers(world, members[..i], base, names)
      {
        ghost var s := S();
        var value := Walk(members[i].value, base);
        if fatal.Some? { return; }
        MembersStep(world, existing, bound, members, i, base, done, value, s, S());
        done := done + [Field(members[i].key, value)];
      }
      assert members[..|members|] == members;
    }

    method WalkExamples(entries: seq<Field>, base: string) returns (done: seq<Field>)
      requires Valid() && fatal.None?
      requires forall j :: 0 <= j < |entries| ==> KeysIn(world, SiteSet(ExampleSite(entries[j].value, base)), bound)
      modifies this
      ensures Valid() && Grows(old(S()), S())
      ensures fatal.None? ==>
        EntriesSettled(world, entries, base, S()) && done == InlineExamples(world, entries, base, names)
      decreases Unnamed(), 4, entries, 0
    {
      hide Inv, ClosedUnder, Tables, SiteSet, ExampleSite, AllSettled, EntriesSettled, InlineExample, InlineExamples;
      NothingSettled(world, base, S());
      done := [];
      for i := 0 to |entries|
        invariant Valid() && fatal.None? && Grows(old(S()), S())
        invariant EntriesSettled(world, entries[..i], base, S())
        invariant done == InlineExamples(world, entries[..i], base, names)
      {
        ghost var s := S();
        var value := ResolveExample(entries[i].value, base);
        if fatal.Some? { return; }
        ExamplesStep(world, existing, bound, entries, i, base, done, value, s, S());
        done := done + [Field(entries[i].key, value)];
      }
      assert entries[..|entries|] == entries;
    }
  }
}
