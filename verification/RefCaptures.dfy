/** Specs whose meaning inlining changes, although it succeeds and reports
    no clash of names. */
module RefCaptures {
  import opened Base
  import opened JsonModel
  import opened RefNames
  import opened References
  import opened RefResolver
  import opened ExternalRefs
  import opened RefMeaning
  import opened RefPlaces

  // ---- Specs with one reference to another document ----

  function RefTo(ref: string): Json {
    Object([Field("$ref", String(ref))])
  }

  lemma RefOfRefTo(ref: string)
    ensures RefOf(RefTo(ref)) == Some(ref)
  {
    assert Get([Field("$ref", String(ref))], "$ref") == Some(String(ref));
  }

  /** root refers, across documents, to key alone, which refers to nothing. */
  ghost predicate RefersOnlyTo(w: World, root: Json, site: Site, key: Key) {
    && root.Object? && Member(root, "components").None?
    && Sites(w, root, w.baseURL) == {site} && KeyOf(w, site) == Some(key) && key.role == site.role
    && Target(w, key).Some? && TargetSites(w, key) == {}
  }

  lemma OneKeyIsReached(w: World, root: Json, site: Site, key: Key)
    requires RefersOnlyTo(w, root, site, key)
    ensures forall k :: k in Reach(w, root) <==> k == key
  {
    hide Sites, TargetSites, Target, KeyOf;
    ReachIsClosed(w, root);
    assert Closed(w, root, {key});
    forall k | k in Reach(w, root) ensures k == key { assert Reached(w, root, k); }
    assert site in Sites(w, root, w.baseURL);
  }

  /** The first name that is free is the sanitized one. */
  lemma OneNameIsGiven(w: World, root: Json, site: Site, key: Key, names: Names, out: Json, warnings: seq<Warning>)
    requires RefersOnlyTo(w, root, site, key) && Faithful(w, root, names, out, warnings)
    ensures names.Keys == {key} && names[key] == SchemaName(w, key) && NoCollision(warnings)
  {
    hide Sites, TargetSites, Target, KeyOf, Inline, InlineTarget, RestKept, PlacesKept, BodiesIn, NothingLeft, Reach,
         SchemaName;
    OneKeyIsReached(w, root, site, key);
    assert names.Keys == {key} by {
      assert forall k :: k in names <==> k in NamedKeys(w, root);
      HasTarget(w, root, site, key);
    }
    OneKeyNeverCollides(w, root, key, names, warnings);
    assert ComponentsOf(root, "examples") == [];
    if key.role.ExampleRole? {
      var taken :| ExampleNamesOk(NamesIn(ComponentsOf(root, "examples")), taken, names) &&
        FirstNamesOk(w, taken, names);
      FirstIsStem(SchemaName(w, key), names[key], taken, key, names);
    }
  }

  lemma OneKeyNeverCollides(w: World, root: Json, key: Key, names: Names, warnings: seq<Warning>)
    requires root.Object? && Member(root, "components").None?
    requires names.Keys == {key} && CollisionsReported(w, root, names, warnings)
    ensures NoCollision(warnings)
  {
    hide Inline;
    InlinedShape(w, root, w.baseURL, names);
    assert forall n :: NameCollision(n) !in warnings;
    forall n ensures SchemaExists(n) !in warnings {
      ShapeOfComponents(root, Inline(w, root, w.baseURL, names), "schemas", n);
    }
  }

  lemma HasTarget(w: World, root: Json, site: Site, key: Key)
    requires RefersOnlyTo(w, root, site, key)
    ensures Target(w, key).Some?
  {}

  lemma FirstIsStem(stem: string, name: string, taken: set<string>, key: Key, names: Names)
    requires FirstFree(stem, name, taken) && OnlyTaken({}, taken, names) && names.Keys == {key} && names[key] == name
    ensures name == stem
  {
    assert Numbered(stem, 1) == stem;
    forall n: nat | 1 < n ensures Numbered(stem, n) != Numbered(stem, 1) {
      NumberedIsInjective(stem, 1, n);
    }
  }

  lemma NoComponents(root: Json, role: Role, name: string)
    requires root.Object? && Member(root, "components").None? && IsName(name)
    ensures PointerLookup(root, (ComponentsPath(role) + name)[1..]).None?
  {
    hide PointerParts, Kind, Unescape;
    KindIsPlain(role);
    PointerText("components", Kind(role), name);
    ThreeParts("components", Kind(role), name);
    PlainUnescape("components");
    LookupInMember(root, ["components", Kind(role), name], "components");
  }

  /** What the pointer at the name given leads to, before and after. */
  lemma PointerIsCaptured(w: World, root: Json, site: Site, key: Key, names: Names, out: Json, warnings: seq<Warning>)
    requires RefersOnlyTo(w, root, site, key) && Faithful(w, root, names, out, warnings)
    ensures var ref := ComponentsPath(key.role) + SchemaName(w, key);
      && IsLocal(ref)
      && PointerLookup(root, ref[1..]).None? && PointerLookup(out, ref[1..]).Some?
  {
    hide PointerLookup, Reach, Sites, TargetSites, Target, SchemaName;
    OneNameIsGiven(w, root, site, key, names, out, warnings);
    NoComponents(root, key.role, SchemaName(w, key));
    NamesAreNames(w, root, names, out, warnings, key);
    ComponentPointer(out, key.role, names[key]);
  }

  // ---- A dangling reference to an Example Object ----

  /** a refers to an Example Object of another document, b to components.examples,
      where nothing is yet. */
  function TwoExamples(ref: string, name: string): Json {
    Object([Field("examples", Object([Field("a", RefTo(ref)), Field("b", RefTo(ComponentsPath(ExampleRole) + name))]))])
  }

  lemma SitesOfTwoExamples(w: World, ref: string, name: string)
    requires ref != "" && !IsLocal(ref)
    ensures Sites(w, TwoExamples(ref, name), w.baseURL) == {Site(ExampleRole, ref, w.baseURL)}
    ensures RefOf(TwoExamples(ref, name)).None? && Member(TwoExamples(ref, name), "components").None?
  {
    var path := ComponentsPath(ExampleRole) + name;
    RefOfRefTo(ref);
    RefOfRefTo(path);
    assert IsLocal(path);
    hide ComponentsPath, RefTo, Get;
    var entries := [Field("a", RefTo(ref)), Field("b", RefTo(path))];
    var f := Field("examples", Object(entries));
    NoMember(f);
    assert f.key !in NAME_KEYED_MAPS;
    assert ExampleSite(RefTo(ref), w.baseURL) == Some(Site(ExampleRole, ref, w.baseURL));
    assert entries[0].value == RefTo(ref) && entries[1].value == RefTo(path);
    assert FieldSites(w, f, w.baseURL) == {Site(ExampleRole, ref, w.baseURL)};
    assert [f][0] == f;
  }

  lemma NoMember(f: Field)
    requires f.key == "examples"
    ensures RefOf(Object([f])).None? && Member(Object([f]), "components").None?
  {
    assert f.key != "$ref" && f.key != "components";
  }

  /** Whenever the resolution of such a spec succeeds, no clash of names is
      reported, and b means what a refers to although it meant nothing. */
  lemma DanglingExampleIsCaptured(w: World, ref: string, key: Key, names: Names, out: Json, warnings: seq<Warning>)
    requires ref != "" && !IsLocal(ref) && KeyOf(w, Site(ExampleRole, ref, w.baseURL)) == Some(key)
    requires Target(w, key).Some? && ExampleSite(Target(w, key).value, key.url).None?
    requires Faithful(w, TwoExamples(ref, SchemaName(w, key)), names, out, warnings)
    ensures NoCollision(warnings)
    ensures var root := TwoExamples(ref, SchemaName(w, key)); !AllSame(Run(w, root, names, out), root, w.baseURL)
  {
    hide Faithful, PointerLookup, SchemaName, TwoExamples, Sites, AllSame, Reach, Target, ComponentsPath;
    var stem := SchemaName(w, key);
    var root, site := TwoExamples(ref, stem), Site(ExampleRole, ref, w.baseURL);
    SitesOfTwoExamples(w, ref, stem);
    NothingFurther(w, key);
    IsAnObject(ref, stem);
    OneNameIsGiven(w, root, site, key, names, out, warnings);
    PointerIsCaptured(w, root, site, key, names, out, warnings);
    ExampleDiffers(Run(w, root, names, out), ref, stem);
  }

  lemma IsAnObject(ref: string, name: string)
    ensures TwoExamples(ref, name).Object? && TwoSchemas(ref, name).Object?
  {}

  lemma NothingFurther(w: World, key: Key)
    requires key.role.ExampleRole? && Target(w, key).Some? && ExampleSite(Target(w, key).value, key.url).None?
    ensures TargetSites(w, key) == {}
  {}

  lemma ExampleDiffers(r: Run, ref: string, name: string)
    requires r.root == TwoExamples(ref, name)
    requires var path := ComponentsPath(ExampleRole) + name;
      && IsLocal(path)
      && PointerLookup(r.root, path[1..]).None? && PointerLookup(r.out, path[1..]).Some?
    ensures !AllSame(r, r.root, r.w.baseURL)
  {
    hide PointerLookup, ComponentsPath, RefTo;
    var path := ComponentsPath(ExampleRole) + name;
    var b := RefTo(path);
    var entries := [Field("a", RefTo(ref)), Field("b", b)];
    var f := Field("examples", Object(entries));
    NoMember(f);
    RefOfRefTo(path);
    assert InlineExample(r.w, b, r.w.baseURL, r.names) == b;
    assert UnfoldExample(r.After(), 0, b, "") == Null;
    assert UnfoldExample(r.Before(), 0, b, r.w.baseURL) == b;
    assert entries[1].value == b && !SameExample(r, 0, b, r.w.baseURL);
    hide UnfoldExample, InlineExample;
    if Same(r, 0, r.root, r.w.baseURL) { EntriesAgree(r, f); }
  }

  /** The unfoldings of a spec with one field, examples, agree on each entry. */
  lemma EntriesAgree(r: Run, f: Field)
    requires f.key == "examples" && f.value.Object? && r.root == Object([f]) && RefOf(r.root).None?
    requires Same(r, 0, r.root, r.w.baseURL)
    ensures forall i :: 0 <= i < |f.value.fields| ==> SameExample(r, 0, f.value.fields[i].value, r.w.baseURL)
  {
    hide UnfoldExample, InlineExample, RefMeaning.Follow;
    var base, entries := r.w.baseURL, f.value.fields;
    FieldsAgree(r, 0, [f]);
    assert f.key !in NAME_KEYED_MAPS;
    assert [f][0] == f && SameField(r, 0, f, base);
    forall i | 0 <= i < |entries| ensures SameExample(r, 0, entries[i].value, base) {
      assert UnfoldExamples(r.After(), 0, InlineExamples(r.w, entries, base, r.names), "")[i] ==
             UnfoldExamples(r.Before(), 0, entries, base)[i];
    }
  }

  // ---- A dangling reference to a schema ----

  function TwoSchemas(ref: string, name: string): Json {
    Object([Field("a", RefTo(ref)), Field("b", RefTo(ComponentsPath(SchemaRole) + name))])
  }

  lemma SitesOfTwoSchemas(w: World, ref: string, name: string)
    requires ref != "" && !IsLocal(ref)
    ensures Sites(w, TwoSchemas(ref, name), w.baseURL) == {Site(SchemaRole, ref, w.baseURL)}
    ensures RefOf(TwoSchemas(ref, name)).None? && Member(TwoSchemas(ref, name), "components").None?
  {
    var path := ComponentsPath(SchemaRole) + name;
    var a, b := Field("a", RefTo(ref)), Field("b", RefTo(path));
    assert IsLocal(path);
    RefOfRefTo(ref);
    NoRefInside(w, path);
    PlainFields(a, b);
    WalkedPlainly(w, a, map[]);
    WalkedPlainly(w, b, map[]);
    assert Sites(w, RefTo(ref), w.baseURL) == {Site(SchemaRole, ref, w.baseURL)};
    hide ComponentsPath, RefTo, FieldSites, RefOf, Get;
    assert [a, b][0] == a && [a, b][1] == b;
  }

  lemma NoRefInside(w: World, path: string)
    requires IsLocal(path)
    ensures Sites(w, RefTo(path), w.baseURL) == {}
  {
    RefOfRefTo(path);
    var f := Field("$ref", String(path));
    assert [f][0] == f && FieldSites(w, f, w.baseURL) == {};
  }

  lemma PlainFields(a: Field, b: Field)
    requires a.key == "a" && b.key == "b"
    ensures RefOf(Object([a, b])).None? && Member(Object([a, b]), "components").None?
  {}

  /** Whenever the resolution of such a spec succeeds, no clash of names is
      reported, and b means what a means although it meant nothing. */
  lemma DanglingSchemaIsCaptured(w: World, ref: string, key: Key, names: Names, out: Json, warnings: seq<Warning>)
    requires ref != "" && !IsLocal(ref) && KeyOf(w, Site(SchemaRole, ref, w.baseURL)) == Some(key)
    requires Target(w, key).Some? && TargetSites(w, key) == {}
    requires Faithful(w, TwoSchemas(ref, SchemaName(w, key)), names, out, warnings)
    ensures NoCollision(warnings)
    ensures var root := TwoSchemas(ref, SchemaName(w, key)); !AllSame(Run(w, root, names, out), root, w.baseURL)
  {
    hide Faithful, PointerLookup, SchemaName, TwoSchemas, Sites, AllSame, Reach, Target, ComponentsPath;
    var stem := SchemaName(w, key);
    var root, site := TwoSchemas(ref, stem), Site(SchemaRole, ref, w.baseURL);
    SitesOfTwoSchemas(w, ref, stem);
    IsAnObject(ref, stem);
    OneNameIsGiven(w, root, site, key, names, out, warnings);
    PointerIsCaptured(w, root, site, key, names, out, warnings);
    SchemaDiffers(Run(w, root, names, out), ref, stem);
  }

  lemma SchemaDiffers(r: Run, ref: string, name: string)
    requires r.root == TwoSchemas(ref, name)
    requires var path := ComponentsPath(SchemaRole) + name;
      && IsLocal(path)
      && PointerLookup(r.root, path[1..]).None? && PointerLookup(r.out, path[1..]).Some?
    ensures !AllSame(r, r.root, r.w.baseURL)
  {
    hide PointerLookup, ComponentsPath;
    var path := ComponentsPath(SchemaRole) + name;
    var v := RefTo(path);
    var a, b := Field("a", RefTo(ref)), Field("b", v);
    PlainFields(a, b);
    RefOfRefTo(path);
    InlinedObject(r.w, v, r.w.baseURL, r.names);
    assert Unfold(r.After(), 0, Inline(r.w, v, r.w.baseURL, r.names), "") == Null;
    assert Unfold(r.Before(), 0, v, r.w.baseURL).Object?;
    assert !Same(r, 0, v, r.w.baseURL);
    hide Unfold, Inline;
    if Same(r, 0, r.root, r.w.baseURL) { SecondAgrees(r, 0, a, b); }
  }

  lemma SecondAgrees(r: Run, n: nat, a: Field, b: Field)
    requires r.root == Object([a, b]) && RefOf(r.root).None? && b.key == "b"
    requires Same(r, n, r.root, r.w.baseURL)
    ensures Same(r, n, b.value, r.w.baseURL)
  {
    hide RefMeaning.Follow, UnfoldField, InlineField, RefOf;
    var base := r.w.baseURL;
    InlinedObject(r.w, r.root, base, r.names);
    FieldsAgree(r, n, [a, b]);
    assert [a, b][1] == b;
    assert b.key !in NAME_KEYED_MAPS;
    PlainField(r, n, b, base);
  }

  lemma FieldsAgree(r: Run, n: nat, fields: seq<Field>)
    requires r.root == Object(fields) && RefOf(r.root).None? && Same(r, n, r.root, r.w.baseURL)
    ensures forall i :: 0 <= i < |fields| ==> SameField(r, n, fields[i], r.w.baseURL)
  {
    hide RefMeaning.Follow, UnfoldField, InlineField, RefOf;
    var base := r.w.baseURL;
    InlinedObject(r.w, r.root, base, r.names);
    forall i | 0 <= i < |fields| ensures SameField(r, n, fields[i], base) {
      assert UnfoldFields(r.After(), n, InlineFields(r.w, fields, base, r.names), "")[i] ==
        UnfoldFields(r.Before(), n, fields, base)[i];
    }
  }

  // ---- A world in which both happen ----

  /** A spec at s, and a document d that holds an empty object. */
  const WORLD := World("s", true, map["d" := Object([])], (ref: string, base: string) => Some(ref),
    (url: string) => url)

  lemma InTheWorld(role: Role)
    ensures var key := Key(role, "d", "");
      && KeyOf(WORLD, Site(role, "d", WORLD.baseURL)) == Some(key)
      && Target(WORLD, key) == Some(Object([])) && TargetSites(WORLD, key) == {}
      && "d" != "" && !IsLocal("d")
  {
    var d := "d";
    assert d[0] == 'd' && d[1..] == "" && d[..1] == d;
    assert HashIndex(d) == 1;
    assert PointerParts("") == [];
    assert RefOf(Object([])).None?;
  }

  method CapturedExample() returns (r: Outcome, ghost names: Names)
    ensures var root := TwoExamples("d", SchemaName(WORLD, Key(ExampleRole, "d", "")));
      r.Success? && NoCollision(r.warnings) && !AllSame(Run(WORLD, root, names, r.out), root, WORLD.baseURL)
  {
    hide Faithful, AllSame, SchemaName, TwoExamples, Reach, Sites, Target, KeyOf, TargetSites;
    var key := Key(ExampleRole, "d", "");
    var stem := SchemaName(WORLD, key);
    var root := TwoExamples("d", stem);
    InTheWorld(ExampleRole);
    IsAnObject("d", stem);
    SitesOfTwoExamples(WORLD, "d", stem);
    OneKeyIsReached(WORLD, root, Site(ExampleRole, "d", WORLD.baseURL), key);
    r, names := ResolveExternalRefs(WORLD, root);
    if r.Success? { DanglingExampleIsCaptured(WORLD, "d", key, names, r.out, r.warnings); }
  }

  method CapturedSchema() returns (r: Outcome, ghost names: Names)
    ensures var root := TwoSchemas("d", SchemaName(WORLD, Key(SchemaRole, "d", "")));
      r.Success? && NoCollision(r.warnings) && !AllSame(Run(WORLD, root, names, r.out), root, WORLD.baseURL)
  {
    hide Faithful, AllSame, SchemaName, TwoSchemas, Reach, Sites, Target, KeyOf, TargetSites;
    var key := Key(SchemaRole, "d", "");
    var stem := SchemaName(WORLD, key);
    var root := TwoSchemas("d", stem);
    InTheWorld(SchemaRole);
    IsAnObject("d", stem);
    SitesOfTwoSchemas(WORLD, "d", stem);
    OneKeyIsReached(WORLD, root, Site(SchemaRole, "d", WORLD.baseURL), key);
    r, names := ResolveExternalRefs(WORLD, root);
    if r.Success? { DanglingSchemaIsCaptured(WORLD, "d", key, names, r.out, r.warnings); }
  }

  // ---- A reference to example data ----

  function DataPath(): (path: string)
    ensures IsLocal(path)
  {
    "#" + "/" + "a" + "/" + "example"
  }

  /** b refers to the example data of a, which looks like a reference. */
  function RefToData(ref: string): Json {
    Object([Field("a", Object([Field("example", RefTo(ref))])), Field("b", RefTo(DataPath()))])
  }

  /** Why a reference must lead to something the walk reaches: nothing moves
      here, but what is inside example data is not inlined. */
  lemma DataIsNotInlined(w: World, ref: string, names: Names, out: Json, warnings: seq<Warning>)
    requires ref != "" && !IsLocal(ref) && KeyTarget(w, Site(SchemaRole, ref, w.baseURL)).Some?
    requires Faithful(w, RefToData(ref), names, out, warnings)
    ensures var r := Run(w, RefToData(ref), names, out);
      (forall site :: !Moved(r, site)) && !AllSame(r, r.root, w.baseURL)
  {
    hide Sites, Reach, PointerLookup, KeyOf, Target, RefToData;
    var root := RefToData(ref);
    var r := Run(w, root, names, out);
    NothingToInline(w, ref, names);
    NobodyReached(w, root);
    hide TargetSites, SchemaNamesOk, ExampleNamesGiven, BodiesIn, CollisionsReported, RestKept, NothingLeft, Inline;
    assert names == map[] by { assert forall k :: k in names <==> k in NamedKeys(w, root); }
    assert out == root;
    DataDiffers(r, ref);
  }

  lemma NobodyReached(w: World, root: Json)
    requires Sites(w, root, w.baseURL) == {}
    ensures Reach(w, root) == {}
  {
    hide Sites, TargetSites, Target, KeyOf;
    ReachIsClosed(w, root);
    assert Closed(w, root, {});
    assert forall k :: Reached(w, root, k) ==> k in {};
  }

  lemma NothingToInline(w: World, ref: string, names: Names)
    ensures Sites(w, RefToData(ref), w.baseURL) == {}
    ensures Inline(w, RefToData(ref), w.baseURL, names) == RefToData(ref)
  {
    var path := DataPath();
    var x := Field("example", RefTo(ref));
    var a, b := Field("a", Object([x])), Field("b", RefTo(path));
    PlainFields(a, b);
    NoRefInside(w, path);
    StaysAsItIs(w, path, names);
    DataStays(w, x, names);
    WalkedPlainly(w, a, names);
    WalkedPlainly(w, b, names);
    hide RefTo, DataPath, Sites, Inline, RefOf, FieldSites, InlineField;
    TwoFieldsStay(w, a, b, names);
  }

  lemma WalkedPlainly(w: World, f: Field, names: Names)
    requires f.key == "a" || f.key == "b"
    ensures FieldSites(w, f, w.baseURL) == Sites(w, f.value, w.baseURL)
    ensures InlineField(w, f, w.baseURL, names) == Field(f.key, Inline(w, f.value, w.baseURL, names))
  {
    assert f.key !in NAME_KEYED_MAPS;
  }

  lemma TwoFieldsStay(w: World, a: Field, b: Field, names: Names)
    requires RefOf(Object([a, b])).None?
    requires FieldSites(w, a, w.baseURL) == {} && FieldSites(w, b, w.baseURL) == {}
    requires InlineField(w, a, w.baseURL, names) == a && InlineField(w, b, w.baseURL, names) == b
    ensures Sites(w, Object([a, b]), w.baseURL) == {} && Inline(w, Object([a, b]), w.baseURL, names) == Object([a, b])
  {
    hide FieldSites, InlineField, RefOf;
    assert [a, b][0] == a && [a, b][1] == b;
    assert InlineFields(w, [a, b], w.baseURL, names) == [a, b];
  }

  lemma StaysAsItIs(w: World, path: string, names: Names)
    requires IsLocal(path)
    ensures Inline(w, RefTo(path), w.baseURL, names) == RefTo(path)
  {
    RefOfRefTo(path);
    var f := Field("$ref", String(path));
    assert InlineField(w, f, w.baseURL, names) == f;
    assert InlineFields(w, [f], w.baseURL, names) == [f];
  }

  lemma DataStays(w: World, x: Field, names: Names)
    requires x.key == "example"
    ensures Sites(w, Object([x]), w.baseURL) == {} && Inline(w, Object([x]), w.baseURL, names) == Object([x])
  {
    assert x.key != "$ref" && x.key !in NAME_KEYED_MAPS;
    assert RefOf(Object([x])).None?;
    assert [x][0] == x && FieldSites(w, x, w.baseURL) == {} && InlineField(w, x, w.baseURL, names) == x;
    assert InlineFields(w, [x], w.baseURL, names) == [x];
  }

  lemma DataDiffers(r: Run, ref: string)
    requires r.root == RefToData(ref) && r.out == r.root
    requires ref != "" && !IsLocal(ref) && KeyTarget(r.w, Site(SchemaRole, ref, r.w.baseURL)).Some?
    ensures !AllSame(r, r.root, r.w.baseURL)
  {
    hide KeyOf, Target, PointerParts, LookupParts;
    var path, base := DataPath(), r.w.baseURL;
    var a, b := Field("a", Object([Field("example", RefTo(ref))])), Field("b", RefTo(path));
    PlainFields(a, b);
    RefOfRefTo(path);
    RefOfRefTo(ref);
    DataIsFound(ref);
    StaysAsItIs(r.w, path, r.names);
    hide PointerLookup;
    assert Unfold(r.Before(), 0, RefTo(ref), base) == Null;
    assert Unfold(r.After(), 0, RefTo(ref), "") == RefTo(ref);
    assert Unfold(r.Before(), 1, RefTo(path), base) == Unfold(r.Before(), 0, RefTo(ref), base);
    assert Unfold(r.After(), 1, RefTo(path), "") == Unfold(r.After(), 0, RefTo(ref), "");
    assert !Same(r, 1, b.value, base);
    hide Unfold, Inline;
    if Same(r, 1, r.root, base) { SecondAgrees(r, 1, a, b); }
  }

  lemma PairLookup(v: Json, a: string, b: string)
    requires v.Object? && '/' !in a && '/' !in b && '~' !in a && '~' !in b
    ensures PointerLookup(v, ("#" + "/" + a + "/" + b)[1..]) ==
            match Member(v, a) case Some(Object(fields)) => Get(fields, b) case Some(x) => LookupParts(x, [b])
              case None => None
  {
    var pointer := ("#" + "/" + a + "/" + b)[1..];
    assert pointer[1..] == a + ['/'] + b;
    SplitAtFirst(a, b, '/');
    SplitAtFirst(b, "", '/');
    PlainUnescape(a);
    PlainUnescape(b);
    hide Split, Unescape, Get;
    assert PointerParts(pointer) == [a, b];
    LookupInMember(v, [a, b], a);
    assert [a, b][1..] == [b] && [b][1..] == [];
    if Member(v, a).Some? && Member(v, a).value.Object? { LookupInMember(Member(v, a).value, [b], b); }
  }

  lemma DataIsFound(ref: string)
    ensures PointerLookup(RefToData(ref), DataPath()[1..]) == Some(RefTo(ref))
  {
    hide RefTo, PointerLookup;
    var x, b := [Field("example", RefTo(ref))], Field("b", RefTo(DataPath()));
    assert Get(x, "example") == Some(RefTo(ref));
    assert Get([Field("a", Object(x)), b], "a") == Some(Object(x));
    PairLookup(RefToData(ref), "a", "example");
  }
}
