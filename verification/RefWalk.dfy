/** Where the walk of a document goes, and what it leaves alone, said of the
    documents' own words. */
module RefWalk {
  import opened Base
  import opened JsonModel
  import opened RefNames
  import opened References
  import opened RefResolver
  import opened ExternalRefs
  import opened RefMeaning
  import opened RefPlaces
  import opened RefTargets

  // ---- Where the walk goes ----

  /** The maps of names of JSON Schema and OpenAPI. */
  predicate MapsNames(key: string) {
    || key == "properties" || key == "patternProperties" || key == "$defs" || key == "definitions"
    || key == "dependentSchemas" || key == "dependencies" || key == "paths" || key == "webhooks" || key == "schemas"
    || key == "responses" || key == "parameters" || key == "requestBodies" || key == "headers"
    || key == "securitySchemes" || key == "links" || key == "callbacks" || key == "pathItems" || key == "content"
    || key == "encoding"
  }

  /** v is a reference to another document. */
  predicate RefersAway(v: Json) {
    RefOf(v).Some? && RefOf(v).value != "" && RefOf(v).value[0] != '#'
  }

  /** A place below a walked one is walked from there. */
  lemma {:induction false} WalkedFromThere(spec: bool, v: Json, parts: seq<string>, u: Json, rest: seq<string>,
      role: Role)
    requires WalkedAs(spec, v, parts, SchemaRole) && LookupParts(v, parts) == Some(u)
    ensures WalkedAs(spec, v, parts + rest, role) <==> WalkedAs(spec, u, rest, role)
    ensures LookupParts(v, parts + rest) == LookupParts(u, rest)
    decreases |parts|, 0
  {
    if parts == [] {
      assert parts + rest == rest;
    } else {
      hide Unescape, Get, Atoi, WalkedField;
      var key, all := Unescape(parts[0]), parts + rest;
      assert all[0] == parts[0] && all[1..] == parts[1..] + rest;
      match v
      case Array(items) => WalkedFromThere(spec, items[Atoi(key).value], parts[1..], u, rest, role);
      case Object(fields) => FieldFromThere(spec, key, Get(fields, key).value, parts[1..], u, rest, role);
    }
  }

  lemma {:induction false} FieldFromThere(spec: bool, key: string, value: Json, parts: seq<string>, u: Json,
      rest: seq<string>, role: Role)
    requires WalkedField(spec, key, value, parts, SchemaRole) && LookupParts(value, parts) == Some(u)
    ensures WalkedField(spec, key, value, parts + rest, role) <==> WalkedAs(spec, u, rest, role)
    ensures LookupParts(value, parts + rest) == LookupParts(u, rest)
    decreases |parts|, 1
  {
    hide Unescape, Get, Atoi, IsExamplePayload, WalkedAs, NAME_KEYED_MAPS;
    if IsNameKeyed(key, value) {
      var all := parts + rest;
      assert all[0] == parts[0] && all[1..] == parts[1..] + rest;
      WalkedFromThere(spec, Get(value.fields, Unescape(parts[0])).value, parts[1..], u, rest, role);
    } else {
      WalkedFromThere(spec, value, parts, u, rest, role);
    }
  }

  /** From a walked object that does not refer away, the walk goes on: past a
      map of names to each of its members, whatever they are called, to each
      Example Object, and otherwise to each member that is not example data. */
  lemma WalkGoesOn(spec: bool, v: Json, parts: seq<string>, u: Json, key: string, value: Json)
    requires WalkedAs(spec, v, parts, SchemaRole) && LookupParts(v, parts) == Some(u)
    requires !RefersAway(u) && Member(u, key) == Some(value) && (spec || key != "$ref")
    ensures MapsNames(key) && value.Object? ==> forall name | Get(value.fields, name).Some? ::
        WalkedAs(spec, v, parts + [Escape(key), Escape(name)], SchemaRole)
    ensures !(MapsNames(key) && value.Object?) && key != "example" && key != "examples" ==>
      WalkedAs(spec, v, parts + [Escape(key)], SchemaRole)
    ensures key == "examples" && value.Object? ==> forall name ::
        WalkedAs(spec, v, parts + [Escape(key), Escape(name)], ExampleRole)
  {
    hide LookupParts, Get, Escape, Unescape;
    NamesAreMapped(key, value);
    assert RefersAway(u) <==> IsWholly(u) by { AwayIsWholly(u); }
    UnescapeInvertsEscape(key);
    forall name ensures Unescape(Escape(name)) == name { UnescapeInvertsEscape(name); }
    forall rest, role ensures WalkedAs(spec, v, parts + rest, role) <==> WalkedAs(spec, u, rest, role) {
      WalkedFromThere(spec, v, parts, u, rest, role);
    }
    forall name { StepTwice(spec, u, key, value, Escape(name)); }
    StepOnce(spec, u, key, value);
  }

  lemma NamesAreMapped(key: string, value: Json)
    ensures IsNameKeyed(key, value) <==> MapsNames(key) && value.Object?
  {}

  lemma AwayIsWholly(v: Json)
    ensures RefersAway(v) <==> IsWholly(v)
  {
    if RefOf(v).Some? && RefOf(v).value != "" { assert RefOf(v).value[..1] == [RefOf(v).value[0]]; }
  }

  lemma StepOnce(spec: bool, u: Json, key: string, value: Json)
    requires u.Object? && Get(u.fields, key) == Some(value) && !IsWholly(u) && (spec || key != "$ref")
    requires Unescape(Escape(key)) == key
    ensures !IsNameKeyed(key, value) && !IsExamplePayload(key) ==> WalkedAs(spec, u, [Escape(key)], SchemaRole)
  {
    hide Get, Escape, Unescape, IsNameKeyed, IsWholly;
    if !IsNameKeyed(key, value) && !IsExamplePayload(key) {
      assert [Escape(key)][1..] == [];
      assert WalkedAs(spec, value, [], SchemaRole);
      assert WalkedField(spec, key, value, [], SchemaRole);
    }
  }

  lemma StepTwice(spec: bool, u: Json, key: string, value: Json, name: string)
    requires u.Object? && Get(u.fields, key) == Some(value) && !IsWholly(u) && (spec || key != "$ref")
    requires Unescape(Escape(key)) == key
    ensures IsNameKeyed(key, value) && Get(value.fields, Unescape(name)).Some? ==>
      WalkedAs(spec, u, [Escape(key), name], SchemaRole)
    ensures key == "examples" && value.Object? ==> WalkedAs(spec, u, [Escape(key), name], ExampleRole)
  {
    assert key == "examples" ==> !IsNameKeyed(key, value);
    hide Get, Escape, Unescape, IsNameKeyed, IsWholly;
    var parts := [Escape(key), name];
    assert parts[1..] == [name] && [name][1..] == [];
    if IsNameKeyed(key, value) && Get(value.fields, Unescape(name)).Some? {
      assert WalkedAs(spec, Get(value.fields, Unescape(name)).value, [], SchemaRole);
      assert WalkedField(spec, key, value, [name], SchemaRole);
    }
    if key == "examples" && value.Object? {
      assert WalkedField(spec, key, value, [name], ExampleRole);
    }
  }

  /** An item of a walked array is walked. */
  lemma WalkReachesItems(spec: bool, v: Json, parts: seq<string>, u: Json, item: string)
    requires WalkedAs(spec, v, parts, SchemaRole) && LookupParts(v, parts) == Some(u)
    requires u.Array? && LookupParts(u, [item]).Some?
    ensures WalkedAs(spec, v, parts + [item], SchemaRole)
  {
    WalkedFromThere(spec, v, parts, u, [item], SchemaRole);
  }

  // ---- What it leaves alone ----

  /** The member key of v, walked as role, is not looked into: all beside a
      reference to another document, and example data. */
  predicate IsLeftAlone(role: Role, v: Json, key: string) {
    || (role.ExampleRole? && key != "$ref")
    || (RefersAway(v) && key != "$ref")
    || key == "example"
    || (key == "examples" && Member(v, key).Some? && !Member(v, key).value.Object?)
  }

  /** v, walked as role, is v2 once inlined: an array as long, an object with
      the same members, the same otherwise; what is not looked into is there
      as it was, and so is an Example Object that does not refer away. */
  ghost predicate Keeps(role: Role, v: Json, v2: Json) {
    && (v.Array? && role.SchemaRole? ==> v2.Array? && |v2.items| == |v.items|)
    && (v.Object? ==> v2.Object? && forall k :: Get(v2.fields, k).Some? <==> Get(v.fields, k).Some?)
    && (!v.Array? && !v.Object? ==> v2 == v)
    && (forall k | Member(v, k).Some? && IsLeftAlone(role, v, k) :: Member(v2, k) == Member(v, k))
    && (role.ExampleRole? && !RefersAway(v) ==> v2 == v)
  }

  lemma InlinedKeeps(w: World, role: Role, v: Json, base: string, names: Names)
    ensures Keeps(role, v, InlineAs(w, role, v, base, names))
  {
    var v2 := InlineAs(w, role, v, base, names);
    AwayIsWholly(v);
    if v.Object? {
      forall k ensures Get(v2.fields, k).Some? <==> Get(v.fields, k).Some? { MemberStays(w, role, v, base, names, k); }
      forall k | Member(v, k).Some? && IsLeftAlone(role, v, k) ensures Member(v2, k) == Member(v, k) {
        DataStays(w, role, v, base, names, k);
      }
    }
  }

  lemma MemberStays(w: World, role: Role, v: Json, base: string, names: Names, k: string)
    requires v.Object?
    ensures InlineAs(w, role, v, base, names).Object?
    ensures Get(InlineAs(w, role, v, base, names).fields, k).Some? <==> Get(v.fields, k).Some?
  {
    hide Inline, InlineExample, Get;
    InlinedShape(w, v, base, names);
    InlinedExampleShape(w, v, base, names);
    ShapeOfMember(v.fields, InlineAs(w, role, v, base, names).fields, k);
  }

  lemma DataStays(w: World, role: Role, v: Json, base: string, names: Names, k: string)
    requires v.Object? && Member(v, k).Some? && IsLeftAlone(role, v, k)
    ensures Member(InlineAs(w, role, v, base, names), k) == Member(v, k)
  {
    hide Get, InlineFields, SetRef, NewRef, RefOf, InlineField;
    var value := Get(v.fields, k).value;
    AwayIsWholly(v);
    if role.ExampleRole? || IsWholly(v) {
      forall ref { SetRefElsewhere(v.fields, ref, k); }
    } else {
      MemberHolds(w, base, names, v, k);
      assert InlineField(w, Field(k, value), base, names).value == value by { DataIsKept(w, k, value, base, names); }
    }
  }

  lemma DataIsKept(w: World, k: string, value: Json, base: string, names: Names)
    requires k == "example" || (k == "examples" && !value.Object?)
    ensures InlineField(w, Field(k, value), base, names) == Field(k, value)
  {}

  /** Anywhere the walk reaches in the spec, a result keeps what was there, but
      for the references resolved. */
  lemma SpecIsKept(r: Run, warnings: seq<Warning>, parts: seq<string>, role: Role, v: Json)
    requires IsResult(r, warnings) && IsOwn(r.root, parts) && WalkedAs(true, r.root, parts, role)
    requires LookupParts(r.root, parts) == Some(v)
    ensures LookupParts(r.out, parts).Some? && Keeps(role, v, LookupParts(r.out, parts).value)
  {
    hide IsResult, LookupParts, WalkedAs, IsOwn, InlineAs, SitesAs, Inline, Sites, Keeps;
    OwnPlaceStays(r, warnings, parts);
    WalkedHolds(r.w, r.w.baseURL, r.names, r.root, parts, role);
    InlinedKeeps(r.w, role, v, r.w.baseURL, r.names);
  }

  /** And so does what is inlined for key keep its target. */
  lemma TargetIsKept(r: Run, warnings: seq<Warning>, key: Key, target: Json, parts: seq<string>, role: Role, v: Json)
    requires IsResult(r, warnings) && key in r.names && (key.role.ExampleRole? || CleanName(r.names[key], warnings))
    requires key.url in r.w.docs && PointerLookup(r.w.docs[key.url], key.fragment) == Some(target)
    requires WalkedInTarget(r.w, key, target, parts, role) && LookupParts(target, parts) == Some(v)
    ensures var after := LookupParts(r.out, PlaceOf(r, key, parts)); after.Some? && Keeps(role, v, after.value)
  {
    hide IsResult, LookupParts, WalkedInTarget, InlineAs, SitesAs, TargetSites, Target, CleanName, PointerLookup,
         PlaceOf, Keeps;
    InlinedPlace(r, warnings, key, target, parts, role);
    InlinedKeeps(r.w, role, v, key.url, r.names);
  }
}
