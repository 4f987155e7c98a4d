/** What inlining does to the places of a spec: the ones a walk reaches stay,
    inlined, and new ones appear only where something was inlined. */
module RefPlaces {
  import opened Base
  import opened JsonModel
  import opened RefNames
  import opened References
  import opened RefResolver
  import opened ExternalRefs
  import opened RefMeaning

  // ---- Inlining keeps the shape of a document ----

  ghost predicate SameShape(a: Json, b: Json) {
    match a
    case Array(items) => b.Array? && |b.items| == |items| && forall i :: 0 <= i < |items| ==>
      SameShape(items[i], b.items[i])
    case Object(fields) => b.Object? && SameFields(fields, b.fields)
    case _ => !b.Array? && !b.Object?
  }

  ghost predicate SameFields(a: seq<Field>, b: seq<Field>) {
    |b| == |a| && forall i :: 0 <= i < |a| ==> b[i].key == a[i].key && SameShape(a[i].value, b[i].value)
  }

  lemma {:induction false} ShapeOfItself(v: Json)
    ensures SameShape(v, v)
  {
    match v
    case Array(items) => forall i | 0 <= i < |items| { ShapeOfItself(items[i]); }
    case Object(fields) => forall i | 0 <= i < |fields| { ShapeOfItself(fields[i].value); }
    case _ =>
  }

  lemma ShapeOfMember(a: seq<Field>, b: seq<Field>, key: string)
    requires SameFields(a, b)
    ensures Get(a, key).Some? <==> Get(b, key).Some?
    ensures Get(a, key).Some? ==> SameShape(Get(a, key).value, Get(b, key).value)
  {
    hide SameShape;
    SameIndex(a, b, key);
  }

  lemma {:induction false} ShapeOfLookup(a: Json, b: Json, parts: seq<string>)
    requires SameShape(a, b)
    ensures LookupParts(a, parts).Some? <==> LookupParts(b, parts).Some?
    decreases |parts|
  {
    if parts != [] {
      var key := Unescape(parts[0]);
      hide Unescape, Get;
      match a
      case Array(items) =>
        if Atoi(key).Some? && 0 <= Atoi(key).value < |items| {
          ShapeOfLookup(items[Atoi(key).value], b.items[Atoi(key).value], parts[1..]);
        }
      case Object(fields) =>
        ShapeOfMember(fields, b.fields, key);
        if Get(fields, key).Some? { ShapeOfLookup(Get(fields, key).value, Get(b.fields, key).value, parts[1..]); }
      case _ =>
    }
  }

  lemma SetRefShape(a: seq<Field>, b: seq<Field>, ref: string)
    requires SameFields(a, b) && RefOf(Object(a)).Some?
    ensures SameFields(a, SetRef(b, ref))
  {
    SameIndex(a, b, "$ref");
    var i := IndexOf(a, "$ref");
    assert a[i].value.String?;
    assert SetRef(b, ref)[i] == Field("$ref", String(ref));
    hide SetRef, IndexOf;
  }

  lemma {:induction false} InlinedShape(w: World, v: Json, base: string, names: Names)
    ensures SameShape(v, Inline(w, v, base, names))
    decreases v, 0
  {
    hide InlineField, NewRef, ResolvesExternally, SetRef;
    match v
    case Array(items) => forall i | 0 <= i < |items| { InlinedShape(w, items[i], base, names); }
    case Object(fields) =>
      var inner := InlineFields(w, fields, base, names);
      forall i | 0 <= i < |fields| { InlinedFieldShape(w, fields[i], base, names); }
      ShapeOfItself(v);
      var site := SchemaSite(w, v, base);
      assert SameFields(fields, inner);
      if site.Some? {
        SetRefShape(fields, fields, NewRef(w, site.value, names));
        SetRefShape(fields, inner, NewRef(w, site.value, names));
      }
      hide SameShape, SchemaSite;
    case _ =>
  }

  lemma {:induction false} InlinedFieldShape(w: World, f: Field, base: string, names: Names)
    ensures InlineField(w, f, base, names).key == f.key
    ensures SameShape(f.value, InlineField(w, f, base, names).value)
    decreases f, 1
  {
    hide Inline, InlineExample;
    ShapeOfItself(f.value);
    if IsNameKeyed(f.key, f.value) {
      forall i | 0 <= i < |f.value.fields| { InlinedShape(w, f.value.fields[i].value, base, names); }
    } else if f.key == "examples" && f.value.Object? {
      forall i | 0 <= i < |f.value.fields| { InlinedExampleShape(w, f.value.fields[i].value, base, names); }
    } else if !IsExamplePayload(f.key) {
      InlinedShape(w, f.value, base, names);
    }
  }

  lemma InlinedExampleShape(w: World, v: Json, base: string, names: Names)
    ensures SameShape(v, InlineExample(w, v, base, names))
  {
    hide NewRef, SetRef;
    ShapeOfItself(v);
    var site := ExampleSite(v, base);
    if site.Some? {
      assert v == Object(v.fields);
      SetRefShape(v.fields, v.fields, NewRef(w, site.value, names));
    }
  }

  // ---- A place the walk reaches holds what it held, inlined ----

  lemma InlinedMember(w: World, fields: seq<Field>, base: string, names: Names, key: string)
    requires Get(fields, key).Some?
    ensures Get(InlineFields(w, fields, base, names), key) ==
            Some(InlineField(w, Field(key, Get(fields, key).value), base, names).value)
  {
    hide InlineField;
    SameIndex(fields, InlineFields(w, fields, base, names), key);
    assert fields[IndexOf(fields, key)] == Field(key, Get(fields, key).value);
  }

  /** The location parts of v, part of the document at base, holds target as role: its
      inlined form is at the same location of v's, and its sites are v's. */
  ghost predicate HoldsInlined(w: World, base: string, names: Names, v: Json, u: Json, sites: set<Site>,
      parts: seq<string>, role: Role) {
    && LookupParts(v, parts).Some?
    && LookupParts(u, parts) == Some(InlineAs(w, role, LookupParts(v, parts).value, base, names))
    && SitesAs(w, role, LookupParts(v, parts).value, base) <= sites
  }

  lemma {:induction false} WalkedHolds(w: World, base: string, names: Names, v: Json, parts: seq<string>, role: Role)
    requires WalkedAs(base == w.baseURL, v, parts, role) && LookupParts(v, parts).Some?
    ensures HoldsInlined(w, base, names, v, Inline(w, v, base, names), Sites(w, v, base), parts, role)
    decreases |parts|, 0
  {
    if parts != [] {
      var key := Unescape(parts[0]);
      hide Unescape, Get, InlineField, FieldSites, WalkedField, InlineAs, SitesAs;
      match v
      case Array(items) =>
        var i := Atoi(key).value;
        WalkedHolds(w, base, names, items[i], parts[1..], role);
        assert Sites(w, items[i], base) <= Sites(w, v, base);
      case Object(fields) =>
        var value := Get(fields, key).value;
        MemberHolds(w, base, names, v, key);
        LookupInMember(v, parts, key);
        LookupInMember(Inline(w, v, base, names), parts, key);
        hide LookupParts, Inline, Sites;
        WalkedFieldHolds(w, base, names, key, value, parts[1..], role);
        MemberSites(w, base, v, key);
    }
  }

  /** Inlining an object inlines its members, but for the text of its own
      reference. */
  lemma MemberHolds(w: World, base: string, names: Names, v: Json, key: string)
    requires v.Object? && Get(v.fields, key).Some? && !IsWholly(v) && (base == w.baseURL || key != "$ref")
    ensures Inline(w, v, base, names).Object?
    ensures Get(Inline(w, v, base, names).fields, key) ==
      Some(InlineField(w, Field(key, Get(v.fields, key).value), base, names).value)
  {
    hide Get, InlineFields, InlineField, SetRef, NewRef, RefOf, IsLocal;
    InlinedMember(w, v.fields, base, names, key);
    var site := SchemaSite(w, v, base);
    if site.Some? {
      SetRefElsewhere(InlineFields(w, v.fields, base, names), NewRef(w, site.value, names), key);
    }
  }

  lemma SetRefElsewhere(fields: seq<Field>, ref: string, key: string)
    ensures key != "$ref" ==> Get(SetRef(fields, ref), key) == Get(fields, key)
  {
    var i, j, r := IndexOf(fields, "$ref"), IndexOf(fields, key), SetRef(fields, ref);
    if key != "$ref" && j < |fields| { IndexIsFirst(r, key, j); }
  }

  lemma MemberSites(w: World, base: string, v: Json, key: string)
    requires v.Object? && Get(v.fields, key).Some? && !IsWholly(v)
    ensures FieldSites(w, Field(key, Get(v.fields, key).value), base) <= Sites(w, v, base)
    ensures Inline(w, v, base, map[]).Object?
  {
    hide FieldSites, InlineFields;
    assert v.fields[IndexOf(v.fields, key)] == Field(key, Get(v.fields, key).value);
  }

  lemma {:induction false} WalkedFieldHolds(w: World, base: string, names: Names, key: string, value: Json,
      parts: seq<string>, role: Role)
    requires WalkedField(base == w.baseURL, key, value, parts, role) && LookupParts(value, parts).Some?
    ensures var f := Field(key, value);
      HoldsInlined(w, base, names, value, InlineField(w, f, base, names).value, FieldSites(w, f, base), parts, role)
    decreases |parts|, 1
  {
    hide Inline, InlineExample, Sites, WalkedAs;
    if IsNameKeyed(key, value) {
      var name := Unescape(parts[0]);
      var member := Get(value.fields, name).value;
      WalkedHolds(w, base, names, member, parts[1..], role);
      InlinedNamed(w, value.fields, base, names, name);
    } else if key == "examples" && value.Object? {
      EntryHolds(w, base, names, key, value, parts);
    } else {
      WalkedHolds(w, base, names, value, parts, role);
    }
  }

  lemma EntryHolds(w: World, base: string, names: Names, key: string, value: Json, parts: seq<string>)
    requires key == "examples" && value.Object? && |parts| == 1 && LookupParts(value, parts).Some?
    ensures var f := Field(key, value);
      HoldsInlined(w, base, names, value, InlineField(w, f, base, names).value, FieldSites(w, f, base), parts,
        ExampleRole)
  {
    hide Inline, InlineExample, Sites, Get, ExampleSite;
    var entries, name := value.fields, Unescape(parts[0]);
    var u := Object(InlineExamples(w, entries, base, names));
    assert key !in NAME_KEYED_MAPS;
    assert InlineField(w, Field(key, value), base, names).value == u;
    hide NAME_KEYED_MAPS;
    assert parts[1..] == [];
    assert LookupParts(value, parts) == Get(entries, name);
    InlinedEntry(w, entries, base, names, name);
    var i :| 0 <= i < |entries| && entries[i].value == Get(entries, name).value;
    assert ExampleSite(entries[i].value, base).Some? ==>
        ExampleSite(entries[i].value, base).value in FieldSites(w, Field(key, value), base);
    assert LookupParts(u, parts) == Get(u.fields, name);
  }

  lemma InlinedNamed(w: World, members: seq<Field>, base: string, names: Names, name: string)
    requires Get(members, name).Some?
    ensures Get(InlineMembers(w, members, base, names), name) == Some(Inline(w, Get(members, name).value, base, names))
    ensures exists i :: 0 <= i < |members| && members[i].value == Get(members, name).value
  {
    hide Inline;
    SameIndex(members, InlineMembers(w, members, base, names), name);
  }

  lemma InlinedEntry(w: World, entries: seq<Field>, base: string, names: Names, name: string)
    requires Get(entries, name).Some?
    ensures Get(InlineExamples(w, entries, base, names), name) ==
      Some(InlineExample(w, Get(entries, name).value, base, names))
    ensures exists i :: 0 <= i < |entries| && entries[i].value == Get(entries, name).value
  {
    hide InlineExample;
    SameIndex(entries, InlineExamples(w, entries, base, names), name);
  }

  // ---- Lookups under components ----

  const COMPONENTS := "components"

  lemma ComponentLookup(v: Json, parts: seq<string>)
    requires v.Object? && |parts| >= 2 && Unescape(parts[0]) == COMPONENTS && IsObject(Member(v, COMPONENTS))
    ensures LookupParts(v, parts) ==
            match Component(v, Unescape(parts[1])) case Some(next) => LookupParts(next, parts[2..]) case None => None
  {
    hide Unescape, Get;
    var components := Member(v, COMPONENTS).value;
    LookupInMember(v, parts, COMPONENTS);
    LookupInMember(components, parts[1..], Unescape(parts[1]));
    assert parts[1..][1..] == parts[2..];
    hide LookupParts;
  }

  lemma KindLookup(v: Json, parts: seq<string>, kind: string)
    requires v.Object? && |parts| >= 3 && Unescape(parts[0]) == COMPONENTS && Unescape(parts[1]) == kind
    requires IsObject(Component(v, kind))
    ensures LookupParts(v, parts) ==
            match Get(ComponentsOf(v, kind), Unescape(parts[2])) case Some(next) => LookupParts(next, parts[3..])
              case None => None
  {
    hide Unescape, Get, LookupParts;
    ComponentLookup(v, parts);
    var next := Component(v, kind).value;
    LookupInMember(next, parts[2..], Unescape(parts[2]));
    assert parts[2..][1..] == parts[3..];
  }

  /** A component's kind that holds something is an object. */
  lemma HoldersAreObjects(v: Json, kind: string, name: string)
    ensures Component(v, kind).Some? ==> IsObject(Member(v, COMPONENTS))
    ensures Get(ComponentsOf(v, kind), name).Some? ==> IsObject(Component(v, kind))
  {
    hide IndexOf;
  }

  /** What the spec and its inlined form have in common under components. */
  lemma ShapeOfComponents(a: Json, b: Json, kind: string, name: string)
    requires a.Object? && SameShape(a, b)
    ensures b.Object? && (IsObject(Member(a, COMPONENTS)) <==> IsObject(Member(b, COMPONENTS)))
    ensures IsObject(Component(a, kind)) <==> IsObject(Component(b, kind))
    ensures Get(ComponentsOf(a, kind), name).Some? <==> Get(ComponentsOf(b, kind), name).Some?
  {
    ShapeOfObject(a, b, COMPONENTS);
    hide Get, SameShape;
    if IsObject(Member(a, COMPONENTS)) {
      var x, y := Member(a, COMPONENTS).value, Member(b, COMPONENTS).value;
      ShapeOfObject(x, y, kind);
      if IsObject(Component(a, kind)) {
        ShapeOfObject(Component(a, kind).value, Component(b, kind).value, name);
      }
    }
    NothingIn(name);
  }

  lemma ShapeOfObject(a: Json, b: Json, key: string)
    requires a.Object? && SameShape(a, b)
    ensures b.Object? && (Get(a.fields, key).Some? <==> Get(b.fields, key).Some?)
    ensures IsObject(Get(a.fields, key)) <==> IsObject(Get(b.fields, key))
    ensures Get(a.fields, key).Some? ==> SameShape(Get(a.fields, key).value, Get(b.fields, key).value)
  {
    ShapeOfMember(a.fields, b.fields, key);
    hide Get;
  }

  lemma NothingIn(name: string)
    ensures Get([], name).None?
  {}

  // ---- What a resolution adds and what it keeps ----

  function Walked(r: Run): Json {
    Inline(r.w, r.root, r.w.baseURL, r.names)
  }

  /** components.kind of the inlined document, for the kind of role. */
  lemma KindAfter(r: Run, warnings: seq<Warning>, role: Role, name: string)
    requires IsResult(r, warnings)
    ensures var kind := Kind(role);
      && (Get(ComponentsOf(r.root, kind), name).Some? ==>
            Get(ComponentsOf(r.out, kind), name) == Get(ComponentsOf(Walked(r), kind), name))
      && (Get(ComponentsOf(r.out, kind), name).Some? && Get(ComponentsOf(r.root, kind), name).None? ==>
            exists key :: key in r.names && key.role == role && r.names[key] == name)
      && (if AnyNamed(r.names, role) then IsObject(Component(r.out, kind))
          else Component(r.out, kind) == Component(Walked(r), kind))
  {
    hide Inline, BodiesIn, CollisionsReported, NothingLeft, ExampleNamesGiven, SchemaNamesOk, NoCollision, ComponentsOf,
         Component, Get, SameShape;
    InlinedShape(r.w, r.root, r.w.baseURL, r.names);
    ShapeOfComponents(r.root, Walked(r), Kind(role), name);
    match role case SchemaRole => case ExampleRole =>
  }

  /** Everything else of the inlined document. */
  lemma RestAfter(r: Run, warnings: seq<Warning>, key: string)
    requires IsResult(r, warnings)
    ensures key != COMPONENTS ==> Member(r.out, key) == Member(Walked(r), key)
    ensures (forall role :: key != Kind(role)) ==> Component(r.out, key) == Component(Walked(r), key)
    ensures r.names != map[] ==> IsObject(Member(r.out, COMPONENTS))
    ensures r.names == map[] ==> r.out == Walked(r)
  {
    hide Inline, BodiesIn, CollisionsReported, NothingLeft, ExampleNamesGiven, SchemaNamesOk, NoCollision, ComponentsOf,
         Component, Get, Member;
    assert Kind(SchemaRole) == "schemas" && Kind(ExampleRole) == "examples";
    if r.names != map[] {
      var k :| k in r.names;
      assert AnyNamed(r.names, k.role);
      match k.role case SchemaRole => case ExampleRole =>
    }
  }

  /** Where the spec keeps its own, the inlined document holds what the walk
      left there. */
  lemma OwnPlaceStays(r: Run, warnings: seq<Warning>, parts: seq<string>)
    requires IsResult(r, warnings) && IsOwn(r.root, parts) && LookupParts(r.root, parts).Some?
    ensures LookupParts(r.out, parts) == LookupParts(Walked(r), parts)
  {
    hide IsResult, NoCollision, Inline, LookupParts, Unescape, Get, Component, ComponentsOf, SameShape, Kind;
    var walked, first := Walked(r), Unescape(parts[0]);
    InlinedShape(r.w, r.root, r.w.baseURL, r.names);
    RootsAreObjects(r, warnings);
    ShapeOfComponents(r.root, walked, "", "");
    RestAfter(r, warnings, first);
    if first != COMPONENTS {
      LookupInMember(r.out, parts, first);
      LookupInMember(walked, parts, first);
    } else if r.names != map[] {
      OwnComponentStays(r, warnings, parts);
    }
  }

  lemma RootsAreObjects(r: Run, warnings: seq<Warning>)
    requires IsResult(r, warnings)
    ensures r.root.Object? && r.out.Object?
  {}

  lemma OwnComponentStays(r: Run, warnings: seq<Warning>, parts: seq<string>)
    requires IsResult(r, warnings) && IsOwn(r.root, parts) && LookupParts(r.root, parts).Some?
    requires Unescape(parts[0]) == COMPONENTS && r.names != map[]
    ensures LookupParts(r.out, parts) == LookupParts(Walked(r), parts)
  {
    hide IsResult, NoCollision, Inline, LookupParts, Unescape, Get, Component, ComponentsOf, SameShape, Kind;
    var walked, second := Walked(r), Unescape(parts[1]);
    InlinedShape(r.w, r.root, r.w.baseURL, r.names);
    RootsAreObjects(r, warnings);
    ShapeOfComponents(r.root, walked, second, if |parts| > 2 then Unescape(parts[2]) else "");
    RestAfter(r, warnings, second);
    if forall role :: second != Kind(role) {
      ComponentLookup(r.out, parts);
      ComponentLookup(walked, parts);
    } else {
      var role :| second == Kind(role);
      KindAfter(r, warnings, role, Unescape(parts[2]));
      if AnyNamed(r.names, role) {
        KindLookup(r.root, parts, second);
        KindLookup(r.out, parts, second);
        KindLookup(walked, parts, second);
      } else {
        ComponentLookup(r.out, parts);
        ComponentLookup(walked, parts);
      }
    }
  }

  /** A place that is new leads to, into, or to what holds something inlined. */
  lemma NewPlaceTouches(r: Run, warnings: seq<Warning>, parts: seq<string>)
    requires IsResult(r, warnings)
    requires LookupParts(r.root, parts).None? && LookupParts(r.out, parts).Some?
    ensures exists key :: key in r.names && Touches(parts, Kind(key.role), r.names[key])
  {
    hide IsResult, NoCollision, Inline, Unescape, Get, Component, ComponentsOf, SameShape, Kind, Touches;
    var walked := Walked(r);
    InlinedShape(r.w, r.root, r.w.baseURL, r.names);
    ShapeOfLookup(r.root, walked, parts);
    assert parts != [];
    hide LookupParts;
    RootsAreObjects(r, warnings);
    ShapeOfComponents(r.root, walked, "", "");
    var first := Unescape(parts[0]);
    RestAfter(r, warnings, first);
    if first != COMPONENTS {
      LookupInMember(r.out, parts, first);
      LookupInMember(walked, parts, first);
    } else if r.names != map[] {
      NewComponentTouches(r, warnings, parts);
    }
  }

  lemma NewComponentTouches(r: Run, warnings: seq<Warning>, parts: seq<string>)
    requires IsResult(r, warnings) && r.names != map[]
    requires LookupParts(Walked(r), parts).None? && LookupParts(r.out, parts).Some?
    requires parts != [] && Unescape(parts[0]) == COMPONENTS
    ensures exists key :: key in r.names && Touches(parts, Kind(key.role), r.names[key])
  {
    hide IsResult, NoCollision, Inline, LookupParts, Unescape, Get, Component, ComponentsOf, SameShape, Kind;
    var walked := Walked(r);
    if |parts| == 1 {
      var key :| key in r.names;
      assert Touches(parts, Kind(key.role), r.names[key]);
      return;
    }
    var second, third := Unescape(parts[1]), if |parts| > 2 then Unescape(parts[2]) else "";
    InlinedShape(r.w, r.root, r.w.baseURL, r.names);
    RootsAreObjects(r, warnings);
    ShapeOfComponents(r.root, walked, second, third);
    RestAfter(r, warnings, second);
    ComponentLookup(r.out, parts);
    HoldersAreObjects(walked, second, third);
    if IsObject(Member(walked, COMPONENTS)) { ComponentLookup(walked, parts); }
    if role: Role :| second == Kind(role) && AnyNamed(r.names, role) {
      KindAfter(r, warnings, role, third);
      if |parts| == 2 {
        var key :| key in r.names && key.role == role;
        assert Touches(parts, Kind(key.role), r.names[key]);
      } else {
        KindLookup(r.out, parts, second);
        if Get(ComponentsOf(r.root, second), third).Some? { KindLookup(walked, parts, second); }
        var key :| key in r.names && key.role == role && r.names[key] == third;
        assert Touches(parts, Kind(key.role), r.names[key]);
      }
    } else {
      SomeKind(r, warnings, second);
    }
  }

  /** A kind without inlined names is as the walk left it. */
  lemma SomeKind(r: Run, warnings: seq<Warning>, kind: string)
    requires IsResult(r, warnings) && forall role :: kind == Kind(role) ==> !AnyNamed(r.names, role)
    ensures Component(r.out, kind) == Component(Walked(r), kind)
  {
    hide IsResult, NoCollision, Inline, Kind, Component;
    RestAfter(r, warnings, kind);
    if role: Role :| kind == Kind(role) { KindAfter(r, warnings, role, ""); }
  }

  // ---- What can change the meaning of a spec ----

  /** Every local reference of the spec that leads somewhere leads to something
      of its role that the spec keeps. */
  ghost predicate LeadsToItsOwn(w: World, root: Json) {
    AllPass(LeadsToWalked, Run(w, root, map[], root))
  }

  /** And none that dangles points to, into, or at what holds a name that may
      be given: the sanitized name of a reachable key, or one of its numbered
      variants for an Example Object. */
  ghost predicate KeepsClearOfNames(w: World, root: Json) {
    AllPass(KeepsClear, Run(w, root, map[], root))
  }

  /** The body of a name is found where its pointer leads. */
  lemma BodyAfter(r: Run, warnings: seq<Warning>, key: Key)
    requires IsClean(r, warnings) && key in r.names
    ensures Target(r.w, key).Some?
    ensures Get(ComponentsOf(r.out, Kind(key.role)), r.names[key]) == Some(InlineTarget(r.w, key, r.names))
  {
    hide Inline, InlineTarget, RestKept, PlacesKept, CollisionsReported, NothingLeft, Reach, ComponentsOf, Get;
    assert CleanName(r.names[key], warnings);
  }

  lemma InlinedTargetShape(w: World, key: Key, names: Names)
    requires Target(w, key).Some?
    ensures SameShape(Target(w, key).value, InlineTarget(w, key, names))
  {
    hide Inline, InlineExample, SameShape;
    InlinedShape(w, Target(w, key).value, key.url, names);
    InlinedExampleShape(w, Target(w, key).value, key.url, names);
  }

  /** A pointer leads into something inlined exactly when it leads into what
      that was in its own document. */
  lemma LookupInBody(r: Run, warnings: seq<Warning>, key: Key, parts: seq<string>)
    requires IsClean(r, warnings) && key in r.names && |parts| >= 3 && Touches(parts, Kind(key.role), r.names[key])
    ensures Target(r.w, key).Some?
    ensures LookupParts(r.out, parts).Some? <==> LookupParts(Target(r.w, key).value, parts[3..]).Some?
  {
    hide IsResult, NoCollision, Inline, InlineTarget, Target, LookupParts, Unescape, Get, Component, ComponentsOf,
         SameShape, Kind;
    RootsAreObjects(r, warnings);
    BodyAfter(r, warnings, key);
    HoldersAreObjects(r.out, Kind(key.role), r.names[key]);
    KindLookup(r.out, parts, Kind(key.role));
    InlinedTargetShape(r.w, key, r.names);
    ShapeOfLookup(Target(r.w, key).value, InlineTarget(r.w, key, r.names), parts[3..]);
  }

  /** What holds something inlined is there. */
  lemma HolderAfter(r: Run, warnings: seq<Warning>, key: Key, parts: seq<string>)
    requires IsResult(r, warnings) && key in r.names && 0 < |parts| < 3 && Touches(parts, Kind(key.role), r.names[key])
    ensures LookupParts(r.out, parts).Some?
  {
    hide IsResult, NoCollision, Inline, Unescape, Get, Component, ComponentsOf, SameShape, Kind;
    RootsAreObjects(r, warnings);
    RestAfter(r, warnings, COMPONENTS);
    KindAfter(r, warnings, key.role, "");
    assert AnyNamed(r.names, key.role);
    if |parts| == 1 {
      LookupInMember(r.out, parts, COMPONENTS);
    } else {
      ComponentLookup(r.out, parts);
    }
  }

  /** A dangling reference comes to lead somewhere exactly when it is captured
      by something inlined. */
  lemma MovedIfCaptured(r: Run, warnings: seq<Warning>, site: Site)
    requires IsClean(r, warnings) && IsLeft(r.w, site) && PointerLookup(r.root, site.ref[1..]).None?
    ensures Moved(r, site) <==> Captures(r.w, r.names, site)
  {
    var parts := PointerParts(site.ref[1..]);
    assert parts != [];
    hide IsResult, NoCollision, LookupParts, PointerParts, Target, Touches, Kind;
    forall key | key in r.names && Touches(parts, Kind(key.role), r.names[key])
      ensures LookupParts(r.out, parts).Some? <==> Covers(r.w, key, r.names[key], parts)
    {
      if |parts| < 3 { HolderAfter(r, warnings, key, parts); } else { LookupInBody(r, warnings, key, parts); }
      if |parts| == 3 { assert parts[3..] == []; WholeLookup(r.w, key); }
    }
    if LookupParts(r.out, parts).Some? { NewPlaceTouches(r, warnings, parts); }
  }

  lemma WholeLookup(w: World, key: Key)
    ensures Target(w, key).Some? ==> LookupParts(Target(w, key).value, []).Some?
  {}

  /** A dangling reference is captured only at, in, or above an inlined name. */
  lemma CapturedBesideAName(r: Run, warnings: seq<Warning>, site: Site)
    requires IsClean(r, warnings) && IsLeft(r.w, site)
    requires PointerLookup(r.root, site.ref[1..]).None? && PointerLookup(r.out, site.ref[1..]).Some?
    ensures exists key :: key in r.names && Touches(PointerParts(site.ref[1..]), Kind(key.role), r.names[key])
  {
    NewPlaceTouches(r, warnings, PointerParts(site.ref[1..]));
  }

  /** A reference to something of its role that the spec keeps leads, in the
      inlined document, to the inlined form of that. */
  lemma WalkedStays(r: Run, warnings: seq<Warning>, site: Site)
    requires IsClean(r, warnings) && IsLeft(r.w, site)
    requires PointerLookup(r.root, site.ref[1..]).Some? && IsWalked(r.w, r.root, site)
    ensures !Moved(r, site) && InPlace(r, site)
  {
    hide IsResult, NoCollision, LookupParts, PointerParts, WalkedAs, IsOwn, InlineAs, SitesAs, Inline, Sites;
    var parts := PointerParts(site.ref[1..]);
    OwnPlaceStays(r, warnings, parts);
    WalkedHolds(r.w, r.w.baseURL, r.names, r.root, parts, site.role);
    FaithfulAnswers(r, warnings);
  }

  lemma NamesMayBeGiven(r: Run, warnings: seq<Warning>, key: Key)
    requires IsClean(r, warnings) && key in r.names
    ensures key in NamedKeys(r.w, r.root) && MayBeNamed(r.w, key, r.names[key])
  {
    hide RestKept, PlacesKept, BodiesIn, CollisionsReported, NothingLeft, NoCollision, SchemaName, NamedKeys;
    if key.role.ExampleRole? {
      var taken :| ExampleNamesOk(NamesIn(ComponentsOf(r.root, "examples")), taken, r.names) &&
        FirstNamesOk(r.w, taken, r.names);
      assert FirstFree(SchemaName(r.w, key), r.names[key], taken);
    }
  }

  lemma ClearStays(r: Run, warnings: seq<Warning>, site: Site)
    requires IsClean(r, warnings) && Passes(KeepsClear, r, site)
    ensures Passes(StaysPut, r, site) && Passes(LeadsInPlace, r, site)
  {
    hide IsResult, NoCollision, PointerLookup, PointerParts, IsWalked, Touches, MayBeNamed, InlineAs, SitesAs;
    if IsLeft(r.w, site) {
      if PointerLookup(r.root, site.ref[1..]).Some? {
        WalkedStays(r, warnings, site);
      } else if PointerLookup(r.out, site.ref[1..]).Some? {
        CapturedBesideAName(r, warnings, site);
        var key :| key in r.names && Touches(PointerParts(site.ref[1..]), Kind(key.role), r.names[key]);
        NamesMayBeGiven(r, warnings, key);
      }
    }
  }

  lemma WalkedLeadsInPlace(r: Run, warnings: seq<Warning>, site: Site)
    requires IsClean(r, warnings) && Passes(LeadsToWalked, r, site)
    ensures Passes(LeadsInPlace, r, site)
  {
    hide IsResult, NoCollision, PointerLookup, IsWalked, InlineAs, SitesAs;
    if IsLeft(r.w, site) && PointerLookup(r.root, site.ref[1..]).Some? { WalkedStays(r, warnings, site); }
  }

  lemma StaysUnlessCaptured(r: Run, warnings: seq<Warning>, site: Site)
    requires IsClean(r, warnings)
    ensures Passes(StaysPut, r, site) ==> Passes(NotCaptured, r, site)
    ensures Passes(LeadsToWalked, r, site) && Passes(NotCaptured, r, site) ==> Passes(StaysPut, r, site)
  {
    hide IsResult, NoCollision, PointerLookup, IsWalked, Captures, InPlace;
    if IsLeft(r.w, site) {
      if PointerLookup(r.root, site.ref[1..]).None? {
        MovedIfCaptured(r, warnings, site);
      } else if IsWalked(r.w, r.root, site) {
        WalkedStays(r, warnings, site);
      }
    }
  }

  /** For a spec whose local references lead to its own, or nowhere: inlining
      without a clash of names keeps its meaning exactly when none that dangles
      points to, into, or at what holds something inlined. */
  lemma OnlyCapturesChangeMeaning(r: Run, warnings: seq<Warning>)
    requires IsClean(r, warnings) && LeadsToItsOwn(r.w, r.root)
    ensures AllSame(r, r.root, r.w.baseURL) <==> AllPass(NotCaptured, r)
  {
    hide IsResult, NoCollision, Passes, AllPass, AllSame;
    var spec := Run(r.w, r.root, map[], r.root);
    forall site
      ensures Passes(LeadsToWalked, spec, site) == Passes(LeadsToWalked, r, site)
      ensures Passes(LeadsToWalked, spec, site) ==> Passes(LeadsInPlace, r, site)
      ensures Passes(StaysPut, r, site) ==> Passes(NotCaptured, r, site)
      ensures Passes(LeadsToWalked, r, site) && Passes(NotCaptured, r, site) ==> Passes(StaysPut, r, site)
    {
      SameCheck(LeadsToWalked, spec, r, site);
      if Passes(LeadsToWalked, spec, site) { WalkedLeadsInPlace(r, warnings, site); }
      StaysUnlessCaptured(r, warnings, site);
    }
    AllPassImplies(LeadsToWalked, LeadsToWalked, spec, LeadsToWalked, r);
    AllPassImplies(LeadsToWalked, LeadsToWalked, spec, LeadsInPlace, r);
    InliningKeepsMeaning(r, warnings);
    if AllPass(StaysPut, r) { AllPassImplies(StaysPut, StaysPut, r, NotCaptured, r); }
    if AllPass(NotCaptured, r) { AllPassImplies(LeadsToWalked, NotCaptured, r, StaysPut, r); }
  }

  /** The checks of the spec alone do not depend on what resolution gave. */
  lemma SameCheck(c: Check, r: Run, t: Run, site: Site)
    requires c.LeadsToWalked? || c.KeepsClear?
    requires r.w == t.w && r.root == t.root
    ensures Passes(c, r, site) == Passes(c, t, site)
  {}

  /** A check of the spec and its documents alone: when it passes, inlining
      without a clash of names keeps the meaning. */
  lemma InliningIsFaithful(r: Run, warnings: seq<Warning>)
    requires IsClean(r, warnings) && KeepsClearOfNames(r.w, r.root)
    ensures AllSame(r, r.root, r.w.baseURL)
  {
    hide IsResult, NoCollision, Passes, AllPass, AllSame;
    var spec := Run(r.w, r.root, map[], r.root);
    forall site | Passes(KeepsClear, spec, site) ensures Passes(StaysPut, r, site) && Passes(LeadsInPlace, r, site) {
      SameCheck(KeepsClear, spec, r, site);
      ClearStays(r, warnings, site);
    }
    AllPassImplies(KeepsClear, KeepsClear, spec, LeadsInPlace, r);
    AllPassImplies(KeepsClear, KeepsClear, spec, StaysPut, r);
    InliningKeepsMeaning(r, warnings);
  }
}
