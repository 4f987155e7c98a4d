/** What becomes of each reference, said of its text, of the document it is
    written in and of the documents alone. */
module RefTargets {
  import opened Base
  import opened JsonModel
  import opened RefNames
  import opened References
  import opened RefResolver
  import opened ExternalRefs
  import opened RefMeaning
  import opened RefPlaces

  // ---- The place a reference names ----

  /** ref, written in the document at base, names the place fragment of the
      document at url: of its own document when it starts with '#', otherwise of
      the one its URL leads to from base. */
  ghost predicate Denotes(w: World, ref: string, base: string, url: string, fragment: string) {
    || (ref == "#" + fragment && url == base)
    || exists u | w.absolutize(u, base) == Some(url) ::
         u != "" && '#' !in u && (ref == u + "#" + fragment || (ref == u && fragment == ""))
  }

  lemma {:induction false} HashIsFirst(u: string, rest: string)
    requires '#' !in u
    ensures HashIndex(u) == |u| && HashIndex(u + "#" + rest) == |u|
  {
    if u != "" {
      HashIsFirst(u[1..], rest);
      assert (u + "#" + rest)[1..] == u[1..] + "#" + rest;
    }
  }

  /** The key of a reference is the place it names. */
  lemma KeyIsDenoted(w: World, site: Site, url: string, fragment: string)
    requires site.ref != ""
    ensures KeyOf(w, site) == Some(Key(site.role, url, fragment)) <==> Denotes(w, site.ref, site.base, url, fragment)
  {
    var ref, i := site.ref, HashIndex(site.ref);
    var u := ref[..i];
    assert '#' !in u;
    if i < |ref| { assert ref == u + "#" + ref[i + 1..]; } else { assert ref == u; }
    if KeyOf(w, site) == Some(Key(site.role, url, fragment)) && i > 0 {
      assert w.absolutize(u, site.base) == Some(url);
    }
    if ref == "#" + fragment && url == site.base {
      assert i == 0 && ref[1..] == fragment;
    }
    forall v | w.absolutize(v, site.base) == Some(url) && v != "" && '#' !in v &&
      (ref == v + "#" + fragment || (ref == v && fragment == ""))
      ensures KeyOf(w, site) == Some(Key(site.role, url, fragment))
    {
      HashIsFirst(v, fragment);
      if ref == v + "#" + fragment { assert ref[|v| + 1..] == fragment && ref[..|v|] == v; }
      if ref == v { assert ref[..|v|] == v; }
    }
  }

  /** A reference of this text and role, in the document at base, is followed
      to fragment of the document at url. Local references are followed outside
      the spec only, in schema position, and not to the whole document. */
  ghost predicate LeadsTo(w: World, role: Role, ref: string, base: string, url: string, fragment: string) {
    && Denotes(w, ref, base, url, fragment)
    && w.online && url in w.docs && PointerLookup(w.docs[url], fragment).Some?
    && if ref != "" && ref[0] == '#' then role.SchemaRole? && base != w.baseURL && "#/" <= ref else ref != ""
  }

  // ---- One reference object ----

  /** The text of a reference once inlined: the local pointer to what was
      inlined for the place it leads to, and its own text when it leads
      nowhere. */
  ghost predicate Becomes(r: Run, role: Role, ref: string, base: string, text: string) {
    && (forall url, f | LeadsTo(r.w, role, ref, base, url, f) ::
          Key(role, url, f) in r.names && text == "#/components/" + Kind(role) + "/" + r.names[Key(role, url, f)])
    && ((forall url, f :: !LeadsTo(r.w, role, ref, base, url, f)) ==> text == ref)
  }

  /** The reference object v, of role, in the document at base. */
  lemma InlinedRefBecomes(r: Run, role: Role, v: Json, base: string)
    requires RefOf(v).Some? && HaveTargets(r.w, r.names) && AllNamed(r, SitesAs(r.w, role, v, base))
    ensures RefOf(InlineAs(r.w, role, v, base, r.names)).Some?
    ensures Becomes(r, role, RefOf(v).value, base, RefOf(InlineAs(r.w, role, v, base, r.names)).value)
  {
    var ref := RefOf(v).value;
    var site := Site(role, ref, base);
    var isSite := if role.SchemaRole? then ResolvesExternally(r.w, ref, base) else ref != "" && !IsLocal(ref);
    TextOfRef(r.w, role, v, base, r.names);
    if ref != "" && ref[0] == '#' { assert ref[..1] == "#"; }
    assert IsLocal(ref) <==> ref != "" && ref[0] == '#';
    if isSite {
      assert site in SitesAs(r.w, role, v, base) by { OwnSite(r.w, role, v, base); }
      SiteBecomes(r, site);
    }
  }

  /** A reference that is resolved is one of the sites of its object. */
  lemma OwnSite(w: World, role: Role, v: Json, base: string)
    requires RefOf(v).Some?
    requires if role.SchemaRole? then ResolvesExternally(w, RefOf(v).value, base)
             else RefOf(v).value != "" && !IsLocal(RefOf(v).value)
    ensures Site(role, RefOf(v).value, base) in SitesAs(w, role, v, base)
  {
    hide FieldSites, ResolvesExternally, RefOf;
    assert RefOf(v).Some? ==> v.Object? by { RefsAreInObjects(v); }
  }

  lemma RefsAreInObjects(v: Json)
    ensures RefOf(v).Some? ==> v.Object?
  {}

  /** What becomes of the text of a reference object. */
  lemma TextOfRef(w: World, role: Role, v: Json, base: string, names: Names)
    requires RefOf(v).Some?
    ensures var ref := RefOf(v).value;
      var isSite := if role.SchemaRole? then ResolvesExternally(w, ref, base) else ref != "" && !IsLocal(ref);
      RefOf(InlineAs(w, role, v, base, names)) == Some(if isSite then NewRef(w, Site(role, ref, base), names) else ref)
  {
    hide RefOf, InlineFields, SetRef, NewRef, ResolvesExternally, IsLocal;
    var ref := RefOf(v).value;
    RefsAreInObjects(v);
    assert v == Object(v.fields);
    InlinedFieldsKeepRef(w, v.fields, base, names);
    RefAfterSet(v.fields, NewRef(w, Site(role, ref, base), names));
    RefAfterSet(InlineFields(w, v.fields, base, names), NewRef(w, Site(role, ref, base), names));
  }

  lemma RefAfterSet(fields: seq<Field>, ref: string)
    requires RefOf(Object(fields)).Some?
    ensures RefOf(Object(SetRef(fields, ref))) == Some(ref)
  {
    var i := IndexOf(fields, "$ref");
    IndexIsFirst(SetRef(fields, ref), "$ref", i);
  }

  lemma InlinedFieldsKeepRef(w: World, fields: seq<Field>, base: string, names: Names)
    requires RefOf(Object(fields)).Some?
    ensures RefOf(Object(InlineFields(w, fields, base, names))) == RefOf(Object(fields))
  {
    hide InlineField;
    InlinedMember(w, fields, base, names, "$ref");
    TextStays(w, RefOf(Object(fields)).value, base, names);
  }

  lemma TextStays(w: World, text: string, base: string, names: Names)
    ensures InlineField(w, Field("$ref", String(text)), base, names) == Field("$ref", String(text))
  {
    assert !IsExamplePayload("$ref");
  }

  lemma SiteBecomes(r: Run, site: Site)
    requires site.ref != "" && Named(r.w, site, r.names) && HaveTargets(r.w, r.names)
    requires if IsLocal(site.ref) then site.role.SchemaRole? && site.base != r.w.baseURL && HasPrefix(site.ref, "#/")
             else true
    ensures Becomes(r, site.role, site.ref, site.base, NewRef(r.w, site, r.names))
  {
    hide LeadsTo, KeyOf, Target, ComponentsPath, Kind;
    PathText(site.role);
    forall url, f ensures LeadsTo(r.w, site.role, site.ref, site.base, url, f) <==>
      KeyOf(r.w, site) == Some(Key(site.role, url, f)) && Target(r.w, Key(site.role, url, f)).Some?
    {
      LeadsToTheTarget(r.w, site, url, f);
    }
    if KeyOf(r.w, site).Some? {
      var key := KeyOf(r.w, site).value;
      assert key.role == site.role by { KeyHasTheRole(r.w, site); }
      if Target(r.w, key).Some? { assert LeadsTo(r.w, site.role, site.ref, site.base, key.url, key.fragment); }
    }
  }

  lemma KeyHasTheRole(w: World, site: Site)
    ensures KeyOf(w, site).Some? ==> KeyOf(w, site).value.role == site.role
  {}

  lemma PathText(role: Role)
    ensures forall name :: ComponentsPath(role) + name == "#/components/" + Kind(role) + "/" + name
  {
    hide Kind;
    assert "#/" + "components" + "/" == "#/components/";
  }

  lemma LeadsToTheTarget(w: World, site: Site, url: string, f: string)
    requires site.ref != ""
    requires if IsLocal(site.ref) then site.role.SchemaRole? && site.base != w.baseURL && HasPrefix(site.ref, "#/")
             else true
    ensures LeadsTo(w, site.role, site.ref, site.base, url, f) <==>
      KeyOf(w, site) == Some(Key(site.role, url, f)) && Target(w, Key(site.role, url, f)).Some?
  {
    hide PointerLookup, Denotes, KeyOf;
    KeyIsDenoted(w, site, url, f);
    if site.ref[0] == '#' { assert site.ref[..1] == "#"; }
  }

  // ---- Every reference of a result ----

  lemma SitesAreNamed(r: Run, warnings: seq<Warning>)
    requires IsResult(r, warnings)
    ensures HaveTargets(r.w, r.names) && AllNamed(r, Sites(r.w, r.root, r.w.baseURL))
    ensures forall key :: key in r.names ==> AllNamed(r, TargetSites(r.w, key))
  {
    hide Inline, InlineTarget, RestKept, PlacesKept, CollisionsReported, Reach, Sites, TargetSites;
    forall s | Settled(r.w, s, r.names, warnings) ensures Named(r.w, s, r.names) {}
  }

  /** A reference of the spec, anywhere the walk reaches, becomes in place what
      its text and the URL of the spec say. */
  lemma SpecRefBecomes(r: Run, warnings: seq<Warning>, parts: seq<string>, role: Role, v: Json)
    requires IsResult(r, warnings) && IsOwn(r.root, parts) && WalkedAs(true, r.root, parts, role)
    requires LookupParts(r.root, parts) == Some(v) && RefOf(v).Some?
    ensures var after := LookupParts(r.out, parts);
      && after.Some? && RefOf(after.value).Some?
      && Becomes(r, role, RefOf(v).value, r.w.baseURL, RefOf(after.value).value)
  {
    hide IsResult, LookupParts, WalkedAs, IsOwn, InlineAs, SitesAs, Inline, Sites, RefOf, Becomes;
    SitesAreNamed(r, warnings);
    OwnPlaceStays(r, warnings, parts);
    WalkedHolds(r.w, r.w.baseURL, r.names, r.root, parts, role);
    InlinedRefBecomes(r, role, v, r.w.baseURL);
  }

  /** The walk of key's target reaches parts as role: of an Example Object, only
      the object itself. */
  predicate WalkedInTarget(w: World, key: Key, target: Json, parts: seq<string>, role: Role) {
    match key.role
    case SchemaRole => WalkedAs(key.url == w.baseURL, target, parts, role)
    case ExampleRole => role.ExampleRole? && parts == []
  }

  /** The place parts of what is inlined for key. */
  function PlaceOf(r: Run, key: Key, parts: seq<string>): seq<string>
    requires key in r.names
  {
    ["components", Kind(key.role), r.names[key]] + parts
  }

  /** Where key is inlined, and no other has its name, its target's places hold
      what they held, inlined. */
  lemma InlinedPlace(r: Run, warnings: seq<Warning>, key: Key, target: Json, parts: seq<string>, role: Role)
    requires IsResult(r, warnings) && key in r.names && (key.role.ExampleRole? || CleanName(r.names[key], warnings))
    requires key.url in r.w.docs && PointerLookup(r.w.docs[key.url], key.fragment) == Some(target)
    requires WalkedInTarget(r.w, key, target, parts, role) && LookupParts(target, parts).Some?
    ensures LookupParts(r.out, PlaceOf(r, key, parts)) ==
      Some(InlineAs(r.w, role, LookupParts(target, parts).value, key.url, r.names))
    ensures SitesAs(r.w, role, LookupParts(target, parts).value, key.url) <= TargetSites(r.w, key)
    ensures Target(r.w, key) == Some(target)
  {
    hide LookupParts, WalkedAs, Inline, Sites, InlineExample, ExampleSite, ComponentsOf, Get, NothingLeft, RestKept,
         PlacesKept, CollisionsReported, Reach, PointerLookup;
    assert Get(ComponentsOf(r.out, Kind(key.role)), r.names[key]) == Some(InlineTarget(r.w, key, r.names));
    NamesAreNames(r.w, r.root, r.names, r.out, warnings, key);
    UnderItsName(r.out, key.role, r.names[key], parts);
    match key.role
    case SchemaRole => WalkedHolds(r.w, key.url, r.names, target, parts, role);
    case ExampleRole => WholeValue(target); WholeValue(InlineTarget(r.w, key, r.names));
  }

  lemma WholeValue(v: Json)
    ensures LookupParts(v, []) == Some(v)
  {}

  lemma UnderItsName(out: Json, role: Role, name: string, parts: seq<string>)
    requires IsName(name) && Get(ComponentsOf(out, Kind(role)), name).Some?
    ensures LookupParts(out, ["components", Kind(role), name] + parts) ==
      LookupParts(Get(ComponentsOf(out, Kind(role)), name).value, parts)
  {
    hide LookupParts, Unescape, Get, Kind;
    var place := ["components", Kind(role), name] + parts;
    KindIsPlain(role);
    assert '~' !in "components";
    assert '~' !in name;
    PlainUnescape(place[0]);
    PlainUnescape(place[1]);
    PlainUnescape(place[2]);
    HoldersAreObjects(out, Kind(role), name);
    assert out.Object? by { ComponentsAreInObjects(out, Kind(role), name); }
    KindLookup(out, place, Kind(role));
    assert place[3..] == parts;
  }

  lemma ComponentsAreInObjects(out: Json, kind: string, name: string)
    ensures Get(ComponentsOf(out, kind), name).Some? ==> out.Object?
  {}

  /** A reference in what is inlined for key, anywhere the walk reaches, becomes
      what its text and the URL of key's own document say. */
  lemma TargetRefBecomes(r: Run, warnings: seq<Warning>, key: Key, target: Json, parts: seq<string>, role: Role,
      v: Json)
    requires IsResult(r, warnings) && key in r.names && (key.role.ExampleRole? || CleanName(r.names[key], warnings))
    requires key.url in r.w.docs && PointerLookup(r.w.docs[key.url], key.fragment) == Some(target)
    requires WalkedInTarget(r.w, key, target, parts, role)
    requires LookupParts(target, parts) == Some(v) && RefOf(v).Some?
    ensures var after := LookupParts(r.out, PlaceOf(r, key, parts));
      && after.Some? && RefOf(after.value).Some?
      && Becomes(r, role, RefOf(v).value, key.url, RefOf(after.value).value)
  {
    hide IsResult, LookupParts, WalkedInTarget, InlineAs, SitesAs, TargetSites, RefOf, Becomes, Target, CleanName,
         PointerLookup, PlaceOf;
    SitesAreNamed(r, warnings);
    InlinedPlace(r, warnings, key, target, parts, role);
    InlinedRefBecomes(r, role, v, key.url);
  }

  /** A chain across documents: a target that is itself a reference to another
      document is resolved against its own document's URL, wherever the spec
      is, and the body stored for it points to what that leads to. */
  lemma ChainIsInlined(r: Run, warnings: seq<Warning>, key: Key, u: string, f: string, url: string)
    requires IsResult(r, warnings) && key in r.names && key.role.SchemaRole? && CleanName(r.names[key], warnings)
    requires key.url in r.w.docs && u != "" && '#' !in u
    requires PointerLookup(r.w.docs[key.url], key.fragment) == Some(RefObject(u + "#" + f))
    requires r.w.absolutize(u, key.url) == Some(url) && url in r.w.docs && PointerLookup(r.w.docs[url], f).Some?
    ensures Key(SchemaRole, url, f) in r.names
    ensures var body := Get(ComponentsOf(r.out, "schemas"), r.names[key]);
      body.Some? && RefOf(body.value) == Some("#/components/schemas/" + r.names[Key(SchemaRole, url, f)])
  {
    hide IsResult, LookupParts, PointerLookup, CleanName, ComponentsOf, Get, RefOf, PlaceOf, LeadsTo;
    var ref := u + "#" + f;
    var target := RefObject(ref);
    RefOfRefObject(ref);
    WholeValue(target);
    TargetRefBecomes(r, warnings, key, target, [], SchemaRole, target);
    assert r.w.online by { InlinedPlace(r, warnings, key, target, [], SchemaRole); }
    LinkLeads(r.w, u, f, key.url, url);
    BodyIsPlaced(r, warnings, key);
    assert "#/components/" + Kind(SchemaRole) + "/" == "#/components/schemas/";
  }

  function RefObject(ref: string): Json {
    Object([Field("$ref", String(ref))])
  }

  lemma RefOfRefObject(ref: string)
    ensures RefOf(RefObject(ref)) == Some(ref)
  {
    assert Get([Field("$ref", String(ref))], "$ref") == Some(String(ref));
  }

  lemma LinkLeads(w: World, u: string, f: string, base: string, url: string)
    requires u != "" && '#' !in u && w.absolutize(u, base) == Some(url)
    requires w.online && url in w.docs && PointerLookup(w.docs[url], f).Some?
    ensures LeadsTo(w, SchemaRole, u + "#" + f, base, url, f)
  {
    assert (u + "#" + f)[0] == u[0];
  }

  lemma BodyIsPlaced(r: Run, warnings: seq<Warning>, key: Key)
    requires IsResult(r, warnings) && key in r.names
    ensures Get(ComponentsOf(r.out, Kind(key.role)), r.names[key]) == LookupParts(r.out, PlaceOf(r, key, []))
  {
    hide LookupParts, ComponentsOf, Get, NothingLeft, RestKept, PlacesKept, CollisionsReported, Reach;
    NamesAreNames(r.w, r.root, r.names, r.out, warnings, key);
    UnderItsName(r.out, key.role, r.names[key], []);
    WholeValue(Get(ComponentsOf(r.out, Kind(key.role)), r.names[key]).value);
  }
}
