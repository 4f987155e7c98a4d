/** What the references of an OpenAPI document mean across documents, and
    what inlining turns a document into. Everything here is independent of the
    resolver that performs the inlining. */
module References {
  import opened Base
  import opened JsonModel
  import opened RefNames

  datatype Role = SchemaRole | ExampleRole

  function Kind(role: Role): string {
    if role.ExampleRole? then "examples" else "schemas"
  }

  function ComponentsPath(role: Role): (path: string)
    ensures path != ""
  {
    "#/" + "components" + "/" + Kind(role) + "/"
  }

  /** A reference target: the role it is reached in and its location. */
  datatype Key = Key(role: Role, url: string, fragment: string)

  /** A reference as it is written: its role, its text and the URL of the
      document it is written in. */
  datatype Site = Site(role: Role, ref: string, base: string)

  /** The documents a resolution can reach. docs are those a fetch returns;
      any other fetch fails. online says a fetcher and a base URL exist.
      absolutize is URL resolution, None for an unparsable URL, and docBase
      the base name of a URL's path without its extension. */
  datatype World = World(
    baseURL: string,
    online: bool,
    docs: map<string, Json>,
    absolutize: (string, string) -> Option<string>,
    docBase: string -> string)

  function HashIndex(ref: string): (i: nat)
    ensures i <= |ref|
    ensures forall j :: 0 <= j < i ==> ref[j] != '#'
    ensures i < |ref| ==> ref[i] == '#'
  {
    if ref == "" || ref[0] == '#' then 0 else 1 + HashIndex(ref[1..])
  }

  function KeyOf(w: World, site: Site): Option<Key> {
    var i := HashIndex(site.ref);
    var fragment := if i < |site.ref| then site.ref[i + 1..] else "";
    if i == 0 then Some(Key(site.role, site.base, fragment))
    else
      match w.absolutize(site.ref[..i], site.base)
      case Some(url) => Some(Key(site.role, url, fragment))
      case None => None
  }

  /** The original fragment key addresses. */
  function Target(w: World, key: Key): Option<Json> {
    if w.online && key.url in w.docs then PointerLookup(w.docs[key.url], key.fragment) else None
  }

  function SchemaName(w: World, key: Key): (name: string)
    ensures IsName(name)
  {
    SanitizeRefName(w.docBase(key.url), key.fragment)
  }

  predicate IsLocal(ref: string) {
    HasPrefix(ref, "#")
  }

  /** A "$ref" in schema position is resolved across documents: one to another
      document, or a "#/" one inside a fetched document. */
  predicate ResolvesExternally(w: World, ref: string, base: string) {
    if IsLocal(ref) then base != w.baseURL && HasPrefix(ref, "#/") else ref != ""
  }

  /** The site of v's own "$ref" when it is resolved in schema position. */
  function SchemaSite(w: World, v: Json, base: string): Option<Site> {
    match RefOf(v)
    case Some(ref) => if ResolvesExternally(w, ref, base) then Some(Site(SchemaRole, ref, base)) else None
    case None => None
  }

  /** The site of an Example Object's "$ref". */
  function ExampleSite(v: Json, base: string): Option<Site> {
    match RefOf(v)
    case Some(ref) => if ref != "" && !IsLocal(ref) then Some(Site(ExampleRole, ref, base)) else None
    case None => None
  }

  ghost function SiteSet(site: Option<Site>): set<Site> {
    if site.Some? then {site.value} else {}
  }

  /** The sites a walk of v, part of the document at base, resolves. The
      siblings of a reference to another document are not walked. */
  ghost function Sites(w: World, v: Json, base: string): set<Site>
    decreases v, 0
  {
    match v
    case Array(items) => set i, s | 0 <= i < |items| && s in Sites(w, items[i], base) :: s
    case Object(fields) =>
      var site := SchemaSite(w, v, base);
      if site.Some? && !IsLocal(site.value.ref) then {site.value}
      else SiteSet(site) + set i, s | 0 <= i < |fields| && s in FieldSites(w, fields[i], base) :: s
    case _ => {}
  }

  ghost function FieldSites(w: World, f: Field, base: string): set<Site>
    decreases f, 1
  {
    if IsNameKeyed(f.key, f.value) then
      set i, s | 0 <= i < |f.value.fields| && s in Sites(w, f.value.fields[i].value, base) :: s
    else if f.key == "examples" && f.value.Object? then
      set i | 0 <= i < |f.value.fields| && ExampleSite(f.value.fields[i].value, base).Some?
        :: ExampleSite(f.value.fields[i].value, base).value
    else if IsExamplePayload(f.key) then {}
    else Sites(w, f.value, base)
  }

  /** The sites of key's target, in the role it is reached in. */
  ghost function TargetSites(w: World, key: Key): set<Site> {
    match Target(w, key)
    case Some(target) =>
      if key.role.SchemaRole? then Sites(w, target, key.url) else SiteSet(ExampleSite(target, key.url))
    case None => {}
  }

  // ---- The inlined form ----

  type Names = map<Key, string>

  /** What the text of site becomes: a local pointer when its key has a name. */
  function NewRef(w: World, site: Site, names: Names): string {
    match KeyOf(w, site)
    case Some(key) => if key in names then ComponentsPath(site.role) + names[key] else site.ref
    case None => site.ref
  }

  /** The object's "$ref" replaced. */
  function SetRef(fields: seq<Field>, ref: string): (r: seq<Field>)
    ensures |r| == |fields|
    ensures forall i :: 0 <= i < |fields| && i != IndexOf(fields, "$ref") ==> r[i] == fields[i]
  {
    var i := IndexOf(fields, "$ref");
    if i < |fields| then fields[i := Field("$ref", String(ref))] else fields
  }

  /** v with every site rewritten through names and nothing else changed. */
  function Inline(w: World, v: Json, base: string, names: Names): Json
    decreases v, 0
  {
    match v
    case Array(items) => Array(InlineItems(w, items, base, names))
    case Object(fields) =>
      var site := SchemaSite(w, v, base);
      if site.Some? && !IsLocal(site.value.ref) then Object(SetRef(fields, NewRef(w, site.value, names)))
      else
        var inner := InlineFields(w, fields, base, names);
        Object(if site.Some? then SetRef(inner, NewRef(w, site.value, names)) else inner)
    case _ => v
  }

  function InlineItems(w: World, items: seq<Json>, base: string, names: Names): (r: seq<Json>)
    ensures |r| == |items|
    ensures forall i :: 0 <= i < |items| ==> r[i] == Inline(w, items[i], base, names)
    decreases items, 1
  {
    seq(|items|, i requires 0 <= i < |items| => Inline(w, items[i], base, names))
  }

  function InlineFields(w: World, fields: seq<Field>, base: string, names: Names): (r: seq<Field>)
    ensures |r| == |fields|
    ensures forall i :: 0 <= i < |fields| ==> r[i] == InlineField(w, fields[i], base, names)
    decreases fields, 2
  {
    seq(|fields|, i requires 0 <= i < |fields| => InlineField(w, fields[i], base, names))
  }

  function InlineMembers(w: World, members: seq<Field>, base: string, names: Names): (r: seq<Field>)
    ensures |r| == |members|
    ensures forall i :: 0 <= i < |members| ==>
      r[i] == Field(members[i].key, Inline(w, members[i].value, base, names))
    decreases members, 1
  {
    seq(|members|, i requires 0 <= i < |members| =>
      Field(members[i].key, Inline(w, members[i].value, base, names)))
  }

  function InlineExamples(w: World, entries: seq<Field>, base: string, names: Names): (r: seq<Field>)
    ensures |r| == |entries|
    ensures forall i :: 0 <= i < |entries| ==>
      r[i] == Field(entries[i].key, InlineExample(w, entries[i].value, base, names))
  {
    seq(|entries|, i requires 0 <= i < |entries| =>
      Field(entries[i].key, InlineExample(w, entries[i].value, base, names)))
  }

  function InlineField(w: World, f: Field, base: string, names: Names): (r: Field)
    ensures r.key == f.key
    decreases f, 1
  {
    if IsNameKeyed(f.key, f.value) then Field(f.key, Object(InlineMembers(w, f.value.fields, base, names)))
    else if f.key == "examples" && f.value.Object? then
      Field(f.key, Object(InlineExamples(w, f.value.fields, base, names)))
    else if IsExamplePayload(f.key) then f
    else Field(f.key, Inline(w, f.value, base, names))
  }

  /** An Example Object is data: only its own "$ref" is rewritten. */
  function InlineExample(w: World, v: Json, base: string, names: Names): Json {
    var site := ExampleSite(v, base);
    if site.Some? then Object(SetRef(v.fields, NewRef(w, site.value, names))) else v
  }

  /** The body inlined for key. */
  function InlineTarget(w: World, key: Key, names: Names): Json
    requires Target(w, key).Some?
  {
    var target := Target(w, key).value;
    if key.role.SchemaRole? then Inline(w, target, key.url, names) else InlineExample(w, target, key.url, names)
  }

  // ---- Settled sites: growing the names leaves what is inlined unchanged ----

  /** names decides what becomes of site: its key has no target, or a name. */
  ghost predicate Named(w: World, site: Site, names: Names) {
    var key := KeyOf(w, site);
    key.Some? && Target(w, key.value).Some? ==> key.value in names
  }

  ghost predicate HaveTargets(w: World, names: Names) {
    forall key :: key in names ==> Target(w, key).Some?
  }

  ghost predicate Extends(names: Names, more: Names) {
    forall key :: key in names ==> key in more && more[key] == names[key]
  }

  lemma NewRefStable(w: World, site: Site, names: Names, more: Names)
    requires Extends(names, more) && HaveTargets(w, more) && Named(w, site, names)
    ensures NewRef(w, site, names) == NewRef(w, site, more)
  {}

  lemma {:induction false} InlineStable(w: World, v: Json, base: string, names: Names, more: Names)
    requires Extends(names, more) && HaveTargets(w, more)
    requires forall s :: s in Sites(w, v, base) ==> Named(w, s, names)
    ensures Inline(w, v, base, names) == Inline(w, v, base, more)
    decreases v, 0
  {
    match v
    case Array(items) =>
      forall i | 0 <= i < |items| ensures Inline(w, items[i], base, names) == Inline(w, items[i], base, more) {
        assert Sites(w, items[i], base) <= Sites(w, v, base);
        InlineStable(w, items[i], base, names, more);
      }
      assert InlineItems(w, items, base, names) == InlineItems(w, items, base, more);
    case Object(fields) =>
      var site := SchemaSite(w, v, base);
      if site.Some? { NewRefStable(w, site.value, names, more); }
      if !(site.Some? && !IsLocal(site.value.ref)) {
        forall i | 0 <= i < |fields|
          ensures InlineField(w, fields[i], base, names) == InlineField(w, fields[i], base, more)
        {
          assert FieldSites(w, fields[i], base) <= Sites(w, v, base);
          InlineFieldStable(w, fields[i], base, names, more);
        }
        assert InlineFields(w, fields, base, names) == InlineFields(w, fields, base, more);
      }
    case _ =>
  }

  lemma {:induction false} InlineFieldStable(w: World, f: Field, base: string, names: Names, more: Names)
    requires Extends(names, more) && HaveTargets(w, more)
    requires forall s :: s in FieldSites(w, f, base) ==> Named(w, s, names)
    ensures InlineField(w, f, base, names) == InlineField(w, f, base, more)
    decreases f, 1
  {
    if IsNameKeyed(f.key, f.value) {
      var members := f.value.fields;
      forall i | 0 <= i < |members|
        ensures Inline(w, members[i].value, base, names) == Inline(w, members[i].value, base, more)
      {
        assert Sites(w, members[i].value, base) <= FieldSites(w, f, base);
        InlineStable(w, members[i].value, base, names, more);
      }
      assert InlineMembers(w, members, base, names) == InlineMembers(w, members, base, more);
    } else if f.key == "examples" && f.value.Object? {
      var entries := f.value.fields;
      forall i | 0 <= i < |entries|
        ensures InlineExample(w, entries[i].value, base, names) == InlineExample(w, entries[i].value, base, more)
      {
        var site := ExampleSite(entries[i].value, base);
        if site.Some? {
          assert site.value in FieldSites(w, f, base);
          NewRefStable(w, site.value, names, more);
        }
      }
      assert InlineExamples(w, entries, base, names) == InlineExamples(w, entries, base, more);
    } else if !IsExamplePayload(f.key) {
      InlineStable(w, f.value, base, names, more);
    }
  }

  lemma InlineFieldsStable(w: World, fields: seq<Field>, base: string, names: Names, more: Names)
    requires Extends(names, more) && HaveTargets(w, more)
    requires forall i, s :: 0 <= i < |fields| && s in FieldSites(w, fields[i], base) ==> Named(w, s, names)
    ensures InlineFields(w, fields, base, names) == InlineFields(w, fields, base, more)
  {
    forall i | 0 <= i < |fields| { InlineFieldStable(w, fields[i], base, names, more); }
  }

  lemma InlineItemsStable(w: World, items: seq<Json>, base: string, names: Names, more: Names)
    requires Extends(names, more) && HaveTargets(w, more)
    requires forall i, s :: 0 <= i < |items| && s in Sites(w, items[i], base) ==> Named(w, s, names)
    ensures InlineItems(w, items, base, names) == InlineItems(w, items, base, more)
  {
    forall i | 0 <= i < |items| { InlineStable(w, items[i], base, names, more); }
  }

  lemma InlineMembersStable(w: World, members: seq<Field>, base: string, names: Names, more: Names)
    requires Extends(names, more) && HaveTargets(w, more)
    requires forall i, s :: 0 <= i < |members| && s in Sites(w, members[i].value, base) ==> Named(w, s, names)
    ensures InlineMembers(w, members, base, names) == InlineMembers(w, members, base, more)
  {
    forall i | 0 <= i < |members| { InlineStable(w, members[i].value, base, names, more); }
  }

  lemma InlineExamplesStable(w: World, entries: seq<Field>, base: string, names: Names, more: Names)
    requires Extends(names, more) && HaveTargets(w, more)
    requires forall i :: 0 <= i < |entries| && ExampleSite(entries[i].value, base).Some? ==>
      Named(w, ExampleSite(entries[i].value, base).value, names)
    ensures InlineExamples(w, entries, base, names) == InlineExamples(w, entries, base, more)
  {
    forall i | 0 <= i < |entries|
      ensures InlineExample(w, entries[i].value, base, names) == InlineExample(w, entries[i].value, base, more)
    {
      var site := ExampleSite(entries[i].value, base);
      if site.Some? { NewRefStable(w, site.value, names, more); }
    }
  }

  lemma InlineTargetStable(w: World, key: Key, names: Names, more: Names)
    requires Target(w, key).Some?
    requires Extends(names, more) && HaveTargets(w, more)
    requires forall s :: s in TargetSites(w, key) ==> Named(w, s, names)
    ensures InlineTarget(w, key, names) == InlineTarget(w, key, more)
  {
    var target := Target(w, key).value;
    if key.role.SchemaRole? {
      InlineStable(w, target, key.url, names, more);
    } else if ExampleSite(target, key.url).Some? {
      NewRefStable(w, ExampleSite(target, key.url).value, names, more);
    }
  }

  // ---- Reachable references ----

  /** found holds the keys of sites, and of every target's own sites. */
  ghost predicate Closed(w: World, root: Json, found: set<Key>) {
    && KeysIn(w, Sites(w, root, w.baseURL), found)
    && forall key :: key in found ==> KeysIn(w, TargetSites(w, key), found)
  }

  ghost predicate KeysIn(w: World, sites: set<Site>, found: set<Key>) {
    forall s :: s in sites && KeyOf(w, s).Some? ==> KeyOf(w, s).value in found
  }

  /** key is in every closed set: some chain of references from root ends there. */
  ghost predicate Reached(w: World, root: Json, key: Key) {
    forall found: set<Key> :: Closed(w, root, found) ==> key in found
  }

  ghost function AllRefs(w: World, root: Json): set<string> {
    Strings(root) + set u, s | u in w.docs && s in Strings(w.docs[u]) :: s
  }

  ghost function Universe(w: World, root: Json): set<Key> {
    set role, ref, base | role in {SchemaRole, ExampleRole} && ref in AllRefs(w, root)
        && base in w.docs.Keys + {w.baseURL} && KeyOf(w, Site(role, ref, base)).Some?
      :: KeyOf(w, Site(role, ref, base)).value
  }

  /** The reachable keys, finitely many because only finitely many documents
      can be fetched. */
  ghost function Reach(w: World, root: Json): set<Key> {
    set key | key in Universe(w, root) && Reached(w, root, key)
  }

  lemma {:induction false} SitesAreStrings(w: World, v: Json, base: string)
    ensures forall s :: s in Sites(w, v, base) ==> s.ref in Strings(v) && s.base == base
    decreases v, 0
  {
    match v
    case Array(items) => forall i | 0 <= i < |items| { SitesAreStrings(w, items[i], base); }
    case Object(fields) =>
      if SchemaSite(w, v, base).Some? { RefIsString(v); }
      forall i | 0 <= i < |fields| { FieldSitesAreStrings(w, fields[i], base); }
    case _ =>
  }

  lemma {:induction false} FieldSitesAreStrings(w: World, f: Field, base: string)
    ensures forall s :: s in FieldSites(w, f, base) ==> s.ref in Strings(f.value) && s.base == base
    decreases f, 1
  {
    if IsNameKeyed(f.key, f.value) {
      forall i | 0 <= i < |f.value.fields| { SitesAreStrings(w, f.value.fields[i].value, base); }
    } else if f.key == "examples" && f.value.Object? {
      forall i | 0 <= i < |f.value.fields| && ExampleSite(f.value.fields[i].value, base).Some?
        ensures ExampleSite(f.value.fields[i].value, base).value.ref in Strings(f.value)
      {
        RefIsString(f.value.fields[i].value);
      }
    } else if !IsExamplePayload(f.key) {
      SitesAreStrings(w, f.value, base);
    }
  }

  lemma RefIsString(v: Json)
    requires RefOf(v).Some?
    ensures RefOf(v).value in Strings(v)
  {
    var i := IndexOf(v.fields, "$ref");
    assert RefOf(v).value in Strings(v.fields[i].value);
  }

  lemma UniverseIsClosed(w: World, root: Json)
    ensures Closed(w, root, Universe(w, root))
  {
    SitesAreStrings(w, root, w.baseURL);
    SitesInUniverse(w, root, Sites(w, root, w.baseURL));
    forall key | key in Universe(w, root) && Target(w, key).Some?
      ensures KeysIn(w, TargetSites(w, key), Universe(w, root))
    {
      var doc, target := w.docs[key.url], Target(w, key).value;
      LookupStrings(doc, PointerParts(key.fragment));
      assert Strings(target) <= AllRefs(w, root);
      SitesAreStrings(w, target, key.url);
      if ExampleSite(target, key.url).Some? { RefIsString(target); }
      SitesInUniverse(w, root, TargetSites(w, key));
    }
  }

  lemma SitesInUniverse(w: World, root: Json, sites: set<Site>)
    requires forall s :: s in sites ==> s.ref in AllRefs(w, root) && s.base in w.docs.Keys + {w.baseURL}
    ensures KeysIn(w, sites, Universe(w, root))
  {
    forall s | s in sites && KeyOf(w, s).Some? ensures KeyOf(w, s).value in Universe(w, root) {
      assert s == Site(s.role, s.ref, s.base);
      match s.role case SchemaRole => case ExampleRole =>
    }
  }

  lemma ReachIsClosed(w: World, root: Json)
    ensures Closed(w, root, Reach(w, root))
    ensures forall key :: key in Reach(w, root) <==> Reached(w, root, key)
  {
    UniverseIsClosed(w, root);
    var reach := Reach(w, root);
    forall key, s | key in reach && s in TargetSites(w, key) && KeyOf(w, s).Some?
      ensures KeyOf(w, s).value in reach
    {
      forall found: set<Key> | Closed(w, root, found) ensures KeyOf(w, s).value in found {
        assert KeysIn(w, TargetSites(w, key), found);
      }
      assert KeysIn(w, TargetSites(w, key), Universe(w, root));
    }
  }
}
