/** What a spec means: the trees its references unfold into. Inlining keeps
    them, cycles included, however deep the unfolding goes. */
module RefMeaning {
  import opened Base
  import opened JsonModel
  import opened RefNames
  import opened References
  import opened RefResolver
  import opened ExternalRefs

  /** The spec among its source documents, or the inlined document. */
  datatype Graph = Source(w: World, root: Json) | Output(out: Json)

  /** Where a reference leads: a fragment, and the URL of its document. Across
      the source documents that is its key's target. A local reference that
      resolution leaves as it is leads where its pointer leads in the spec, and
      so does one in a fetched document: the resolver warns that it is read
      against the spec. In the inlined document every local reference leads
      where its pointer leads, and no other one anywhere. */
  ghost function Follow(g: Graph, site: Site): Option<(Json, string)> {
    match g
    case Source(w, root) =>
      if GoesAcross(w, site) then KeyTarget(w, site)
      else if IsLocal(site.ref) then At(root, site.ref, w.baseURL)
      else None
    case Output(out) => if IsLocal(site.ref) then At(out, site.ref, "") else None
  }

  /** What the local reference ref leads to in doc. */
  function At(doc: Json, ref: string, url: string): Option<(Json, string)>
    requires IsLocal(ref)
  {
    match PointerLookup(doc, ref[1..])
    case Some(target) => Some((target, url))
    case None => None
  }

  predicate GoesAcross(w: World, site: Site) {
    ResolvesAcross(w, site) && KeyTarget(w, site).Some?
  }

  /** A local reference that resolution leaves as it is. */
  predicate IsLeft(w: World, site: Site) {
    IsLocal(site.ref) && !GoesAcross(w, site)
  }

  predicate ResolvesAcross(w: World, site: Site) {
    if site.role.SchemaRole? then ResolvesExternally(w, site.ref, site.base) else site.ref != "" && !IsLocal(site.ref)
  }

  function KeyTarget(w: World, site: Site): Option<(Json, string)> {
    match KeyOf(w, site)
    case Some(key) => (match Target(w, key) case Some(target) => Some((target, key.url)) case None => None)
    case None => None
  }

  // ---- Unfolding ----

  /** v with its references followed, at most n deep; a reference past that is
      null. A reference object means its target: what stands beside "$ref" is
      ignored. One to another document that leads nowhere is left whole. */
  ghost function Unfold(g: Graph, n: nat, v: Json, base: string): Json
    decreases n, v, 0
  {
    match v
    case Array(items) => Array(UnfoldItems(g, n, items, base))
    case Object(fields) =>
      (match RefOf(v)
       case Some(ref) =>
         (match Follow(g, Site(SchemaRole, ref, base))
          case Some((target, url)) => if n == 0 then Null else Unfold(g, n - 1, target, url)
          case None => if ref != "" && !IsLocal(ref) then v else Object(UnfoldFields(g, n, fields, base)))
       case None => Object(UnfoldFields(g, n, fields, base)))
    case _ => v
  }

  ghost function UnfoldItems(g: Graph, n: nat, items: seq<Json>, base: string): (r: seq<Json>)
    ensures |r| == |items|
    ensures forall i :: 0 <= i < |items| ==> r[i] == Unfold(g, n, items[i], base)
    decreases n, items, 1
  {
    seq(|items|, i requires 0 <= i < |items| => Unfold(g, n, items[i], base))
  }

  ghost function UnfoldFields(g: Graph, n: nat, fields: seq<Field>, base: string): (r: seq<Field>)
    ensures |r| == |fields|
    ensures forall i :: 0 <= i < |fields| ==> r[i] == UnfoldField(g, n, fields[i], base)
    decreases n, fields, 2
  {
    seq(|fields|, i requires 0 <= i < |fields| => UnfoldField(g, n, fields[i], base))
  }

  ghost function UnfoldField(g: Graph, n: nat, f: Field, base: string): Field
    decreases n, f, 1
  {
    if IsNameKeyed(f.key, f.value) then Field(f.key, Object(UnfoldMembers(g, n, f.value.fields, base)))
    else if f.key == "examples" && f.value.Object? then
      Field(f.key, Object(UnfoldExamples(g, n, f.value.fields, base)))
    else if IsExamplePayload(f.key) then f
    else Field(f.key, Unfold(g, n, f.value, base))
  }

  ghost function UnfoldMembers(g: Graph, n: nat, members: seq<Field>, base: string): (r: seq<Field>)
    ensures |r| == |members|
    ensures forall i :: 0 <= i < |members| ==>
      r[i] == Field(members[i].key, Unfold(g, n, members[i].value, base))
    decreases n, members, 1
  {
    seq(|members|, i requires 0 <= i < |members| => Field(members[i].key, Unfold(g, n, members[i].value, base)))
  }

  ghost function UnfoldExamples(g: Graph, n: nat, entries: seq<Field>, base: string): (r: seq<Field>)
    ensures |r| == |entries|
    ensures forall i :: 0 <= i < |entries| ==>
      r[i] == Field(entries[i].key, UnfoldExample(g, n, entries[i].value, base))
    decreases n, entries, 1
  {
    seq(|entries|, i requires 0 <= i < |entries| =>
      Field(entries[i].key, UnfoldExample(g, n, entries[i].value, base)))
  }

  /** An Example Object unfolds only through its own "$ref". */
  ghost function UnfoldExample(g: Graph, n: nat, v: Json, base: string): Json
    decreases n, v, 0
  {
    match RefOf(v)
    case Some(ref) =>
      (match Follow(g, Site(ExampleRole, ref, base))
       case Some((target, url)) => if n == 0 then Null else UnfoldExample(g, n - 1, target, url)
       case None => v)
    case None => v
  }

  // ---- Places in a spec ----

  /** The walk of v, part of a document, reaches the location parts as something
      of role: not as a map of names, and not inside example data or beside a
      reference to another document. Outside the spec the text of a "$ref" is no
      such location: it is rewritten. */
  predicate WalkedAs(spec: bool, v: Json, parts: seq<string>, role: Role)
    decreases |parts|, 0
  {
    if parts == [] then role.SchemaRole?
    else
      var key := Unescape(parts[0]);
      match v
      case Array(items) =>
        (match Atoi(key)
         case Some(i) => 0 <= i < |items| && WalkedAs(spec, items[i], parts[1..], role)
         case None => false)
      case Object(fields) =>
        (match Get(fields, key)
         case Some(value) =>
           !IsWholly(v) && (spec || key != "$ref") && WalkedField(spec, key, value, parts[1..], role)
         case None => false)
      case _ => false
  }

  predicate WalkedField(spec: bool, key: string, value: Json, parts: seq<string>, role: Role)
    decreases |parts|, 1
  {
    if IsNameKeyed(key, value) then
      parts != [] &&
      (match Get(value.fields, Unescape(parts[0]))
       case Some(member) => WalkedAs(spec, member, parts[1..], role)
       case None => false)
    else if key == "examples" && value.Object? then role.ExampleRole? && |parts| == 1
    else !IsExamplePayload(key) && WalkedAs(spec, value, parts, role)
  }

  /** v is a reference to another document: nothing beside its "$ref" is
      walked. */
  predicate IsWholly(v: Json) {
    match RefOf(v)
    case Some(ref) => ref != "" && !IsLocal(ref)
    case None => false
  }

  /** parts leads to something that is the spec's own: not to the whole spec,
      its components or one kind of them, which inlining adds to, and not into
      something that inlining replaces. */
  predicate IsOwn(root: Json, parts: seq<string>) {
    && parts != []
    && (Unescape(parts[0]) == "components" ==>
          && |parts| >= 2 && IsObject(Member(root, "components"))
          && forall role: Role :: Unescape(parts[1]) == Kind(role) ==>
            |parts| >= 3 && IsObject(Component(root, Kind(role))))
  }

  /** site's pointer leads to something of its role that the spec keeps. */
  predicate IsWalked(w: World, root: Json, site: Site)
    requires IsLocal(site.ref)
  {
    var parts := PointerParts(site.ref[1..]);
    WalkedAs(true, root, parts, site.role) && IsOwn(root, parts)
  }

  /** name is one that key may be inlined under. */
  ghost predicate MayBeNamed(w: World, key: Key, name: string) {
    if key.role.SchemaRole? then name == SchemaName(w, key)
    else exists n: nat :: name == Numbered(SchemaName(w, key), n)
  }

  /** parts lead to, into, or to something that holds, components.kind.name. */
  predicate Touches(parts: seq<string>, kind: string, name: string) {
    && (|parts| > 0 ==> Unescape(parts[0]) == "components")
    && (|parts| > 1 ==> Unescape(parts[1]) == kind)
    && (|parts| > 2 ==> Unescape(parts[2]) == name)
  }

  /** parts lead, where key is inlined under name, to what is inlined, into it,
      or to something that holds it. */
  predicate Covers(w: World, key: Key, name: string, parts: seq<string>) {
    && Touches(parts, Kind(key.role), name)
    && (|parts| > 3 ==> Target(w, key).Some? && LookupParts(Target(w, key).value, parts[3..]).Some?)
  }

  /** Something named so is inlined where site points. */
  ghost predicate Captures(w: World, names: Names, site: Site)
    requires IsLocal(site.ref)
  {
    exists key :: key in names && Covers(w, key, names[key], PointerParts(site.ref[1..]))
  }

  /** Something may be inlined where site points. */
  ghost predicate MayBeTaken(w: World, root: Json, site: Site)
    requires IsLocal(site.ref)
  {
    exists key, name :: key in NamedKeys(w, root) && MayBeNamed(w, key, name) &&
      Touches(PointerParts(site.ref[1..]), Kind(key.role), name)
  }

  // ---- Every reference met ----

  /** A resolution: what it was given and what it gave. */
  datatype Run = Run(w: World, root: Json, names: Names, out: Json)
  {
    function Before(): Graph {
      Source(w, root)
    }

    function After(): Graph {
      Output(out)
    }
  }

  /** v as a role inlines it. */
  function InlineAs(w: World, role: Role, v: Json, base: string, names: Names): Json {
    if role.SchemaRole? then Inline(w, v, base, names) else InlineExample(w, v, base, names)
  }

  /** The sites a role resolves in v. */
  ghost function SitesAs(w: World, role: Role, v: Json, base: string): set<Site> {
    if role.SchemaRole? then Sites(w, v, base) else SiteSet(ExampleSite(v, base))
  }

  /** site is left as it is and leads somewhere on one side only: it dangles
      and is captured by something inlined, or it led somewhere and is lost. */
  predicate Moved(r: Run, site: Site) {
    IsLeft(r.w, site) && (PointerLookup(r.root, site.ref[1..]).Some? != PointerLookup(r.out, site.ref[1..]).Some?)
  }

  /** Where site, left as it is, leads on both sides, it leads to the inlined
      form of what it led to. */
  ghost predicate InPlace(r: Run, site: Site) {
    IsLeft(r.w, site) ==>
      var before, after := PointerLookup(r.root, site.ref[1..]), PointerLookup(r.out, site.ref[1..]);
      before.Some? && after.Some? ==>
        && after.value == InlineAs(r.w, site.role, before.value, r.w.baseURL, r.names)
        && forall s :: s in SitesAs(r.w, site.role, before.value, r.w.baseURL) ==> Named(r.w, s, r.names)
  }

  /** What is asked of every reference met while unfolding the sources. */
  datatype Check = StaysPut | LeadsInPlace | LeadsToWalked | NotCaptured | KeepsClear

  ghost predicate Passes(c: Check, r: Run, site: Site) {
    match c
    case StaysPut => !Moved(r, site)
    case LeadsInPlace => InPlace(r, site)
    case LeadsToWalked => IsLeft(r.w, site) && PointerLookup(r.root, site.ref[1..]).Some? ==>
      IsWalked(r.w, r.root, site)
    case NotCaptured =>
      IsLeft(r.w, site) && PointerLookup(r.root, site.ref[1..]).None? ==> !Captures(r.w, r.names, site)
    case KeepsClear =>
      IsLeft(r.w, site) ==>
        if PointerLookup(r.root, site.ref[1..]).Some? then IsWalked(r.w, r.root, site)
          else !MayBeTaken(r.w, r.root, site)
  }

  /** Every reference met while unfolding v, at most n deep, passes c. */
  ghost predicate Every(c: Check, r: Run, n: nat, v: Json, base: string)
    decreases n, v, 0
  {
    match v
    case Array(items) => forall i :: 0 <= i < |items| ==> Every(c, r, n, items[i], base)
    case Object(fields) =>
      (match RefOf(v)
       case Some(ref) =>
         Passes(c, r, Site(SchemaRole, ref, base)) &&
         (match Follow(r.Before(), Site(SchemaRole, ref, base))
          case Some((target, url)) => n > 0 ==> Every(c, r, n - 1, target, url)
          case None =>
            ref == "" || IsLocal(ref) ==>
              forall i :: 0 <= i < |fields| ==> EveryInField(c, r, n, fields[i], base))
       case None => forall i :: 0 <= i < |fields| ==> EveryInField(c, r, n, fields[i], base))
    case _ => true
  }

  ghost predicate EveryInField(c: Check, r: Run, n: nat, f: Field, base: string)
    decreases n, f, 1
  {
    if IsNameKeyed(f.key, f.value) then
      forall i :: 0 <= i < |f.value.fields| ==> Every(c, r, n, f.value.fields[i].value, base)
    else if f.key == "examples" && f.value.Object? then
      forall i :: 0 <= i < |f.value.fields| ==> EveryInExample(c, r, n, f.value.fields[i].value, base)
    else IsExamplePayload(f.key) || Every(c, r, n, f.value, base)
  }

  ghost predicate EveryInExample(c: Check, r: Run, n: nat, v: Json, base: string)
    decreases n, v, 0
  {
    match RefOf(v)
    case Some(ref) =>
      Passes(c, r, Site(ExampleRole, ref, base)) &&
      (match Follow(r.Before(), Site(ExampleRole, ref, base))
       case Some((target, url)) => n > 0 ==> EveryInExample(c, r, n - 1, target, url)
       case None => true)
    case None => true
  }

  /** Every reference met, however deep, passes c. */
  ghost predicate AllPass(c: Check, r: Run) {
    forall n: nat :: Every(c, r, n, r.root, r.w.baseURL)
  }

  // ---- Rewritten references resolve ----

  lemma ThreeParts(a: string, b: string, c: string)
    requires '/' !in a && '/' !in b && '/' !in c
    ensures PointerParts("/" + a + "/" + b + "/" + c) == [a, b, c]
  {
    var pointer := "/" + a + "/" + b + "/" + c;
    assert pointer[1..] == a + ['/'] + (b + ['/'] + c);
    SplitAtFirst(a, b + ['/'] + c, '/');
    SplitAtFirst(b, c, '/');
    SplitAtFirst(c, "", '/');
  }

  lemma TwoMembers(v: Json, a: string, b: string, c: string)
    requires '~' !in a && '~' !in b && '~' !in c
    requires Member(v, a).Some? && Member(v, a).value.Object?
    requires Member(Member(v, a).value, b).Some? && Member(Member(v, a).value, b).value.Object?
    ensures LookupParts(v, [a, b, c]) == Get(Member(Member(v, a).value, b).value.fields, c)
  {
    PlainUnescape(a);
    PlainUnescape(b);
    PlainUnescape(c);
    var inner := Member(v, a).value;
    var members := Member(inner, b).value;
    assert [a, b, c][1..] == [b, c] && [b, c][1..] == [c] && [c][1..] == [];
    assert LookupParts(members, [c]) == Get(members.fields, c);
    assert LookupParts(inner, [b, c]) == LookupParts(members, [c]);
  }

  lemma PointerText(a: string, b: string, c: string)
    ensures ("#/" + a + "/" + b + "/" + c)[1..] == "/" + a + "/" + b + "/" + c
  {}

  lemma ComponentPointer(out: Json, role: Role, name: string)
    requires IsName(name) && Get(ComponentsOf(out, Kind(role)), name).Some?
    ensures PointerLookup(out, (ComponentsPath(role) + name)[1..]) == Get(ComponentsOf(out, Kind(role)), name)
  {
    hide PointerParts, LookupParts, Split, Unescape, Kind;
    var kind := Kind(role);
    assert '/' !in kind && '~' !in kind by { KindIsPlain(role); }
    PointerText("components", kind, name);
    ThreeParts("components", kind, name);
    TwoMembers(out, "components", kind, name);
  }

  lemma KindIsPlain(role: Role)
    ensures '/' !in Kind(role) && '~' !in Kind(role)
  {}

  /** No rewritten reference dangles, and it leads to its target's body: always
      for an Example Object, and for a schema unless a warning names it. */
  lemma RewrittenRefResolves(w: World, root: Json, names: Names, out: Json, warnings: seq<Warning>, site: Site)
    requires Faithful(w, root, names, out, warnings)
    requires KeyOf(w, site).Some? && KeyOf(w, site).value in names
    ensures var key := KeyOf(w, site).value; var found := PointerLookup(out, NewRef(w, site, names)[1..]);
      && NewRef(w, site, names) == ComponentsPath(site.role) + names[key]
      && found.Some?
      && (site.role.ExampleRole? || CleanName(names[key], warnings) ==> found.value == InlineTarget(w, key, names))
  {
    hide Inline, Sites, TargetSites, InlineTarget, RestKept, NothingLeft, CollisionsReported, Reach;
    var key := KeyOf(w, site).value;
    assert key.role == site.role;
    NamesAreNames(w, root, names, out, warnings, key);
    ComponentPointer(out, key.role, names[key]);
  }

  lemma NamesAreNames(w: World, root: Json, names: Names, out: Json, warnings: seq<Warning>, key: Key)
    requires Faithful(w, root, names, out, warnings) && key in names
    ensures IsName(names[key]) && Get(ComponentsOf(out, Kind(key.role)), names[key]).Some?
  {
    hide Inline, Sites, TargetSites, InlineTarget, RestKept, NothingLeft, CollisionsReported, Reach;
  }

  // ---- The inlined form of one object ----

  lemma {:induction false} SameIndex(fields: seq<Field>, more: seq<Field>, key: string)
    requires |more| == |fields|
    requires forall i :: 0 <= i < |fields| ==> more[i].key == fields[i].key
    ensures IndexOf(more, key) == IndexOf(fields, key)
  {
    if fields != [] && fields[0].key != key { SameIndex(fields[1..], more[1..], key); }
  }

  lemma InlinedFieldsRef(w: World, fields: seq<Field>, base: string, names: Names)
    ensures RefOf(Object(InlineFields(w, fields, base, names))) == RefOf(Object(fields))
  {
    hide NAME_KEYED_MAPS;
    var inner := InlineFields(w, fields, base, names);
    SameIndex(fields, inner, "$ref");
    var i := IndexOf(fields, "$ref");
    if i < |fields| {
      assert inner[i] == InlineField(w, fields[i], base, names);
      DollarRefIsPlain(w, fields[i], base, names);
    }
  }

  lemma DollarRefIsPlain(w: World, f: Field, base: string, names: Names)
    requires f.key == "$ref"
    ensures InlineField(w, f, base, names) == Field(f.key, Inline(w, f.value, base, names))
  {
    assert "$ref" !in NAME_KEYED_MAPS;
  }

  lemma SetRefGivesRef(fields: seq<Field>, ref: string)
    requires RefOf(Object(fields)).Some?
    ensures RefOf(Object(SetRef(fields, ref))) == Some(ref)
    ensures RefOf(Object(fields)) == Some(ref) ==> SetRef(fields, ref) == fields
  {
    var i := IndexOf(fields, "$ref");
    IndexIsFirst(SetRef(fields, ref), "$ref", i);
  }

  /** The reference v's inlined form holds, and its fields when it still has
      its own reference. */
  lemma InlinedObject(w: World, v: Json, base: string, names: Names)
    requires v.Object?
    ensures var site, u := SchemaSite(w, v, base), Inline(w, v, base, names);
      && u.Object?
      && RefOf(u) == (if site.Some? then Some(NewRef(w, site.value, names)) else RefOf(v))
      && (RefOf(u) == RefOf(v) ==>
            u.fields == if site.Some? && !IsLocal(site.value.ref) then v.fields
              else InlineFields(w, v.fields, base, names))
  {
    hide InlineFields, InlineItems, NewRef, ResolvesExternally, SetRef, RefOf, Member, Get, IsLocal;
    assert v == Object(v.fields);
    var inner := InlineFields(w, v.fields, base, names);
    InlinedFieldsRef(w, v.fields, base, names);
    var site := SchemaSite(w, v, base);
    if site.Some? {
      SetRefGivesRef(v.fields, NewRef(w, site.value, names));
      SetRefGivesRef(inner, NewRef(w, site.value, names));
    }
  }

  // ---- Unfolding both sides ----

  /** Every inlined name's pointer leads to its key's inlined target. */
  ghost predicate Answers(r: Run) {
    forall key :: key in r.names ==>
      && Target(r.w, key).Some?
      && PointerLookup(r.out, (ComponentsPath(key.role) + r.names[key])[1..]) == Some(InlineTarget(r.w, key, r.names))
  }

  ghost predicate AllNamed(r: Run, sites: set<Site>) {
    forall s :: s in sites ==> Named(r.w, s, r.names)
  }

  ghost predicate TargetsNamed(r: Run) {
    forall key :: key in r.names ==> AllNamed(r, TargetSites(r.w, key))
  }

  ghost predicate Same(r: Run, n: nat, v: Json, base: string) {
    Unfold(r.After(), n, Inline(r.w, v, base, r.names), "") == Unfold(r.Before(), n, v, base)
  }

  ghost predicate SameField(r: Run, n: nat, f: Field, base: string) {
    UnfoldField(r.After(), n, InlineField(r.w, f, base, r.names), "") == UnfoldField(r.Before(), n, f, base)
  }

  ghost predicate SameExample(r: Run, n: nat, v: Json, base: string) {
    UnfoldExample(r.After(), n, InlineExample(r.w, v, base, r.names), "") == UnfoldExample(r.Before(), n, v, base)
  }

  /** The text site's reference gets. */
  function TextAfter(w: World, site: Site, names: Names): string {
    if ResolvesAcross(w, site) then NewRef(w, site, names) else site.ref
  }

  /** What the inlined document does at site, where the sources lead to target:
      it leads to target's inlined form, unless site is lost. */
  ghost predicate LeadsOn(r: Run, site: Site, target: Json, url: string) {
    var after := Follow(r.After(), Site(site.role, TextAfter(r.w, site, r.names), ""));
    if Moved(r, site) then after.None?
    else
      && after == Some((InlineAs(r.w, site.role, target, url, r.names), ""))
      && AllNamed(r, SitesAs(r.w, site.role, target, url))
  }

  /** Where the sources lead nowhere: neither does the inlined document, unless
      site is captured. */
  ghost predicate LeadsNowhere(r: Run, site: Site) {
    && TextAfter(r.w, site, r.names) == site.ref
    && (Moved(r, site) <==> Follow(r.After(), Site(site.role, site.ref, "")).Some?)
  }

  lemma FollowBoth(r: Run, site: Site)
    requires Answers(r) && TargetsNamed(r) && InPlace(r, site)
    requires ResolvesAcross(r.w, site) ==> Named(r.w, site, r.names)
    ensures match Follow(r.Before(), site)
            case Some((target, url)) => LeadsOn(r, site, target, url)
            case None => LeadsNowhere(r, site)
  {
    hide PointerLookup, InlineTarget, ComponentsPath, Inline, InlineExample, Sites, TargetSites, ResolvesAcross;
    if GoesAcross(r.w, site) {
      FollowAcross(r, site);
    } else {
      StaysLeft(r, site);
    }
  }

  lemma FollowAcross(r: Run, site: Site)
    requires Answers(r) && TargetsNamed(r) && GoesAcross(r.w, site) && Named(r.w, site, r.names)
    ensures KeyTarget(r.w, site).Some?
    ensures LeadsOn(r, site, KeyTarget(r.w, site).value.0, KeyTarget(r.w, site).value.1)
  {
    hide PointerLookup, Inline, InlineExample, Sites, ResolvesAcross;
    var key := KeyOf(r.w, site).value;
    assert key.role == site.role && key in r.names;
    var path := ComponentsPath(site.role);
    assert IsLocal(path + r.names[key]);
    PartsOfTarget(r, key);
    hide ComponentsPath, InlineTarget, TargetSites;
  }

  lemma StaysLeft(r: Run, site: Site)
    requires Answers(r) && !GoesAcross(r.w, site)
    ensures TextAfter(r.w, site, r.names) == site.ref
  {
    hide PointerLookup, InlineTarget, ComponentsPath;
  }

  lemma PartsOfTarget(r: Run, key: Key)
    requires Target(r.w, key).Some?
    ensures TargetSites(r.w, key) == SitesAs(r.w, key.role, Target(r.w, key).value, key.url)
    ensures InlineTarget(r.w, key, r.names) == InlineAs(r.w, key.role, Target(r.w, key).value, key.url, r.names)
  {}

  /** The text of the reference object v's inlined form, and its fields where
      it is not followed. */
  lemma ObjectBoth(r: Run, v: Json, base: string)
    requires v.Object? && RefOf(v).Some? && Answers(r) && TargetsNamed(r) && AllNamed(r, Sites(r.w, v, base))
    requires InPlace(r, Site(SchemaRole, RefOf(v).value, base))
    ensures var site, u := Site(SchemaRole, RefOf(v).value, base), Inline(r.w, v, base, r.names);
      && u.Object? && RefOf(u) == Some(TextAfter(r.w, site, r.names))
      && match Follow(r.Before(), site)
         case Some((target, url)) => LeadsOn(r, site, target, url)
         case None =>
           && LeadsNowhere(r, site)
           && u.fields == if site.ref != "" && !IsLocal(site.ref) then v.fields
             else InlineFields(r.w, v.fields, base, r.names)
  {
    hide PointerLookup, Inline, InlineFields, FieldSites, NewRef, KeyOf, Target, TargetSites, Answers, TargetsNamed,
         Follow, LeadsOn, LeadsNowhere, InPlace, Moved, GoesAcross, Named;
    InlinedObject(r.w, v, base, r.names);
    var site := Site(SchemaRole, RefOf(v).value, base);
    if SchemaSite(r.w, v, base).Some? { assert site in Sites(r.w, v, base); }
    FollowBoth(r, site);
    if Follow(r.Before(), site).None? { NowhereText(r, site); }
  }

  lemma NowhereText(r: Run, site: Site)
    requires LeadsNowhere(r, site)
    ensures TextAfter(r.w, site, r.names) == site.ref
  {}

  // References that stay put make the two unfoldings the same.

  lemma {:induction false} SameIf(r: Run, n: nat, v: Json, base: string)
    requires Answers(r) && TargetsNamed(r) && AllNamed(r, Sites(r.w, v, base))
    requires Every(LeadsInPlace, r, n, v, base) && Every(StaysPut, r, n, v, base)
    ensures Same(r, n, v, base)
    decreases n, v, 1
  {
    hide PointerLookup, InlineField, FieldSites, EveryInField, UnfoldField, NewRef, KeyOf, ResolvesExternally, Answers,
         TargetsNamed, Passes, Follow;
    match v
    case Array(items) =>
      forall i | 0 <= i < |items| ensures Same(r, n, items[i], base) {
        assert Sites(r.w, items[i], base) <= Sites(r.w, v, base);
        SameIf(r, n, items[i], base);
      }
      SameItems(r, n, items, base);
    case Object(fields) => SameObjectIf(r, n, v, base);
    case _ =>
  }

  lemma SameItems(r: Run, n: nat, items: seq<Json>, base: string)
    requires forall i :: 0 <= i < |items| ==> Same(r, n, items[i], base)
    ensures UnfoldItems(r.After(), n, InlineItems(r.w, items, base, r.names), "") ==
      UnfoldItems(r.Before(), n, items, base)
  {
    hide Unfold, Inline;
    forall i | 0 <= i < |items|
      ensures Unfold(r.After(), n, InlineItems(r.w, items, base, r.names)[i], "") ==
        Unfold(r.Before(), n, items[i], base)
    {
      assert Same(r, n, items[i], base);
    }
  }

  lemma SameFields(r: Run, n: nat, fields: seq<Field>, base: string)
    requires forall i :: 0 <= i < |fields| ==> SameField(r, n, fields[i], base)
    ensures UnfoldFields(r.After(), n, InlineFields(r.w, fields, base, r.names), "") ==
            UnfoldFields(r.Before(), n, fields, base)
  {
    hide UnfoldField, InlineField;
    forall i | 0 <= i < |fields|
      ensures UnfoldField(r.After(), n, InlineFields(r.w, fields, base, r.names)[i], "") ==
              UnfoldField(r.Before(), n, fields[i], base)
    {
      assert SameField(r, n, fields[i], base);
    }
  }

  lemma {:induction false} SameObjectIf(r: Run, n: nat, v: Json, base: string)
    requires v.Object? && Answers(r) && TargetsNamed(r) && AllNamed(r, Sites(r.w, v, base))
    requires Every(LeadsInPlace, r, n, v, base) && Every(StaysPut, r, n, v, base)
    ensures Same(r, n, v, base)
    decreases n, v, 0
  {
    hide PointerLookup, Inline, InlineFields, InlineField, FieldSites, EveryInField, UnfoldField, UnfoldFields, NewRef,
         KeyOf, Target, TargetSites, InlineTarget, Answers, TargetsNamed, Named, Moved, InPlace, Follow, TextAfter;
    var fields := v.fields;
    InlinedObject(r.w, v, base, r.names);
    if RefOf(v).Some? {
      var site := Site(SchemaRole, RefOf(v).value, base);
      assert Passes(LeadsInPlace, r, site) && Passes(StaysPut, r, site);
      ObjectBoth(r, v, base);
      match Follow(r.Before(), site) {
        case Some((target, url)) =>
          if n > 0 { SameIf(r, n - 1, target, url); }
          return;
        case None =>
          if site.ref != "" && !IsLocal(site.ref) { return; }
      }
    }
    forall i | 0 <= i < |fields| ensures SameField(r, n, fields[i], base) {
      assert FieldSites(r.w, fields[i], base) <= Sites(r.w, v, base);
      SameFieldIf(r, n, fields[i], base);
    }
    SameFields(r, n, fields, base);
  }

  lemma {:induction false} SameFieldIf(r: Run, n: nat, f: Field, base: string)
    requires Answers(r) && TargetsNamed(r) && AllNamed(r, FieldSites(r.w, f, base))
    requires EveryInField(LeadsInPlace, r, n, f, base) && EveryInField(StaysPut, r, n, f, base)
    ensures SameField(r, n, f, base)
    decreases n, f, 1
  {
    hide PointerLookup, Inline, Sites, Every, Unfold, InlineExample, EveryInExample, UnfoldExample, Answers,
         TargetsNamed, Named;
    if IsNameKeyed(f.key, f.value) {
      var members := f.value.fields;
      forall i | 0 <= i < |members| ensures Same(r, n, members[i].value, base) {
        assert Sites(r.w, members[i].value, base) <= FieldSites(r.w, f, base);
        SameIf(r, n, members[i].value, base);
      }
      SameMembers(r, n, members, base);
    } else if f.key == "examples" && f.value.Object? {
      var entries := f.value.fields;
      forall i | 0 <= i < |entries| ensures SameExample(r, n, entries[i].value, base) {
        assert SiteSet(ExampleSite(entries[i].value, base)) <= FieldSites(r.w, f, base);
        SameExampleIf(r, n, entries[i].value, base);
      }
      SameEntries(r, n, entries, base);
    } else if !IsExamplePayload(f.key) {
      SameIf(r, n, f.value, base);
      PlainField(r, n, f, base);
    }
  }

  lemma SameMembers(r: Run, n: nat, members: seq<Field>, base: string)
    requires forall i :: 0 <= i < |members| ==> Same(r, n, members[i].value, base)
    ensures UnfoldMembers(r.After(), n, InlineMembers(r.w, members, base, r.names), "") ==
            UnfoldMembers(r.Before(), n, members, base)
  {
    hide Unfold, Inline;
    forall i | 0 <= i < |members|
      ensures Unfold(r.After(), n, InlineMembers(r.w, members, base, r.names)[i].value, "") ==
              Unfold(r.Before(), n, members[i].value, base)
    {
      assert Same(r, n, members[i].value, base);
    }
  }

  lemma SameEntries(r: Run, n: nat, entries: seq<Field>, base: string)
    requires forall i :: 0 <= i < |entries| ==> SameExample(r, n, entries[i].value, base)
    ensures UnfoldExamples(r.After(), n, InlineExamples(r.w, entries, base, r.names), "") ==
            UnfoldExamples(r.Before(), n, entries, base)
  {
    hide UnfoldExample, InlineExample;
    forall i | 0 <= i < |entries|
      ensures UnfoldExample(r.After(), n, InlineExamples(r.w, entries, base, r.names)[i].value, "") ==
              UnfoldExample(r.Before(), n, entries[i].value, base)
    {
      assert SameExample(r, n, entries[i].value, base);
    }
  }

  /** A field whose value is walked as such: inlining does not change which
      kind of field it is. */
  lemma PlainField(r: Run, n: nat, f: Field, base: string)
    requires !IsNameKeyed(f.key, f.value) && !IsExamplePayload(f.key)
    ensures SameField(r, n, f, base) <==> Same(r, n, f.value, base)
  {
    hide Unfold;
    assert Inline(r.w, f.value, base, r.names).Object? ==> f.value.Object?;
  }

  lemma {:induction false} SameExampleIf(r: Run, n: nat, v: Json, base: string)
    requires Answers(r) && TargetsNamed(r) && AllNamed(r, SiteSet(ExampleSite(v, base)))
    requires EveryInExample(LeadsInPlace, r, n, v, base) && EveryInExample(StaysPut, r, n, v, base)
    ensures SameExample(r, n, v, base)
    decreases n, v, 0
  {
    hide PointerLookup, Inline, Sites, NewRef, KeyOf, Target, TargetSites, InlineTarget, Answers, TargetsNamed, Named,
         Moved, InPlace, Follow, TextAfter;
    if RefOf(v).Some? {
      var site := Site(ExampleRole, RefOf(v).value, base);
      assert Passes(LeadsInPlace, r, site) && Passes(StaysPut, r, site);
      ExampleBoth(r, v, base);
      match Follow(r.Before(), site)
      case Some((target, url)) => if n > 0 { SameExampleIf(r, n - 1, target, url); }
      case None =>
    }
  }

  /** The same for an Example Object. */
  lemma ExampleBoth(r: Run, v: Json, base: string)
    requires RefOf(v).Some? && Answers(r) && TargetsNamed(r) && AllNamed(r, SiteSet(ExampleSite(v, base)))
    requires InPlace(r, Site(ExampleRole, RefOf(v).value, base))
    ensures var site, u := Site(ExampleRole, RefOf(v).value, base), InlineExample(r.w, v, base, r.names);
      && RefOf(u) == Some(TextAfter(r.w, site, r.names))
      && match Follow(r.Before(), site)
         case Some((target, url)) => LeadsOn(r, site, target, url)
         case None => LeadsNowhere(r, site) && u == v
  {
    hide PointerLookup, NewRef, KeyOf, Target, TargetSites, Answers, TargetsNamed, Follow, LeadsOn, LeadsNowhere,
         InPlace, Moved, GoesAcross, Named, InlineExample;
    var site := Site(ExampleRole, RefOf(v).value, base);
    InlinedExample(r.w, v, base, r.names);
    if ExampleSite(v, base).Some? { assert site in SiteSet(ExampleSite(v, base)); }
    FollowBoth(r, site);
    if Follow(r.Before(), site).None? { NowhereText(r, site); }
  }

  lemma InlinedExample(w: World, v: Json, base: string, names: Names)
    requires RefOf(v).Some?
    ensures var site, u := ExampleSite(v, base), InlineExample(w, v, base, names);
      && RefOf(u) == (if site.Some? then Some(NewRef(w, site.value, names)) else RefOf(v))
      && (RefOf(u) == RefOf(v) ==> u == v)
  {
    hide NewRef;
    var site := ExampleSite(v, base);
    assert v == Object(v.fields);
    if site.Some? { SetRefGivesRef(v.fields, NewRef(w, site.value, names)); }
  }

  // Unfoldings that are the same at every depth leave every reference put.

  ghost predicate AllSame(r: Run, v: Json, base: string) {
    forall n: nat :: Same(r, n, v, base)
  }

  ghost predicate AllSameField(r: Run, f: Field, base: string) {
    forall n: nat :: SameField(r, n, f, base)
  }

  ghost predicate AllSameExample(r: Run, v: Json, base: string) {
    forall n: nat :: SameExample(r, n, v, base)
  }

  lemma {:induction false} PutIf(r: Run, m: nat, v: Json, base: string)
    requires Answers(r) && TargetsNamed(r) && AllNamed(r, Sites(r.w, v, base))
    requires Every(LeadsInPlace, r, m, v, base) && AllSame(r, v, base)
    ensures Every(StaysPut, r, m, v, base)
    decreases m, v, 1
  {
    hide PointerLookup, InlineField, FieldSites, EveryInField, UnfoldField, NewRef, KeyOf, ResolvesExternally, Answers,
         TargetsNamed, Passes, Follow;
    match v
    case Array(items) =>
      forall i | 0 <= i < |items| ensures Every(StaysPut, r, m, items[i], base) {
        assert Sites(r.w, items[i], base) <= Sites(r.w, v, base);
        forall n: nat ensures Same(r, n, items[i], base) {
          assert Same(r, n, v, base);
          assert UnfoldItems(r.After(), n, InlineItems(r.w, items, base, r.names), "")[i] ==
                 UnfoldItems(r.Before(), n, items, base)[i];
        }
        PutIf(r, m, items[i], base);
      }
    case Object(fields) => PutObjectIf(r, m, v, base);
    case _ =>
  }

  lemma {:induction false} PutObjectIf(r: Run, m: nat, v: Json, base: string)
    requires v.Object? && Answers(r) && TargetsNamed(r) && AllNamed(r, Sites(r.w, v, base))
    requires Every(LeadsInPlace, r, m, v, base) && AllSame(r, v, base)
    ensures Every(StaysPut, r, m, v, base)
    decreases m, v, 0
  {
    hide PointerLookup, Inline, InlineFields, InlineField, FieldSites, EveryInField, UnfoldField, UnfoldFields, NewRef,
         KeyOf, Target, TargetSites, InlineTarget, Answers, TargetsNamed, Named, Moved, InPlace, Follow, TextAfter;
    var fields := v.fields;
    InlinedObject(r.w, v, base, r.names);
    if RefOf(v).Some? {
      var site := Site(SchemaRole, RefOf(v).value, base);
      assert Passes(LeadsInPlace, r, site);
      ObjectBoth(r, v, base);
      assert Same(r, 0, v, base);
      match Follow(r.Before(), site) {
        case Some((target, url)) =>
          forall n: nat ensures Same(r, n, target, url) {
            assert Same(r, n + 1, v, base);
          }
          if m > 0 { PutIf(r, m - 1, target, url); }
          return;
        case None =>
          if site.ref != "" && !IsLocal(site.ref) { return; }
      }
    }
    forall i | 0 <= i < |fields| ensures EveryInField(StaysPut, r, m, fields[i], base) {
      assert FieldSites(r.w, fields[i], base) <= Sites(r.w, v, base);
      forall n: nat ensures SameField(r, n, fields[i], base) {
        assert Same(r, n, v, base);
        assert UnfoldFields(r.After(), n, InlineFields(r.w, fields, base, r.names), "")[i] ==
               UnfoldFields(r.Before(), n, fields, base)[i];
      }
      PutFieldIf(r, m, fields[i], base);
    }
  }

  lemma {:induction false} PutFieldIf(r: Run, m: nat, f: Field, base: string)
    requires Answers(r) && TargetsNamed(r) && AllNamed(r, FieldSites(r.w, f, base))
    requires EveryInField(LeadsInPlace, r, m, f, base) && AllSameField(r, f, base)
    ensures EveryInField(StaysPut, r, m, f, base)
    decreases m, f, 1
  {
    hide PointerLookup, Inline, Sites, Every, Unfold, InlineExample, EveryInExample, UnfoldExample, Answers,
         TargetsNamed, Named;
    if IsNameKeyed(f.key, f.value) {
      var members := f.value.fields;
      forall i | 0 <= i < |members| ensures Every(StaysPut, r, m, members[i].value, base) {
        assert Sites(r.w, members[i].value, base) <= FieldSites(r.w, f, base);
        forall n: nat ensures Same(r, n, members[i].value, base) {
          assert SameField(r, n, f, base);
          assert UnfoldMembers(r.After(), n, InlineMembers(r.w, members, base, r.names), "")[i] ==
                 UnfoldMembers(r.Before(), n, members, base)[i];
        }
        PutIf(r, m, members[i].value, base);
      }
    } else if f.key == "examples" && f.value.Object? {
      var entries := f.value.fields;
      forall i | 0 <= i < |entries| ensures EveryInExample(StaysPut, r, m, entries[i].value, base) {
        assert SiteSet(ExampleSite(entries[i].value, base)) <= FieldSites(r.w, f, base);
        forall n: nat ensures SameExample(r, n, entries[i].value, base) {
          assert SameField(r, n, f, base);
          assert UnfoldExamples(r.After(), n, InlineExamples(r.w, entries, base, r.names), "")[i] ==
                 UnfoldExamples(r.Before(), n, entries, base)[i];
        }
        PutExampleIf(r, m, entries[i].value, base);
      }
    } else if !IsExamplePayload(f.key) {
      forall n: nat ensures Same(r, n, f.value, base) {
        assert SameField(r, n, f, base);
        PlainField(r, n, f, base);
      }
      PutIf(r, m, f.value, base);
    }
  }

  lemma {:induction false} PutExampleIf(r: Run, m: nat, v: Json, base: string)
    requires Answers(r) && TargetsNamed(r) && AllNamed(r, SiteSet(ExampleSite(v, base)))
    requires EveryInExample(LeadsInPlace, r, m, v, base) && AllSameExample(r, v, base)
    ensures EveryInExample(StaysPut, r, m, v, base)
    decreases m, v, 0
  {
    hide PointerLookup, Inline, Sites, NewRef, KeyOf, Target, TargetSites, InlineTarget, Answers, TargetsNamed, Named,
         Moved, InPlace, Follow, TextAfter;
    if RefOf(v).Some? {
      var site := Site(ExampleRole, RefOf(v).value, base);
      assert Passes(LeadsInPlace, r, site);
      ExampleBoth(r, v, base);
      assert SameExample(r, 0, v, base);
      match Follow(r.Before(), site)
      case Some((target, url)) =>
        forall n: nat ensures SameExample(r, n, target, url) {
          assert SameExample(r, n + 1, v, base);
        }
        if m > 0 { PutExampleIf(r, m - 1, target, url); }
      case None =>
    }
  }

  // ---- The main theorem ----

  ghost predicate NoCollision(warnings: seq<Warning>) {
    forall msg :: msg in warnings ==> !msg.NameCollision? && !msg.SchemaExists?
  }

  /** r is what a successful resolution did. */
  ghost predicate IsResult(r: Run, warnings: seq<Warning>) {
    r.root.Object? && Faithful(r.w, r.root, r.names, r.out, warnings)
  }

  /** And it did so without a clash of names. */
  ghost predicate IsClean(r: Run, warnings: seq<Warning>) {
    IsResult(r, warnings) && NoCollision(warnings)
  }

  lemma FaithfulAnswers(r: Run, warnings: seq<Warning>)
    requires IsClean(r, warnings)
    ensures Answers(r) && TargetsNamed(r) && AllNamed(r, Sites(r.w, r.root, r.w.baseURL))
  {
    hide Inline, InlineTarget, RestKept, PlacesKept, CollisionsReported, Reach, PointerLookup, Sites, TargetSites,
         ComponentsPath;
    forall key | key in r.names
      ensures Target(r.w, key).Some?
      ensures PointerLookup(r.out, (ComponentsPath(key.role) + r.names[key])[1..]) ==
        Some(InlineTarget(r.w, key, r.names))
    {
      NamesAreNames(r.w, r.root, r.names, r.out, warnings, key);
      ComponentPointer(r.out, key.role, r.names[key]);
      assert CleanName(r.names[key], warnings);
    }
    forall s | Settled(r.w, s, r.names, warnings) ensures Named(r.w, s, r.names) {}
  }

  /** When no schema name collides and every local reference of the spec that
      leads somewhere leads, in the inlined document, to the inlined form of
      that: the inlined spec unfolds, to every depth, into the same tree as the
      spec among its source documents, exactly when no reference left as it is
      is captured by something inlined, or lost. */
  lemma InliningKeepsMeaning(r: Run, warnings: seq<Warning>)
    requires IsClean(r, warnings) && AllPass(LeadsInPlace, r)
    ensures AllSame(r, r.root, r.w.baseURL) <==> AllPass(StaysPut, r)
  {
    hide IsClean, Every, Same, Answers, TargetsNamed, Sites;
    FaithfulAnswers(r, warnings);
    var base := r.w.baseURL;
    if AllPass(StaysPut, r) {
      forall n: nat ensures Same(r, n, r.root, base) {
        assert Every(StaysPut, r, n, r.root, base) && Every(LeadsInPlace, r, n, r.root, base);
        SameIf(r, n, r.root, base);
      }
    }
    if AllSame(r, r.root, base) {
      forall n: nat ensures Every(StaysPut, r, n, r.root, base) {
        assert Every(LeadsInPlace, r, n, r.root, base);
        PutIf(r, n, r.root, base);
      }
    }
  }

  // ---- From one check to another ----

  /** In r and t, resolutions of one spec: what passes c and b in r passes d in
      t. */
  ghost predicate Implies(c: Check, b: Check, r: Run, d: Check, t: Run) {
    r.w == t.w && r.root == t.root && forall site ::
      Passes(c, r, site) && Passes(b, r, site) ==> Passes(d, t, site)
  }

  lemma {:induction false} EveryImplies(c: Check, b: Check, r: Run, d: Check, t: Run, n: nat, v: Json, base: string)
    requires Implies(c, b, r, d, t) && Every(c, r, n, v, base) && Every(b, r, n, v, base)
    ensures Every(d, t, n, v, base)
    decreases n, v, 0
  {
    hide Passes, Follow;
    match v
    case Array(items) => forall i | 0 <= i < |items| { EveryImplies(c, b, r, d, t, n, items[i], base); }
    case Object(fields) =>
      forall i | 0 <= i < |fields| && EveryInField(c, r, n, fields[i], base) && EveryInField(b, r, n, fields[i], base)
        ensures EveryInField(d, t, n, fields[i], base) {
        EveryInFieldImplies(c, b, r, d, t, n, fields[i], base);
      }
      if RefOf(v).Some? {
        match Follow(r.Before(), Site(SchemaRole, RefOf(v).value, base))
        case Some((target, url)) =>
          if n > 0 {
            EveryGoesOn(c, r, n, v, base);
            EveryGoesOn(b, r, n, v, base);
            EveryImplies(c, b, r, d, t, n - 1, target, url);
          }
        case None =>
      }
      hide EveryInField, RefOf;
    case _ =>
  }

  lemma EveryGoesOn(c: Check, r: Run, n: nat, v: Json, base: string)
    requires Every(c, r, n, v, base) && n > 0 && RefOf(v).Some?
    ensures match Follow(r.Before(), Site(SchemaRole, RefOf(v).value, base))
            case Some((target, url)) => Every(c, r, n - 1, target, url)
            case None => true
  {
    hide Passes, Follow, EveryInField;
  }

  lemma {:induction false} EveryInFieldImplies(c: Check, b: Check, r: Run, d: Check, t: Run, n: nat, f: Field,
      base: string)
    requires Implies(c, b, r, d, t) && EveryInField(c, r, n, f, base) && EveryInField(b, r, n, f, base)
    ensures EveryInField(d, t, n, f, base)
    decreases n, f, 1
  {
    hide Passes, Every, EveryInExample;
    if IsNameKeyed(f.key, f.value) {
      forall i | 0 <= i < |f.value.fields| { EveryImplies(c, b, r, d, t, n, f.value.fields[i].value, base); }
    } else if f.key == "examples" && f.value.Object? {
      forall i | 0 <= i < |f.value.fields| { EveryInExampleImplies(c, b, r, d, t, n, f.value.fields[i].value, base); }
    } else if !IsExamplePayload(f.key) {
      EveryImplies(c, b, r, d, t, n, f.value, base);
    }
  }

  lemma {:induction false} EveryInExampleImplies(c: Check, b: Check, r: Run, d: Check, t: Run, n: nat, v: Json,
      base: string)
    requires Implies(c, b, r, d, t) && EveryInExample(c, r, n, v, base) && EveryInExample(b, r, n, v, base)
    ensures EveryInExample(d, t, n, v, base)
    decreases n, v, 0
  {
    hide Passes, Follow;
    if RefOf(v).Some? {
      match Follow(r.Before(), Site(ExampleRole, RefOf(v).value, base))
      case Some((target, url)) => if n > 0 { EveryInExampleImplies(c, b, r, d, t, n - 1, target, url); }
      case None =>
    }
  }

  lemma AllPassImplies(c: Check, b: Check, r: Run, d: Check, t: Run)
    requires Implies(c, b, r, d, t) && AllPass(c, r) && AllPass(b, r)
    ensures AllPass(d, t)
  {
    hide Implies, Every;
    forall n: nat ensures Every(d, t, n, t.root, t.w.baseURL) {
      assert Every(c, r, n, r.root, r.w.baseURL) && Every(b, r, n, r.root, r.w.baseURL);
      SameSpec(c, b, r, d, t);
      EveryImplies(c, b, r, d, t, n, r.root, r.w.baseURL);
    }
  }

  lemma SameSpec(c: Check, b: Check, r: Run, d: Check, t: Run)
    requires Implies(c, b, r, d, t)
    ensures r.w == t.w && r.root == t.root
  {}
}
