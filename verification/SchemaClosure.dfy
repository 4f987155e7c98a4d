/** The component schemas an endpoint's documentation needs: a worklist over
    schemas that may refer to each other in cycles. */
module SchemaClosure {
  import opened Base
  import opened JsonModel

  /** A component schema: its decoded body, None when it is not JSON. */
  type Components = map<string, Option<Json>>

  const COMPONENT_SCHEMA_PREFIX := "#/components/schemas/"

  /** The schema a reference denotes: a bare name, or the first segment of a
      pointer into components.schemas; None for any other pointer. */
  function SchemaName(ref: string): Option<string> {
    if !HasPrefix(ref, "#") then Some(ref)
    else if !HasPrefix(ref, COMPONENT_SCHEMA_PREFIX) then None
    else
      var name := Split(ref[|COMPONENT_SCHEMA_PREFIX|..], '/')[0];
      if name == "" then None else Some(Unescape(name))
  }

  /** A pointer to the schema name, or to anything in it, denotes it. */
  lemma PointerDenotes(name: string, rest: string)
    requires name != ""
    ensures SchemaName("#/components/schemas/" + Escape(name)) == Some(name)
    ensures SchemaName("#/components/schemas/" + Escape(name) + "/" + rest) == Some(name)
  {
    hide Escape, Unescape, Split;
    var prefix, token := COMPONENT_SCHEMA_PREFIX, Escape(name);
    EscapeHasNoSlash(name);
    UnescapeInvertsEscape(name);
    EscapeIsNotEmpty(name);
    SplitAtFirst(token, rest, '/');
    assert (prefix + token)[|prefix|..] == token;
    assert prefix + token + "/" + rest == prefix + (token + ['/'] + rest);
    assert (prefix + (token + ['/'] + rest))[|prefix|..] == token + ['/'] + rest;
  }

  lemma EscapeIsNotEmpty(name: string)
    requires name != ""
    ensures Escape(name) != ""
  {}

  /** A text that is no pointer is a name itself; a pointer elsewhere denotes
      no schema. */
  lemma OthersDenote(ref: string)
    ensures ref == "" || ref[0] != '#' ==> SchemaName(ref) == Some(ref)
    ensures ref != "" && ref[0] == '#' && !("#/components/schemas/" <= ref) ==> SchemaName(ref) == None
  {
    hide Split, Unescape;
  }

  // ---- The references a schema and a documentation block hold ----

  function MappingTargets(discriminator: Json): seq<string> {
    match Member(discriminator, "mapping")
    case Some(Object(mapping)) => StringValues(mapping)
    case _ => []
  }

  function StringValues(fields: seq<Field>): seq<string> {
    if fields == [] then []
    else (if fields[0].value.String? then [fields[0].value.s] else []) + StringValues(fields[1..])
  }

  // The walk both searches use, over the fields of the objects of v in order:
  // of says what a field holds, leaves whether the walk stays out of its value.

  type Visit = Field -> seq<string>
  type Leaving = Field -> bool

  function Gather(v: Json, of: Visit, leaves: Leaving): seq<string>
    decreases v, 0
  {
    match v
    case Array(items) => GatherItems(items, of, leaves)
    case Object(fields) => GatherFields(fields, of, leaves)
    case _ => []
  }

  function GatherItems(items: seq<Json>, of: Visit, leaves: Leaving): seq<string>
    decreases items, 0
  {
    if items == [] then [] else Gather(items[0], of, leaves) + GatherItems(items[1..], of, leaves)
  }

  function GatherMembers(members: seq<Field>, of: Visit, leaves: Leaving): seq<string>
    decreases members, 0
  {
    if members == [] then [] else Gather(members[0].value, of, leaves) + GatherMembers(members[1..], of, leaves)
  }

  function GatherField(f: Field, of: Visit, leaves: Leaving): seq<string>
    decreases f, 0
  {
    if IsExamplePayload(f.key) then []
    else of(f) + if leaves(f) then [] else if IsNameKeyed(f.key, f.value) then GatherMembers(f.value.fields, of, leaves)
                 else Gather(f.value, of, leaves)
  }

  function GatherFields(fields: seq<Field>, of: Visit, leaves: Leaving): seq<string>
    decreases fields, 0
  {
    if fields == [] then [] else GatherField(fields[0], of, leaves) + GatherFields(fields[1..], of, leaves)
  }

  /** What a schema's field holds: a local "$ref", a discriminator's targets. */
  function SchemaField(f: Field): seq<string> {
    (if f.key == "$ref" && f.value.String? && HasPrefix(f.value.s, "#") then [f.value.s] else [])
    + (if f.key == "discriminator" && f.value.Object? then MappingTargets(f.value) else [])
  }

  /** Exactly: the text of a local "$ref", and each text the mapping of a
      discriminator holds. */
  lemma SchemaFieldHolds(f: Field, ref: string)
    ensures ref in SchemaField(f) <==>
      || (f == Field("$ref", String(ref)) && ref != "" && ref[0] == '#')
      || (f.key == "discriminator" && exists name :: IsMapped(f.value, name, ref))
  {
    hide StringValues;
    match Member(f.value, "mapping")
    case Some(Object(mapping)) =>
      StringsHeld(mapping, ref);
      if i :| 0 <= i < |mapping| && mapping[i].value == String(ref) { assert IsMapped(f.value, mapping[i].key, ref); }
    case _ =>
  }

  /** The mapping of the discriminator holds name with the text ref. */
  ghost predicate IsMapped(discriminator: Json, name: string, ref: string) {
    match Member(discriminator, "mapping")
    case Some(Object(mapping)) => Field(name, String(ref)) in mapping
    case _ => false
  }

  lemma {:induction false} StringsHeld(fields: seq<Field>, ref: string)
    ensures ref in StringValues(fields) <==> exists i :: 0 <= i < |fields| && fields[i].value == String(ref)
  {
    if fields != [] {
      StringsHeld(fields[1..], ref);
      assert forall i :: 0 < i < |fields| ==> fields[i] == fields[1..][i - 1];
    }
  }

  predicate Nowhere(f: Field) {
    false
  }

  function SchemaRefs(v: Json): seq<string> {
    Gather(v, SchemaField, Nowhere)
  }

  type Decoder = string -> Option<Json>

  /** What a documentation field holds: the name of a schema, or the references
      of an example_schema, which is a schema or the text of one. */
  function DocumentationField(f: Field, decode: Decoder): seq<string> {
    if f.key == "ref" && f.value.String? then [f.value.s]
    else if f.key == "example_schema" then
      if !f.value.String? then SchemaRefs(f.value)
      else match decode(f.value.s) case Some(schema) => SchemaRefs(schema) case None => []
    else []
  }

  /** Exactly: the text of a "ref", and what the schema of an example_schema
      refers to, an object or the text of one. */
  lemma DocumentationFieldHolds(f: Field, decode: Decoder, ref: string)
    ensures ref in DocumentationField(f, decode) <==>
      || f == Field("ref", String(ref))
      || (f.key == "example_schema" && !f.value.String? && ref in SchemaRefs(f.value))
      || (f.key == "example_schema" && f.value.String? && decode(f.value.s).Some? &&
          ref in SchemaRefs(decode(f.value.s).value))
  {
    hide SchemaRefs;
  }

  predicate IsSchemaObject(f: Field) {
    f.key == "example_schema" && !f.value.String?
  }

  /** The references of an entry's documentation/openapi block, when its extra
      config has one. decode: the JSON a base64 text stands for. */
  function DocumentationRefs(block: Option<Json>, decode: Decoder): seq<string> {
    match block
    case Some(v) => Gather(v, f => DocumentationField(f, decode), IsSchemaObject)
    case None => []
  }

  // ---- Which fields a search looks at ----

  /** One step down: to an item, to a field's value, or to a member of a map of
      names, whatever its name. Not into example data, nor what is left out. */
  ghost predicate StepsDown(v: Json, w: Json, leaves: Leaving) {
    match v
    case Array(items) => w in items
    case Object(fields) =>
      exists f :: f in fields && !IsExamplePayload(f.key) && !leaves(f) &&
                  if IsNameKeyed(f.key, f.value) then exists m :: m in f.value.fields && m.value == w else f.value == w
    case _ => false
  }

  ghost predicate IsPath(v: Json, path: seq<Json>, leaves: Leaving) {
    && path != [] && path[0] == v
    && forall i :: 0 < i < |path| ==> StepsDown(path[i - 1], path[i], leaves)
  }

  /** path leads from v to an object with a field, not example data, that holds
      ref. */
  ghost predicate LeadsTo(v: Json, path: seq<Json>, of: Visit, leaves: Leaving, ref: string) {
    IsPath(v, path, leaves) && HasField(path[|path| - 1], of, ref)
  }

  ghost predicate HasField(w: Json, of: Visit, ref: string) {
    w.Object? && exists f :: f in w.fields && !IsExamplePayload(f.key) && ref in of(f)
  }

  ghost predicate Found(v: Json, of: Visit, leaves: Leaving, ref: string) {
    exists path :: LeadsTo(v, path, of, leaves, ref)
  }

  lemma FoundBelow(v: Json, w: Json, of: Visit, leaves: Leaving, ref: string)
    requires StepsDown(v, w, leaves) && Found(w, of, leaves, ref)
    ensures Found(v, of, leaves, ref)
  {
    hide StepsDown, HasField;
    var path :| LeadsTo(w, path, of, leaves, ref);
    var longer := [v] + path;
    forall i | 0 < i < |longer| ensures StepsDown(longer[i - 1], longer[i], leaves) {
      assert longer[i] == path[i - 1];
      if i > 1 { assert longer[i - 1] == path[i - 2]; }
    }
    assert LeadsTo(v, longer, of, leaves, ref);
  }

  /** What is found is found here or one step down. */
  lemma FoundUnfolds(v: Json, of: Visit, leaves: Leaving, ref: string)
    ensures Found(v, of, leaves, ref) <==>
      HasField(v, of, ref) || exists w :: StepsDown(v, w, leaves) && Found(w, of, leaves, ref)
  {
    hide StepsDown, HasField;
    if Found(v, of, leaves, ref) && !HasField(v, of, ref) {
      var path :| LeadsTo(v, path, of, leaves, ref);
      var rest := path[1..];
      assert StepsDown(path[0], path[1], leaves);
      assert LeadsTo(path[1], rest, of, leaves, ref) by {
        forall i | 0 < i < |rest| ensures StepsDown(rest[i - 1], rest[i], leaves) {
          assert rest[i] == path[i + 1] && rest[i - 1] == path[i];
        }
      }
    }
    if HasField(v, of, ref) { assert LeadsTo(v, [v], of, leaves, ref); }
    if w :| StepsDown(v, w, leaves) && Found(w, of, leaves, ref) { FoundBelow(v, w, of, leaves, ref); }
  }

  lemma {:induction false} ItemsGathered(items: seq<Json>, of: Visit, leaves: Leaving, ref: string)
    ensures ref in GatherItems(items, of, leaves) <==> exists v :: v in items && ref in Gather(v, of, leaves)
  {
    if items != [] {
      ItemsGathered(items[1..], of, leaves, ref);
      assert items[0] in items;
      assert items == [items[0]] + items[1..];
      hide Gather;
    }
  }

  lemma {:induction false} MembersGathered(members: seq<Field>, of: Visit, leaves: Leaving, ref: string)
    ensures ref in GatherMembers(members, of, leaves) <==>
      exists m :: m in members && ref in Gather(m.value, of, leaves)
  {
    if members != [] {
      MembersGathered(members[1..], of, leaves, ref);
      assert members == [members[0]] + members[1..];
    }
  }

  lemma {:induction false} FieldsGathered(fields: seq<Field>, of: Visit, leaves: Leaving, ref: string)
    ensures ref in GatherFields(fields, of, leaves) <==> exists f :: f in fields && ref in GatherField(f, of, leaves)
  {
    if fields != [] {
      FieldsGathered(fields[1..], of, leaves, ref);
      assert fields[0] in fields;
      assert fields == [fields[0]] + fields[1..];
      hide GatherField;
    }
  }

  /** What the walk of v gathers is held by v's own fields, or gathered one step
      down. */
  lemma GatherUnfolds(v: Json, of: Visit, leaves: Leaving, ref: string)
    ensures ref in Gather(v, of, leaves) <==>
      HasField(v, of, ref) || exists w :: StepsDown(v, w, leaves) && ref in Gather(w, of, leaves)
  {
    match v
    case Array(items) => ItemsGathered(items, of, leaves, ref);
    case Object(fields) =>
      FieldsGathered(fields, of, leaves, ref);
      forall f | f in fields
        ensures ref in GatherField(f, of, leaves) <==>
          !IsExamplePayload(f.key) && (ref in of(f) || GatheredIn(f, of, leaves, ref))
      {
        if IsNameKeyed(f.key, f.value) { MembersGathered(f.value.fields, of, leaves, ref); }
      }
      hide Gather, GatherField, IsNameKeyed, IsExamplePayload;
      if f :| f in fields && !IsExamplePayload(f.key) && GatheredIn(f, of, leaves, ref) {
        if IsNameKeyed(f.key, f.value) {
          var m :| m in f.value.fields && ref in Gather(m.value, of, leaves);
          assert StepsDown(v, m.value, leaves);
        } else {
          assert StepsDown(v, f.value, leaves);
        }
      }
    case _ =>
  }

  ghost predicate GatheredIn(f: Field, of: Visit, leaves: Leaving, ref: string) {
    !leaves(f) && if IsNameKeyed(f.key, f.value) then exists m ::
      m in f.value.fields && ref in Gather(m.value, of, leaves)
                  else ref in Gather(f.value, of, leaves)
  }

  lemma StepsToSmaller(v: Json, w: Json, leaves: Leaving)
    requires StepsDown(v, w, leaves)
    ensures w < v
  {
  }

  /** The walk gathers exactly what a path leads to, past no example data. */
  lemma {:induction false} GatherIsExact(v: Json, of: Visit, leaves: Leaving, ref: string)
    ensures ref in Gather(v, of, leaves) <==> Found(v, of, leaves, ref)
    decreases v
  {
    GatherUnfolds(v, of, leaves, ref);
    FoundUnfolds(v, of, leaves, ref);
    forall w | StepsDown(v, w, leaves) ensures ref in Gather(w, of, leaves) <==> Found(w, of, leaves, ref) {
      StepsToSmaller(v, w, leaves);
      GatherIsExact(w, of, leaves, ref);
    }
    hide *;
  }

  // ---- Reachable references ----

  /** The references the schema ref denotes holds. */
  function Next(components: Components, ref: string): seq<string> {
    match SchemaName(ref)
    case Some(name) => if name in components && components[name].Some? then SchemaRefs(components[name].value) else []
    case None => []
  }

  ghost predicate Closed(roots: seq<string>, components: Components, found: set<string>) {
    && (forall r :: r in roots ==> r in found)
    && (forall ref, r :: ref in found && r in Next(components, ref) ==> r in found)
  }

  ghost predicate Reached(roots: seq<string>, components: Components, ref: string) {
    forall found: set<string> :: Closed(roots, components, found) ==> ref in found
  }

  /** path starts at a root, and each reference is held by the one before. */
  ghost predicate IsChain(roots: seq<string>, components: Components, path: seq<string>) {
    && path != [] && path[0] in roots
    && forall i :: 0 < i < |path| ==> path[i] in Next(components, path[i - 1])
  }

  lemma {:induction false} ChainIsReached(roots: seq<string>, components: Components, path: seq<string>)
    requires IsChain(roots, components, path)
    ensures Reached(roots, components, path[|path| - 1])
  {
    if |path| > 1 {
      ChainIsReached(roots, components, path[..|path| - 1]);
      assert path[|path| - 1] in Next(components, path[|path| - 2]);
    }
  }

  ghost function AllRefs(roots: seq<string>, components: Components): set<string> {
    (set r | r in roots) +
    (set name, r | name in components && components[name].Some? && r in SchemaRefs(components[name].value) :: r)
  }

  /** A reference is reached exactly when a chain of references ends there. */
  lemma ReachedIffChain(roots: seq<string>, components: Components, ref: string)
    ensures Reached(roots, components, ref) <==>
      exists path :: IsChain(roots, components, path) && path[|path| - 1] == ref
  {
    hide Next, SchemaRefs;
    forall path | IsChain(roots, components, path) && path[|path| - 1] == ref ensures Reached(roots, components, ref) {
      ChainIsReached(roots, components, path);
    }
    var found := set r | r in AllRefs(roots, components) && EndsChain(roots, components, r);
    forall r | r in roots ensures r in found {
      assert IsChain(roots, components, [r]) && [r][|[r]| - 1] == r;
    }
    forall q, r | q in found && r in Next(components, q) ensures r in found {
      LongerChain(roots, components, q, r);
      NextInAll(roots, components, q, r);
    }
    assert Closed(roots, components, found);
  }

  ghost predicate EndsChain(roots: seq<string>, components: Components, ref: string) {
    exists path :: IsChain(roots, components, path) && path[|path| - 1] == ref
  }

  lemma LongerChain(roots: seq<string>, components: Components, q: string, r: string)
    requires EndsChain(roots, components, q) && r in Next(components, q)
    ensures EndsChain(roots, components, r)
  {
    hide Next;
    var path :| IsChain(roots, components, path) && path[|path| - 1] == q;
    var longer := path + [r];
    assert IsChain(roots, components, longer) && longer[|longer| - 1] == r;
  }

  lemma NextInAll(roots: seq<string>, components: Components, q: string, r: string)
    requires r in Next(components, q)
    ensures r in AllRefs(roots, components)
  {
    hide SchemaName, SchemaRefs;
  }

  // ---- The worklist ----

  ghost predicate InClosure(roots: seq<string>, components: Components, name: string) {
    name in components && exists ref :: Reached(roots, components, ref) && SchemaName(ref) == Some(name)
  }

  /** A reached reference components cannot satisfy: a schema name they do not
      define, or a pointer that names no component schema. */
  ghost predicate Unsatisfied(roots: seq<string>, components: Components, what: string) {
    || (Reached(roots, components, what) && SchemaName(what).None?)
    || (what !in components && exists ref :: Reached(roots, components, ref) && SchemaName(ref) == Some(what))
  }

  /** seen are the references taken off the worklist. */
  ghost predicate Accounted(components: Components, seen: set<string>, closure: Components, missing: set<string>) {
    && (forall ref :: ref in seen ==>
          match SchemaName(ref)
          case None => ref in missing
          case Some(name) => if name in components then name in closure else name in missing)
    && (forall name :: name in closure ==>
          name in components && closure[name] == components[name] && exists ref ::
            ref in seen && SchemaName(ref) == Some(name))
    && (forall what :: what in missing ==>
          || (what in seen && SchemaName(what).None?)
          || (what !in components && exists ref :: ref in seen && SchemaName(ref) == Some(what)))
  }

  /** The closure is exactly the reached component schemas, and missing exactly
      the reached references they cannot satisfy, whatever the visiting order. */
  method Compute(roots: seq<string>, components: Components) returns (closure: Components, missing: set<string>)
    ensures forall name :: name in closure <==> InClosure(roots, components, name)
    ensures forall name :: name in closure ==> name in components && closure[name] == components[name]
    ensures forall what :: what in missing <==> Unsatisfied(roots, components, what)
  {
    hide SchemaName, SchemaRefs, Next, Reached;
    closure, missing := map[], {};
    var pending := roots;
    ghost var seen: set<string> := {};
    RootsReached(roots, components);
    while pending != []
      invariant AllReached(roots, components, pending, seen)
      invariant Covers(roots, components, pending, seen)
      invariant Accounted(components, seen, closure, missing)
      decreases components.Keys - closure.Keys, |pending|
    {
      var ref := pending[|pending| - 1];
      var left := pending[..|pending| - 1];
      ghost var seenBefore, open := seen, components.Keys - closure.Keys;
      assert pending == left + [ref];
      pending, seen := left, seen + {ref};
      var name := SchemaName(ref);
      if name.None? {
        NoNext(components, ref);
        AccountedFor(components, seenBefore, closure, missing, ref);
        missing := missing + {ref};
      } else if name.value in closure {
        ghost var q :| q in seenBefore && SchemaName(q) == name;
        SameNext(components, q, ref);
        AccountedFor(components, seenBefore, closure, missing, ref);
      } else if name.value !in components {
        NoNext(components, ref);
        AccountedFor(components, seenBefore, closure, missing, ref);
        missing := missing + {name.value};
      } else {
        AccountedFor(components, seenBefore, closure, missing, ref);
        closure := closure[name.value := components[name.value]];
        assert components.Keys - closure.Keys == open - {name.value} && name.value in open;
        pending := left + Next(components, ref);
        NextReached(roots, components, ref);
      }
      CoversMore(roots, components, left, seenBefore, ref, pending);
    }
    ClosedMeansAll(roots, components, seen);
  }

  /** A chain of references from the documentation to ref: the first is held
      there, each other by the schema the one before denotes. */
  ghost predicate Documents(block: Json, decode: Decoder, components: Components, path: seq<string>) {
    && path != []
    && Found(block, f => DocumentationField(f, decode), IsSchemaObject, path[0])
    && forall i :: 0 < i < |path| ==> HeldBy(components, path[i - 1], path[i])
  }

  ghost predicate HeldBy(components: Components, ref: string, held: string) {
    match SchemaName(ref)
    case Some(name) =>
      name in components && components[name].Some? && Found(components[name].value, SchemaField, Nowhere, held)
    case None => false
  }

  lemma HeldIsNext(components: Components, ref: string, held: string)
    ensures held in Next(components, ref) <==> HeldBy(components, ref, held)
  {
    hide SchemaName, SchemaField, Gather, Found;
    match SchemaName(ref)
    case Some(name) =>
      if name in components && components[name].Some? {
        GatherIsExact(components[name].value, SchemaField, Nowhere, held);
      }
    case None =>
  }

  /** The references reached from the documentation are the ends of the chains
      of references through it and the schemas. */
  lemma DocumentedIffChain(block: Json, decode: Decoder, components: Components, ref: string)
    ensures Reached(DocumentationRefs(Some(block), decode), components, ref) <==>
      exists path :: Documents(block, decode, components, path) && path[|path| - 1] == ref
  {
    hide Reached, Next, HeldBy, Found;
    var roots := DocumentationRefs(Some(block), decode);
    ReachedIffChain(roots, components, ref);
    forall path: seq<string> | path != []
      ensures IsChain(roots, components, path) <==> Documents(block, decode, components, path)
    {
      GatherIsExact(block, f => DocumentationField(f, decode), IsSchemaObject, path[0]);
      forall i | 0 < i < |path|
        ensures path[i] in Next(components, path[i - 1]) <==> HeldBy(components, path[i - 1], path[i]) {
        HeldIsNext(components, path[i - 1], path[i]);
      }
    }
  }

  /** The schemas the documentation of an entry needs, and what it asks for
      in vain. */
  method SchemaClosure(block: Option<Json>, decode: Decoder, components: Components)
    returns (closure: Components, missing: set<string>)
    ensures closure.Keys <= components.Keys && forall name :: name in closure ==> closure[name] == components[name]
    ensures block.None? ==> closure == map[] && missing == {}
    ensures block.Some? ==> forall name :: name in closure <==> Needs(block.value, decode, components, name)
    ensures block.Some? ==> forall what :: what in missing <==> Lacks(block.value, decode, components, what)
  {
    hide DocumentationRefs, InClosure, Unsatisfied, Needs, Lacks;
    closure, missing := Compute(DocumentationRefs(block, decode), components);
    if block.Some? {
      forall what {
        DocumentedClosure(block.value, decode, components, what);
      }
    } else {
      NothingReached(decode, components);
    }
  }

  /** A reached reference is the end of a chain, so what the reached ones name
      the ends of the chains name. */
  lemma DocumentedClosure(block: Json, decode: Decoder, components: Components, what: string)
    ensures InClosure(DocumentationRefs(Some(block), decode), components, what) <==>
      Needs(block, decode, components, what)
    ensures Unsatisfied(DocumentationRefs(Some(block), decode), components, what) <==>
      Lacks(block, decode, components, what)
  {
    hide DocumentationRefs, Reached, SchemaName, Found, HeldBy;
    var roots := DocumentationRefs(Some(block), decode);
    forall ref ensures Reached(roots, components, ref) <==> EndsDocumented(block, decode, components, ref) {
      DocumentedIffChain(block, decode, components, ref);
    }
    forall path | Documents(block, decode, components, path)
      ensures EndsDocumented(block, decode, components, path[|path| - 1])
    {}
  }

  ghost predicate EndsDocumented(block: Json, decode: Decoder, components: Components, ref: string) {
    exists path :: Documents(block, decode, components, path) && path[|path| - 1] == ref
  }

  /** A chain from the documentation ends at a reference to the schema name. */
  ghost predicate Needs(block: Json, decode: Decoder, components: Components, name: string) {
    name in components && exists path ::
      Documents(block, decode, components, path) && SchemaName(path[|path| - 1]) == Some(name)
  }

  /** A chain from the documentation ends at a reference that cannot be met. */
  ghost predicate Lacks(block: Json, decode: Decoder, components: Components, what: string) {
    exists path :: Documents(block, decode, components, path) && IsMissing(components, path[|path| - 1], what)
  }

  /** ref names a schema components do not define, or no schema at all. */
  predicate IsMissing(components: Components, ref: string, what: string) {
    match SchemaName(ref)
    case Some(name) => what == name && name !in components
    case None => what == ref
  }

  lemma NothingReached(decode: Decoder, components: Components)
    ensures forall what :: !InClosure(DocumentationRefs(None, decode), components, what)
    ensures forall what :: !Unsatisfied(DocumentationRefs(None, decode), components, what)
  {
    hide SchemaName;
    assert Closed(DocumentationRefs(None, decode), components, {});
  }

  ghost predicate AllReached(roots: seq<string>, components: Components, pending: seq<string>, seen: set<string>) {
    forall ref :: ref in pending || ref in seen ==> Reached(roots, components, ref)
  }

  ghost predicate Covers(roots: seq<string>, components: Components, pending: seq<string>, seen: set<string>) {
    && (forall r :: r in roots ==> r in pending || r in seen)
    && (forall ref, r :: ref in seen && r in Next(components, ref) ==> r in pending || r in seen)
  }

  /** What taking ref off the worklist adds. */
  lemma AccountedFor(components: Components, seen: set<string>, closure: Components, missing: set<string>, ref: string)
    requires Accounted(components, seen, closure, missing)
    ensures match SchemaName(ref)
            case None => Accounted(components, seen + {ref}, closure, missing + {ref})
            case Some(name) =>
              if name !in components then Accounted(components, seen + {ref}, closure, missing + {name})
              else Accounted(components, seen + {ref}, closure[name := components[name]], missing)
    ensures SchemaName(ref).Some? && SchemaName(ref).value in closure ==>
      closure[SchemaName(ref).value := components[SchemaName(ref).value]] == closure
  {
    hide SchemaName;
  }

  lemma CoversMore(roots: seq<string>, components: Components, left: seq<string>, seen: set<string>, ref: string,
      pending: seq<string>)
    requires Covers(roots, components, left + [ref], seen)
    requires left <= pending
    requires forall r :: r in Next(components, ref) ==> r in pending || r in left + [ref] || r in seen
    ensures Covers(roots, components, pending, seen + {ref})
  {
    hide Next;
    assert forall r :: r in left + [ref] ==> r in left || r == ref;
    assert forall r :: r in left ==> r in pending;
  }

  lemma RootsReached(roots: seq<string>, components: Components)
    ensures forall r :: r in roots ==> Reached(roots, components, r)
  {}

  lemma NextReached(roots: seq<string>, components: Components, ref: string)
    requires Reached(roots, components, ref)
    ensures forall r :: r in Next(components, ref) ==> Reached(roots, components, r)
  {
    hide Next;
  }

  lemma NoNext(components: Components, ref: string)
    requires SchemaName(ref).None? || SchemaName(ref).value !in components
    ensures Next(components, ref) == []
  {
    hide SchemaName;
  }

  lemma SameNext(components: Components, q: string, ref: string)
    requires SchemaName(q) == SchemaName(ref)
    ensures Next(components, q) == Next(components, ref)
  {
    hide SchemaName;
  }

  lemma ClosedMeansAll(roots: seq<string>, components: Components, seen: set<string>)
    requires Covers(roots, components, [], seen)
    ensures forall ref :: Reached(roots, components, ref) ==> ref in seen
  {
    assert Closed(roots, components, seen);
  }
}
