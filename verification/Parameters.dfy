/** The parameter references of an OpenAPI document replaced by the parameters
    they point to, within a byte budget. */
module Parameters {
  import opened Base
  import opened JsonModel

  const MAX_BODY_BYTES: nat := 10 * 1024 * 1024
  const MAX_REF_DEPTH: nat := 8
  const HTTP_METHODS := ["get", "put", "post", "delete", "options", "head", "patch", "trace"]

  // Key names as functions: the characters of a literal would weigh on every proof.
  function PARAMETERS(): string { "parameters" }
  function PATHS(): string { "paths" }
  function COMPONENTS(): string { "components" }
  function COMPONENTS_PREFIX(): string { "#/components/" }

  // ---- Resolving one reference ----

  /** The local $ref of a reference object. */
  function LocalRef(v: Json): Option<string> {
    match RefOf(v)
    case Some(ref) => if HasPrefix(ref, "#") then Some(ref) else None
    case None => None
  }

  predicate IsString(v: Option<Json>) {
    v.Some? && v.value.String?
  }

  predicate IsParameter(v: Json) {
    v.Object? && RefOf(v).None? && IsString(Member(v, "name")) && IsString(Member(v, "in"))
  }

  /** ref's target, when it is under components. */
  function TargetOf(root: Json, ref: string): Option<Json> {
    if HasPrefix(ref, COMPONENTS_PREFIX()) then PointerLookup(root, ref[1..]) else None
  }

  /** The parameter that ref leads to along at most depth references. */
  function Resolve(root: Json, ref: string, depth: nat): (r: Option<Json>)
    ensures r.Some? ==> IsParameter(r.value)
    decreases depth
  {
    if depth == 0 then None
    else
      match TargetOf(root, ref)
      case Some(Object(fields)) =>
        (match RefOf(Object(fields))
         case Some(next) => Resolve(root, next, depth - 1)
         case None => if IsParameter(Object(fields)) then Some(Object(fields)) else None)
      case _ => None
  }

  method ResolveParameter(root: Json, start: string) returns (r: Option<Json>)
    ensures r == Resolve(root, start, MAX_REF_DEPTH)
  {
    var ref := start;
    for n := 0 to MAX_REF_DEPTH
      invariant Resolve(root, start, MAX_REF_DEPTH) == Resolve(root, ref, MAX_REF_DEPTH - n)
    {
      if !HasPrefix(ref, COMPONENTS_PREFIX()) { return None; }
      var target := PointerLookup(root, ref[1..]);
      if target.None? || !target.value.Object? { return None; }
      var next := RefOf(target.value);
      if next.Some? {
        ref := next.value;
      } else {
        return if IsParameter(target.value) then target else None;
      }
    }
    return None;
  }

  /** v is a parameter object: it has a text for its name and its place, and is
      no reference. */
  ghost predicate IsParameterObject(v: Json) {
    && v.Object? && RefOf(v).None?
    && (exists n :: Get(v.fields, "name") == Some(String(n)))
    && exists i :: Get(v.fields, "in") == Some(String(i))
  }

  /** refs are pointers under components, each to an object that refers to the
      next, and the last to the parameter p. */
  ghost predicate IsRefChain(root: Json, refs: seq<string>, p: Json)
    decreases |refs|
  {
    && refs != [] && "#/components/" <= refs[0]
    && var target := PointerLookup(root, refs[0][1..]);
       if |refs| == 1 then target == Some(p) && IsParameterObject(p)
       else target.Some? && RefOf(target.value) == Some(refs[1]) && IsRefChain(root, refs[1..], p)
  }

  ghost predicate ChainFrom(root: Json, ref: string, depth: nat, p: Json) {
    exists refs :: IsRefChain(root, refs, p) && refs[0] == ref && |refs| <= depth
  }

  lemma ParameterObjects(v: Json)
    ensures IsParameter(v) <==> IsParameterObject(v)
    ensures RefOf(v).Some? || IsParameter(v) ==> v.Object?
  {
    hide Get;
    if IsString(Member(v, "name")) { assert Get(v.fields, "name") == Some(String(Member(v, "name").value.s)); }
    if IsString(Member(v, "in")) { assert Get(v.fields, "in") == Some(String(Member(v, "in").value.s)); }
  }

  /** A reference resolves to p exactly when a chain of at most depth pointers
      under components ends at the parameter object p. */
  lemma {:induction false} ResolvesByChain(root: Json, ref: string, depth: nat, p: Json)
    ensures Resolve(root, ref, depth) == Some(p) <==> ChainFrom(root, ref, depth, p)
    decreases depth
  {
    hide PointerLookup, RefOf, IsParameter, IsParameterObject, ChainFrom;
    var target := TargetOf(root, ref);
    if ChainFrom(root, ref, depth, p) { ChainUnfolds(root, ref, depth, p); }
    if depth > 0 && target.Some? {
      ParameterObjects(target.value);
      if RefOf(target.value).Some? {
        ResolvesByChain(root, RefOf(target.value).value, depth - 1, p);
        LinkFrom(root, ref, depth, p);
      } else {
        LastLink(root, ref, depth, p);
        if target.value.Object? { assert target.value == Object(target.value.fields); }
      }
    }
  }

  lemma ChainUnfolds(root: Json, ref: string, depth: nat, p: Json)
    requires ChainFrom(root, ref, depth, p)
    ensures depth > 0 && TargetOf(root, ref).Some?
    ensures match RefOf(TargetOf(root, ref).value)
            case Some(next) => ChainFrom(root, next, depth - 1, p)
            case None => TargetOf(root, ref) == Some(p) && IsParameterObject(p)
  {
    hide PointerLookup;
    var refs :| IsRefChain(root, refs, p) && refs[0] == ref && |refs| <= depth;
    if |refs| > 1 {
      assert refs[1..][0] == refs[1];
      assert ChainFrom(root, refs[1], depth - 1, p);
    }
  }

  lemma LinkFrom(root: Json, ref: string, depth: nat, p: Json)
    requires depth > 0 && TargetOf(root, ref).Some? && RefOf(TargetOf(root, ref).value).Some?
    ensures ChainFrom(root, RefOf(TargetOf(root, ref).value).value, depth - 1, p) ==> ChainFrom(root, ref, depth, p)
  {
    hide PointerLookup, RefOf, IsParameterObject;
    var next := RefOf(TargetOf(root, ref).value).value;
    if ChainFrom(root, next, depth - 1, p) {
      var refs :| IsRefChain(root, refs, p) && refs[0] == next && |refs| <= depth - 1;
      var longer := [ref] + refs;
      assert longer[1..] == refs;
      assert IsRefChain(root, longer, p);
    }
  }

  lemma LastLink(root: Json, ref: string, depth: nat, p: Json)
    requires depth > 0
    ensures TargetOf(root, ref) == Some(p) && IsParameterObject(p) ==> ChainFrom(root, ref, depth, p)
  {
    hide PointerLookup, IsParameterObject;
    if TargetOf(root, ref) == Some(p) && IsParameterObject(p) { assert IsRefChain(root, [ref], p); }
  }

  /** Two documents with the same components. */
  predicate SameComponents(a: Json, b: Json) {
    a.Object? && b.Object? && Member(a, COMPONENTS()) == Member(b, COMPONENTS())
  }

  /** The pointer of a target under components starts there. */
  lemma TargetIsInComponents(ref: string)
    requires HasPrefix(ref, COMPONENTS_PREFIX())
    ensures var parts := PointerParts(ref[1..]); |parts| > 0 && Unescape(parts[0]) == COMPONENTS()
  {
    hide Split, Unescape;
    var components := COMPONENTS();
    var rest := ref[|COMPONENTS_PREFIX()|..];
    assert ref[1..] == "/" + components + "/" + rest;
    assert ref[1..][1..] == components + ['/'] + rest;
    SplitAtFirst(components, rest, '/');
    PlainUnescape(components);
  }

  /** What a reference resolves to depends on the components alone. */
  lemma {:induction false} ResolveReadsComponents(a: Json, b: Json, ref: string, depth: nat)
    requires SameComponents(a, b)
    ensures Resolve(a, ref, depth) == Resolve(b, ref, depth)
    decreases depth
  {
    hide PointerLookup, LookupParts, IsParameter;
    if depth > 0 && HasPrefix(ref, COMPONENTS_PREFIX()) {
      SameTarget(a, b, ref);
      var target := TargetOf(a, ref);
      if target.Some? && target.value.Object? && RefOf(target.value).Some? {
        ResolveReadsComponents(a, b, RefOf(target.value).value, depth - 1);
      }
    }
  }

  lemma SameTarget(a: Json, b: Json, ref: string)
    requires SameComponents(a, b)
    ensures TargetOf(a, ref) == TargetOf(b, ref)
  {
    if HasPrefix(ref, COMPONENTS_PREFIX()) {
      TargetIsInComponents(ref);
      LookupInMember(a, PointerParts(ref[1..]), COMPONENTS());
      LookupInMember(b, PointerParts(ref[1..]), COMPONENTS());
      hide LookupParts, Unescape, PointerParts, COMPONENTS, Get;
    }
  }

  // ---- What is substituted ----

  /** The parameter that p, an entry of a parameters list, refers to. */
  function Inlined(root: Json, p: Json): Option<Json> {
    match LocalRef(p)
    case Some(ref) => Resolve(root, ref, MAX_REF_DEPTH)
    case None => None
  }

  function Substituted(root: Json, p: Json): Json {
    match Inlined(root, p)
    case Some(target) => target
    case None => p
  }

  /** p is a local reference that at most eight references lead on to the
      parameter object t. */
  ghost predicate StandsFor(root: Json, p: Json, t: Json) {
    exists ref :: RefOf(p) == Some(ref) && "#" <= ref && ChainFrom(root, ref, 8, t)
  }

  /** An entry of a parameters list is replaced by what it stands for; one that
      stands for nothing stays. */
  lemma EntryBecomes(root: Json, p: Json)
    ensures forall t :: Inlined(root, p) == Some(t) <==> StandsFor(root, p, t)
    ensures forall t | StandsFor(root, p, t) :: Substituted(root, p) == t
    ensures (forall t :: !StandsFor(root, p, t)) ==> Substituted(root, p) == p
  {
    hide Resolve, ChainFrom, RefOf;
    forall t ensures Inlined(root, p) == Some(t) <==> StandsFor(root, p, t) {
      if LocalRef(p).Some? { ResolvesByChain(root, LocalRef(p).value, 8, t); }
    }
    hide StandsFor;
    if Inlined(root, p).Some? { assert StandsFor(root, p, Inlined(root, p).value); }
  }

  function SubstitutedList(root: Json, params: seq<Json>): (r: seq<Json>)
    ensures |r| == |params|
  {
    seq(|params|, i requires 0 <= i < |params| => Substituted(root, params[i]))
  }

  /** The parameters list of a path item or an operation. */
  function ParamsOf(holder: Json): seq<Json> {
    match Member(holder, PARAMETERS())
    case Some(Array(items)) => items
    case _ => []
  }

  /** r is holder with its parameters list substituted. */
  ghost predicate IsSubstitutedHolder(root: Json, holder: Json, r: Json) {
    && holder.Object? && r.Object?
    && (forall k :: k != PARAMETERS() ==> Member(r, k) == Member(holder, k))
    && match Member(holder, PARAMETERS())
       case Some(Array(items)) => Member(r, PARAMETERS()) == Some(Array(SubstitutedList(root, items)))
       case other => Member(r, PARAMETERS()) == other
  }

  /** r is the path item with its own list and those of its operations
      substituted. */
  ghost predicate IsSubstitutedItem(root: Json, item: Json, r: Json) {
    && item.Object? && r.Object?
    && (forall k :: k != PARAMETERS() && k !in HTTP_METHODS ==> Member(r, k) == Member(item, k))
    && (match Member(item, PARAMETERS())
        case Some(Array(items)) => Member(r, PARAMETERS()) == Some(Array(SubstitutedList(root, items)))
        case other => Member(r, PARAMETERS()) == other)
    && forall m :: m in HTTP_METHODS ==> IsSubstitutedMember(root, Member(item, m), Member(r, m))
  }

  ghost predicate IsSubstitutedMember(root: Json, op: Option<Json>, r: Option<Json>) {
    if op.Some? && op.value.Object? then r.Some? && IsSubstitutedHolder(root, op.value, r.value) else r == op
  }

  ghost predicate IsSubstitutedPath(root: Json, item: Json, r: Json) {
    if item.Object? then IsSubstitutedItem(root, item, r) else r == item
  }

  ghost predicate ArePathsSubstituted(root: Json, paths: seq<Field>, r: seq<Field>) {
    |r| == |paths| && forall i :: 0 <= i < |paths| ==>
      r[i].key == paths[i].key && IsSubstitutedPath(root, paths[i].value, r[i].value)
  }

  /** r is root with every parameter reference of its paths substituted at
      once, by what it resolves to in root. */
  ghost predicate IsDereferenced(root: Json, r: Json) {
    && root.Object? && r.Object?
    && (forall k :: k != PATHS() ==> Member(r, k) == Member(root, k))
    && match Member(root, PATHS())
       case Some(Object(paths)) =>
         && Member(r, PATHS()).Some? && Member(r, PATHS()).value.Object?
         && ArePathsSubstituted(root, paths, Member(r, PATHS()).value.fields)
       case other => r == root
  }

  // ---- What it costs ----

  datatype Where = OfPath(path: string) | OfOperation(verb: string, path: string)

  /** A parameter and the list it is in. */
  datatype Use = Use(param: Json, place: Where)

  function Uses(params: seq<Json>, place: Where): (r: seq<Use>)
    ensures |r| == |params|
  {
    seq(|params|, i requires 0 <= i < |params| => Use(params[i], place))
  }

  /** The parameters of one operation. */
  function OperationUse(item: Json, path: string, m: string): seq<Use> {
    var op := Member(item, m);
    if op.Some? && op.value.Object? then Uses(ParamsOf(op.value), OfOperation(m, path)) else []
  }

  /** The parameters of the operations, in method order. */
  function OperationUses(item: Json, path: string, methods: seq<string>): seq<Use> {
    if methods == [] then []
    else OperationUses(item, path, methods[..|methods| - 1]) + OperationUse(item, path, methods[|methods| - 1])
  }

  lemma OperationUsesOneMore(item: Json, path: string, methods: seq<string>, n: nat)
    requires n < |methods|
    ensures OperationUses(item, path, methods[..n + 1]) ==
      OperationUses(item, path, methods[..n]) + OperationUse(item, path, methods[n])
    ensures OperationUse(item, path, methods[n]) == [] ==>
              OperationUses(item, path, methods[..n + 1]) == OperationUses(item, path, methods[..n])
  {
    hide OperationUse;
    assert methods[..n + 1][..n] == methods[..n];
  }

  function ItemUses(path: string, item: Json): seq<Use> {
    if item.Object? then Uses(ParamsOf(item), OfPath(path)) + OperationUses(item, path, HTTP_METHODS) else []
  }

  /** Every parameter of the paths, in the order it is looked at. */
  function PathUses(paths: seq<Field>): seq<Use> {
    if paths == [] then []
    else
      var last := paths[|paths| - 1];
      PathUses(paths[..|paths| - 1]) + ItemUses(last.key, last.value)
  }

  function AllUses(root: Json): seq<Use> {
    match Member(root, PATHS())
    case Some(Object(paths)) => PathUses(paths)
    case _ => []
  }

  /** u is an entry of the parameters list of holder, which is at place. */
  predicate IsEntryOf(holder: Json, place: Where, u: Use) {
    u.place == place && holder.Object? &&
    match Get(holder.fields, "parameters")
    case Some(Array(items)) => u.param in items
    case _ => false
  }

  /** u is an entry of the parameters list of a path item or of one of its
      operations. */
  ghost predicate IsEntryAt(path: string, item: Json, u: Use) {
    && item.Object?
    && (IsEntryOf(item, OfPath(path), u) || exists m ::
          m in ["get", "put", "post", "delete", "options", "head", "patch", "trace"] &&
            Get(item.fields, m).Some? && IsEntryOf(Get(item.fields, m).value, OfOperation(m, path), u))
  }

  lemma EntriesOfHolder(holder: Json, place: Where, u: Use)
    ensures holder.Object? ==> (u in Uses(ParamsOf(holder), place) <==> IsEntryOf(holder, place, u))
  {
    hide Get;
    if holder.Object? && IsEntryOf(holder, place, u) {
      var i :| 0 <= i < |ParamsOf(holder)| && ParamsOf(holder)[i] == u.param;
      assert Uses(ParamsOf(holder), place)[i] == u;
    }
  }

  lemma {:induction false} EntriesOfOperations(item: Json, path: string, methods: seq<string>, u: Use)
    requires item.Object?
    ensures u in OperationUses(item, path, methods) <==>
      exists m :: m in methods && Get(item.fields, m).Some? &&
        IsEntryOf(Get(item.fields, m).value, OfOperation(m, path), u)
  {
    hide Get, Uses, ParamsOf;
    if methods != [] {
      var front, m := methods[..|methods| - 1], methods[|methods| - 1];
      EntriesOfOperations(item, path, front, u);
      assert methods == front + [m] && m in methods;
      if Get(item.fields, m).Some? { EntriesOfHolder(Get(item.fields, m).value, OfOperation(m, path), u); }
    }
  }

  lemma {:induction false} EntriesOfPaths(paths: seq<Field>, u: Use)
    ensures u in PathUses(paths) <==> exists f :: f in paths && IsEntryAt(f.key, f.value, u)
  {
    hide Uses, ParamsOf, OperationUses, IsEntryOf, Get;
    if paths != [] {
      var front, f := paths[..|paths| - 1], paths[|paths| - 1];
      EntriesOfPaths(front, u);
      assert paths == front + [f] && f in paths;
      if f.value.Object? {
        EntriesOfHolder(f.value, OfPath(f.key), u);
        EntriesOfOperations(f.value, f.key, HTTP_METHODS, u);
      }
    }
  }

  /** What is looked at is exactly every entry of every parameters list of the
      path items and their operations, in all eight methods. */
  lemma UsesAreTheEntries(root: Json, u: Use)
    ensures u in AllUses(root) <==>
      exists paths: seq<Field>, f: Field ::
        Member(root, "paths") == Some(Object(paths)) && f in paths && IsEntryAt(f.key, f.value, u)
  {
    hide PathUses, IsEntryAt, Get;
    match Member(root, PATHS())
    case Some(Object(paths)) => EntriesOfPaths(paths, u);
    case _ =>
  }

  /** The encoded size of what is inlined. */
  function Total(root: Json, size: Json -> nat, uses: seq<Use>): nat {
    if uses == [] then 0
    else
      Total(root, size, uses[..|uses| - 1]) +
      match Inlined(root, uses[|uses| - 1].param) case Some(target) => size(target) case None => 0
  }

  predicate AnyInlined(root: Json, uses: seq<Use>) {
    exists i :: 0 <= i < |uses| && Inlined(root, uses[i].param).Some?
  }

  datatype Warning = Unresolved(ref: string, place: Where)

  /** Each local reference that resolves to nothing. */
  function Warnings(root: Json, uses: seq<Use>): seq<Warning> {
    if uses == [] then []
    else
      var last := uses[|uses| - 1];
      Warnings(root, uses[..|uses| - 1]) +
      if LocalRef(last.param).Some? && Inlined(root, last.param).None?
        then [Unresolved(LocalRef(last.param).value, last.place)] else []
  }

  lemma {:induction false} CostsOfBoth(root: Json, size: Json -> nat, a: seq<Use>, b: seq<Use>)
    ensures Total(root, size, a + b) == Total(root, size, a) + Total(root, size, b)
    ensures Warnings(root, a + b) == Warnings(root, a) + Warnings(root, b)
    ensures AnyInlined(root, a + b) <==> AnyInlined(root, a) || AnyInlined(root, b)
  {
    hide Inlined;
    AnyOfBoth(root, a, b);
    if b == [] {
      assert a + b == a;
    } else {
      var n := |b| - 1;
      CostsOfBoth(root, size, a, b[..n]);
      assert (a + b)[..|a + b| - 1] == a + b[..n];
    }
  }

  lemma AnyOfBoth(root: Json, a: seq<Use>, b: seq<Use>)
    ensures AnyInlined(root, a + b) <==> AnyInlined(root, a) || AnyInlined(root, b)
  {
    hide Inlined;
    forall i | 0 <= i < |a| && Inlined(root, a[i].param).Some?
      ensures AnyInlined(root, a + b) { assert (a + b)[i] == a[i]; }
    forall i | 0 <= i < |b| && Inlined(root, b[i].param).Some?
      ensures AnyInlined(root, a + b) { assert (a + b)[|a| + i] == b[i]; }
  }

  /** What the dereferencer keeps count of. */
  datatype Count = Count(remaining: int, warnings: seq<Warning>, changed: bool)

  /** From before, having looked at uses: the budget is spent on what was
      inlined; it is exceeded exactly when that is too much. */
  ghost predicate Spends(root: Json, size: Json -> nat, before: Count, uses: seq<Use>, ok: bool, after: Count) {
    var total := Total(root, size, uses);
    && (ok <==> !AnyInlined(root, uses) || before.remaining >= total)
    && (ok ==> after == Count(before.remaining - total, before.warnings + Warnings(root, uses), before.changed ||
          AnyInlined(root, uses)))
  }

  lemma SpendsBoth(root: Json, size: Json -> nat, a: Count, u: seq<Use>, b: Count, v: seq<Use>, ok: bool, c: Count)
    requires Spends(root, size, a, u, true, b) && Spends(root, size, b, v, ok, c)
    ensures Spends(root, size, a, u + v, ok, c)
  {
    CostsOfBoth(root, size, u, v);
    hide AnyInlined;
    if !AnyInlined(root, v) { NothingInlined(root, size, v); }
    if !AnyInlined(root, u) { NothingInlined(root, size, u); }
    assert a.warnings + Warnings(root, u) + Warnings(root, v) == a.warnings + (Warnings(root, u) + Warnings(root, v));
  }

  lemma {:induction false} NothingInlined(root: Json, size: Json -> nat, u: seq<Use>)
    requires !AnyInlined(root, u)
    ensures Total(root, size, u) == 0
  {
    hide Inlined;
    if u != [] {
      assert forall i :: 0 <= i < |u| - 1 ==> u[..|u| - 1][i] == u[i];
      NothingInlined(root, size, u[..|u| - 1]);
    }
  }

  /** Too much for the first is too much for both. */
  lemma SpendsTooMuch(root: Json, size: Json -> nat, a: Count, u: seq<Use>, v: seq<Use>, b: Count)
    requires Spends(root, size, a, u, false, b)
    ensures Spends(root, size, a, u + v, false, b)
  {
    CostsOfBoth(root, size, u, v);
  }

  lemma SpendsNothing(root: Json, size: Json -> nat, a: Count)
    ensures Spends(root, size, a, [], true, a)
  {}

  // ---- The dereferencer ----

  lemma MethodsAreDistinct()
    ensures forall i, j :: 0 <= i < j < |HTTP_METHODS| ==> HTTP_METHODS[i] != HTTP_METHODS[j]
    ensures PARAMETERS() !in HTTP_METHODS
  {
    assert forall i :: 0 <= i < |HTTP_METHODS| ==> |HTTP_METHODS[i]| < |PARAMETERS()|;
    assert HTTP_METHODS[1][1] == 'u' && HTTP_METHODS[0][1] == 'e' && HTTP_METHODS[2][1] == 'o';
    assert HTTP_METHODS[5][0] == 'h' && HTTP_METHODS[6][0] == 'p' && HTTP_METHODS[7][0] == 't';
  }

  lemma {:induction false} SameOperationUses(a: Json, b: Json, path: string, methods: seq<string>)
    requires forall m :: m in methods ==> Member(a, m) == Member(b, m)
    ensures OperationUses(a, path, methods) == OperationUses(b, path, methods)
  {
    hide Member, Uses, ParamsOf;
    if methods != [] {
      assert methods[|methods| - 1] in methods;
      assert forall m :: m in methods[..|methods| - 1] ==> m in methods;
      SameOperationUses(a, b, path, methods[..|methods| - 1]);
    }
  }

  /** r is item with the operations of methods substituted. */
  ghost predicate HasSubstituted(root: Json, item: Json, r: Json, methods: seq<string>) {
    && item.Object? && r.Object?
    && (forall k :: k !in methods ==> Member(r, k) == Member(item, k))
    && forall m :: m in methods ==> IsSubstitutedMember(root, Member(item, m), Member(r, m))
  }

  lemma SubstitutedOneMore(root: Json, item: Json, r: Json, methods: seq<string>, m: string, op: Json)
    requires HasSubstituted(root, item, r, methods) && m !in methods
    ensures Member(r, m) == Member(item, m)
    ensures !(Member(item, m).Some? && Member(item, m).value.Object?) ==> HasSubstituted(root, item, r, methods + [m])
    ensures Member(item, m).Some? && IsSubstitutedMember(root, Member(item, m), Some(op)) ==>
              HasSubstituted(root, item, Object(Put(r.fields, m, op)), methods + [m])
  {
    hide IsSubstitutedHolder, Get;
  }

  /** Every size kept is that of what the reference resolves to. */
  ghost predicate Measured(original: Json, size: Json -> nat, sizes: map<string, nat>) {
    forall ref :: ref in sizes ==>
      Resolve(original, ref, MAX_REF_DEPTH).Some? && sizes[ref] == size(Resolve(original, ref, MAX_REF_DEPTH).value)
  }

  lemma MeasuredOneMore(original: Json, size: Json -> nat, sizes: map<string, nat>, ref: string)
    requires Measured(original, size, sizes) && Resolve(original, ref, MAX_REF_DEPTH).Some?
    ensures Measured(original, size, sizes[ref := size(Resolve(original, ref, MAX_REF_DEPTH).value)])
    ensures ref in sizes ==> sizes[ref] == size(Resolve(original, ref, MAX_REF_DEPTH).value)
  {
    hide Resolve;
  }

  /** Inlines parameter references into root. original is the document as it
      was: what a reference resolves to does not change on the way. */
  class Dereferencer {
    const size: Json -> nat
    var root: Json
    var count: Count
    /** The size of each target measured. */
    var sizes: map<string, nat>

    constructor (root: Json, length: nat, size: Json -> nat)
      requires root.Object?
      ensures this.size == size && this.root == root && Valid(root)
      ensures count == Count(MAX_BODY_BYTES - length, [], false)
    {
      this.root, this.size := root, size;
      count, sizes := Count(MAX_BODY_BYTES - length, [], false), map[];
    }

    ghost predicate Valid(original: Json)
      reads this
    {
      SameComponents(original, root) && Measured(original, size, sizes)
    }

    /** One entry of a parameters list. */
    method Parameter(p: Json, place: Where, ghost original: Json) returns (ok: bool, r: Json)
      requires Valid(original)
      modifies this`count, this`sizes
      ensures Valid(original)
      ensures Spends(original, size, old(count), [Use(p, place)], ok, count)
      ensures ok ==> r == Substituted(original, p)
    {
      hide Resolve, SameComponents, LocalRef, Spends, Measured;
      ghost var use, before := Use(p, place), count;
      var ref := LocalRef(p);
      if ref.None? {
        SpendsOne(original, size, before, use, true, count);
        return true, p;
      }
      ResolveReadsComponents(original, root, ref.value, MAX_REF_DEPTH);
      var target := ResolveParameter(root, ref.value);
      if target.None? {
        count := count.(warnings := count.warnings + [Unresolved(ref.value, place)]);
        SpendsOne(original, size, before, use, true, count);
        return true, p;
      }
      MeasuredOneMore(original, size, sizes, ref.value);
      if ref.value !in sizes { sizes := sizes[ref.value := size(target.value)]; }
      count := count.(remaining := count.remaining - sizes[ref.value]);
      if count.remaining < 0 {
        SpendsOne(original, size, before, use, false, count);
        return false, p;
      }
      count := count.(changed := true);
      SpendsOne(original, size, before, use, true, count);
      return true, target.value;
    }

    /** The parameters list of holder. */
    method List(holder: Json, place: Where, ghost original: Json) returns (ok: bool, r: Json)
      requires holder.Object? && Valid(original)
      modifies this`count, this`sizes
      ensures Valid(original)
      ensures Spends(original, size, old(count), Uses(ParamsOf(holder), place), ok, count)
      ensures ok ==> IsSubstitutedHolder(original, holder, r)
    {
      hide Spends, Substituted, SameComponents, PARAMETERS, Measured;
      var params := Member(holder, PARAMETERS());
      SpendsNothing(original, size, count);
      if params.None? || !params.value.Array? { return true, holder; }
      var items := params.value.items;
      ghost var uses := Uses(items, place);
      var done: seq<Json> := [];
      for i := 0 to |items|
        invariant Valid(original)
        invariant Spends(original, size, old(count), uses[..i], true, count)
        invariant |done| == i && forall j :: 0 <= j < i ==> done[j] == Substituted(original, items[j])
      {
        ghost var before := count;
        var item;
        ok, item := Parameter(items[i], place, original);
        assert uses[..i + 1] == uses[..i] + [Use(items[i], place)];
        SpendsBoth(original, size, old(count), uses[..i], before, [Use(items[i], place)], ok, count);
        if !ok {
          assert uses == uses[..i + 1] + uses[i + 1..];
          SpendsTooMuch(original, size, old(count), uses[..i + 1], uses[i + 1..], count);
          return false, holder;
        }
        done := done + [item];
      }
      assert uses[..|items|] == uses;
      assert done == SubstitutedList(original, items);
      return true, Object(Put(holder.fields, PARAMETERS(), Array(done)));
    }

    /** The operations of item, in method order. */
    method Operations(path: string, item: Json, methods: seq<string>, ghost original: Json) returns (ok: bool, r: Json)
      requires item.Object? && Valid(original)
      requires forall i, j :: 0 <= i < j < |methods| ==> methods[i] != methods[j]
      modifies this`count, this`sizes
      ensures Valid(original)
      ensures Spends(original, size, old(count), OperationUses(item, path, methods), ok, count)
      ensures ok ==> HasSubstituted(original, item, r, methods)
    {
      hide HasSubstituted, OperationUses, Spends, SameComponents, IsSubstitutedHolder, Uses, ParamsOf, Measured;
      r := item;
      NothingSubstituted(original, size, count, item, path);
      assert methods[..0] == [];
      for n := 0 to |methods|
        invariant Valid(original) && r.Object?
        invariant Spends(original, size, old(count), OperationUses(item, path, methods[..n]), true, count)
        invariant HasSubstituted(original, item, r, methods[..n])
      {
        var m := methods[n];
        assert methods[..n + 1] == methods[..n] + [m];
        assert m !in methods[..n];
        OperationUsesOneMore(item, path, methods, n);
        SubstitutedOneMore(original, item, r, methods[..n], m, Null);
        var op := Member(r, m);
        if op.Some? && op.value.Object? {
          ghost var before, uses := count, OperationUse(item, path, m);
          var op2;
          ok, op2 := List(op.value, OfOperation(m, path), original);
          SpendsBoth(original, size, old(count), OperationUses(item, path, methods[..n]), before, uses, ok, count);
          if !ok {
            StopAt(original, size, old(count), item, path, methods, n + 1, count);
            return;
          }
          SubstitutedOneMore(original, item, r, methods[..n], m, op2);
          r := Object(Put(r.fields, m, op2));
        }
      }
      assert methods[..|methods|] == methods;
      ok := true;
    }

    /** A path item: its own list, then those of its operations. */
    method PathItem(path: string, item: Json, ghost original: Json) returns (ok: bool, r: Json)
      requires Valid(original)
      modifies this`count, this`sizes
      ensures Valid(original)
      ensures Spends(original, size, old(count), ItemUses(path, item), ok, count)
      ensures ok ==> IsSubstitutedPath(original, item, r)
    {
      hide Spends, SameComponents, IsSubstitutedHolder, IsSubstitutedItem, HasSubstituted, Uses, ParamsOf,
           OperationUses, Measured, HTTP_METHODS;
      ghost var before, own, rest := count, Uses(ParamsOf(item), OfPath(path)), OperationUses(item, path, HTTP_METHODS);
      SpendsNothing(original, size, count);
      if !item.Object? { return true, item; }
      MethodsAreDistinct();
      r := item;
      var listed;
      ok, listed := List(item, OfPath(path), original);
      if !ok {
        SpendsTooMuch(original, size, before, own, rest, count);
        return;
      }
      ghost var between := count;
      OtherMembersStay(original, item, listed);
      SameOperationUses(item, listed, path, HTTP_METHODS);
      ok, r := Operations(path, listed, HTTP_METHODS, original);
      SpendsBoth(original, size, before, own, between, rest, ok, count);
      if ok { ItemIsSubstituted(original, item, listed, r); }
    }

    /** Every path item, in path order, each in place. */
    method Paths(ghost original: Json) returns (ok: bool)
      requires root.Object? && root == original && Valid(original)
      modifies this
      ensures Valid(original)
      ensures Spends(original, size, old(count), AllUses(original), ok, count)
      ensures ok ==> IsDereferenced(original, root)
    {
      hide Spends, SameComponents, IsSubstitutedPath, ItemUses, PathUses, Measured, PATHS;
      SpendsNothing(original, size, count);
      var member := Member(root, PATHS());
      if member.None? || !member.value.Object? { return true; }
      var paths := member.value.fields;
      NoPathsDone(original, size, count, paths);
      for i := 0 to |paths|
        invariant Valid(original)
        invariant Spends(original, size, old(count), PathUses(paths[..i]), true, count)
        invariant PathsDone(original, root, paths, i)
      {
        ghost var before, was := count, root;
        var item;
        ok, item := PathItem(paths[i].key, paths[i].value, original);
        PathUsesOneMore(paths, i);
        SpendsBoth(original, size, old(count), PathUses(paths[..i]), before, ItemUses(paths[i].key, paths[i].value),
          ok, count);
        if !ok {
          StopAtPath(original, size, old(count), paths, i + 1, count);
          return;
        }
        PathDone(original, root, paths, i, item);
        var now := Member(root, PATHS()).value.fields;
        root := Object(Put(root.fields, PATHS(), Object(now[i := Field(paths[i].key, item)])));
      }
      assert paths[..|paths|] == paths;
      AllPathsDone(original, root, paths);
      ok := true;
    }
  }

  /** root is original with the first n path items substituted. */
  ghost predicate PathsDone(original: Json, root: Json, paths: seq<Field>, n: nat) {
    && n <= |paths| && original.Object? && root.Object?
    && Member(original, PATHS()) == Some(Object(paths))
    && (forall k :: k != PATHS() ==> Member(root, k) == Member(original, k))
    && Member(root, PATHS()).Some? && Member(root, PATHS()).value.Object?
    && var now := Member(root, PATHS()).value.fields;
    && |now| == |paths|
    && (forall i :: 0 <= i < n ==>
          now[i].key == paths[i].key && IsSubstitutedPath(original, paths[i].value, now[i].value))
    && (forall i :: n <= i < |paths| ==> now[i] == paths[i])
  }

  lemma NoPathsDone(original: Json, size: Json -> nat, a: Count, paths: seq<Field>)
    requires original.Object? && Member(original, PATHS()) == Some(Object(paths))
    ensures PathsDone(original, original, paths, 0)
    ensures Spends(original, size, a, PathUses(paths[..0]), true, a)
  {}

  lemma PathDone(original: Json, root: Json, paths: seq<Field>, n: nat, item: Json)
    requires n < |paths| && PathsDone(original, root, paths, n) && IsSubstitutedPath(original, paths[n].value, item)
    requires SameComponents(original, root)
    ensures var now := Member(root, PATHS()).value.fields;
      && |now| == |paths|
      && var next := Object(Put(root.fields, PATHS(), Object(now[n := Field(paths[n].key, item)])));
      && PathsDone(original, next, paths, n + 1) && SameComponents(original, next)
  {
    assert |PATHS()| != |COMPONENTS()|;
    hide IsSubstitutedPath, Get, PATHS, COMPONENTS;
  }

  lemma AllPathsDone(original: Json, root: Json, paths: seq<Field>)
    requires PathsDone(original, root, paths, |paths|)
    ensures IsDereferenced(original, root)
  {
    hide IsSubstitutedPath, Member, PATHS;
  }

  lemma PathUsesOneMore(paths: seq<Field>, n: nat)
    requires n < |paths|
    ensures PathUses(paths[..n + 1]) == PathUses(paths[..n]) + ItemUses(paths[n].key, paths[n].value)
    ensures paths[..|paths|] == paths
  {
    hide ItemUses;
    assert paths[..n + 1][..n] == paths[..n];
  }

  lemma {:induction false} StopAtPath(root: Json, size: Json -> nat, a: Count, paths: seq<Field>, n: nat, b: Count)
    requires n <= |paths| && Spends(root, size, a, PathUses(paths[..n]), false, b)
    ensures Spends(root, size, a, PathUses(paths), false, b)
  {
    hide Spends, ItemUses;
    if n == |paths| {
      assert paths[..n] == paths;
    } else {
      var shorter, last := paths[..|paths| - 1], paths[|paths| - 1];
      assert shorter[..n] == paths[..n];
      StopAtPath(root, size, a, shorter, n, b);
      SpendsTooMuch(root, size, a, PathUses(shorter), ItemUses(last.key, last.value), b);
    }
  }

  lemma OtherMembersStay(root: Json, holder: Json, r: Json)
    requires IsSubstitutedHolder(root, holder, r)
    ensures r.Object? && forall k :: k != PARAMETERS() ==> Member(r, k) == Member(holder, k)
  {}

  lemma ItemIsSubstituted(root: Json, item: Json, listed: Json, r: Json)
    requires IsSubstitutedHolder(root, item, listed) && HasSubstituted(root, listed, r, HTTP_METHODS)
    requires PARAMETERS() !in HTTP_METHODS
    ensures IsSubstitutedItem(root, item, r)
  {
    hide HTTP_METHODS, PARAMETERS, Get, SubstitutedList, IsSubstitutedMember;
  }

  lemma NothingSubstituted(root: Json, size: Json -> nat, a: Count, item: Json, path: string)
    requires item.Object?
    ensures Spends(root, size, a, OperationUses(item, path, []), true, a) && HasSubstituted(root, item, item, [])
  {}

  lemma SpendsOne(root: Json, size: Json -> nat, a: Count, use: Use, ok: bool, b: Count)
    requires match Inlined(root, use.param)
             case Some(target) =>
               && (ok <==> a.remaining >= size(target))
               && (ok ==> b == Count(a.remaining - size(target), a.warnings, true))
             case None =>
               var ref := LocalRef(use.param);
               ok && b == if ref.Some? then a.(warnings := a.warnings + [Unresolved(ref.value, use.place)]) else a
    ensures Spends(root, size, a, [use], ok, b)
  {
    hide Inlined, LocalRef;
    OneUse(root, size, use);
  }

  lemma OneUse(root: Json, size: Json -> nat, use: Use)
    ensures var target, ref := Inlined(root, use.param), LocalRef(use.param);
      && Total(root, size, [use]) == (if target.Some? then size(target.value) else 0)
      && (AnyInlined(root, [use]) <==> target.Some?)
      && Warnings(root, [use]) == if ref.Some? && target.None? then [Unresolved(ref.value, use.place)] else []
  {
    hide Inlined;
    assert [use][..0] == [];
    assert [use][0] == use;
  }

  /** One use costs the size of what replaces it, and is warned about when it is
      a local reference that stands for nothing. */
  lemma UseCosts(root: Json, size: Json -> nat, use: Use)
    ensures forall t | StandsFor(root, use.param, t) ::
      Total(root, size, [use]) == size(t) && Warnings(root, [use]) == []
    ensures (forall t :: !StandsFor(root, use.param, t)) ==>
      && Total(root, size, [use]) == 0
      && Warnings(root, [use]) == match RefOf(use.param)
           case Some(ref) => if "#" <= ref then [Unresolved(ref, use.place)] else []
           case None => []
  {
    hide StandsFor, Inlined, Total, Warnings, RefOf;
    EntryBecomes(root, use.param);
    OneUse(root, size, use);
    if Inlined(root, use.param).Some? { assert StandsFor(root, use.param, Inlined(root, use.param).value); }
  }

  /** Exceeding the budget at the first operations exceeds it for all. */
  lemma {:induction false} StopAt(root: Json, size: Json -> nat, a: Count, item: Json, path: string,
      methods: seq<string>, n: nat, b: Count)
    requires n <= |methods| && Spends(root, size, a, OperationUses(item, path, methods[..n]), false, b)
    ensures Spends(root, size, a, OperationUses(item, path, methods), false, b)
  {
    hide Spends, OperationUse;
    if n == |methods| {
      assert methods[..n] == methods;
    } else {
      var shorter := methods[..|methods| - 1];
      assert shorter[..n] == methods[..n];
      StopAt(root, size, a, item, path, shorter, n, b);
      SpendsTooMuch(root, size, a, OperationUses(item, path, shorter),
        OperationUse(item, path, methods[|methods| - 1]), b);
    }
  }

  // ---- The whole ----

  datatype Outcome = Unchanged(warnings: seq<Warning>) | Replaced(root: Json, warnings: seq<Warning>) | TooLarge

  /** length: the encoded size of the document root was decoded from. */
  method DereferenceParameters(root: Json, length: nat, size: Json -> nat) returns (r: Outcome)
    requires root.Object?
    ensures r.TooLarge? <==>
      AnyInlined(root, AllUses(root)) && length + Total(root, size, AllUses(root)) > MAX_BODY_BYTES
    ensures r.Unchanged? <==> !AnyInlined(root, AllUses(root))
    ensures r.Replaced? ==> IsDereferenced(root, r.root)
    ensures !r.TooLarge? ==> r.warnings == Warnings(root, AllUses(root))
  {
    hide AnyInlined, AllUses, IsDereferenced, Resolve;
    var d := new Dereferencer(root, length, size);
    var ok := d.Paths(root);
    if !ok { return TooLarge; }
    return if d.count.changed then Replaced(d.root, d.count.warnings) else Unchanged(d.count.warnings);
  }

  // ---- What the result means ----

  /** A substituted entry refers to no parameter any more. */
  lemma SubstitutedIsSettled(root: Json, r: Json, p: Json)
    requires SameComponents(root, r)
    ensures Inlined(r, Substituted(root, p)).None?
  {
    hide Resolve, SameComponents;
    var q := Substituted(root, p);
    match LocalRef(q)
    case None =>
    case Some(ref) => ResolveReadsComponents(root, r, ref, MAX_REF_DEPTH);
  }

  lemma ListIsSettled(root: Json, r: Json, params: seq<Json>, place: Where)
    requires SameComponents(root, r)
    ensures !AnyInlined(r, Uses(SubstitutedList(root, params), place))
  {
    hide Inlined, SameComponents, Substituted;
    forall i | 0 <= i < |params| ensures Inlined(r, Uses(SubstitutedList(root, params), place)[i].param).None? {
      SubstitutedIsSettled(root, r, params[i]);
    }
  }

  lemma {:induction false} OperationsAreSettled(root: Json, r: Json, item: Json, item2: Json, path: string,
      methods: seq<string>)
    requires SameComponents(root, r)
    requires forall m :: m in methods ==> IsSubstitutedMember(root, Member(item, m), Member(item2, m))
    ensures !AnyInlined(r, OperationUses(item2, path, methods))
  {
    hide SameComponents, AnyInlined, Member, Uses, SubstitutedList;
    if methods == [] {
      NothingIsInlined(r);
    } else {
      var shorter, m := methods[..|methods| - 1], methods[|methods| - 1];
      assert m in methods && forall k :: k in shorter ==> k in methods;
      OperationsAreSettled(root, r, item, item2, path, shorter);
      OperationIsSettled(root, r, item, item2, path, m);
      AnyOfBoth(r, OperationUses(item2, path, shorter), OperationUse(item2, path, m));
    }
  }

  lemma NothingIsInlined(r: Json)
    ensures !AnyInlined(r, [])
  {}

  lemma OperationIsSettled(root: Json, r: Json, item: Json, item2: Json, path: string, m: string)
    requires SameComponents(root, r) && IsSubstitutedMember(root, Member(item, m), Member(item2, m))
    ensures !AnyInlined(r, OperationUse(item2, path, m))
  {
    hide SameComponents, AnyInlined, Uses, SubstitutedList, PARAMETERS;
    NothingIsInlined(r);
    var op, op2 := Member(item, m), Member(item2, m);
    if op.Some? && op.value.Object? {
      HolderIsSettled(root, r, op.value, op2.value, OfOperation(m, path));
    }
  }

  lemma HolderIsSettled(root: Json, r: Json, holder: Json, holder2: Json, place: Where)
    requires SameComponents(root, r) && IsSubstitutedHolder(root, holder, holder2)
    ensures !AnyInlined(r, Uses(ParamsOf(holder2), place))
  {
    hide SameComponents, AnyInlined, SubstitutedList, PARAMETERS, Get;
    assert Uses([], place) == [];
    NothingIsInlined(r);
    match Member(holder, PARAMETERS())
    case Some(Array(items)) => ListIsSettled(root, r, items, place);
    case _ =>
  }

  lemma ItemIsSettled(root: Json, r: Json, path: string, item: Json, item2: Json)
    requires SameComponents(root, r) && IsSubstitutedPath(root, item, item2)
    ensures !AnyInlined(r, ItemUses(path, item2))
  {
    NothingIsInlined(r);
    hide SameComponents, AnyInlined, SubstitutedList, PARAMETERS, Get, HTTP_METHODS, OperationUses, IsSubstitutedMember;
    if item.Object? {
      assert Uses([], OfPath(path)) == [];
      match Member(item, PARAMETERS()) {
        case Some(Array(items)) => ListIsSettled(root, r, items, OfPath(path));
        case _ =>
      }
      OperationsAreSettled(root, r, item, item2, path, HTTP_METHODS);
      AnyOfBoth(r, Uses(ParamsOf(item2), OfPath(path)), OperationUses(item2, path, HTTP_METHODS));
    }
  }

  lemma {:induction false} PathsAreSettled(root: Json, r: Json, paths: seq<Field>, paths2: seq<Field>)
    requires SameComponents(root, r) && ArePathsSubstituted(root, paths, paths2)
    ensures !AnyInlined(r, PathUses(paths2))
  {
    hide SameComponents, AnyInlined, ItemUses, IsSubstitutedPath;
    if paths2 == [] {
      NothingIsInlined(r);
    } else {
      var n := |paths2| - 1;
      PathsAreSettled(root, r, paths[..n], paths2[..n]);
      ItemIsSettled(root, r, paths2[n].key, paths[n].value, paths2[n].value);
      AnyOfBoth(r, PathUses(paths2[..n]), ItemUses(paths2[n].key, paths2[n].value));
    }
  }

  /** Dereferencing leaves the components as they were and nothing more to
      dereference: a second run changes nothing. */
  lemma SecondRunChangesNothing(root: Json, r: Json)
    requires IsDereferenced(root, r)
    ensures SameComponents(root, r) && !AnyInlined(r, AllUses(r))
  {
    assert |PATHS()| != |COMPONENTS()|;
    assert SameComponents(root, r);
    NothingIsInlined(r);
    hide SameComponents, AnyInlined, PATHS, COMPONENTS, PathUses, Get;
    match Member(root, PATHS())
    case Some(Object(paths)) => PathsAreSettled(root, r, paths, Member(r, PATHS()).value.fields);
    case _ =>
  }
}
