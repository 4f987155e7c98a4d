/** Decoded JSON, the JSON pointers that address it, and which fields of an
    OpenAPI object hold structure, references or example data.

    An object is the list of its fields in the order a walk visits them
    (increasing key order); a lookup takes the first field of a key. */
module JsonModel {

  import opened Base

  datatype Field = Field(key: string, value: Json)

  datatype Json =
    | Null
    | Bool(b: bool)
    | Number(n: int)
    | String(s: string)
    | Array(items: seq<Json>)
    | Object(fields: seq<Field>)

  predicate HasPrefix(s: string, prefix: string) {
    prefix <= s
  }

  /** The index of key's field, or |fields| when there is none. */
  function IndexOf(fields: seq<Field>, key: string): (i: nat)
    ensures i <= |fields|
    ensures i < |fields| ==> fields[i].key == key
    ensures forall j :: 0 <= j < i ==> fields[j].key != key
  {
    if fields == [] || fields[0].key == key then 0 else 1 + IndexOf(fields[1..], key)
  }

  function Get(fields: seq<Field>, key: string): (r: Option<Json>)
    ensures r.Some? ==> exists i :: 0 <= i < |fields| && fields[i] == Field(key, r.value)
    ensures r.None? <==> forall i :: 0 <= i < |fields| ==> fields[i].key != key
  {
    var i := IndexOf(fields, key);
    if i < |fields| then Some(fields[i].value) else None
  }

  /** The member key of v, when v is an object that has one. */
  function Member(v: Json, key: string): Option<Json> {
    if v.Object? then Get(v.fields, key) else None
  }

  /** Sets key to value: in its place when present, at the end otherwise. */
  function Put(fields: seq<Field>, key: string, value: Json): (r: seq<Field>)
    ensures Get(r, key) == Some(value)
    ensures forall k :: k != key ==> Get(r, k) == Get(fields, k)
  {
    var i := IndexOf(fields, key);
    var r := if i < |fields| then fields[i := Field(key, value)] else fields + [Field(key, value)];
    assert Get(r, key) == Some(value) by { IndexIsFirst(r, key, i); }
    assert forall k :: k != key ==> Get(r, k) == Get(fields, k) by {
      forall k | k != key ensures Get(r, k) == Get(fields, k) {
        var j := IndexOf(fields, k);
        if j < |fields| { IndexIsFirst(r, k, j); }
      }
    }
    r
  }

  lemma IndexIsFirst(fields: seq<Field>, key: string, i: nat)
    requires i < |fields| && fields[i].key == key
    requires forall j :: 0 <= j < i ==> fields[j].key != key
    ensures IndexOf(fields, key) == i
  {
    assert IndexOf(fields, key) <= i;
  }

  /** The string "$ref" of an object. */
  function RefOf(v: Json): Option<string> {
    match Member(v, "$ref")
    case Some(String(s)) => Some(s)
    case _ => None
  }

  // ---- JSON pointers (section 4 of RFC 6901) ----

  /** strings.Split on one separator: never empty. */
  function Split(s: string, sep: char): (parts: seq<string>)
    ensures |parts| > 0
  {
    if s == [] then [""]
    else
      var rest := Split(s[1..], sep);
      if s[0] == sep then [""] + rest else [[s[0]] + rest[0]] + rest[1..]
  }

  /** strings.ReplaceAll of the two characters a, b by c. */
  function ReplacePair(s: string, a: char, b: char, c: char): string {
    if |s| < 2 then s
    else if s[0] == a && s[1] == b then [c] + ReplacePair(s[2..], a, b, c)
    else [s[0]] + ReplacePair(s[1..], a, b, c)
  }

  function Unescape(part: string): string {
    ReplacePair(ReplacePair(part, '~', '1', '/'), '~', '0', '~')
  }

  predicate IsDigits(s: string) {
    s != "" && forall i :: 0 <= i < |s| ==> '0' <= s[i] <= '9'
  }

  function DecimalValue(s: string): nat
    requires forall i :: 0 <= i < |s| ==> '0' <= s[i] <= '9'
  {
    if s == "" then 0 else 10 * DecimalValue(s[..|s| - 1]) + (s[|s| - 1] - '0') as nat
  }

  /** n in decimal digits, without leading zeros. */
  function Decimal(n: nat): (r: string)
    ensures IsDigits(r) && DecimalValue(r) == n
  {
    var digit := [('0' as int + n % 10) as char];
    if n < 10 then
      assert digit[..0] == "";
      digit
    else
      var rest := Decimal(n / 10);
      assert (rest + digit)[..|rest + digit| - 1] == rest;
      rest + digit
  }

  /** strconv.Atoi: an optional sign and decimal digits. A value past the
      machine's range is an error there and out of any array's range here. */
  function Atoi(s: string): Option<int> {
    if IsDigits(s) then Some(DecimalValue(s))
    else if s != "" && s[0] == '+' && IsDigits(s[1..]) then Some(DecimalValue(s[1..]))
    else if s != "" && s[0] == '-' && IsDigits(s[1..]) then Some(0 - DecimalValue(s[1..]) as int)
    else None
  }

  function LookupParts(v: Json, parts: seq<string>): Option<Json>
    decreases |parts|
  {
    if parts == [] then Some(v)
    else
      var decoded := Unescape(parts[0]);
      match v
      case Object(fields) =>
        (match Get(fields, decoded)
         case Some(next) => LookupParts(next, parts[1..])
         case None => None)
      case Array(items) =>
        (match Atoi(decoded)
         case Some(i) => if 0 <= i < |items| then LookupParts(items[i], parts[1..]) else None
         case None => None)
      case _ => None
  }

  function PointerParts(pointer: string): seq<string> {
    if pointer == "" then []
    else Split(if HasPrefix(pointer, "/") then pointer[1..] else pointer, '/')
  }

  function PointerLookup(doc: Json, pointer: string): Option<Json> {
    LookupParts(doc, PointerParts(pointer))
  }

  lemma LookupInMember(v: Json, parts: seq<string>, key: string)
    requires v.Object? && |parts| > 0 && Unescape(parts[0]) == key
    ensures LookupParts(v, parts) == match Member(v, key) case Some(next) => LookupParts(next, parts[1..])
      case None => None
  {
    hide Unescape;
  }

  /** Every string inside v, values only. */
  ghost function Strings(v: Json): set<string> {
    match v
    case String(s) => {s}
    case Array(items) => set i, s | 0 <= i < |items| && s in Strings(items[i]) :: s
    case Object(fields) => set i, s | 0 <= i < |fields| && s in Strings(fields[i].value) :: s
    case _ => {}
  }

  /** A pointer reaches only what its document holds. */
  lemma {:induction false} LookupStrings(v: Json, parts: seq<string>)
    requires LookupParts(v, parts).Some?
    ensures Strings(LookupParts(v, parts).value) <= Strings(v)
    decreases |parts|
  {
    if parts != [] {
      var decoded := Unescape(parts[0]);
      match v
      case Object(fields) =>
        var i := IndexOf(fields, decoded);
        LookupStrings(fields[i].value, parts[1..]);
      case Array(items) =>
        LookupStrings(items[Atoi(decoded).value], parts[1..]);
    }
  }

  // The escaping of RFC 6901 and its inverse.

  function Escape(key: string): string {
    if key == "" then ""
    else (if key[0] == '~' then "~0" else if key[0] == '/' then "~1" else [key[0]]) + Escape(key[1..])
  }

  function HalfEscape(key: string): string {
    if key == "" then "" else (if key[0] == '~' then "~0" else [key[0]]) + HalfEscape(key[1..])
  }

  lemma {:induction false} FirstPass(key: string)
    ensures ReplacePair(Escape(key), '~', '1', '/') == HalfEscape(key)
  {
    if key != "" {
      FirstPass(key[1..]);
      var rest := Escape(key[1..]);
      if key[0] == '~' {
        assert Escape(key) == ['~', '0'] + rest;
        assert Escape(key)[1..] == ['0'] + rest;
        assert (['0'] + rest)[1..] == rest;
      } else if key[0] == '/' {
        assert Escape(key) == ['~', '1'] + rest;
        assert Escape(key)[2..] == rest;
      } else {
        assert Escape(key)[1..] == rest;
      }
    }
  }

  lemma {:induction false} SecondPass(key: string)
    ensures ReplacePair(HalfEscape(key), '~', '0', '~') == key
  {
    if key != "" {
      SecondPass(key[1..]);
      var rest := HalfEscape(key[1..]);
      if key[0] == '~' {
        assert HalfEscape(key) == ['~', '0'] + rest;
        assert HalfEscape(key)[2..] == rest;
      } else {
        assert HalfEscape(key)[1..] == rest;
      }
    }
  }

  lemma UnescapeInvertsEscape(key: string)
    ensures Unescape(Escape(key)) == key
  {
    FirstPass(key);
    SecondPass(key);
  }

  lemma {:induction false} EscapeHasNoSlash(key: string)
    ensures '/' !in Escape(key)
  {
    if key != "" { EscapeHasNoSlash(key[1..]); }
  }

  lemma {:induction false} SplitAtFirst(a: string, b: string, sep: char)
    requires sep !in a
    ensures Split(a, sep) == [a]
    ensures Split(a + [sep] + b, sep) == [a] + Split(b, sep)
  {
    if a == "" {
      assert (a + [sep] + b)[1..] == b;
    } else {
      SplitAtFirst(a[1..], b, sep);
      assert (a + [sep] + b)[1..] == a[1..] + [sep] + b;
      assert a == [a[0]] + a[1..];
    }
  }

  lemma {:induction false} PlainReplace(s: string, b: char, c: char)
    requires '~' !in s
    ensures ReplacePair(s, '~', b, c) == s
  {
    if |s| >= 2 { PlainReplace(s[1..], b, c); }
  }

  lemma PlainUnescape(s: string)
    requires '~' !in s
    ensures Unescape(s) == s
  {
    PlainReplace(s, '1', '/');
    PlainReplace(s, '0', '~');
  }

  /** One step into a document: the member of an object, the item of an
      array. */
  datatype Step = AtKey(key: string) | AtIndex(index: nat)
  {
    function Token(): string {
      match this
      case AtKey(key) => Escape(key)
      case AtIndex(index) => Decimal(index)
    }
  }

  /** The pointer of a path. */
  function PointerOf(path: seq<Step>): string {
    if path == [] then "" else "/" + path[0].Token() + PointerOf(path[1..])
  }

  /** Where the steps of path lead from v. */
  function Walk(v: Json, path: seq<Step>): Option<Json>
    decreases |path|
  {
    if path == [] then Some(v)
    else
      match (path[0], v)
      case (AtKey(key), Object(fields)) =>
        (match Get(fields, key) case Some(next) => Walk(next, path[1..]) case None => None)
      case (AtIndex(i), Array(items)) => if i < |items| then Walk(items[i], path[1..]) else None
      case _ => None
  }

  /** The steps name keys of objects and indexes of arrays, as far as they
      lead. A key that is a number would be read as an index of an array. */
  predicate Fits(v: Json, path: seq<Step>)
    decreases |path|
  {
    path == [] ||
    match v
    case Object(fields) =>
      path[0].AtKey? && (Get(fields, path[0].key).Some? ==> Fits(Get(fields, path[0].key).value, path[1..]))
    case Array(items) =>
      path[0].AtIndex? && (path[0].index < |items| ==> Fits(items[path[0].index], path[1..]))
    case _ => true
  }

  function Tokens(path: seq<Step>): seq<string> {
    if path == [] then [] else [path[0].Token()] + Tokens(path[1..])
  }

  lemma TokenHasNoSlash(step: Step)
    ensures '/' !in step.Token()
  {
    match step
    case AtKey(key) => EscapeHasNoSlash(key);
    case AtIndex(i) => assert IsDigits(Decimal(i));
  }

  lemma {:induction false} PartsOfPointer(path: seq<Step>)
    requires path != []
    ensures PointerParts(PointerOf(path)) == Tokens(path)
  {
    hide Step.Token;
    var head, tail := path[0].Token(), path[1..];
    TokenHasNoSlash(path[0]);
    var text := PointerOf(path);
    assert text == ['/'] + head + PointerOf(tail);
    if tail == [] {
      assert PointerOf(tail) == "" && Tokens(tail) == [];
      assert text[1..] == head;
      SplitAtFirst(head, "", '/');
    } else {
      PartsOfPointer(tail);
      var rest := PointerOf(tail)[1..];
      assert PointerOf(tail) == ['/'] + rest;
      assert text[1..] == head + ['/'] + rest;
      SplitAtFirst(head, rest, '/');
      assert PointerParts(PointerOf(tail)) == Split(rest, '/');
    }
    assert Tokens(path) == [head] + Tokens(tail);
  }

  lemma TokenIsRead(step: Step)
    ensures step.AtKey? ==> Unescape(step.Token()) == step.key
    ensures step.AtIndex? ==> Atoi(Unescape(step.Token())) == Some(step.index)
  {
    match step
    case AtKey(key) => UnescapeInvertsEscape(key);
    case AtIndex(i) => PlainUnescape(Decimal(i));
  }

  lemma {:induction false} TokensLookUp(v: Json, path: seq<Step>)
    requires Fits(v, path)
    ensures LookupParts(v, Tokens(path)) == Walk(v, path)
    decreases |path|
  {
    if path != [] {
      hide Step.Token, Unescape, Atoi;
      TokenIsRead(path[0]);
      match (path[0], v)
      case (AtKey(key), Object(fields)) =>
        if Get(fields, key).Some? { TokensLookUp(Get(fields, key).value, path[1..]); }
      case (AtIndex(i), Array(items)) =>
        if i < |items| { TokensLookUp(items[i], path[1..]); }
      case _ =>
    }
  }

  /** Whatever characters its keys hold, the pointer of a path looks up exactly
      where the path leads. */
  lemma PointerRoundTrip(v: Json, path: seq<Step>)
    requires Fits(v, path)
    ensures PointerLookup(v, PointerOf(path)) == Walk(v, path)
  {
    if path != [] { PartsOfPointer(path); }
    TokensLookUp(v, path);
  }

  /** Every value a pointer reaches has a path that leads there. */
  lemma {:induction false} PointedHasPath(v: Json, parts: seq<string>) returns (path: seq<Step>)
    requires LookupParts(v, parts).Some?
    ensures Fits(v, path) && Walk(v, path) == LookupParts(v, parts)
    decreases |parts|
  {
    if parts == [] {
      path := [];
    } else {
      hide Unescape, Atoi;
      var decoded := Unescape(parts[0]);
      match v
      case Object(fields) =>
        var rest := PointedHasPath(Get(fields, decoded).value, parts[1..]);
        path := [AtKey(decoded)] + rest;
        assert path[1..] == rest;
      case Array(items) =>
        var i: nat := Atoi(decoded).value;
        var rest := PointedHasPath(items[i], parts[1..]);
        path := [AtIndex(i)] + rest;
        assert path[1..] == rest;
    }
  }

  // ---- Which fields hold structure ----

  const NAME_KEYED_MAPS: set<string> := {
    "properties", "patternProperties", "$defs", "definitions", "dependentSchemas", "dependencies",
    "paths", "webhooks", "schemas", "responses", "parameters", "requestBodies",
    "headers", "securitySchemes", "links", "callbacks", "pathItems", "content", "encoding"
  }

  /** value, the field key of an object, maps names an author chose to
      objects: its members are objects whatever they are named. */
  predicate IsNameKeyed(key: string, value: Json) {
    value.Object? && key in NAME_KEYED_MAPS
  }

  /** The field key of an object holds example data. */
  predicate IsExamplePayload(key: string) {
    key == "example" || key == "examples"
  }
}
