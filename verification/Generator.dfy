/** The endpoints generated for an AutoConfig's operations. */
module Generator {
  import opened Base
  import opened Cluster

  // ---- Endpoint names ----

  /** The Kubernetes limit on the name of an object. */
  const MAX_NAME_LENGTH: nat := 253

  predicate IsAlphanumeric(c: char) {
    'a' <= c <= 'z' || '0' <= c <= '9'
  }

  predicate IsNameChar(c: char) {
    IsAlphanumeric(c) || c == '-'
  }

  /** A DNS-1123 subdomain: labels joined by dots, each of which starts and ends
      with a letter or a digit. */
  predicate IsObjectName(s: string) {
    && 0 < |s| <= MAX_NAME_LENGTH
    && IsAlphanumeric(s[0]) && IsAlphanumeric(s[|s| - 1])
    && forall i :: 0 <= i < |s| ==> IsNameChar(s[i]) || IsLabelEnd(s, i)
  }

  /** A dot between two labels. */
  predicate IsLabelEnd(s: string, i: nat)
    requires i < |s|
  {
    s[i] == '.' && 0 < i < |s| - 1 && IsAlphanumeric(s[i - 1]) && IsAlphanumeric(s[i + 1])
  }

  function TrimDashes(s: string): (r: string)
    ensures r <= s && (r != "" ==> r[|r| - 1] != '-')
    ensures forall i :: |r| <= i < |s| ==> s[i] == '-'
  {
    if s != "" && s[|s| - 1] == '-' then TrimDashes(s[..|s| - 1]) else s
  }

  function TrimDashesLeft(s: string): (r: string)
    ensures forall c :: c in r ==> c in s
    ensures r != "" ==> r[0] != '-'
  {
    if s != "" && s[0] == '-' then TrimDashesLeft(s[1..]) else s
  }

  function LimitName(name: string): string {
    TrimDashes(if |name| > MAX_NAME_LENGTH then name[..MAX_NAME_LENGTH] else name)
  }

  /** Each character of s outside [a-z0-9-] is replaced: by nothing when
      dash is false. */
  function KeepNameChars(s: string, dash: bool): (r: string)
    ensures forall c :: c in r ==> IsNameChar(c)
  {
    if s == "" then ""
    else (if IsNameChar(s[0]) then [s[0]] else if dash then "-" else "") + KeepNameChars(s[1..], dash)
  }

  function SlashesToDashes(s: string): string {
    seq(|s|, i requires 0 <= i < |s| => if s[i] == '/' then '-' else s[i])
  }

  datatype Operation = Operation(verb: string, path: string, id: string)

  /** lower: Unicode lower-casing. */
  datatype Naming = Naming(autoConfig: string, lower: string -> string)
  {
    function SanitizeName(s: string): (r: string)
      ensures forall c :: c in r ==> IsNameChar(c)
    {
      TrimDashes(TrimDashesLeft(KeepNameChars(lower(s), true)))
    }

    function SanitizePath(path: string): (r: string)
      ensures forall c :: c in r ==> IsNameChar(c)
    {
      var rest := if path != "" && path[0] == '/' then path[1..] else path;
      TrimDashes(TrimDashesLeft(KeepNameChars(SlashesToDashes(lower(rest)), false)))
    }

    function EndpointName(op: Operation): string {
      if op.id != "" then LimitName(autoConfig + "-" + SanitizeName(op.id))
      else LimitName(autoConfig + "-" + lower(op.verb) + "-" + SanitizePath(op.path))
    }
  }

  /** At most dashes are cut from what an object name starts. */
  lemma LimitedKeeps(prefix: string, name: string)
    requires IsObjectName(prefix) && prefix <= name
    ensures prefix <= LimitName(name) <= name && |LimitName(name)| <= MAX_NAME_LENGTH
    ensures LimitName(name)[|LimitName(name)| - 1] != '-'
  {
    var cut := if |name| > MAX_NAME_LENGTH then name[..MAX_NAME_LENGTH] else name;
    assert prefix <= cut;
    assert cut[|prefix| - 1] == prefix[|prefix| - 1];
  }

  lemma LimitedNameIsValid(prefix: string, rest: string)
    requires IsObjectName(prefix) && forall c :: c in rest ==> IsNameChar(c)
    ensures IsObjectName(LimitName(prefix + "-" + rest)) && prefix <= LimitName(prefix + "-" + rest)
  {
    var dash := "-";
    var name := prefix + dash + rest;
    LimitedKeeps(prefix, name);
    var r := LimitName(name);
    hide LimitName;
    forall i | 0 <= i < |r| ensures IsNameChar(r[i]) || IsLabelEnd(r, i) {
      if i < |prefix| {
        assert r[i] == prefix[i];
        if i + 1 < |prefix| { assert r[i + 1] == prefix[i + 1]; }
      } else if i > |prefix| {
        assert r[i] == name[i] == rest[i - |prefix| - 1];
      }
    }
    assert r[0] == prefix[0] && r[|prefix| - 1] == prefix[|prefix| - 1];
  }

  /** An object name that starts with the AutoConfig's, whatever the
      operation is called. */
  lemma EndpointNameIsValid(naming: Naming, op: Operation)
    requires IsObjectName(naming.autoConfig)
    requires op.id == "" ==> forall c :: c in naming.lower(op.verb) ==> IsNameChar(c)
    ensures IsObjectName(naming.EndpointName(op)) && naming.autoConfig <= naming.EndpointName(op)
  {
    if op.id != "" {
      LimitedNameIsValid(naming.autoConfig, naming.SanitizeName(op.id));
    } else {
      var rest := naming.lower(op.verb) + "-" + naming.SanitizePath(op.path);
      assert naming.autoConfig + "-" + naming.lower(op.verb) + "-" + naming.SanitizePath(op.path) ==
        naming.autoConfig + "-" + rest;
      LimitedNameIsValid(naming.autoConfig, rest);
    }
  }

  /** A name part that needs no cleaning. */
  predicate IsPlain(s: string) {
    s != "" && s[0] != '-' && s[|s| - 1] != '-' && forall i :: 0 <= i < |s| ==> IsNameChar(s[i])
  }

  lemma {:induction false} PlainIsKept(s: string, dash: bool)
    requires forall i :: 0 <= i < |s| ==> IsNameChar(s[i])
    ensures KeepNameChars(s, dash) == s
  {
    if s != "" {
      PlainIsKept(s[1..], dash);
      assert s == [s[0]] + s[1..];
    }
  }

  /** An operation with a plain id is named by it, in lower case and in full
      while the name is short enough, so different ids give different names. */
  lemma PlainIdsDiffer(naming: Naming, a: Operation, b: Operation)
    requires a.id != "" && b.id != "" && IsPlain(naming.lower(a.id)) && IsPlain(naming.lower(b.id))
    requires |naming.autoConfig| + 1 + |naming.lower(a.id)| <= 253
    requires |naming.autoConfig| + 1 + |naming.lower(b.id)| <= 253
    ensures naming.EndpointName(a) == naming.autoConfig + "-" + naming.lower(a.id)
    ensures naming.EndpointName(a) == naming.EndpointName(b) ==> naming.lower(a.id) == naming.lower(b.id)
  {
    PlainIdIsTheName(naming, a);
    PlainIdIsTheName(naming, b);
    var front := naming.autoConfig + "-";
    assert (front + naming.lower(a.id))[|front|..] == naming.lower(a.id);
    assert (front + naming.lower(b.id))[|front|..] == naming.lower(b.id);
  }

  lemma PlainIdIsTheName(naming: Naming, op: Operation)
    requires op.id != "" && IsPlain(naming.lower(op.id))
    requires |naming.autoConfig| + 1 + |naming.lower(op.id)| <= 253
    ensures naming.EndpointName(op) == naming.autoConfig + "-" + naming.lower(op.id)
  {
    hide KeepNameChars;
    var kept := naming.lower(op.id);
    PlainIsKept(kept, true);
    assert TrimDashesLeft(kept) == kept && TrimDashes(kept) == kept;
    hide TrimDashesLeft, IsPlain;
    assert naming.SanitizeName(op.id) == kept;
    LimitedPlain(naming.autoConfig, kept);
  }

  lemma LimitedPlain(prefix: string, rest: string)
    requires rest != "" && rest[|rest| - 1] != '-' && |prefix| + 1 + |rest| <= 253
    ensures LimitName(prefix + "-" + rest) == prefix + "-" + rest
  {
    var name := prefix + "-" + rest;
    assert name[|name| - 1] == rest[|rest| - 1];
  }

  // ---- Duplicates ----

  /** What an operation may not share with one generated before it. */
  datatype Claim = Claim(key: string, id: string, name: string)

  function ClaimOf(naming: Naming, op: Operation): Claim {
    Claim(op.path + ":" + op.verb, op.id, naming.EndpointName(op))
  }

  predicate Duplicates(a: Claim, b: Claim) {
    a.key == b.key || (a.id != "" && a.id == b.id) || a.name == b.name
  }

  datatype Reason = SameOperation(taker: nat) | SameId(taker: nat) | SameName(taker: nat)

  /** The i-th operation is generated: it duplicates none generated before it. */
  ghost predicate IsNew(claims: seq<Claim>, flags: seq<bool>, i: nat)
    requires i < |claims| && i <= |flags|
  {
    forall j :: 0 <= j < i && flags[j] ==> !Duplicates(claims[i], claims[j])
  }

  /** flags says which of the first operations are generated. */
  ghost predicate Generates(claims: seq<Claim>, flags: seq<bool>) {
    |flags| <= |claims| && forall i :: 0 <= i < |flags| ==> (flags[i] <==> IsNew(claims, flags, i))
  }

  /** Which operations are generated is settled by the operations alone. */
  lemma {:induction false} GeneratesOneWay(claims: seq<Claim>, a: seq<bool>, b: seq<bool>, n: nat)
    requires Generates(claims, a) && Generates(claims, b) && n <= |a| && n <= |b|
    ensures forall i :: 0 <= i < n ==> a[i] == b[i]
  {
    if n > 0 {
      GeneratesOneWay(claims, a, b, n - 1);
      assert IsNew(claims, a, n - 1) <==> IsNew(claims, b, n - 1);
    }
  }

  lemma GeneratesOneMore(claims: seq<Claim>, flags: seq<bool>)
    requires Generates(claims, flags) && |flags| < |claims|
    ensures Generates(claims, flags + [IsNew(claims, flags, |flags|)])
  {
    hide Duplicates;
    var more := flags + [IsNew(claims, flags, |flags|)];
    forall i | 0 <= i <= |flags| ensures IsNew(claims, more, i) <==> IsNew(claims, flags, i) {}
  }

  /** The operations flags marks, in order. */
  function Marked<T>(items: seq<T>, flags: seq<bool>): (r: seq<T>)
    requires |items| == |flags|
  {
    if items == [] then []
    else Marked(items[..|items| - 1], flags[..|items| - 1]) + if flags[|items| - 1] then [items[|items| - 1]] else []
  }

  datatype Part = RouteKey | Id | EndpointName

  /** The claim's part, unless it claims none: an operation without an id. */
  function PartOf(c: Claim, part: Part): Option<string> {
    match part
    case RouteKey => Some(c.key)
    case Id => if c.id == "" then None else Some(c.id)
    case EndpointName => Some(c.name)
  }

  /** A generated operation among the first n claims the part k. */
  ghost predicate Claimed(claims: seq<Claim>, flags: seq<bool>, n: nat, part: Part, k: string)
    requires n <= |flags| && n <= |claims|
  {
    exists j :: 0 <= j < n && flags[j] && PartOf(claims[j], part) == Some(k)
  }

  /** The generated operation that took the i-th one's place, by the first
      of its claims that is taken. */
  ghost predicate Blames(claims: seq<Claim>, flags: seq<bool>, i: nat, reason: Reason)
    requires i < |claims| && i <= |flags|
  {
    var c := claims[i];
    && reason.taker < i && flags[reason.taker]
    && match reason
       case SameOperation(taker) => claims[taker].key == c.key
       case SameId(taker) => claims[taker].id == c.id != "" && !Claimed(claims, flags, i, RouteKey, c.key)
       case SameName(taker) =>
         && claims[taker].name == c.name && !Claimed(claims, flags, i, RouteKey, c.key)
         && !Claimed(claims, flags, i, Id, c.id)
  }

  lemma NewIffUnclaimed(claims: seq<Claim>, flags: seq<bool>, i: nat)
    requires i < |claims| && i <= |flags|
    ensures IsNew(claims, flags, i) <==>
      (!Claimed(claims, flags, i, RouteKey, claims[i].key) && !Claimed(claims, flags, i, Id, claims[i].id) &&
       !Claimed(claims, flags, i, EndpointName, claims[i].name))
  {
    forall j | 0 <= j < i && flags[j]
      ensures Duplicates(claims[i], claims[j]) <==>
        (PartOf(claims[j], RouteKey) == Some(claims[i].key) || PartOf(claims[j], Id) == Some(claims[i].id) ||
         PartOf(claims[j], EndpointName) == Some(claims[i].name))
    {}
    hide Duplicates, PartOf;
  }

  // ---- The generator ----

  /** The claims seen so far, each with the operation that made it. */
  datatype Seen = Seen(keys: map<string, nat>, ids: map<string, nat>, names: map<string, nat>)
  {
    function DuplicateOf(c: Claim): Option<Reason> {
      if c.key in keys then Some(SameOperation(keys[c.key]))
      else if c.id in ids && c.id != "" then Some(SameId(ids[c.id]))
      else if c.name in names then Some(SameName(names[c.name]))
      else None
    }

    function Add(c: Claim, i: nat): Seen {
      Seen(keys[c.key := i], if c.id != "" then ids[c.id := i] else ids, names[c.name := i])
    }

    /** What is seen is what the generated operations claim. */
    ghost predicate Records(claims: seq<Claim>, flags: seq<bool>) {
      && |flags| <= |claims|
      && Tracks(keys, RouteKey, claims, flags) && Tracks(ids, Id, claims, flags) &&
        Tracks(names, EndpointName, claims, flags)
    }
  }

  /** seen maps each claimed part to a generated operation that claims it. */
  ghost predicate Tracks(seen: map<string, nat>, part: Part, claims: seq<Claim>, flags: seq<bool>)
    requires |flags| <= |claims|
  {
    && (forall j :: 0 <= j < |flags| && flags[j] && PartOf(claims[j], part).Some? ==>
          PartOf(claims[j], part).value in seen)
    && (forall k :: k in seen ==> seen[k] < |flags| && flags[seen[k]] && PartOf(claims[seen[k]], part) == Some(k))
  }

  lemma TracksOneMore(seen: map<string, nat>, part: Part, claims: seq<Claim>, flags: seq<bool>)
    requires |flags| < |claims| && Tracks(seen, part, claims, flags)
    ensures Tracks(seen, part, claims, flags + [false])
    ensures var claimed := PartOf(claims[|flags|], part);
      Tracks(if claimed.Some? then seen[claimed.value := |flags|] else seen, part, claims, flags + [true])
  {
    hide PartOf;
    assert forall j :: 0 <= j < |flags| ==> (flags + [false])[j] == flags[j] && (flags + [true])[j] == flags[j];
  }

  /** A part is in seen exactly when a generated operation claims it. */
  lemma TracksFinds(seen: map<string, nat>, part: Part, claims: seq<Claim>, flags: seq<bool>, k: string)
    requires |flags| <= |claims| && Tracks(seen, part, claims, flags)
    ensures k in seen <==> Claimed(claims, flags, |flags|, part, k)
    ensures k in seen ==> seen[k] < |flags| && flags[seen[k]] && PartOf(claims[seen[k]], part) == Some(k)
  {
    hide PartOf;
  }

  /** Looking a claim up finds what it duplicates, if anything. */
  lemma LookupIsExact(seen: Seen, claims: seq<Claim>, flags: seq<bool>)
    requires |flags| < |claims| && seen.Records(claims, flags)
    ensures var dup := seen.DuplicateOf(claims[|flags|]);
      && (dup.None? <==> IsNew(claims, flags, |flags|))
      && (dup.Some? ==> Blames(claims, flags, |flags|, dup.value))
  {
    hide Tracks, Claimed, IsNew;
    var c := claims[|flags|];
    TracksFinds(seen.keys, RouteKey, claims, flags, c.key);
    TracksFinds(seen.ids, Id, claims, flags, c.id);
    TracksFinds(seen.names, EndpointName, claims, flags, c.name);
    NewIffUnclaimed(claims, flags, |flags|);
    if c.id == "" { NobodyClaimsBlank(claims, flags, |flags|); }
  }

  lemma NobodyClaimsBlank(claims: seq<Claim>, flags: seq<bool>, n: nat)
    requires n <= |flags| && n <= |claims|
    ensures !Claimed(claims, flags, n, Id, "")
  {}

  lemma RecordsOneMore(seen: Seen, claims: seq<Claim>, flags: seq<bool>)
    requires |flags| < |claims| && seen.Records(claims, flags)
    ensures seen.Records(claims, flags + [false])
    ensures seen.Add(claims[|flags|], |flags|).Records(claims, flags + [true])
  {
    hide Tracks;
    TracksOneMore(seen.keys, RouteKey, claims, flags);
    TracksOneMore(seen.ids, Id, claims, flags);
    TracksOneMore(seen.names, EndpointName, claims, flags);
  }

  /** The name, the labels and the spec of the endpoint of an operation. */
  datatype Template = Template(naming: Naming, labels: Labels, spec: Operation -> Spec)
  {
    function Endpoint(op: Operation): Desired {
      Desired(naming.EndpointName(op), labels, spec(op))
    }
  }

  function Endpoints(t: Template, ops: seq<Operation>): (r: seq<Desired>)
    ensures |r| == |ops|
  {
    seq(|ops|, i requires 0 <= i < |ops| => t.Endpoint(ops[i]))
  }

  function Claims(naming: Naming, ops: seq<Operation>): (r: seq<Claim>)
    ensures |r| == |ops|
  {
    seq(|ops|, i requires 0 <= i < |ops| => ClaimOf(naming, ops[i]))
  }

  lemma {:induction false} MarkedFrom<T>(items: seq<T>, flags: seq<bool>, k: nat) returns (i: nat)
    requires |items| == |flags| && k < |Marked(items, flags)|
    ensures i < |items| && flags[i] && items[i] == Marked(items, flags)[k]
    ensures |Marked(items[..i], flags[..i])| == k
  {
    var n := |items| - 1;
    var front := Marked(items[..n], flags[..n]);
    if k < |front| {
      i := MarkedFrom(items[..n], flags[..n], k);
      assert items[..n][..i] == items[..i] && flags[..n][..i] == flags[..i];
    } else {
      i := n;
    }
  }

  lemma {:induction false} MarkedGrows<T>(items: seq<T>, flags: seq<bool>, i: nat, j: nat)
    requires |items| == |flags| && i <= j <= |items|
    ensures |Marked(items[..i], flags[..i])| <= |Marked(items[..j], flags[..j])|
  {
    if i < j {
      MarkedGrows(items, flags, i, j - 1);
      assert items[..j][..j - 1] == items[..j - 1] && flags[..j][..j - 1] == flags[..j - 1];
    }
  }

  /** Generated endpoints have pairwise distinct names. */
  lemma GeneratedNamesAreDistinct(t: Template, ops: seq<Operation>, flags: seq<bool>)
    requires |flags| == |ops| && Generates(Claims(t.naming, ops), flags)
    ensures Distinct(Marked(Endpoints(t, ops), flags))
  {
    var all := Endpoints(t, ops);
    var made := Marked(all, flags);
    forall a, b | 0 <= a < b < |made| ensures made[a].name != made[b].name {
      var i := MarkedFrom(all, flags, a);
      var j := MarkedFrom(all, flags, b);
      if j <= i { MarkedGrows(all, flags, j, i); }
      assert IsNew(Claims(t.naming, ops), flags, j);
      assert !Duplicates(Claims(t.naming, ops)[j], Claims(t.naming, ops)[i]);
    }
  }

  /** a and b have one path and method, one id, or one endpoint name. */
  predicate Share(naming: Naming, a: Operation, b: Operation) {
    || a.path + ":" + a.verb == b.path + ":" + b.verb
    || (a.id != "" && a.id == b.id)
    || naming.EndpointName(a) == naming.EndpointName(b)
  }

  /** The generated operations are as many as there can be: no two of them
      share a path and method, an id or an endpoint name, and each other one
      shares one with one of them. Operations that share nothing are all
      generated. */
  lemma GeneratesAllItCan(naming: Naming, ops: seq<Operation>, flags: seq<bool>)
    requires |flags| == |ops| && Generates(Claims(naming, ops), flags)
    ensures forall i, j :: 0 <= i < |ops| && 0 <= j < |ops| && i != j && flags[i] && flags[j] ==>
      && (ops[i].path != ops[j].path || ops[i].verb != ops[j].verb)
      && (ops[i].id != "" ==> ops[i].id != ops[j].id)
      && naming.EndpointName(ops[i]) != naming.EndpointName(ops[j])
    ensures forall i :: 0 <= i < |ops| && !flags[i] ==>
      exists j :: 0 <= j < |ops| && flags[j] && Share(naming, ops[i], ops[j])
    ensures (forall i, j :: 0 <= i < |ops| && 0 <= j < |ops| && i != j ==> !Share(naming, ops[i], ops[j])) ==>
      flags == seq(|ops|, _ => true)
  {
    var claims := Claims(naming, ops);
    assert forall i :: 0 <= i < |ops| ==> claims[i] == ClaimOf(naming, ops[i]);
    forall i, j | 0 <= i < |ops| && 0 <= j < |ops|
      ensures Duplicates(claims[i], claims[j]) <==> Share(naming, ops[i], ops[j])
    {}
    hide ClaimOf, Claims, Duplicates;
    forall i, j | 0 <= i < |ops| && 0 <= j < |ops| && i != j && flags[i] && flags[j]
      ensures !Share(naming, ops[i], ops[j])
    {
      if i < j {
        assert IsNew(claims, flags, j);
        assert !Duplicates(claims[j], claims[i]);
      } else {
        assert IsNew(claims, flags, i);
      }
    }
    forall i | 0 <= i < |ops| && !flags[i]
      ensures exists j :: 0 <= j < |ops| && flags[j] && Share(naming, ops[i], ops[j])
    {
      assert !IsNew(claims, flags, i);
    }
  }

  /** The operations not generated, by index and in order, each with why. */
  ghost predicate Skips(claims: seq<Claim>, flags: seq<bool>, skipped: seq<(nat, Reason)>) {
    && |flags| <= |claims|
    && (forall k :: 0 <= k < |skipped| ==>
          skipped[k].0 < |flags| && !flags[skipped[k].0] && Blames(claims, flags, skipped[k].0, skipped[k].1))
    && (forall a, b :: 0 <= a < b < |skipped| ==> skipped[a].0 < skipped[b].0)
    && (forall i :: 0 <= i < |flags| && !flags[i] ==> exists k :: 0 <= k < |skipped| && skipped[k].0 == i)
  }

  lemma SkipsOneMore(claims: seq<Claim>, flags: seq<bool>, skipped: seq<(nat, Reason)>, reason: Reason)
    requires Skips(claims, flags, skipped) && |flags| < |claims|
    requires Blames(claims, flags, |flags|, reason)
    ensures Skips(claims, flags + [false], skipped + [(|flags|, reason)])
  {
    hide Blames;
    BlamesEarlier(claims, flags, false);
    var more := skipped + [(|flags|, reason)];
    forall i | 0 <= i < |flags| && !flags[i] ensures exists k :: 0 <= k < |more| && more[k].0 == i {
      var k :| 0 <= k < |skipped| && skipped[k].0 == i;
      assert more[k].0 == i;
    }
    assert more[|skipped|].0 == |flags|;
  }

  lemma SkipsAsMany(claims: seq<Claim>, flags: seq<bool>, skipped: seq<(nat, Reason)>)
    requires Skips(claims, flags, skipped) && |flags| < |claims|
    ensures Skips(claims, flags + [true], skipped)
  {
    hide Blames;
    BlamesEarlier(claims, flags, true);
    assert forall i :: 0 <= i < |flags| ==> (flags + [true])[i] == flags[i];
  }

  lemma BlamesEarlier(claims: seq<Claim>, flags: seq<bool>, flag: bool)
    requires |flags| < |claims|
    ensures forall i, r :: 0 <= i <= |flags| ==> (Blames(claims, flags + [flag], i, r) <==> Blames(claims, flags, i, r))
  {
    assert forall i :: 0 <= i < |flags| ==> (flags + [flag])[i] == flags[i];
  }

  /** Each operation whose route, id and endpoint name are new gets an
      endpoint; the others are skipped, with the operation that took theirs. */
  method Generate(t: Template, ops: seq<Operation>)
    returns (endpoints: seq<Desired>, skipped: seq<(nat, Reason)>, ghost flags: seq<bool>)
    ensures |flags| == |ops| && Generates(Claims(t.naming, ops), flags)
    ensures endpoints == Marked(Endpoints(t, ops), flags) && Distinct(endpoints)
    ensures Skips(Claims(t.naming, ops), flags, skipped)
  {
    hide Blames, IsNew, Generates, Skips, Tracks, Seen.DuplicateOf;
    endpoints, skipped, flags := [], [], [];
    var seen := Seen(map[], map[], map[]);
    ghost var claims, all := Claims(t.naming, ops), Endpoints(t, ops);
    NothingGenerated(claims);
    for n := 0 to |ops|
      invariant |flags| == n && Generates(claims, flags)
      invariant seen.Records(claims, flags)
      invariant endpoints == Marked(all[..n], flags)
      invariant Skips(claims, flags, skipped)
    {
      var claim := ClaimOf(t.naming, ops[n]);
      var dup := seen.DuplicateOf(claim);
      LookupIsExact(seen, claims, flags);
      GeneratesOneMore(claims, flags);
      RecordsOneMore(seen, claims, flags);
      FirstOf(all, n);
      MarkedOneMore(all[..n], flags, t.Endpoint(ops[n]), dup.None?);
      if dup.Some? {
        SkipsOneMore(claims, flags, skipped, dup.value);
        skipped := skipped + [(n, dup.value)];
      } else {
        SkipsAsMany(claims, flags, skipped);
        seen := seen.Add(claim, n);
        endpoints := endpoints + [t.Endpoint(ops[n])];
      }
      flags := flags + [dup.None?];
    }
    FirstOf(all, |ops|);
    GeneratedNamesAreDistinct(t, ops, flags);
  }

  lemma NothingGenerated(claims: seq<Claim>)
    ensures Generates(claims, []) && Skips(claims, [], [])
    ensures Seen(map[], map[], map[]).Records(claims, [])
  {}

  lemma FirstOf<T>(items: seq<T>, n: nat)
    requires n <= |items|
    ensures n < |items| ==> items[..n + 1] == items[..n] + [items[n]]
    ensures n == |items| ==> items[..n] == items
  {}

  lemma MarkedOneMore<T>(items: seq<T>, flags: seq<bool>, item: T, flag: bool)
    requires |items| == |flags|
    ensures Marked(items + [item], flags + [flag]) == Marked(items, flags) + if flag then [item] else []
  {
    assert (items + [item])[..|items|] == items && (flags + [flag])[..|items|] == flags;
  }
}
