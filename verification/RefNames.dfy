/** The local names inlined targets get. */
module RefNames {
  import opened Base
  import opened JsonModel

  predicate IsNameChar(c: char) {
    'A' <= c <= 'Z' || 'a' <= c <= 'z' || '0' <= c <= '9' || c == '_'
  }

  predicate IsName(s: string) {
    s != "" && forall i :: 0 <= i < |s| ==> IsNameChar(s[i])
  }

  function TrimLeft(s: string, c: char): string {
    if s != "" && s[0] == c then TrimLeft(s[1..], c) else s
  }

  function TrimRight(s: string, c: char): string {
    if s != "" && s[|s| - 1] == c then TrimRight(s[..|s| - 1], c) else s
  }

  function SkipOthers(s: string): (r: string)
    ensures |r| <= |s|
  {
    if s == "" || IsNameChar(s[0]) then s else SkipOthers(s[1..])
  }

  /** Each run of characters outside [A-Za-z0-9_] becomes one underscore. */
  function ReplaceRuns(s: string): (r: string)
    ensures s != "" ==> IsName(r)
    decreases |s|
  {
    if s == "" then ""
    else if IsNameChar(s[0]) then
      var rest := ReplaceRuns(s[1..]);
      [s[0]] + rest
    else
      var rest := ReplaceRuns(SkipOthers(s[1..]));
      "_" + rest
  }

  function JoinNonEmpty(parts: seq<string>): string {
    if parts == [] then ""
    else
      var rest := JoinNonEmpty(parts[1..]);
      if parts[0] == "" then rest
      else if rest == "" then parts[0]
      else parts[0] + "_" + rest
  }

  /** The local name of fragment of the document whose URL path has the base
      name docBase, without its extension. */
  function SanitizeRefName(docBase: string, fragment: string): (r: string)
    ensures IsName(r)
  {
    var fragPart := JoinNonEmpty(PointerParts(fragment));
    var name := TrimRight(TrimLeft(docBase + "_" + fragPart, '_'), '_');
    ReplaceRuns(if name == "" then "external_ref" else name)
  }

  // ---- What a name says ----

  /** The letters and digits of s, in order. */
  function Letters(s: string): string {
    if s == "" then ""
    else (if IsNameChar(s[0]) && s[0] != '_' then [s[0]] else []) + Letters(s[1..])
  }

  lemma {:induction false} LettersOfBoth(a: string, b: string)
    ensures Letters(a + b) == Letters(a) + Letters(b)
  {
    if a == "" {
      assert a + b == b;
    } else {
      assert (a + b)[1..] == a[1..] + b;
      LettersOfBoth(a[1..], b);
    }
  }

  lemma {:induction false} LettersOfTrimmed(s: string)
    ensures Letters(TrimLeft(s, '_')) == Letters(s) == Letters(TrimRight(s, '_'))
    decreases |s|
  {
    if s != "" {
      if s[0] == '_' { LettersOfTrimmed(s[1..]); }
      if s[|s| - 1] == '_' {
        LettersOfTrimmed(s[..|s| - 1]);
        LettersOfBoth(s[..|s| - 1], "_");
        assert s == s[..|s| - 1] + "_";
      }
    }
  }

  lemma {:induction false} LettersOfReplaced(s: string)
    ensures Letters(SkipOthers(s)) == Letters(s) == Letters(ReplaceRuns(s))
    decreases |s|
  {
    if s != "" {
      LettersOfReplaced(s[1..]);
      if IsNameChar(s[0]) {
        assert ReplaceRuns(s) == [s[0]] + ReplaceRuns(s[1..]);
      } else {
        LettersOfReplaced(SkipOthers(s[1..]));
        assert ReplaceRuns(s) == "_" + ReplaceRuns(SkipOthers(s[1..]));
      }
    }
  }

  lemma NoLetters()
    ensures Letters("") == "" && Letters("_") == "" && Letters("/") == ""
  {}

  lemma {:induction false} LettersOfSplit(s: string)
    ensures Letters(JoinNonEmpty(Split(s, '/'))) == Letters(s)
  {
    hide JoinNonEmpty, Letters;
    NoLetters();
    if s == "" {
      OnePart("");
    } else {
      var rest := Split(s[1..], '/');
      LettersOfSplit(s[1..]);
      LettersOfBoth([s[0]], s[1..]);
      assert s == [s[0]] + s[1..];
      if s[0] == '/' {
        LettersOfJoined("", rest);
      } else {
        assert rest == [rest[0]] + rest[1..];
        LettersOfJoined(rest[0], rest[1..]);
        LettersOfJoined([s[0]] + rest[0], rest[1..]);
        LettersOfBoth([s[0]], rest[0]);
        hide Split;
        var mine, first := [s[0]], rest[0];
        assert (Letters(mine) + Letters(first)) + Letters(JoinNonEmpty(rest[1..])) ==
          Letters(mine) + (Letters(first) + Letters(JoinNonEmpty(rest[1..])));
      }
    }
  }

  lemma OnePart(part: string)
    ensures JoinNonEmpty([part]) == part
  {}

  lemma LettersOfJoined(part: string, parts: seq<string>)
    ensures Letters(JoinNonEmpty([part] + parts)) == Letters(part) + Letters(JoinNonEmpty(parts))
  {
    var all, rest := [part] + parts, JoinNonEmpty(parts);
    assert all[1..] == parts;
    LettersOfBoth(part, "_" + rest);
    assert part + "_" + rest == part + ("_" + rest);
    assert ("_" + rest)[1..] == rest;
    assert Letters("_" + rest) == Letters(rest);
  }

  /** A name has every letter and digit of the document's base name and of the
      fragment, in order, and no other while there is one. */
  lemma NameHasTheLetters(docBase: string, fragment: string)
    ensures Letters(docBase + fragment) != "" ==>
      Letters(SanitizeRefName(docBase, fragment)) == Letters(docBase + fragment)
  {
    var fragPart := JoinNonEmpty(PointerParts(fragment));
    LettersOfPointer(fragment);
    LettersOfBoth(docBase, fragment);
    LettersOfBoth(docBase, "_");
    LettersOfBoth(docBase + "_", fragPart);
    NoLetters();
    var whole := docBase + "_" + fragPart;
    LettersOfTrimmed(whole);
    LettersOfTrimmed(TrimLeft(whole, '_'));
    LettersOfReplaced(TrimRight(TrimLeft(whole, '_'), '_'));
    hide TrimLeft, TrimRight, ReplaceRuns, JoinNonEmpty, PointerParts, Letters;
    assert Letters(docBase) + "" == Letters(docBase);
  }

  lemma LettersOfPointer(fragment: string)
    ensures Letters(JoinNonEmpty(PointerParts(fragment))) == Letters(fragment)
  {
    hide Split;
    if fragment == "" {
      assert JoinNonEmpty([]) == "";
    } else if HasPrefix(fragment, "/") {
      LettersOfSplit(fragment[1..]);
      assert fragment[0] == '/';
    } else {
      LettersOfSplit(fragment);
    }
  }

  /** sep before each part. */
  function Each(sep: char, parts: seq<string>): string {
    if parts == [] then "" else [sep] + parts[0] + Each(sep, parts[1..])
  }

  /** s is a name that starts and ends with a letter or digit. */
  predicate IsPlainName(s: string) {
    IsName(s) && s[0] != '_' && s[|s| - 1] != '_'
  }

  lemma {:induction false} TrimmedPlain(s: string)
    requires IsPlainName(s)
    ensures TrimLeft(s, '_') == s == TrimRight(s, '_') && ReplaceRuns(s) == s
  {
    NameStays(s);
  }

  lemma {:induction false} NameStays(s: string)
    requires s != "" ==> IsName(s)
    ensures ReplaceRuns(s) == s
  {
    if s != "" { NameStays(s[1..]); }
  }

  lemma {:induction false} PlainSplit(parts: seq<string>)
    requires parts != [] && forall p :: p in parts ==> IsPlainName(p)
    ensures Split(Each('/', parts)[1..], '/') == parts
  {
    hide Split;
    var first, rest := parts[0], parts[1..];
    assert first in parts && '/' !in first by { assert !IsNameChar('/'); }
    assert parts == [first] + rest;
    if rest == [] {
      assert Each('/', parts)[1..] == first;
      SplitAtFirst(first, "", '/');
    } else {
      PlainSplit(rest);
      assert Each('/', rest)[0] == '/';
      assert Each('/', parts)[1..] == first + ['/'] + Each('/', rest)[1..];
      SplitAtFirst(first, Each('/', rest)[1..], '/');
    }
  }

  lemma {:induction false} PlainJoined(parts: seq<string>)
    requires parts != [] && forall p :: p in parts ==> IsPlainName(p)
    ensures "_" + JoinNonEmpty(parts) == Each('_', parts)
    ensures IsPlainName(JoinNonEmpty(parts))
  {
    var first, rest := parts[0], JoinNonEmpty(parts[1..]);
    assert IsPlainName(first) by { assert first in parts; }
    assert Each('_', parts) == ['_'] + first + Each('_', parts[1..]);
    if parts[1..] == [] {
      assert parts == [first];
      OnePart(first);
      hide JoinNonEmpty, IsPlainName;
    } else {
      PlainJoined(parts[1..]);
      assert JoinNonEmpty(parts) == first + "_" + rest;
      hide JoinNonEmpty, Each, IsPlainName;
      PlainTogether(first, rest);
      assert "_" + (first + "_" + rest) == ['_'] + first + ("_" + rest);
    }
  }

  lemma PlainTogether(a: string, b: string)
    requires IsPlainName(a) && IsPlainName(b)
    ensures IsPlainName(a + "_" + b)
  {
    var all := a + "_" + b;
    assert all[|all| - 1] == b[|b| - 1];
  }

  /** Where nothing needs replacing, the name is the document's base name and
      the parts of the pointer, each after an underscore. */
  lemma PlainNameIsPath(docBase: string, parts: seq<string>)
    requires IsPlainName(docBase) && forall p :: p in parts ==> IsPlainName(p)
    ensures SanitizeRefName(docBase, Each('/', parts)) == docBase + Each('_', parts)
  {
    hide Split, JoinNonEmpty, TrimLeft, TrimRight, ReplaceRuns;
    if parts == [] {
      assert JoinNonEmpty([]) == "" by { NothingJoined(); }
      UnderscoreIsTrimmed(docBase);
      TrimmedPlain(docBase);
    } else {
      PlainSplit(parts);
      PlainJoined(parts);
      assert Each('/', parts)[0] == '/';
      assert Each('/', parts)[..1] == "/";
      var name := docBase + "_" + JoinNonEmpty(parts);
      assert name == docBase + Each('_', parts);
      assert name[|name| - 1] == JoinNonEmpty(parts)[|JoinNonEmpty(parts)| - 1];
      TrimmedPlain(name);
    }
  }

  lemma NothingJoined()
    ensures JoinNonEmpty([]) == ""
  {}

  lemma UnderscoreIsTrimmed(s: string)
    requires IsPlainName(s)
    ensures TrimRight(TrimLeft(s + "_" + "", '_'), '_') == s
  {
    var t := s + "_" + "";
    assert TrimLeft(t, '_') == t;
    assert t[..|t| - 1] == s;
    TrimmedPlain(s);
  }

  /** name itself for n < 2, then name_2, name_3 and so on. */
  function Numbered(name: string, n: nat): (r: string)
    ensures IsName(name) ==> IsName(r)
  {
    if n < 2 then name else name + "_" + Decimal(n)
  }

  lemma NumberedIsInjective(name: string, m: nat, n: nat)
    requires 1 <= m < n
    ensures Numbered(name, m) != Numbered(name, n)
  {
    var offset := |name| + 1;
    assert Numbered(name, n)[offset..] == Decimal(n);
    if 2 <= m {
      assert Numbered(name, m)[offset..] == Decimal(m);
    }
  }
}
