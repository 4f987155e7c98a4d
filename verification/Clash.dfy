/** The router clashes a render leaves out, and those a change adds. */
module Clash {
  import opened Base

  /** An entry the render does not serve. detail is the router's refusal;
      empty when the entries share a route shape. */
  datatype EntryConflict = EntryConflict(winner: Name, verb: string, path: string, detail: string)

  datatype RouteConflicts = RouteConflicts(lost: map<Name, seq<EntryConflict>>, capped: bool)

  datatype Clash = Clash(loser: Name, entry: EntryConflict)

  /** Which entry of which endpoint loses to which endpoint: the router's words
      are left out. */
  datatype ClashKey = ClashKey(loser: Name, winner: Name, verb: string, path: string)

  function KeyOf(loser: Name, e: EntryConflict): ClashKey {
    ClashKey(loser, e.winner, e.verb, e.path)
  }

  /** The entry e of loser is among the conflicts. */
  predicate Has(c: RouteConflicts, loser: Name, e: EntryConflict) {
    loser in c.lost && e in c.lost[loser]
  }

  /** The same entry of the same endpoint loses to the same endpoint,
      whatever the router says of it. */
  ghost predicate IsKnown(before: RouteConflicts, key: ClashKey) {
    exists e: EntryConflict :: Has(before, key.loser, e) && KeyOf(key.loser, e) == key
  }

  predicate Involves(involving: Option<set<Name>>, loser: Name, winner: Name) {
    involving.None? || loser in involving.value || winner in involving.value
  }

  /** c is in after, is a router clash, is not in before, and involves one of
      involving. */
  ghost predicate IsNew(before: RouteConflicts, after: RouteConflicts, involving: Option<set<Name>>, c: Clash) {
    && Has(after, c.loser, c.entry) && c.entry.detail != ""
    && !IsKnown(before, KeyOf(c.loser, c.entry))
    && Involves(involving, c.loser, c.entry.winner)
  }

  method KnownKeys(before: RouteConflicts) returns (known: set<ClashKey>)
    ensures forall key :: key in known <==> IsKnown(before, key)
  {
    known := {};
    var todo := before.lost.Keys;
    while todo != {}
      invariant todo <= before.lost.Keys
      invariant forall key :: key in known <==> IsKnown(before, key) && key.loser !in todo
      decreases |todo|
    {
      var loser :| loser in todo;
      var lost := before.lost[loser];
      ghost var was := known;
      for i := 0 to |lost|
        invariant forall key :: key in known <==> key in was || exists j :: 0 <= j < i && KeyOf(loser, lost[j]) == key
      {
        known := known + {KeyOf(loser, lost[i])};
      }
      todo := todo - {loser};
    }
  }

  method NewClashes(before: RouteConflicts, after: RouteConflicts, involving: Option<set<Name>>)
    returns (out: seq<Clash>)
    ensures forall c :: c in out <==> IsNew(before, after, involving, c)
  {
    var known := KnownKeys(before);
    out := [];
    var todo := after.lost.Keys;
    while todo != {}
      invariant todo <= after.lost.Keys
      invariant forall c :: c in out <==> IsNew(before, after, involving, c) && c.loser !in todo
      decreases |todo|
    {
      var loser :| loser in todo;
      var lost := after.lost[loser];
      ghost var was := out;
      for i := 0 to |lost|
        invariant forall c :: c in out <==>
            (c in was || (c.loser == loser && c.entry in lost[..i] && IsNew(before, after, involving, c)))
      {
        var e := lost[i];
        assert lost[..i + 1] == lost[..i] + [e];
        if e.detail != "" && KeyOf(loser, e) !in known && Involves(involving, loser, e.winner) {
          out := out + [Clash(loser, e)];
        }
      }
      assert lost[..|lost|] == lost;
      todo := todo - {loser};
    }
  }
}
