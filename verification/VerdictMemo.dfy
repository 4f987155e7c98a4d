/** The verdicts remembered per owner from one pass to the next. */
module VerdictMemo {
  import opened Base
  import opened Verdicts

  type Kept = map<Key, Judgement>

  /** v is what a fresh check of key's content returns. */
  ghost predicate IsFreshFor(env: Env, key: Key, v: Judgement) {
    exists json :: env.hash(json) == key.checksum && v == Judge(env, json, key.edition, key.mode)
  }

  /** Every entry is what a fresh check of that content returns. */
  ghost predicate Sound(env: Env, kept: Kept) {
    forall key :: key in kept ==> IsFreshFor(env, key, kept[key])
  }

  // ---- A pass and the memo, as values ----

  datatype Pass = Pass(kept: Kept, used: Kept)
  {
    function Answer(key: Key): Option<Judgement> {
      if key in used then Some(used[key]) else if key in kept then Some(kept[key]) else None
    }

    /** The pass after key is looked up: what the last pass kept is now used. */
    function LookedUp(key: Key): Pass {
      if key !in used && key in kept then this.(used := used[key := kept[key]]) else this
    }

    function Stored(key: Key, v: Judgement): Pass {
      this.(used := used[key := v])
    }

    /** What the owner's next pass starts from. */
    function Keeps(failed: bool): Kept {
      if failed then kept + used else used
    }

    /** key is answered without running a check. */
    predicate Knows(key: Key) {
      Answer(key).Some? && IsJudged(Answer(key).value)
    }
  }

  ghost predicate PassSound(env: Env, p: Pass) {
    Sound(env, p.kept) && Sound(env, p.used)
  }

  lemma StoredSound(env: Env, p: Pass, json: string, edition: Edition, mode: Mode)
    requires Trusted(env) && PassSound(env, p)
    ensures PassSound(env, p.Stored(Key(env.hash(json), edition, mode), Judge(env, json, edition, mode)))
    ensures PassSound(env, p.LookedUp(Key(env.hash(json), edition, mode)))
    ensures var answer := p.Answer(Key(env.hash(json), edition, mode));
      answer.Some? ==> answer.value == Judge(env, json, edition, mode)
  {
    hide Judge;
    assert IsFreshFor(env, Key(env.hash(json), edition, mode), Judge(env, json, edition, mode));
  }

  // ---- Every sequence of operations keeps the memo sound ----

  /** The memo and the passes that have begun. */
  datatype State = State(owners: map<Name, Kept>, open: map<Name, Pass>)

  /** Store carries what a fresh check of json just returned. */
  datatype Event =
    | Begin(owner: Name)
    | Lookup(owner: Name, key: Key)
    | Store(owner: Name, json: string, edition: Edition, mode: Mode)
    | End(owner: Name, failed: bool)
    | Forget(owner: Name)

  function KeptFor(owners: map<Name, Kept>, owner: Name): Kept {
    if owner in owners then owners[owner] else map[]
  }

  function Step(env: Env, s: State, e: Event): State {
    match e
    case Begin(o) => s.(open := s.open[o := Pass(KeptFor(s.owners, o), map[])])
    case Lookup(o, key) => if o in s.open then s.(open := s.open[o := s.open[o].LookedUp(key)]) else s
    case Store(o, json, edition, mode) =>
      if o in s.open then
        s.(open := s.open[o :=
          s.open[o].Stored(Key(env.hash(json), edition, mode), Judge(env, json, edition, mode))])
      else s
    case End(o, failed) =>
      if o in s.open then State(s.owners[o := s.open[o].Keeps(failed)], s.open - {o}) else s
    case Forget(o) => s.(owners := s.owners - {o})
  }

  function Run(env: Env, s: State, events: seq<Event>): State
    decreases |events|
  {
    if events == [] then s else Run(env, Step(env, s, events[0]), events[1..])
  }

  ghost predicate StateSound(env: Env, s: State) {
    && (forall o :: o in s.owners ==> Sound(env, s.owners[o]))
    && (forall o :: o in s.open ==> PassSound(env, s.open[o]))
  }

  /** Whatever passes begin, look up, store, end, fail or are forgotten, in any
      interleaving of owners, every remembered verdict is a fresh one. */
  lemma {:induction false} RememberedIsFresh(env: Env, s: State, events: seq<Event>)
    requires Trusted(env) && StateSound(env, s)
    ensures StateSound(env, Run(env, s, events))
    decreases |events|
  {
    if events != [] {
      var e := events[0];
      if e.Store? && e.owner in s.open { StoredSound(env, s.open[e.owner], e.json, e.edition, e.mode); }
      RememberedIsFresh(env, Step(env, s, e), events[1..]);
    }
  }

  // ---- The classes ----

  class PassMemo {
    const kept: Kept
    var used: Kept

    constructor (kept: Kept)
      ensures Value() == Pass(kept, map[])
    {
      this.kept := kept;
      this.used := map[];
    }

    function Value(): Pass
      reads this
    {
      Pass(kept, used)
    }

    method Lookup(key: Key) returns (r: Option<Judgement>)
      modifies this
      ensures r == old(Value()).Answer(key) && Value() == old(Value()).LookedUp(key)
    {
      if key in used { return Some(used[key]); }
      if key in kept {
        used := used[key := kept[key]];
        return Some(kept[key]);
      }
      return None;
    }

    method Store(key: Key, v: Judgement)
      modifies this
      ensures Value() == old(Value()).Stored(key, v)
    {
      used := used[key := v];
    }
  }

  class Memo {
    var owners: map<Name, Kept>

    constructor ()
      ensures owners == map[]
    {
      owners := map[];
    }

    ghost predicate IsSound(env: Env)
      reads this
    {
      forall o :: o in owners ==> Sound(env, owners[o])
    }

    method Begin(owner: Name) returns (pass: PassMemo)
      ensures fresh(pass) && pass.Value() == Pass(KeptFor(owners, owner), map[])
    {
      pass := new PassMemo(KeptFor(owners, owner));
    }

    method End(owner: Name, pass: PassMemo, failed: bool)
      modifies this
      ensures owners == old(owners)[owner := pass.Value().Keeps(failed)]
    {
      var keep := pass.used;
      if failed { keep := pass.kept + pass.used; }
      owners := owners[owner := keep];
    }

    method Forget(owner: Name)
      modifies this
      ensures owners == old(owners) - {owner}
    {
      owners := owners - {owner};
    }
  }
}
