/** The immutable, content-addressed ConfigMaps that hold a gateway's configs,
    and the memo of the versions whose payload was hashed. Anyone may edit,
    delete and replace a ConfigMap before any call. */
module ConfigStore {
  import opened Base

  // ---- ConfigMaps ----

  type Uid = nat

  /** One stored version of an object: an edit changes the resource version, a
      replacement the UID. */
  datatype Version = Version(uid: Uid, resource: nat)

  /** checksum: the annotation; payload: the krakend.json. */
  datatype ConfigMap = ConfigMap(version: Version, controller: Option<Uid>, checksum: string, payload: string)

  type ConfigMaps = map<string, ConfigMap>

  datatype Gateway = Gateway(name: string, uid: Uid)

  const CHECKSUM_CHARS: nat := 10
  const INFIX := "-config-"

  function ShortChecksum(checksum: string): string {
    if |checksum| > CHECKSUM_CHARS then checksum[..CHECKSUM_CHARS] else checksum
  }

  function ConfigMapName(gw: Gateway, checksum: string): string {
    gw.name + INFIX + ShortChecksum(checksum)
  }

  /** A name gives back the part of the checksum it carries: long checksums
      share a name exactly when their first ten characters agree. */
  lemma NameCarriesShortChecksum(gw: Gateway, a: string, b: string)
    ensures ConfigMapName(gw, a) == ConfigMapName(gw, b) <==> ShortChecksum(a) == ShortChecksum(b)
    ensures |a| >= 10 && |b| >= 10 ==> (ConfigMapName(gw, a) == ConfigMapName(gw, b) <==> a[..10] == b[..10])
  {
    var front := gw.name + INFIX;
    assert (front + ShortChecksum(a))[|front|..] == ShortChecksum(a);
    assert (front + ShortChecksum(b))[|front|..] == ShortChecksum(b);
  }

  // ---- The API, with others at work ----

  datatype Edit =
    | Edited(name: string, controller: Option<Uid>, checksum: string, payload: string)
    | Replaced(name: string, controller: Option<Uid>, checksum: string, payload: string)
    | Removed(name: string)

  /** A call fails, or takes effect and loses its reply. */
  datatype Outcome = Delivered | Lost | TimedOut

  datatype Error = NotFound | AlreadyExists | Unavailable | NotOurCopy | Vanished

  /** Every version ever stored, with its name. */
  type Ledger = map<Version, (string, ConfigMap)>

  /** Each stored version is in the ledger, which has no later one. */
  ghost predicate Recorded(maps: ConfigMaps, ever: Ledger, next: nat) {
    && (forall n :: n in maps ==> maps[n].version in ever && ever[maps[n].version] == (n, maps[n]))
    && (forall v :: v in ever ==> v.resource < next && v.uid < next)
  }

  /** A version never changes. */
  ghost predicate Extends(before: Ledger, after: Ledger) {
    forall v :: v in before ==> v in after && after[v] == before[v]
  }

  /** now is was with a new ConfigMap. */
  ghost predicate IsCreated(was: ConfigMaps, now: ConfigMaps, name: string, controller: Uid, checksum: string,
      payload: string) {
    && name !in was && name in now && now == was[name := now[name]]
    && now[name].controller == Some(controller) && now[name].checksum == checksum && now[name].payload == payload
  }

  class Api {
    const outcome: nat -> Outcome
    /** What others do just before the n-th call. */
    const edits: nat -> seq<Edit>
    var calls: nat
    var maps: ConfigMaps
    var next: nat
    ghost var ever: Ledger

    constructor (outcome: nat -> Outcome, edits: nat -> seq<Edit>)
      ensures Valid() && maps == map[] && this.outcome == outcome && this.edits == edits
    {
      this.outcome, this.edits := outcome, edits;
      calls, maps, next, ever := 0, map[], 0, map[];
    }

    ghost predicate Valid()
      reads this
    {
      Recorded(maps, ever, next)
    }

    /** No call from now on fails. */
    ghost predicate Faultless()
      reads this
    {
      forall k :: calls <= k ==> outcome(k).Delivered?
    }

    /** Nobody else is at work from now on. */
    ghost predicate Quiet()
      reads this
    {
      forall k :: calls <= k ==> edits(k) == []
    }

    method Put(name: string, uid: Uid, controller: Option<Uid>, checksum: string, payload: string)
      requires Valid() && uid <= next
      modifies this`maps, this`next, this`ever
      ensures Valid() && next == old(next) + 1 && Extends(old(ever), ever)
      ensures maps == old(maps)[name := ConfigMap(Version(uid, old(next)), controller, checksum, payload)]
    {
      var cm := ConfigMap(Version(uid, next), controller, checksum, payload);
      maps, ever, next := maps[name := cm], ever[cm.version := (name, cm)], next + 1;
    }

    /** What others do, and how the call ends. */
    method Call() returns (end: Outcome)
      requires Valid()
      modifies this
      ensures Valid() && Extends(old(ever), ever)
      ensures old(Quiet()) ==> Quiet() && maps == old(maps)
      ensures old(Faultless()) ==> Faultless() && end.Delivered?
    {
      var todo := edits(calls);
      end := outcome(calls);
      calls := calls + 1;
      for i := 0 to |todo|
        invariant Valid() && Extends(old(ever), ever) && calls == old(calls) + 1
        invariant i == 0 ==> maps == old(maps)
      {
        match todo[i]
        case Edited(name, controller, checksum, payload) =>
          if name in maps { Put(name, maps[name].version.uid, controller, checksum, payload); }
        case Replaced(name, controller, checksum, payload) => Put(name, next, controller, checksum, payload);
        case Removed(name) => maps := maps - {name};
      }
    }

    method Get(name: string) returns (r: Option<ConfigMap>, e: Option<Error>)
      requires Valid()
      modifies this
      ensures Valid() && Extends(old(ever), ever)
      ensures r.Some? <==> e.None?
      ensures r.Some? ==> name in maps && maps[name] == r.value
      ensures e == Some(NotFound) ==> name !in maps
      ensures old(Quiet()) ==> Quiet() && maps == old(maps)
      ensures old(Faultless()) ==> Faultless() && (e.None? || e == Some(NotFound))
      ensures e.Some? ==> e == Some(NotFound) || e == Some(Unavailable)
    {
      var end := Call();
      if !end.Delivered? { return None, Some(Unavailable); }
      if name !in maps { return None, Some(NotFound); }
      return Some(maps[name]), None;
    }

    method Create(name: string, controller: Uid, checksum: string, payload: string)
      returns (r: Option<ConfigMap>, e: Option<Error>)
      requires Valid()
      modifies this
      ensures Valid() && Extends(old(ever), ever)
      ensures r.Some? <==> e.None?
      ensures r.Some? ==>
                && name in maps && maps[name] == r.value && r.value.controller == Some(controller)
                && r.value.checksum == checksum && r.value.payload == payload
      ensures r.None? ==> e == Some(AlreadyExists) || e == Some(Unavailable)
      ensures old(Quiet()) ==>
        Quiet() && (maps == old(maps) || IsCreated(old(maps), maps, name, controller, checksum, payload))
      ensures old(Quiet()) && r.Some? ==> IsCreated(old(maps), maps, name, controller, checksum, payload)
      ensures old(Quiet()) && e == Some(AlreadyExists) ==> name in maps
      ensures old(Faultless()) ==> Faultless() && (e.None? || e == Some(AlreadyExists))
      ensures old(Faultless()) && old(Quiet()) && name !in old(maps) ==> e.None?
    {
      var end := Call();
      if end.Lost? { return None, Some(Unavailable); }
      if name in maps { return None, Some(AlreadyExists); }
      Put(name, next, Some(controller), checksum, payload);
      if end.TimedOut? { return None, Some(Unavailable); }
      return Some(maps[name]), None;
    }

    /** Deletes name while its UID is uid. */
    method Delete(name: string, uid: Uid) returns (e: Option<Error>)
      requires Valid()
      modifies this
      ensures Valid() && Extends(old(ever), ever)
      ensures e.None? || e == Some(NotFound) ==> name !in maps
      ensures old(Quiet()) ==> Quiet()
      ensures old(Quiet()) && maps != old(maps) ==>
                name in old(maps) && old(maps)[name].version.uid == uid && maps == old(maps) - {name}
      ensures old(Faultless()) ==> Faultless()
      ensures old(Faultless()) && old(Quiet()) && name in old(maps) && old(maps)[name].version.uid == uid ==> e.None?
    {
      var end := Call();
      if end.Lost? { return Some(Unavailable); }
      if name !in maps { return Some(NotFound); }
      if maps[name].version.uid != uid { return Some(Unavailable); }
      maps := maps - {name};
      return if end.TimedOut? then Some(Unavailable) else None;
    }
  }

  // ---- The memo ----

  const MAX_VERIFIED_PER_GATEWAY: nat := 8

  /** Each version remembered for name holds a payload that hashes to a checksum
      the name carries. */
  ghost predicate Sound(hash: string -> string, entries: map<string, map<string, Version>>, ever: Ledger) {
    forall g, n :: g in entries && n in entries[g] ==> IsAddress(hash, g, n, entries[g][n], ever)
  }

  ghost predicate IsAddress(hash: string -> string, gwName: string, name: string, v: Version, ever: Ledger) {
    v in ever && ever[v].0 == name && name == gwName + INFIX + ShortChecksum(hash(ever[v].1.payload))
  }

  ghost predicate Bounded(entries: map<string, map<string, Version>>) {
    forall g :: g in entries ==> |entries[g]| <= MAX_VERIFIED_PER_GATEWAY
  }

  /** What was sound stays sound, whatever is stored meanwhile. */
  lemma SoundLater(hash: string -> string, entries: map<string, map<string, Version>>, before: Ledger, after: Ledger)
    requires Sound(hash, entries, before) && Extends(before, after)
    ensures Sound(hash, entries, after)
  {
    forall g, n | g in entries && n in entries[g] ensures IsAddress(hash, g, n, entries[g][n], after) {
      assert IsAddress(hash, g, n, entries[g][n], before);
    }
  }

  class VerifiedConfigMaps {
    var entries: map<string, map<string, Version>>

    constructor ()
      ensures entries == map[]
    {
      entries := map[];
    }

    predicate Has(gw: Gateway, name: string, v: Version)
      reads this
    {
      gw.name in entries && name in entries[gw.name] && entries[gw.name][name] == v
    }

    /** A full gateway is forgotten before it is added to. */
    method Remember(gw: Gateway, name: string, v: Version)
      requires Bounded(entries)
      modifies this
      ensures Bounded(entries) && Has(gw, name, v)
      ensures forall g, n :: g in entries && n in entries[g] && (g, n) != (gw.name, name) ==>
                g in old(entries) && n in old(entries)[g] && entries[g][n] == old(entries)[g][n]
      ensures forall g :: g in old(entries) && g != gw.name ==> g in entries && entries[g] == old(entries)[g]
      ensures gw.name in old(entries) && |old(entries)[gw.name]| < 8 ==>
        entries[gw.name] == old(entries)[gw.name][name := v]
    {
      var kept := if gw.name in entries && |entries[gw.name]| < MAX_VERIFIED_PER_GATEWAY then entries[gw.name]
        else map[];
      entries := entries[gw.name := kept[name := v]];
    }

    method Forget(gw: Gateway, name: string)
      requires Bounded(entries)
      modifies this
      ensures Bounded(entries)
      ensures forall g, n :: g in entries && n in entries[g] ==>
                (g, n) != (gw.name, name) && g in old(entries) && n in old(entries)[g] &&
                  entries[g][n] == old(entries)[g][n]
      ensures forall g, n :: g in old(entries) && n in old(entries)[g] && (g, n) != (gw.name, name) ==>
                g in entries && n in entries[g]
    {
      if gw.name in entries {
        var rest := entries[gw.name] - {name};
        assert rest.Keys <= entries[gw.name].Keys;
        assert |rest.Keys| <= |entries[gw.name].Keys| by { SubsetIsSmaller(rest.Keys, entries[gw.name].Keys); }
        entries := entries[gw.name := rest];
      }
    }

    method ForgetGateway(gw: Gateway)
      requires Bounded(entries)
      modifies this
      ensures Bounded(entries) && entries == old(entries) - {gw.name}
    {
      entries := entries - {gw.name};
    }
  }

  // ---- Verifying ----

  /** cm is the gateway's, and annotated with checksum. */
  predicate OurCopy(cm: ConfigMap, gw: Gateway, checksum: string) {
    cm.controller == Some(gw.uid) && cm.checksum == checksum
  }

  /** The payload hashes to a checksum the name of checksum carries as well. */
  predicate Addressed(hash: string -> string, cm: ConfigMap, checksum: string) {
    ShortChecksum(hash(cm.payload)) == ShortChecksum(checksum)
  }

  datatype Verified = Ours | NotOurs | Tampered

  /** What a ConfigMap at the address of checksum is taken for, when its version
      was remembered or not. */
  function Verify(hash: string -> string, remembered: bool, cm: ConfigMap, gw: Gateway, checksum: string): Verified {
    if !remembered && hash(cm.payload) != checksum then Tampered
    else if OurCopy(cm, gw, checksum) then Ours
    else NotOurs
  }

  /** No other payload's checksum has the address of checksum. */
  ghost predicate Unshared(hash: string -> string, checksum: string) {
    forall p :: ShortChecksum(hash(p)) == ShortChecksum(checksum) ==> hash(p) == checksum
  }

  /** Whatever is accepted for checksum, remembered or not, holds the payload
      of checksum, exactly when no other payload shares its address. */
  lemma AddressStandsForContent(hash: string -> string, gw: Gateway, checksum: string)
    ensures (forall cm: ConfigMap, remembered: bool ::
               (remembered ==> Addressed(hash, cm, checksum)) && Verify(hash, remembered, cm, gw, checksum) == Ours ==>
                 hash(cm.payload) == checksum)
      <==> Unshared(hash, checksum)
  {
    forall p | ShortChecksum(hash(p)) == ShortChecksum(checksum) && hash(p) != checksum
      ensures exists cm: ConfigMap ::
                Addressed(hash, cm, checksum) && Verify(hash, true, cm, gw, checksum) == Ours &&
                  hash(cm.payload) != checksum
    {
      var cm := ConfigMap(Version(0, 0), Some(gw.uid), checksum, p);
      assert Addressed(hash, cm, checksum) && Verify(hash, true, cm, gw, checksum) == Ours;
    }
  }

  /** A store of configs: the API, the memo and the hash. */
  class Store {
    const api: Api
    const memo: VerifiedConfigMaps
    const hash: string -> string

    constructor (api: Api, memo: VerifiedConfigMaps, hash: string -> string)
      ensures this.api == api && this.memo == memo && this.hash == hash
    {
      this.api, this.memo, this.hash := api, memo, hash;
    }

    /** The memo is sound and within its bound. */
    ghost predicate Valid()
      reads api, memo
    {
      api.Valid() && Sound(hash, memo.entries, api.ever) && Bounded(memo.entries)
    }

    /** A remembered version is at its address. */
    lemma RememberedIsAddressed(gw: Gateway, checksum: string, cm: ConfigMap)
      requires Valid() && memo.Has(gw, ConfigMapName(gw, checksum), cm.version)
      requires ConfigMapName(gw, checksum) in api.maps && api.maps[ConfigMapName(gw, checksum)] == cm
      ensures Addressed(hash, cm, checksum)
    {
      var name := ConfigMapName(gw, checksum);
      assert IsAddress(hash, gw.name, name, cm.version, api.ever);
      NameCarriesShortChecksum(gw, hash(cm.payload), checksum);
    }

    /** Remembers the version cm of the ConfigMap at the address of checksum. */
    method Remember(gw: Gateway, checksum: string, cm: ConfigMap)
      requires Valid() && hash(cm.payload) == checksum
      requires ConfigMapName(gw, checksum) in api.maps && api.maps[ConfigMapName(gw, checksum)] == cm
      modifies memo
      ensures Valid() && memo.Has(gw, ConfigMapName(gw, checksum), cm.version)
    {
      var name := ConfigMapName(gw, checksum);
      ghost var was := memo.entries;
      memo.Remember(gw, name, cm.version);
      forall g, n | g in memo.entries && n in memo.entries[g]
        ensures IsAddress(hash, g, n, memo.entries[g][n], api.ever) {
        if (g, n) != (gw.name, name) { assert IsAddress(hash, g, n, was[g][n], api.ever); }
      }
    }

    /** The API moved on; what the memo holds stays sound. */
    lemma StillValid(before: Ledger)
      requires api.Valid() && Bounded(memo.entries) && Sound(hash, memo.entries, before) && Extends(before, api.ever)
      ensures Valid()
    {
      SoundLater(hash, memo.entries, before, api.ever);
    }

    /** What a verification left in the store, while nobody else is at work:
        nothing changed, or one ConfigMap with another payload was deleted. */
    ghost predicate OnlyTamperedGone(was: ConfigMaps, name: string, checksum: string)
      reads api
    {
      api.maps == was || (name in was && hash(was[name].payload) != checksum && api.maps == was - {name})
    }

    /** Hashes the payload at the address of checksum, and deletes the
        ConfigMap when it is another. found: one is there. */
    method VerifyPayload(gw: Gateway, checksum: string) returns (found: bool, e: Option<Error>)
      requires Valid()
      modifies api, memo
      ensures Valid() && Extends(old(api.ever), api.ever)
      ensures var name := ConfigMapName(gw, checksum); old(api.Quiet()) ==>
                && api.Quiet() && OnlyTamperedGone(old(api.maps), name, checksum)
                && (e.None? ==> (found <==> name in api.maps))
                && (e.None? && found ==>
                      hash(api.maps[name].payload) == checksum && memo.Has(gw, name, api.maps[name].version))
      ensures e.Some? ==> e == Some(Unavailable)
      ensures old(api.Faultless()) ==> api.Faultless()
      ensures old(api.Faultless()) && old(api.Quiet()) ==> e.None?
    {
      var name := ConfigMapName(gw, checksum);
      ghost var before := api.ever;
      var full, err := api.Get(name);
      StillValid(before);
      if err == Some(NotFound) { return false, None; }
      if err.Some? { return false, Some(Unavailable); }
      if hash(full.value.payload) == checksum {
        Remember(gw, checksum, full.value);
        return true, None;
      }
      Forget(gw, name);
      before := api.ever;
      err := api.Delete(name, full.value.version.uid);
      StillValid(before);
      if err.Some? && err != Some(NotFound) { return true, Some(Unavailable); }
      return false, None;
    }

    method Forget(gw: Gateway, name: string)
      requires Valid()
      modifies memo
      ensures Valid() && !exists v :: memo.Has(gw, name, v)
    {
      ghost var was := memo.entries;
      memo.Forget(gw, name);
      forall g, n | g in memo.entries && n in memo.entries[g]
        ensures IsAddress(hash, g, n, memo.entries[g][n], api.ever) {
        assert IsAddress(hash, g, n, was[g][n], api.ever);
      }
    }

    /** The ConfigMap at the address of checksum is somebody else's, and holds
        its payload or was seen to. */
    predicate Blocked(gw: Gateway, checksum: string)
      reads this, api, memo
    {
      var name := ConfigMapName(gw, checksum);
      && name in api.maps
      && !(api.maps[name].controller == Some(gw.uid) && api.maps[name].checksum == checksum)
      && (hash(api.maps[name].payload) == checksum || memo.Has(gw, name, api.maps[name].version))
    }

    /** Looks up the ConfigMap for checksum. found: one exists; then e says
        whether it is the gateway's copy of that config. */
    method VerifyExisting(gw: Gateway, checksum: string) returns (found: bool, e: Option<Error>)
      requires Valid()
      modifies api, memo
      ensures Valid() && Extends(old(api.ever), api.ever)
      ensures var name := ConfigMapName(gw, checksum); old(api.Quiet()) ==>
                && api.Quiet() && OnlyTamperedGone(old(api.maps), name, checksum)
                && (e.None? ==> (found <==> name in api.maps))
                && (e.None? && found ==>
                      OurCopy(api.maps[name], gw, checksum) && Addressed(hash, api.maps[name], checksum))
                && (e == Some(NotOurCopy) ==>
                      name in api.maps && !OurCopy(api.maps[name], gw, checksum) &&
                        Addressed(hash, api.maps[name], checksum))
      ensures var name := ConfigMapName(gw, checksum);
              old(api.Quiet()) && name in old(api.maps) && e != Some(Unavailable) ==>
                && var cm := old(api.maps)[name];
                && var taken := Verify(hash, old(memo.Has(gw, name, api.maps[name].version)), cm, gw, checksum);
                && (taken == Ours <==> found && e.None?) && (taken == NotOurs <==> e == Some(NotOurCopy))
                && (taken != Tampered ==> memo.Has(gw, name, cm.version))
      ensures e.Some? ==> e == Some(NotOurCopy) || e == Some(Unavailable)
      ensures old(api.Quiet()) && e == Some(NotOurCopy) ==> old(Blocked(gw, checksum)) && api.maps == old(api.maps)
      ensures old(api.Faultless()) && old(api.Quiet()) ==> (e.None? <==> !old(Blocked(gw, checksum)))
      ensures old(api.Faultless()) ==> api.Faultless()
      ensures old(api.Faultless()) && old(api.Quiet()) ==> e.None? || e == Some(NotOurCopy)
    {
      var name := ConfigMapName(gw, checksum);
      ghost var before := api.ever;
      var cm, err := api.Get(name);
      StillValid(before);
      if err == Some(NotFound) { return false, None; }
      if err.Some? { return false, Some(Unavailable); }
      var remembered := memo.Has(gw, name, cm.value.version);
      if remembered { RememberedIsAddressed(gw, checksum, cm.value); }
      if !OurCopy(cm.value, gw, checksum) {
        if !remembered {
          found, e := VerifyPayload(gw, checksum);
          if e.Some? || !found { return; }
        }
        return true, Some(NotOurCopy);
      }
      if remembered { return true, None; }
      found, e := VerifyPayload(gw, checksum);
    }

    // ---- Publishing ----

    /** The gateway's copy of the config is at its address. */
    ghost predicate Published(gw: Gateway, checksum: string)
      reads api
    {
      var name := ConfigMapName(gw, checksum);
      name in api.maps && OurCopy(api.maps[name], gw, checksum) && Addressed(hash, api.maps[name], checksum)
    }

    /** Makes sure the ConfigMap for checksum exists and holds payload. An
        existing one is never updated. With nobody else at work and no failing
        call it succeeds, unless somebody else's copy is in the way. */
    method PublishConfig(gw: Gateway, payload: string, checksum: string) returns (e: Option<Error>)
      requires Valid() && hash(payload) == checksum
      modifies api, memo
      ensures Valid() && Extends(old(api.ever), api.ever)
      ensures old(api.Quiet()) ==> api.Quiet() && (e.None? ==> Published(gw, checksum))
      ensures old(api.Quiet()) && e.None? && Unshared(hash, checksum) ==>
        hash(api.maps[ConfigMapName(gw, checksum)].payload) == checksum
      ensures var name := ConfigMapName(gw, checksum);
        old(api.Quiet()) ==> forall n :: n != name ==>
          (n in api.maps <==> n in old(api.maps)) && (n in api.maps ==> api.maps[n] == old(api.maps)[n])
      ensures var name := ConfigMapName(gw, checksum);
        old(api.Quiet()) && name in old(api.maps) && hash(old(api.maps)[name].payload) == checksum ==>
          api.maps == old(api.maps)
      ensures old(api.Faultless()) ==> api.Faultless()
      ensures old(api.Faultless()) && old(api.Quiet()) ==> e.None? || e == Some(NotOurCopy)
      ensures old(api.Faultless()) && old(api.Quiet()) ==> (e.None? <==> !old(Blocked(gw, checksum)))
      ensures old(api.Quiet()) && e == Some(NotOurCopy) ==> old(Blocked(gw, checksum)) && api.maps == old(api.maps)
      ensures old(api.Quiet()) && e.None? ==>
        api.maps == old(api.maps) || api.maps[ConfigMapName(gw, checksum)].payload == payload
    {
      var found;
      found, e := VerifyExisting(gw, checksum);
      if found || e.Some? { return; }
      var name := ConfigMapName(gw, checksum);
      ghost var before := api.ever;
      var cm, err := api.Create(name, gw.uid, checksum, payload);
      StillValid(before);
      if err.None? {
        Remember(gw, checksum, cm.value);
        return None;
      }
      if err != Some(AlreadyExists) { return err; }
      found, e := VerifyExisting(gw, checksum);
      if e.None? && !found { return Some(Vanished); }
    }

    /** The payload of the ConfigMap an earlier version kept under the gateway's
        own name, if the gateway controls it. */
    method LegacyConfig(gw: Gateway) returns (payload: Option<string>, e: Option<Error>)
      requires Valid()
      modifies api
      ensures Valid() && Extends(old(api.ever), api.ever)
      ensures old(api.Quiet()) ==> api.Quiet() && api.maps == old(api.maps)
      ensures e.None? && payload.Some? ==>
                gw.name in api.maps && api.maps[gw.name].controller == Some(gw.uid) &&
                  api.maps[gw.name].payload == payload.value
      ensures e.None? && payload.None? ==> !(gw.name in api.maps && api.maps[gw.name].controller == Some(gw.uid))
      ensures old(api.Faultless()) ==> api.Faultless() && e.None?
      ensures e.Some? ==> e == Some(Unavailable)
    {
      ghost var before := api.ever;
      var cm, err := api.Get(gw.name);
      StillValid(before);
      if err == Some(NotFound) { return None, None; }
      if err.Some? { return None, err; }
      if cm.value.controller != Some(gw.uid) { return None, None; }
      return Some(cm.value.payload), None;
    }

    /** The ConfigMap that holds the applied config. None: there is none. */
    method AppliedConfigMapName(gw: Gateway, applied: string) returns (name: Option<string>, e: Option<Error>)
      requires Valid()
      modifies api, memo
      ensures Valid() && Extends(old(api.ever), api.ever)
      ensures old(api.Quiet()) ==> api.Quiet()
      ensures old(api.Quiet()) && e.None? && name.Some? ==>
        name == Some(ConfigMapName(gw, applied)) && Published(gw, applied)
      ensures old(api.Quiet()) && e.None? && name.None? && applied != "" ==>
                && ConfigMapName(gw, applied) !in api.maps
                && !(gw.name in api.maps && api.maps[gw.name].controller == Some(gw.uid) &&
                  hash(api.maps[gw.name].payload) == applied)
      ensures applied == "" ==> name.None? && e.None?
      ensures old(api.Faultless()) && old(api.Quiet()) ==> e.None? || e == Some(NotOurCopy)
      ensures old(api.Faultless()) && old(api.Quiet()) ==> (e.None? <==> applied == "" || !old(Blocked(gw, applied)))
      ensures old(api.Quiet()) && e == Some(NotOurCopy) ==> old(Blocked(gw, applied))
    {
      hide Addressed, OurCopy, Verify;
      if applied == "" { return None, None; }
      var found;
      found, e := VerifyExisting(gw, applied);
      if e.Some? { return None, e; }
      if found { return Some(ConfigMapName(gw, applied)), None; }
      var legacy;
      legacy, e := LegacyConfig(gw);
      if e.Some? || legacy.None? || hash(legacy.value) != applied { return None, e; }
      e := PublishConfig(gw, legacy.value, applied);
      if e.Some? { return None, e; }
      return Some(ConfigMapName(gw, applied)), None;
    }

    /** Two checksums that share their first characters share a name. A ConfigMap
        annotated with one, whose payload hashes to the other, is remembered when
        the other is looked for, and is then accepted for the first, although
        every call succeeds and nobody else is at work. */
    method AcceptCollision(gw: Gateway, checksum: string) returns (found: bool, e: Option<Error>)
      requires Valid() && api.Quiet() && api.Faultless()
      requires var name := ConfigMapName(gw, checksum);
        && name in api.maps && OurCopy(api.maps[name], gw, checksum)
        && hash(api.maps[name].payload) != checksum && Addressed(hash, api.maps[name], checksum)
      modifies api, memo
      ensures Valid() && found && e.None? && api.maps == old(api.maps)
      ensures hash(api.maps[ConfigMapName(gw, checksum)].payload) != checksum
    {
      var other := hash(api.maps[ConfigMapName(gw, checksum)].payload);
      NameCarriesShortChecksum(gw, other, checksum);
      found, e := VerifyExisting(gw, other);
      assert e == Some(NotOurCopy);
      found, e := VerifyExisting(gw, checksum);
    }

    /** Any passes, of any gateways, with anyone at work before any call. */
    method Run(steps: seq<Step>)
      requires Valid()
      modifies api, memo
      ensures Valid() && Extends(old(api.ever), api.ever)
    {
      for i := 0 to |steps|
        invariant Valid() && Extends(old(api.ever), api.ever)
      {
        match steps[i]
        case Publish(gw, payload) => var e := PublishConfig(gw, payload, hash(payload));
        case FindApplied(gw, applied) => var name, e := AppliedConfigMapName(gw, applied);
        case GatewayGone(gw) =>
          ghost var was := memo.entries;
          memo.ForgetGateway(gw);
          assert forall g, n :: g in memo.entries && n in memo.entries[g] ==>
            IsAddress(hash, g, n, was[g][n], api.ever);
      }
    }
  }

  datatype Step = Publish(gw: Gateway, payload: string) | FindApplied(gw: Gateway,
    applied: string) | GatewayGone(gw: Gateway)
}
