/** The license of an Enterprise gateway: its stages, the conditions that
    record them, and the fallback to the Community edition. Times are in
    seconds. */
module License {
  import opened Base

  const MINUTE := 60
  const HOUR := 60 * MINUTE
  const DAY := 24 * HOUR

  const RECHECK_INTERVAL := 5 * MINUTE
  const SAFETY_BUFFER := HOUR
  const DEFAULT_WARNING_DAYS := 30

  // ---- Stages ----

  datatype Stage = Healthy | ExpiringSoon | PreExpiry | Lapsed

  /** Warning is longer than the safety buffer. */
  datatype Window = Window(warning: int, buffer: int)
  {
    predicate Valid() {
      0 < buffer < warning
    }

    function StageAt(notAfter: int, now: int): Stage {
      if notAfter <= now then Lapsed
      else if notAfter <= now + buffer then PreExpiry
      else if notAfter <= now + warning then ExpiringSoon
      else Healthy
    }

    /** The first boundary after now, or 0 when none is left. */
    function NextChange(notAfter: int, now: int): int {
      if notAfter - warning > now then notAfter - warning - now
      else if notAfter - buffer > now then notAfter - buffer - now
      else if notAfter > now then notAfter - now
      else 0
    }
  }

  /** NextChange is exactly how long the stage lasts. */
  lemma StageLastsUntilNextChange(w: Window, notAfter: int, now: int, t: int)
    requires w.Valid() && now <= t
    ensures var d := w.NextChange(notAfter, now);
      && (d == 0 <==> w.StageAt(notAfter, now) == Lapsed)
      && (d == 0 || t < now + d ==> w.StageAt(notAfter, t) == w.StageAt(notAfter, now))
      && (d > 0 ==> w.StageAt(notAfter, now + d) != w.StageAt(notAfter, now))
  {}

  function NextLicenseCheck(w: Window, notAfter: int, now: int): int {
    var d := w.NextChange(notAfter, now);
    if 0 < d < RECHECK_INTERVAL then d else RECHECK_INTERVAL
  }

  /** No stage boundary passes before the next check. */
  lemma NoBoundaryIsMissed(w: Window, notAfter: int, now: int, t: int)
    requires w.Valid() && now <= t < now + NextLicenseCheck(w, notAfter, now)
    ensures 0 < NextLicenseCheck(w, notAfter, now) <= RECHECK_INTERVAL
    ensures w.StageAt(notAfter, t) == w.StageAt(notAfter, now)
  {
    StageLastsUntilNextChange(w, notAfter, now, t);
  }

  // ---- Conditions ----

  datatype Kind = LicenseValid | LicenseExpired | LicenseDegraded | LicenseSecretUnavailable | OtherKind(name: string)
  datatype Tri = True | False | Unknown
  datatype Reason =
    | ReasonOK | ReasonExpiringSoon | ReasonPreExpiry | ReasonExpired
    | ReasonSecretMissing | ReasonSecretAvailable | ReasonCRDNotInstalled
    | ReasonFallbackCE | ReasonExpiredNoFallback | ReasonRestored

  datatype Condition = Condition(status: Tri, reason: Reason)
  type Conditions = map<Kind, Condition>

  function Get(c: Conditions, k: Kind): Option<Condition> {
    if k in c then Some(c[k]) else None
  }

  predicate IsTrue(c: Conditions, k: Kind) {
    k in c && c[k].status == True
  }

  predicate IsLicenseKind(k: Kind) {
    !k.OtherKind?
  }

  /** fallbackToCE is false for a gateway without a license configuration. */
  datatype Spec = Spec(ee: bool, fallbackToCE: bool, warningDays: int)
  {
    /** At least a day of warning: longer than the safety buffer. */
    function StageWindow(): (w: Window)
      ensures w.Valid()
    {
      Window((if warningDays > 0 then warningDays else DEFAULT_WARNING_DAYS) * DAY, SAFETY_BUFFER)
    }
  }

  /** What reading the license Secret gives. */
  datatype Read = Readable(checksum: string, notAfter: int) | Unreadable(crdMissing: bool)

  datatype Status = Status(conditions: Conditions, expiry: Option<int>)

  datatype Verdict = Verdict(ceFallback: bool, requeueAfter: int, checksum: string, keepDeployed: bool)
  {
    /** The license checksum the Deployment should carry. */
    function ChecksumFor(deployed: string): string {
      if keepDeployed then deployed else checksum
    }
  }

  /** What admission reads of a fallback in the recorded status. */
  predicate CEFallback(spec: Spec, status: Status) {
    spec.ee && IsTrue(status.conditions, LicenseDegraded)
  }

  predicate Over(stage: Stage) {
    stage.PreExpiry? || stage.Lapsed?
  }

  // ---- What a stage leaves ----

  predicate Recovers(c: Conditions) {
    IsTrue(c, LicenseExpired) || IsTrue(c, LicenseDegraded)
  }

  function StageReason(stage: Stage): Reason {
    match stage
    case Healthy => ReasonOK
    case ExpiringSoon => ReasonExpiringSoon
    case PreExpiry => ReasonPreExpiry
    case Lapsed => ReasonExpired
  }

  /** The condition k after stage is applied to c. */
  function AfterStage(c: Conditions, stage: Stage, fallback: bool, k: Kind): Option<Condition> {
    match k
    case LicenseValid => Some(Condition(if Over(stage) then False else True, StageReason(stage)))
    case LicenseExpired =>
      if Over(stage) then Some(Condition(True, StageReason(stage)))
      else if Recovers(c) then Some(Condition(False, ReasonRestored))
      else Get(c, k)
    case LicenseDegraded =>
      if Over(stage) then
        if fallback then Some(Condition(True, ReasonFallbackCE))
        else if k in c then Some(Condition(False, ReasonExpiredNoFallback))
        else None
      else if Recovers(c) then Some(Condition(False, ReasonRestored))
      else Get(c, k)
    case _ => Get(c, k)
  }

  /** The events of that: one for each change worth telling. */
  function StageEvents(c: Conditions, stage: Stage, fallback: bool): seq<Reason> {
    if Over(stage) then
      if fallback then
        if Get(c, LicenseDegraded) == Some(Condition(True, ReasonFallbackCE)) then [] else [ReasonFallbackCE]
      else if IsTrue(c, LicenseExpired) && !IsTrue(c, LicenseDegraded) then []
      else [ReasonExpiredNoFallback]
    else
      (if Recovers(c) then [ReasonRestored] else []) +
      if stage.ExpiringSoon? && !(LicenseValid in c && c[LicenseValid].reason == ReasonExpiringSoon)
        then [ReasonExpiringSoon] else []
  }

  // ---- What a pass leaves ----

  /** The expiry a pass goes by. */
  function KnownExpiry(status: Status, read: Read): Option<int> {
    match read
    case Readable(_, notAfter) => Some(notAfter)
    case Unreadable(_) => status.expiry
  }

  /** A pass applies the stage of the license it read; of one it could not
      read, only a stage that is over. */
  predicate AppliesStage(status: Status, spec: Spec, read: Read, now: int) {
    var known := KnownExpiry(status, read);
    known.Some? && (read.Readable? || Over(spec.StageWindow().StageAt(known.value, now)))
  }

  function SecretCondition(read: Read): Condition {
    match read
    case Readable(_, _) => Condition(False, ReasonSecretAvailable)
    case Unreadable(crdMissing) => Condition(True, if crdMissing then ReasonCRDNotInstalled else ReasonSecretMissing)
  }

  /** The condition k after a pass. */
  function AfterPass(status: Status, spec: Spec, read: Read, now: int, k: Kind): Option<Condition> {
    if !spec.ee then
      if IsLicenseKind(k) then None else Get(status.conditions, k)
    else if k == LicenseSecretUnavailable then Some(SecretCondition(read))
    else if AppliesStage(status, spec, read, now) then
      AfterStage(status.conditions, spec.StageWindow().StageAt(KnownExpiry(status, read).value, now),
        spec.fallbackToCE, k)
    else if k == LicenseValid then Some(Condition(Unknown, ReasonSecretMissing))
    else Get(status.conditions, k)
  }

  function SecretEvents(c: Conditions, read: Read): seq<Reason> {
    var cond := SecretCondition(read);
    if read.Readable? || Get(c, LicenseSecretUnavailable) == Some(cond) then [] else [cond.reason]
  }

  function PassEvents(status: Status, spec: Spec, read: Read, now: int): seq<Reason> {
    if !spec.ee then []
    else
      SecretEvents(status.conditions, read) +
      if AppliesStage(status, spec, read, now)
      then StageEvents(status.conditions, spec.StageWindow().StageAt(KnownExpiry(status, read).value, now),
        spec.fallbackToCE)
      else []
  }

  function PassVerdict(status: Status, spec: Spec, read: Read, now: int): Verdict {
    if !spec.ee then Verdict(false, 0, "", false)
    else
      var known := KnownExpiry(status, read);
      Verdict(
        if AppliesStage(status, spec, read, now)
        then spec.fallbackToCE && Over(spec.StageWindow().StageAt(known.value, now))
        else IsTrue(status.conditions, LicenseDegraded),
        if known.Some? then NextLicenseCheck(spec.StageWindow(), known.value, now) else RECHECK_INTERVAL,
        if read.Readable? then read.checksum else "",
        read.Unreadable?)
  }

  /** after is the status a pass leaves. */
  ghost predicate IsAfterPass(status: Status, spec: Spec, read: Read, now: int, after: Status) {
    && (forall k :: Get(after.conditions, k) == AfterPass(status, spec, read, now, k))
    && after.expiry == if spec.ee then KnownExpiry(status, read) else None
  }

  // ---- Every run ----

  /** Degraded means expired, and expired means invalid and known to be over. */
  ghost predicate Coherent(status: Status, now: int) {
    && (IsTrue(status.conditions, LicenseDegraded) ==> IsTrue(status.conditions, LicenseExpired))
    && (IsTrue(status.conditions, LicenseExpired) ==>
          && Get(status.conditions, LicenseValid).Some? && status.conditions[LicenseValid].status == False
          && status.expiry.Some? && status.expiry.value <= now + SAFETY_BUFFER)
  }

  /** A pass keeps the status coherent, and its verdict is the fallback the
      status then records. */
  lemma PassIsCoherent(status: Status, spec: Spec, read: Read, before: int, now: int, after: Status)
    requires Coherent(status, before) && before <= now && IsAfterPass(status, spec, read, now, after)
    ensures Coherent(after, now)
    ensures PassVerdict(status, spec, read, now).ceFallback == CEFallback(spec, after)
  {
    assert Get(after.conditions, LicenseDegraded) == AfterPass(status, spec, read, now, LicenseDegraded);
    assert Get(after.conditions, LicenseExpired) == AfterPass(status, spec, read, now, LicenseExpired);
    assert Get(after.conditions, LicenseValid) == AfterPass(status, spec, read, now, LicenseValid);
  }

  /** One pass of a run: kept says its status was recorded. */
  datatype Pass = Pass(spec: Spec, read: Read, now: int, after: Status, kept: bool)

  /** Each pass starts from the status last recorded, at a clock that does not
      go back. */
  ghost predicate IsRun(start: Status, clock: int, passes: seq<Pass>)
    decreases |passes|
  {
    passes != [] ==>
      var p := passes[0];
      clock <= p.now && IsAfterPass(start, p.spec, p.read, p.now, p.after) &&
      IsRun(if p.kept then p.after else start, p.now, passes[1..])
  }

  /** The status the i-th pass of a run starts from. */
  function StatusBefore(start: Status, passes: seq<Pass>, i: nat): Status
    requires i <= |passes|
  {
    if i == 0 then start
    else if passes[i - 1].kept then passes[i - 1].after
    else StatusBefore(start, passes, i - 1)
  }

  lemma CoherentLater(status: Status, before: int, now: int)
    requires Coherent(status, before) && before <= now
    ensures Coherent(status, now)
  {}

  lemma {:induction false} StatusBeforeRest(start: Status, passes: seq<Pass>, i: nat)
    requires 0 < i <= |passes|
    ensures StatusBefore(start, passes, i) ==
      StatusBefore(if passes[0].kept then passes[0].after else start, passes[1..], i - 1)
  {
    if i > 1 { StatusBeforeRest(start, passes, i - 1); }
  }

  /** In every pass of every run: the verdict is the fallback its status
      records, degraded means expired, and expired means not valid. */
  lemma {:induction false} RunIsCoherent(start: Status, clock: int, passes: seq<Pass>, i: nat)
    requires Coherent(start, clock) && IsRun(start, clock, passes) && i < |passes|
    ensures var p := passes[i];
      && Coherent(p.after, p.now)
      && PassVerdict(StatusBefore(start, passes, i), p.spec, p.read, p.now).ceFallback == CEFallback(p.spec, p.after)
    decreases |passes|
  {
    var p := passes[0];
    PassIsCoherent(start, p.spec, p.read, clock, p.now, p.after);
    if i > 0 {
      CoherentLater(start, clock, p.now);
      StatusBeforeRest(start, passes, i);
      RunIsCoherent(if p.kept then p.after else start, p.now, passes[1..], i - 1);
    }
  }

  lemma NothingRecorded(clock: int)
    ensures Coherent(Status(map[], None), clock)
  {}

  /** An unreadable license changes no checksum, and a readable one gives the
      checksum of its bytes, whatever its stage and the fallback. */
  lemma ChecksumIsTheLicense(status: Status, spec: Spec, read: Read, now: int, deployed: string)
    requires spec.ee
    ensures PassVerdict(status, spec, read, now).ChecksumFor(deployed) == if read.Readable? then read.checksum
      else deployed
  {}

  /** The license checksum the Deployment carries after passes. */
  function Deployed(start: Status, passes: seq<Pass>, deployed: string): string {
    if passes == [] then deployed
    else
      var n := |passes| - 1;
      var p := passes[n];
      PassVerdict(StatusBefore(start, passes, n), p.spec, p.read,
        p.now).ChecksumFor(Deployed(start, passes[..n], deployed))
  }

  /** Over any run the Deployment carries the checksum of the license read
      last, however many passes could not read one since, and none once the
      gateway is not Enterprise. */
  lemma {:induction false} LastReadIsDeployed(start: Status, passes: seq<Pass>, deployed: string, last: nat)
    requires last < |passes| && (passes[last].spec.ee ==> passes[last].read.Readable?)
    requires forall i :: last < i < |passes| ==> passes[i].spec.ee && passes[i].read.Unreadable?
    ensures Deployed(start, passes, deployed) == if passes[last].spec.ee then passes[last].read.checksum else ""
  {
    if last < |passes| - 1 {
      LastReadIsDeployed(start, passes[..|passes| - 1], deployed, last);
    }
  }

  /** A readable license settles the conditions, whatever was recorded. */
  lemma ReadableSettles(status: Status, spec: Spec, read: Read, now: int, after: Status)
    requires spec.ee && read.Readable? && IsAfterPass(status, spec, read, now, after)
    ensures var over := Over(spec.StageWindow().StageAt(read.notAfter, now));
      && (IsTrue(after.conditions, LicenseExpired) <==> over)
      && (IsTrue(after.conditions, LicenseDegraded) <==> over && spec.fallbackToCE)
      && (IsTrue(after.conditions, LicenseValid) <==> !over)
      && !IsTrue(after.conditions, LicenseSecretUnavailable)
  {
    assert Get(after.conditions, LicenseDegraded) == AfterPass(status, spec, read, now, LicenseDegraded);
    assert Get(after.conditions, LicenseExpired) == AfterPass(status, spec, read, now, LicenseExpired);
    assert Get(after.conditions, LicenseValid) == AfterPass(status, spec, read, now, LicenseValid);
    assert Get(after.conditions, LicenseSecretUnavailable) ==
      AfterPass(status, spec, read, now, LicenseSecretUnavailable);
  }

  // ---- What a pass leaves, by the clock ----

  /** The status of the condition k: none when it is not set. */
  function StatusOf(c: Conditions, k: Kind): Option<Tri> {
    if k in c then Some(c[k].status) else None
  }

  /** From the hour before its expiry on, a license read by a pass is over:
      expired, not valid, and degraded exactly when the gateway falls back.
      Before that it is valid, and neither of the others; and the next pass is
      due no later than that hour. */
  lemma ReadableByTheClock(status: Status, spec: Spec, read: Read, now: int, after: Status)
    requires spec.ee && read.Readable? && IsAfterPass(status, spec, read, now, after)
    ensures after.expiry == Some(read.notAfter)
    ensures StatusOf(after.conditions, LicenseSecretUnavailable) == Some(False)
    ensures read.notAfter <= now + 3600 ==>
      && StatusOf(after.conditions, LicenseExpired) == Some(True)
      && after.conditions[LicenseExpired].reason == (if read.notAfter <= now then ReasonExpired else ReasonPreExpiry)
      && StatusOf(after.conditions, LicenseValid) == Some(False)
      && IsTrue(after.conditions, LicenseDegraded) == spec.fallbackToCE
    ensures read.notAfter > now + 3600 ==>
      && StatusOf(after.conditions, LicenseValid) == Some(True)
      && !IsTrue(after.conditions, LicenseExpired) && !IsTrue(after.conditions, LicenseDegraded)
      && var days := if spec.warningDays > 0 then spec.warningDays else 30;
         after.conditions[LicenseValid].reason ==
           if read.notAfter <= now + days * 86400 then ReasonExpiringSoon else ReasonOK
    ensures var v := PassVerdict(status, spec, read, now);
      && v.ceFallback == (spec.fallbackToCE && read.notAfter <= now + 3600)
      && v.checksum == read.checksum && !v.keepDeployed
      && 0 < v.requeueAfter <= 300
      && (read.notAfter > now + 3600 ==> v.requeueAfter <= read.notAfter - 3600 - now)
  {
    PassSets(status, spec, read, now, after);
  }

  /** A license that cannot be read is judged by the last known expiry once that
      is at most an hour away. Until then, or when none is known, only
      LicenseValid changes, and the fallback stays as recorded. */
  lemma UnreadableByTheClock(status: Status, spec: Spec, read: Read, now: int, after: Status)
    requires spec.ee && read.Unreadable? && IsAfterPass(status, spec, read, now, after)
    ensures after.expiry == status.expiry
    ensures StatusOf(after.conditions, LicenseSecretUnavailable) == Some(True)
    ensures status.expiry.Some? && status.expiry.value <= now + 3600 ==>
      && StatusOf(after.conditions, LicenseExpired) == Some(True)
      && StatusOf(after.conditions, LicenseValid) == Some(False)
      && IsTrue(after.conditions, LicenseDegraded) == spec.fallbackToCE
      && PassVerdict(status, spec, read, now).ceFallback == spec.fallbackToCE
    ensures status.expiry.None? || status.expiry.value > now + 3600 ==>
      && StatusOf(after.conditions, LicenseValid) == Some(Unknown)
      && Get(after.conditions, LicenseExpired) == Get(status.conditions, LicenseExpired)
      && Get(after.conditions, LicenseDegraded) == Get(status.conditions, LicenseDegraded)
      && PassVerdict(status, spec, read, now).ceFallback == IsTrue(status.conditions, LicenseDegraded)
    ensures var v := PassVerdict(status, spec, read, now);
      && v.keepDeployed && 0 < v.requeueAfter <= 300
      && (status.expiry.Some? && status.expiry.value > now + 3600 ==>
            v.requeueAfter <= status.expiry.value - 3600 - now)
  {
    PassSets(status, spec, read, now, after);
  }

  /** A gateway that is not Enterprise keeps nothing of a license. */
  lemma CommunityForgets(status: Status, spec: Spec, read: Read, now: int, after: Status)
    requires !spec.ee && IsAfterPass(status, spec, read, now, after)
    ensures after.expiry.None? && PassVerdict(status, spec, read, now) == Verdict(false, 0, "", false)
    ensures StatusOf(after.conditions, LicenseValid).None? && StatusOf(after.conditions, LicenseExpired).None?
    ensures StatusOf(after.conditions, LicenseDegraded).None?
    ensures StatusOf(after.conditions, LicenseSecretUnavailable).None?
    ensures forall name :: Get(after.conditions, OtherKind(name)) == Get(status.conditions, OtherKind(name))
  {
    PassSets(status, spec, read, now, after);
    forall name ensures Get(after.conditions, OtherKind(name)) == Get(status.conditions, OtherKind(name)) {
      assert Get(after.conditions, OtherKind(name)) == AfterPass(status, spec, read, now, OtherKind(name));
    }
  }

  lemma PassSets(status: Status, spec: Spec, read: Read, now: int, after: Status)
    requires IsAfterPass(status, spec, read, now, after)
    ensures Get(after.conditions, LicenseValid) == AfterPass(status, spec, read, now, LicenseValid)
    ensures Get(after.conditions, LicenseExpired) == AfterPass(status, spec, read, now, LicenseExpired)
    ensures Get(after.conditions, LicenseDegraded) == AfterPass(status, spec, read, now, LicenseDegraded)
    ensures Get(after.conditions, LicenseSecretUnavailable) ==
      AfterPass(status, spec, read, now, LicenseSecretUnavailable)
  {}

  /** Every turn of a license is told: into the fallback, out of it or of an
      expiry, and a Secret that became unavailable. A fallback or a recovery
      told is one that is recorded. */
  lemma TurnsAreTold(status: Status, spec: Spec, read: Read, now: int, after: Status)
    requires spec.ee && IsAfterPass(status, spec, read, now, after)
    ensures var told := PassEvents(status, spec, read, now);
      && (IsTrue(after.conditions, LicenseDegraded) && !IsTrue(status.conditions, LicenseDegraded) ==>
            ReasonFallbackCE in told)
      && (ReasonFallbackCE in told ==> IsTrue(after.conditions, LicenseDegraded))
      && (ReasonRestored in told <==>
            && Recovers(status.conditions)
            && !IsTrue(after.conditions, LicenseExpired) && !IsTrue(after.conditions, LicenseDegraded))
      && (read.Unreadable? && !IsTrue(status.conditions, LicenseSecretUnavailable) ==>
            (if read.crdMissing then ReasonCRDNotInstalled else ReasonSecretMissing) in told)
      && (!spec.fallbackToCE && IsTrue(after.conditions, LicenseExpired) && !IsTrue(status.conditions, LicenseExpired)
          ==> ReasonExpiredNoFallback in told)
  {
    PassSets(status, spec, read, now, after);
  }

  /** A later pass that reads the same, in the same stage, tells nothing and
      changes nothing. */
  lemma SettledPassIsSilent(status: Status, spec: Spec, read: Read, now: int, later: int, after: Status, again: Status)
    requires IsAfterPass(status, spec, read, now, after) && IsAfterPass(after, spec, read, later, again)
    requires var known := KnownExpiry(status, read);
      known.Some? && spec.ee ==>
        spec.StageWindow().StageAt(known.value, now) == spec.StageWindow().StageAt(known.value, later)
    ensures PassEvents(after, spec, read, later) == []
    ensures again.expiry == after.expiry && forall k :: Get(again.conditions, k) == Get(after.conditions, k)
  {
    forall k ensures Get(again.conditions, k) == Get(after.conditions, k) {
      assert Get(after.conditions, k) == AfterPass(status, spec, read, now, k);
      assert Get(again.conditions, k) == AfterPass(after, spec, read, later, k);
      assert Get(after.conditions, LicenseDegraded) == AfterPass(status, spec, read, now, LicenseDegraded);
      assert Get(after.conditions, LicenseExpired) == AfterPass(status, spec, read, now, LicenseExpired);
    }
    assert Get(after.conditions, LicenseDegraded) == AfterPass(status, spec, read, now, LicenseDegraded);
    assert Get(after.conditions, LicenseExpired) == AfterPass(status, spec, read, now, LicenseExpired);
    assert Get(after.conditions, LicenseValid) == AfterPass(status, spec, read, now, LicenseValid);
    assert Get(after.conditions, LicenseSecretUnavailable) ==
      AfterPass(status, spec, read, now, LicenseSecretUnavailable);
  }

  // ---- The reconciler ----

  /** A gateway's license conditions, and the events recorded of them. */
  class GatewayLicense {
    var conditions: Conditions
    var expiry: Option<int>
    var events: seq<Reason>

    constructor (status: Status)
      ensures Recorded() == status && events == []
    {
      conditions, expiry, events := status.conditions, status.expiry, [];
    }

    function Recorded(): Status
      reads this
    {
      Status(conditions, expiry)
    }

    /** Sets a condition whose True status reports a problem: an event when it
        turns True or changes its reason. */
    method SetProblem(k: Kind, cond: Condition)
      requires cond.status == True
      modifies this`conditions, this`events
      ensures conditions == old(conditions)[k := cond]
      ensures events == old(events) + if Get(old(conditions), k) == Some(cond) then [] else [cond.reason]
    {
      var prev := Get(conditions, k);
      conditions := conditions[k := cond];
      if prev.None? || prev.value.status != True || prev.value.reason != cond.reason {
        events := events + [cond.reason];
      }
    }

    method ExpireLicense(stage: Stage, fallback: bool)
      requires Over(stage)
      modifies this`conditions, this`events
      ensures forall k :: Get(conditions, k) == AfterStage(old(conditions), stage, fallback, k)
      ensures events == old(events) + StageEvents(old(conditions), stage, fallback)
    {
      var wasExpired, wasFallingBack := IsTrue(conditions, LicenseExpired), IsTrue(conditions, LicenseDegraded);
      var reason := StageReason(stage);
      conditions := conditions[LicenseValid := Condition(False, reason)];
      conditions := conditions[LicenseExpired := Condition(True, reason)];
      if fallback {
        SetProblem(LicenseDegraded, Condition(True, ReasonFallbackCE));
      } else if !wasExpired || wasFallingBack {
        events := events + [ReasonExpiredNoFallback];
      }
      if !fallback && LicenseDegraded in conditions {
        conditions := conditions[LicenseDegraded := Condition(False, ReasonExpiredNoFallback)];
      }
    }

    /** Clears an earlier expiry. */
    method RecoverLicense()
      modifies this`conditions, this`events
      ensures conditions == if Recovers(old(conditions))
                            then old(conditions)[LicenseDegraded := Condition(False, ReasonRestored)]
                                                [LicenseExpired := Condition(False, ReasonRestored)]
                            else old(conditions)
      ensures events == old(events) + if Recovers(old(conditions)) then [ReasonRestored] else []
    {
      if !IsTrue(conditions, LicenseExpired) && !IsTrue(conditions, LicenseDegraded) { return; }
      conditions := conditions[LicenseDegraded := Condition(False, ReasonRestored)];
      conditions := conditions[LicenseExpired := Condition(False, ReasonRestored)];
      events := events + [ReasonRestored];
    }

    /** Applies stage; whether the gateway must fall back. */
    method ApplyLicenseStage(stage: Stage, fallbackToCE: bool) returns (fallback: bool)
      modifies this`conditions, this`events
      ensures forall k :: Get(conditions, k) == AfterStage(old(conditions), stage, fallbackToCE, k)
      ensures events == old(events) + StageEvents(old(conditions), stage, fallbackToCE)
      ensures fallback <==> fallbackToCE && Over(stage)
    {
      match stage
      case Healthy =>
        RecoverLicense();
        conditions := conditions[LicenseValid := Condition(True, ReasonOK)];
        return false;
      case ExpiringSoon =>
        RecoverLicense();
        var prev := Get(conditions, LicenseValid);
        var entering := prev.None? || prev.value.reason != ReasonExpiringSoon;
        conditions := conditions[LicenseValid := Condition(True, ReasonExpiringSoon)];
        if entering { events := events + [ReasonExpiringSoon]; }
        return false;
      case PreExpiry =>
        ExpireLicense(stage, fallbackToCE);
        return fallbackToCE;
      case Lapsed =>
        ExpireLicense(stage, fallbackToCE);
        return fallbackToCE;
    }

    /** A license that cannot be read: the last known expiry applies once it is
        over; otherwise the fallback recorded last is kept. */
    method ReconcileUnreadable(spec: Spec, read: Read, now: int) returns (v: Verdict)
      requires spec.ee && read.Unreadable?
      modifies this`conditions, this`events
      ensures IsAfterPass(old(Recorded()), spec, read, now, Recorded())
      ensures events == old(events) + PassEvents(old(Recorded()), spec, read, now)
      ensures v.(keepDeployed := true) == PassVerdict(old(Recorded()), spec, read, now)
    {
      SetProblem(LicenseSecretUnavailable, SecretCondition(read));
      v := Verdict(IsTrue(conditions, LicenseDegraded), RECHECK_INTERVAL, "", false);
      if expiry.None? {
        conditions := conditions[LicenseValid := Condition(Unknown, ReasonSecretMissing)];
        return;
      }
      v := v.(requeueAfter := NextLicenseCheck(spec.StageWindow(), expiry.value, now));
      var stage := spec.StageWindow().StageAt(expiry.value, now);
      if stage == PreExpiry || stage == Lapsed {
        var fallback := ApplyLicenseStage(stage, spec.fallbackToCE);
        v := v.(ceFallback := fallback);
      } else {
        conditions := conditions[LicenseValid := Condition(Unknown, ReasonSecretMissing)];
      }
    }

    /** Drops the license state of a gateway that is not Enterprise. */
    method ForgetLicense()
      modifies this`conditions, this`expiry
      ensures forall k :: Get(conditions, k) == if IsLicenseKind(k) then None else Get(old(conditions), k)
      ensures expiry == None
    {
      conditions := map k | k in conditions && !IsLicenseKind(k) :: conditions[k];
      expiry := None;
    }

    /** Evaluates the license as a pass reads it. */
    method ReconcileLicense(spec: Spec, read: Read, now: int) returns (v: Verdict)
      modifies this
      ensures IsAfterPass(old(Recorded()), spec, read, now, Recorded())
      ensures events == old(events) + PassEvents(old(Recorded()), spec, read, now)
      ensures v == PassVerdict(old(Recorded()), spec, read, now)
    {
      if !spec.ee {
        ForgetLicense();
        return Verdict(false, 0, "", false);
      }
      match read
      case Unreadable(_) =>
        v := ReconcileUnreadable(spec, read, now);
        return v.(keepDeployed := true);
      case Readable(checksum, notAfter) =>
        var window := spec.StageWindow();
        expiry := Some(notAfter);
        conditions := conditions[LicenseSecretUnavailable := Condition(False, ReasonSecretAvailable)];
        var fallback := ApplyLicenseStage(window.StageAt(notAfter, now), spec.fallbackToCE);
        return Verdict(fallback, NextLicenseCheck(window, notAfter, now), checksum, false);
    }
  }
}
