/**
 Drift of an RDS instance (buildRDSUpdateStrategy, verifyPendingModification and
 buildRDSCreateStrategy of pkg/providers/aws/provider_postgres.go), and what the modify request
 it builds does to the instance.
 */
module RdsDrift {
  import opened Versions
  import opened Wrappers

  const EXISTING_CERT: string := "rds-ca-2019"
  const NEW_CERT: string := "rds-ca-rsa2048-g1"
  const SUPPORTED_ENGINES: seq<string> := ["13.13", "13.12", "13.11"]
  const DEFAULT_ENGINE: string := "13.13"

  /** The create strategy once its defaults are filled in. */
  datatype Config = Config(
    deletionProtection: bool,
    port: int,
    backupRetention: int,
    instanceClass: string,
    public: bool,
    maxStorage: int,
    multiAZ: bool,
    autoMinorUpgrade: Option<bool>,
    backupWindow: Option<string>,
    maintenanceWindow: Option<string>,
    engine: Option<string>)

  /** The compared fields that RDS can leave for the maintenance window: those of PendingModifiedValues. */
  datatype Pending = Pending(
    port: Option<int>,
    backupRetention: Option<int>,
    instanceClass: Option<string>,
    engine: Option<string>,
    multiAZ: Option<bool>,
    cert: Option<string>)

  /** Which of them RDS does leave for the window; any choice is possible. */
  datatype Waits = Waits(
    port: bool,
    backupRetention: bool,
    instanceClass: bool,
    engine: bool,
    multiAZ: bool,
    cert: bool)

  /** port: None until the instance has an endpoint. */
  datatype Instance = Instance(
    cert: string,
    deletionProtection: bool,
    port: Option<int>,
    backupRetention: int,
    instanceClass: string,
    public: bool,
    maxStorage: int,
    multiAZ: bool,
    autoMinorUpgrade: bool,
    backupWindow: string,
    maintenanceWindow: string,
    engine: string,
    pending: Option<Pending>)

  /** The fields RDS changes without waiting for a window. */
  datatype Plain = Plain(
    deletionProtection: Option<bool>,
    public: Option<bool>,
    maxStorage: Option<int>,
    autoMinorUpgrade: Option<bool>,
    backupWindow: Option<string>,
    maintenanceWindow: Option<string>)

  datatype Modify = Modify(plain: Plain, parked: Pending, allowMajor: Option<bool>, applyImmediately: Option<bool>)

  const NOTHING_PENDING: Pending := Pending(None, None, None, None, None, None)

  // ---------------------------------------------------------------- what drift is

  predicate Wants<T(==)>(wanted: Option<T>, got: T) {
    wanted.Some? && wanted.value != got
  }

  /** The engine version is not older than configured. */
  ghost predicate EngineInSync(cfg: Config, f: Instance) {
    cfg.engine.Some? ==> NotOlder(f.engine, cfg.engine.value)
  }

  ghost predicate PlainInSync(cfg: Config, f: Instance) {
    && f.deletionProtection == cfg.deletionProtection
    && f.public == cfg.public && f.maxStorage == cfg.maxStorage
    && !Wants(cfg.autoMinorUpgrade, f.autoMinorUpgrade)
    && !Wants(cfg.backupWindow, f.backupWindow) && !Wants(cfg.maintenanceWindow, f.maintenanceWindow)
  }

  ghost predicate ParkedInSync(cfg: Config, f: Instance) {
    && !Wants(f.port, cfg.port) && f.backupRetention == cfg.backupRetention
    && f.instanceClass == cfg.instanceClass && f.multiAZ == cfg.multiAZ
  }

  /** Every compared field agrees. */
  ghost predicate InSync(cfg: Config, f: Instance) {
    PlainInSync(cfg, f) && ParkedInSync(cfg, f) && EngineInSync(cfg, f) && f.cert != EXISTING_CERT
  }

  predicate Comparable(cfg: Config, f: Instance) {
    cfg.engine.Some? ==> Parse(f.engine).Some? && Parse(cfg.engine.value).Some?
  }

  predicate Upgrades(cfg: Config, f: Instance) {
    cfg.engine.Some? && UpgradeNeeded(f.engine, cfg.engine.value) == Some(true)
  }

  /** Some field that differs from the configuration is pending with the configured value. */
  predicate SomeDriftPending(cfg: Config, f: Instance) {
    f.pending.Some? &&
    var p := f.pending.value;
    || (Wants(f.port, cfg.port) && p.port == Some(cfg.port))
    || (f.backupRetention != cfg.backupRetention && p.backupRetention == Some(cfg.backupRetention))
    || (f.instanceClass != cfg.instanceClass && p.instanceClass == Some(cfg.instanceClass))
    || (Upgrades(cfg, f) && p.engine == cfg.engine)
    || (f.multiAZ != cfg.multiAZ && p.multiAZ == Some(cfg.multiAZ))
  }

  /** The configured value, if the instance has another. */
  function Wanted<T(==)>(configured: T, got: T): Option<T> {
    if got != configured then Some(configured) else None
  }

  ghost predicate IsPlainDiff(cfg: Config, f: Instance, d: Plain) {
    && d.deletionProtection == Wanted(cfg.deletionProtection, f.deletionProtection)
    && d.public == Wanted(cfg.public, f.public) && d.maxStorage == Wanted(cfg.maxStorage, f.maxStorage)
    && d.autoMinorUpgrade == (if Wants(cfg.autoMinorUpgrade, f.autoMinorUpgrade) then cfg.autoMinorUpgrade else None)
    && d.backupWindow == (if Wants(cfg.backupWindow, f.backupWindow) then cfg.backupWindow else None)
    && (d.maintenanceWindow ==
        if Wants(cfg.maintenanceWindow, f.maintenanceWindow) then cfg.maintenanceWindow else None)
  }

  ghost predicate IsParkedDiff(cfg: Config, f: Instance, d: Pending) {
    && d.port == (if Wants(f.port, cfg.port) then Some(cfg.port) else None)
    && d.backupRetention == Wanted(cfg.backupRetention, f.backupRetention)
    && d.instanceClass == Wanted(cfg.instanceClass, f.instanceClass) && d.multiAZ == Wanted(cfg.multiAZ, f.multiAZ)
    && d.cert == (if f.cert == EXISTING_CERT then Some(NEW_CERT) else None)
  }

  /** The request sets exactly the fields that differ, to the configured values. */
  ghost predicate IsDiff(cfg: Config, f: Instance, applyImmediately: bool, mi: Modify) {
    && IsPlainDiff(cfg, f, mi.plain) && IsParkedDiff(cfg, f, mi.parked)
    && mi.parked.engine == (if Upgrades(cfg, f) then cfg.engine else None)
    && mi.allowMajor == (if Upgrades(cfg, f) then Some(true) else None)
    && mi.applyImmediately == (if Upgrades(cfg, f) && applyImmediately then Some(true) else None)
  }

  // ---------------------------------------------------------------- the diff

  /** verifyPendingModification: true if no field of the request is pending already with the same value. */
  method VerifyPendingModification(mi: Modify, pm: Option<Pending>) returns (notPending: bool)
    ensures notPending <==> !(pm.Some? && Overlap(mi.parked, pm.value))
  {
    notPending := true;
    if pm.None? {
      return;
    }
    if mi.parked.port.Some? && pm.value.port == mi.parked.port {
      notPending := false;
    }
    if mi.parked.backupRetention.Some? && pm.value.backupRetention == mi.parked.backupRetention {
      notPending := false;
    }
    if mi.parked.instanceClass.Some? && pm.value.instanceClass == mi.parked.instanceClass {
      notPending := false;
    }
    if mi.parked.engine.Some? && pm.value.engine == mi.parked.engine {
      notPending := false;
    }
    if mi.parked.multiAZ.Some? && pm.value.multiAZ == mi.parked.multiAZ {
      notPending := false;
    }
  }

  /** Some field is set in both, to the same value; the certificate is not looked at. */
  predicate Overlap(d: Pending, p: Pending) {
    || (d.port.Some? && d.port == p.port)
    || (d.backupRetention.Some? && d.backupRetention == p.backupRetention)
    || (d.instanceClass.Some? && d.instanceClass == p.instanceClass)
    || (d.engine.Some? && d.engine == p.engine)
    || (d.multiAZ.Some? && d.multiAZ == p.multiAZ)
  }

  method DiffPlain(cfg: Config, f: Instance) returns (d: Plain, updateFound: bool)
    ensures IsPlainDiff(cfg, f, d) && (updateFound <==> !PlainInSync(cfg, f))
  {
    updateFound := false;
    var window, upkeep: Option<string> := None, None;
    var protection, public, autoMinor: Option<bool> := None, None, None;
    var storage: Option<int> := None;
    if cfg.deletionProtection != f.deletionProtection {
      protection := Some(cfg.deletionProtection);
      updateFound := true;
    }
    if cfg.public != f.public {
      public := Some(cfg.public);
      updateFound := true;
    }
    if cfg.maxStorage != f.maxStorage {
      storage := Some(cfg.maxStorage);
      updateFound := true;
    }
    if cfg.autoMinorUpgrade.Some? && cfg.autoMinorUpgrade.value != f.autoMinorUpgrade {
      autoMinor := cfg.autoMinorUpgrade;
      updateFound := true;
    }
    if cfg.backupWindow.Some? && cfg.backupWindow.value != f.backupWindow {
      window := cfg.backupWindow;
      updateFound := true;
    }
    if cfg.maintenanceWindow.Some? && cfg.maintenanceWindow.value != f.maintenanceWindow {
      upkeep := cfg.maintenanceWindow;
      updateFound := true;
    }
    d := Plain(protection, public, storage, autoMinor, window, upkeep);
  }

  method DiffParked(cfg: Config, f: Instance) returns (d: Pending, updateFound: bool)
    ensures IsParkedDiff(cfg, f, d) && d.engine.None?
    ensures updateFound <==> !ParkedInSync(cfg, f) || f.cert == EXISTING_CERT
  {
    updateFound := false;
    d := NOTHING_PENDING;
    if f.cert == EXISTING_CERT {
      d := d.(cert := Some(NEW_CERT));
      updateFound := true;
    }
    if f.port.Some? && cfg.port != f.port.value {
      d := d.(port := Some(cfg.port));
      updateFound := true;
    }
    if cfg.backupRetention != f.backupRetention {
      d := d.(backupRetention := Some(cfg.backupRetention));
      updateFound := true;
    }
    if cfg.instanceClass != f.instanceClass {
      d := d.(instanceClass := Some(cfg.instanceClass));
      updateFound := true;
    }
    if cfg.multiAZ != f.multiAZ {
      d := d.(multiAZ := Some(cfg.multiAZ));
      updateFound := true;
    }
  }

  datatype DriftError = InvalidVersion

  /**
   buildRDSUpdateStrategy. It fails exactly on a version that does not parse, asks for nothing
   exactly when everything agrees or some part of the drift is pending already (an upgrade to be
   applied at once excepted), and otherwise asks for exactly the drift.
   */
  method BuildRDSUpdateStrategy(cfg: Config, f: Instance, applyImmediately: bool)
    returns (r: Result<Option<Modify>, DriftError>)
    ensures r.Failure? <==> !Comparable(cfg, f)
    ensures r.Success? ==>
              (r.value.None? <==> Quiet(cfg, f, applyImmediately))
    ensures r.Success? && r.value.Some? ==> IsDiff(cfg, f, applyImmediately, r.value.value)
    ensures r.Success? && r.value.Some? ==>
              (r.value.value.allowMajor == Some(true) <==> r.value.value.parked.engine.Some?)
    ensures r.Success? && f.pending.None? ==>
              (r.value.None? <==>
                 && f.cert != "rds-ca-2019" && f.deletionProtection == cfg.deletionProtection
                 && (f.port.Some? ==> f.port.value == cfg.port) && f.backupRetention == cfg.backupRetention
                 && f.instanceClass == cfg.instanceClass && f.public == cfg.public && f.maxStorage == cfg.maxStorage
                 && f.multiAZ == cfg.multiAZ
                 && (cfg.autoMinorUpgrade.Some? ==> f.autoMinorUpgrade == cfg.autoMinorUpgrade.value)
                 && (cfg.backupWindow.Some? ==> f.backupWindow == cfg.backupWindow.value)
                 && (cfg.maintenanceWindow.Some? ==> f.maintenanceWindow == cfg.maintenanceWindow.value)
                 && (cfg.engine.Some? ==> !LessThan(Parse(f.engine).value, Parse(cfg.engine.value).value)))
  {
    var plain, plainFound := DiffPlain(cfg, f);
    var parked, parkedFound := DiffParked(cfg, f);
    var upgrade := false;
    if cfg.engine.Some? {
      var needed := UpgradeNeeded(f.engine, cfg.engine.value);
      if needed.None? {
        return Failure(InvalidVersion);
      }
      upgrade := needed.value;
    }
    assert upgrade == Upgrades(cfg, f) == !EngineInSync(cfg, f);
    var mi := Modify(plain, parked, None, None);
    if upgrade {
      mi := Modify(plain, parked.(engine := cfg.engine), Some(true), if applyImmediately then Some(true) else None);
    }
    var updateFound := plainFound || parkedFound || upgrade;
    assert IsDiff(cfg, f, applyImmediately, mi);
    var notPending := VerifyPendingModification(mi, f.pending);
    OverlapIsDriftPending(cfg, f, applyImmediately, mi);
    if (!updateFound || !notPending) && (mi.applyImmediately.None? || !mi.applyImmediately.value) {
      return Success(None);
    }
    return Success(Some(mi));
  }

  lemma OverlapIsDriftPending(cfg: Config, f: Instance, applyImmediately: bool, mi: Modify)
    requires IsDiff(cfg, f, applyImmediately, mi)
    ensures f.pending.Some? && Overlap(mi.parked, f.pending.value) <==> SomeDriftPending(cfg, f)
  {
  }

  // ---------------------------------------------------------------- what the request does

  function Or<T>(o: Option<T>, otherwise: T): T {
    if o.Some? then o.value else otherwise
  }

  function Over<T>(o: Option<T>, otherwise: Option<T>): Option<T> {
    if o.Some? then o else otherwise
  }

  function ApplyPlain(f: Instance, d: Plain): Instance {
    f.(deletionProtection := Or(d.deletionProtection, f.deletionProtection),
       public := Or(d.public, f.public),
       maxStorage := Or(d.maxStorage, f.maxStorage),
       autoMinorUpgrade := Or(d.autoMinorUpgrade, f.autoMinorUpgrade),
       backupWindow := Or(d.backupWindow, f.backupWindow),
       maintenanceWindow := Or(d.maintenanceWindow, f.maintenanceWindow))
  }

  /** Newly parked fields replace those pending already. */
  function Park(p: Pending, d: Pending): Pending {
    Pending(Over(d.port, p.port), Over(d.backupRetention, p.backupRetention), Over(d.instanceClass, p.instanceClass),
            Over(d.engine, p.engine), Over(d.multiAZ, p.multiAZ), Over(d.cert, p.cert))
  }

  function Unless<T>(wait: bool, o: Option<T>): Option<T> {
    if wait then None else o
  }

  /** The part of a request that does not wait. */
  function AtOnce(d: Pending, w: Waits): Pending {
    Pending(Unless(w.port, d.port), Unless(w.backupRetention, d.backupRetention),
            Unless(w.instanceClass, d.instanceClass), Unless(w.engine, d.engine),
            Unless(w.multiAZ, d.multiAZ), Unless(w.cert, d.cert))
  }

  function Replace<T>(wait: bool, o: Option<T>, pending: Option<T>): Option<T> {
    if o.None? then pending else if wait then o else None
  }

  /** What is pending after the request: its waiting part instead of whatever was pending for the same fields. */
  function Later(p: Pending, d: Pending, w: Waits): Pending {
    Pending(Replace(w.port, d.port, p.port), Replace(w.backupRetention, d.backupRetention, p.backupRetention),
            Replace(w.instanceClass, d.instanceClass, p.instanceClass), Replace(w.engine, d.engine, p.engine),
            Replace(w.multiAZ, d.multiAZ, p.multiAZ), Replace(w.cert, d.cert, p.cert))
  }

  /** The maintenance window: what is pending takes effect. */
  function Maintain(f: Instance): Instance {
    if f.pending.None? then f
    else
      var p := f.pending.value;
      f.(port := if f.port.Some? then Some(Or(p.port, f.port.value)) else None,
         backupRetention := Or(p.backupRetention, f.backupRetention),
         instanceClass := Or(p.instanceClass, f.instanceClass),
         engine := Or(p.engine, f.engine),
         multiAZ := Or(p.multiAZ, f.multiAZ),
         cert := Or(p.cert, f.cert),
         pending := None)
  }

  /** The parked fields of a request applied on the spot, together with everything pending. */
  function ApplyAll(f: Instance, d: Pending): Instance {
    Maintain(f.(pending := Some(Park(Or(f.pending, NOTHING_PENDING), d))))
  }

  /** The same, with what waits left for the window. */
  function ApplySome(f: Instance, d: Pending, w: Waits): Instance {
    Maintain(f.(pending := Some(AtOnce(d, w)))).(pending := Some(Later(Or(f.pending, NOTHING_PENDING), d, w)))
  }

  /** ModifyDBInstance. */
  function Applied(f: Instance, mi: Modify, w: Waits): Instance {
    var plain := ApplyPlain(f, mi.plain);
    if mi.applyImmediately == Some(true) then ApplyAll(plain, mi.parked) else ApplySome(plain, mi.parked, w)
  }

  /** A pending value would take a field that agrees now away from the configuration. */
  predicate StalePending(cfg: Config, f: Instance) {
    f.pending.Some? &&
    var p := f.pending.value;
    || (f.port == Some(cfg.port) && Wants(p.port, cfg.port))
    || (f.backupRetention == cfg.backupRetention && Wants(p.backupRetention, cfg.backupRetention))
    || (f.instanceClass == cfg.instanceClass && Wants(p.instanceClass, cfg.instanceClass))
    || (f.multiAZ == cfg.multiAZ && Wants(p.multiAZ, cfg.multiAZ))
    || (f.cert != EXISTING_CERT && p.cert == Some(EXISTING_CERT))
  }

  /** A field that the pending check looks at differs and is left for the window. */
  predicate CheckedDriftWaits(cfg: Config, f: Instance, w: Waits) {
    || (Wants(f.port, cfg.port) && w.port)
    || (f.backupRetention != cfg.backupRetention && w.backupRetention)
    || (f.instanceClass != cfg.instanceClass && w.instanceClass)
    || (Upgrades(cfg, f) && w.engine)
    || (f.multiAZ != cfg.multiAZ && w.multiAZ)
  }

  /** The certificate is due, is left for the window, and nothing the pending check looks at waits with it. */
  predicate CertWaitsAlone(cfg: Config, f: Instance, w: Waits) {
    f.cert == EXISTING_CERT && w.cert && !CheckedDriftWaits(cfg, f, w)
  }

  /** The diff asks for nothing. */
  ghost predicate Quiet(cfg: Config, f: Instance, applyImmediately: bool) {
    InSync(cfg, f) || (SomeDriftPending(cfg, f) && !(Upgrades(cfg, f) && applyImmediately))
  }

  lemma PlainApplied(cfg: Config, f: Instance, d: Plain)
    requires IsPlainDiff(cfg, f, d)
    ensures PlainInSync(cfg, ApplyPlain(f, d))
  {
  }

  lemma AllApplied(cfg: Config, f: Instance, d: Pending)
    requires IsParkedDiff(cfg, f, d)
    ensures var g := ApplyAll(f, d);
            ParkedInSync(cfg, g) && g.cert != EXISTING_CERT <==> !StalePending(cfg, f)
  {
  }

  lemma SomeApplied(cfg: Config, f: Instance, d: Pending, w: Waits)
    requires IsParkedDiff(cfg, f, d) && d.engine == (if Upgrades(cfg, f) then cfg.engine else None)
    ensures var g := ApplySome(f, d, w);
            && g.engine == (if Upgrades(cfg, f) && !w.engine then cfg.engine.value else f.engine)
            && (g.cert == EXISTING_CERT <==> f.cert == EXISTING_CERT && w.cert)
            && (CheckedDriftWaits(cfg, f, w) ==> SomeDriftPending(cfg, g))
            && (!CheckedDriftWaits(cfg, f, w) ==> ParkedInSync(cfg, g))
  {
  }

  lemma PlainStays(cfg: Config, f: Instance, d: Pending, w: Waits)
    requires PlainInSync(cfg, f)
    ensures PlainInSync(cfg, ApplyAll(f, d)) && PlainInSync(cfg, ApplySome(f, d, w))
  {
  }

  lemma PlainLeavesTheRest(cfg: Config, f: Instance, d: Plain, parked: Pending, w: Waits)
    ensures var g := ApplyPlain(f, d);
            && (Comparable(cfg, g) <==> Comparable(cfg, f)) && (Upgrades(cfg, g) <==> Upgrades(cfg, f))
            && (IsParkedDiff(cfg, g, parked) <==> IsParkedDiff(cfg, f, parked))
            && (StalePending(cfg, g) <==> StalePending(cfg, f))
            && (CertWaitsAlone(cfg, g, w) <==> CertWaitsAlone(cfg, f, w))
  {
    var g := ApplyPlain(f, d);
    assert g.engine == f.engine && g.port == f.port && g.cert == f.cert && g.pending == f.pending;
    assert g.backupRetention == f.backupRetention && g.instanceClass == f.instanceClass && g.multiAZ == f.multiAZ;
  }

  lemma QuietAfterAll(cfg: Config, f: Instance, d: Pending, w: Waits)
    requires Comparable(cfg, f) && Upgrades(cfg, f) && PlainInSync(cfg, f) && IsParkedDiff(cfg, f, d)
    requires d.engine == cfg.engine
    ensures Comparable(cfg, ApplyAll(f, d))
    ensures Quiet(cfg, ApplyAll(f, d), true) <==> !StalePending(cfg, f)
  {
    var g := ApplyAll(f, d);
    PlainStays(cfg, f, d, w);
    AllApplied(cfg, f, d);
    assert g.engine == cfg.engine.value && g.pending.None?;
    NotLessThanItself(Parse(cfg.engine.value).value);
  }

  lemma QuietAfterSome(cfg: Config, f: Instance, applyImmediately: bool, d: Pending, w: Waits)
    requires Comparable(cfg, f) && PlainInSync(cfg, f) && IsParkedDiff(cfg, f, d)
    requires d.engine == (if Upgrades(cfg, f) then cfg.engine else None) && !(applyImmediately && Upgrades(cfg, f))
    ensures Comparable(cfg, ApplySome(f, d, w))
    ensures Quiet(cfg, ApplySome(f, d, w), applyImmediately) <==> !CertWaitsAlone(cfg, f, w)
  {
    var g := ApplySome(f, d, w);
    PlainStays(cfg, f, d, w);
    SomeApplied(cfg, f, d, w);
    if cfg.engine.Some? {
      NotLessThanItself(Parse(cfg.engine.value).value);
    }
    if !CheckedDriftWaits(cfg, f, w) {
      assert EngineInSync(cfg, g) && ParkedInSync(cfg, g) && !SomeDriftPending(cfg, g);
    }
  }

  /**
   Once the request is applied, at once or in part in the window, the next diff asks for nothing.
   There are two exceptions: an upgrade applied at once brings along a pending value that
   contradicts the configuration, or the certificate is left for the window with nothing beside
   it that the pending check would notice.
   */
  lemma NextDiffIsEmptyIff(cfg: Config, f: Instance, applyImmediately: bool, mi: Modify, w: Waits)
    requires Comparable(cfg, f) && IsDiff(cfg, f, applyImmediately, mi)
    ensures Comparable(cfg, Applied(f, mi, w))
    ensures Quiet(cfg, Applied(f, mi, w), applyImmediately) <==> !AsksAgain(cfg, f, applyImmediately, w)
  {
    var plain := ApplyPlain(f, mi.plain);
    PlainApplied(cfg, f, mi.plain);
    PlainLeavesTheRest(cfg, f, mi.plain, mi.parked, w);
    if applyImmediately && Upgrades(cfg, f) {
      QuietAfterAll(cfg, plain, mi.parked, w);
    } else {
      QuietAfterSome(cfg, plain, applyImmediately, mi.parked, w);
    }
  }

  /** When the next diff still asks for something. */
  predicate AsksAgain(cfg: Config, f: Instance, applyImmediately: bool, w: Waits) {
    if applyImmediately && Upgrades(cfg, f) then StalePending(cfg, f) else CertWaitsAlone(cfg, f, w)
  }

  const CERT_REQUEST: Modify :=
    Modify(Plain(None, None, None, None, None, None), NOTHING_PENDING.(cert := Some(NEW_CERT)), None, None)

  /** Nothing but the certificate differs. */
  ghost predicate OnlyCertDue(cfg: Config, f: Instance) {
    f.cert == EXISTING_CERT && PlainInSync(cfg, f) && ParkedInSync(cfg, f) && EngineInSync(cfg, f)
  }

  /**
   If it waits, every pass until the window builds the same request, and none of them changes
   anything but what is pending.
   */
  lemma CertRequestRepeats(cfg: Config, f: Instance, applyImmediately: bool, mi: Modify, w: Waits)
    requires Comparable(cfg, f) && IsDiff(cfg, f, applyImmediately, mi) && w.cert && OnlyCertDue(cfg, f)
    ensures var g := Applied(f, mi, w);
            && OnlyCertDue(cfg, g) && !Quiet(cfg, g, applyImmediately) && IsDiff(cfg, g, applyImmediately, mi)
            && g == f.(pending := g.pending) && Maintain(g).cert == NEW_CERT
  {
    var pending := Or(f.pending, NOTHING_PENDING).(cert := Some(NEW_CERT));
    OnlyCertAsked(cfg, f, applyImmediately, mi);
    CertParked(f, mi, w);
    SameButPending(cfg, f, pending, applyImmediately, mi);
  }

  lemma OnlyCertAsked(cfg: Config, f: Instance, applyImmediately: bool, mi: Modify)
    requires Comparable(cfg, f) && IsDiff(cfg, f, applyImmediately, mi) && OnlyCertDue(cfg, f)
    ensures !Upgrades(cfg, f)
    ensures mi == CERT_REQUEST
  {
  }

  lemma CertParked(f: Instance, mi: Modify, w: Waits)
    requires mi == CERT_REQUEST
    requires w.cert
    ensures Applied(f, mi, w) == f.(pending := Some(Or(f.pending, NOTHING_PENDING).(cert := Some(NEW_CERT))))
  {
  }

  lemma SameButPending(cfg: Config, f: Instance, pending: Pending, applyImmediately: bool, mi: Modify)
    requires IsDiff(cfg, f, applyImmediately, mi) && OnlyCertDue(cfg, f) && !Upgrades(cfg, f)
    ensures var g := f.(pending := Some(pending));
            OnlyCertDue(cfg, g) && !Quiet(cfg, g, applyImmediately) && IsDiff(cfg, g, applyImmediately, mi)
  {
    var g := f.(pending := Some(pending));
    assert g.engine == f.engine && Upgrades(cfg, g) == Upgrades(cfg, f) && EngineInSync(cfg, g) == EngineInSync(cfg, f);
  }

  /** Nothing but the certificate is due; the request leaves it pending, and the next diff is the same. */
  lemma CertIsAskedForAgain()
    ensures var cfg := Config(true, 5432, 1, "large", false, 100, true, None, None, None, None);
            var f := Instance(EXISTING_CERT, true, None, 1, "large", false, 100, true, false, "", "", "13.13", None);
            var w := Waits(true, true, true, true, true, true);
            CertWaitsAlone(cfg, f, w) && AsksAgain(cfg, f, false, w)
  {
  }

  /**
   An upgrade applied at once, with an old class change still pending: the class is changed away
   from the configuration.
   */
  lemma StaleValueComesAlong()
    ensures var cfg := Config(true, 5432, 1, "large", false, 100, true, None, None, None, Some("13.13"));
            var f := Instance(NEW_CERT, true, None, 1, "large", false, 100, true, false, "", "", "13.12",
                              Some(NOTHING_PENDING.(instanceClass := Some("small"))));
            && Comparable(cfg, f) && Upgrades(cfg, f) && StalePending(cfg, f)
            && ApplyAll(f, NOTHING_PENDING.(engine := cfg.engine)).instanceClass == "small"
  {
    SupportedEnginesParse("13.13");
    SupportedEnginesParse("13.12");
    LessThanInSecond(13, 12, 13);
  }

  lemma LessThanInSecond(a: nat, b: nat, c: nat)
    requires b < c
    ensures LessThan([a, b], [a, c])
  {
    assert [a, b][1..] == [b] && [a, c][1..] == [c];
  }

  /** Diff, modify, diff again: the second asks for something exactly in those two cases. */
  method DiffTwice(cfg: Config, f: Instance, applyImmediately: bool, w: Waits)
    returns (g: Instance, again: Result<Option<Modify>, DriftError>)
    ensures Comparable(cfg, f) ==>
              && again.Success?
              && (again.value.None? <==> Quiet(cfg, f, applyImmediately) || !AsksAgain(cfg, f, applyImmediately, w))
    ensures !Comparable(cfg, f) ==> g == f && again.Failure?
  {
    g := f;
    var r := BuildRDSUpdateStrategy(cfg, f, applyImmediately);
    if r.Success? && r.value.Some? {
      NextDiffIsEmptyIff(cfg, f, applyImmediately, r.value.value, w);
      g := Applied(f, r.value.value, w);
    }
    again := BuildRDSUpdateStrategy(cfg, g, applyImmediately);
  }

  /**
   Drift that the pending part hides: the class change waits for its window, and the lifted
   deletion protection stays unnoticed.
   */
  lemma PendingHidesDrift()
    ensures var f := Instance(NEW_CERT, false, None, 1, "small", false, 100, true, false, "", "", "13.13",
                              Some(NOTHING_PENDING.(instanceClass := Some("large"))));
            var cfg := Config(true, 5432, 1, "large", false, 100, true, None, None, None, None);
            SomeDriftPending(cfg, f) && f.deletionProtection != cfg.deletionProtection && !Upgrades(cfg, f)
  {
  }

  // ---------------------------------------------------------------- the engine version

  /** The engine is a version, and one that is pending is not older. */
  ghost predicate EngineSafe(f: Instance) {
    && Parse(f.engine).Some?
    && (f.pending.Some? && f.pending.value.engine.Some? ==> NotOlder(f.pending.value.engine.value, f.engine))
  }

  datatype Event = Reconciled(cfg: Config, applyImmediately: bool, waits: Waits) | MaintenanceWindow

  /** What an event does to an instance. */
  ghost predicate Answered(f: Instance, e: Event, g: Instance) {
    match e
    case Reconciled(cfg, applyImmediately, waits) =>
      if !Comparable(cfg, f) || Quiet(cfg, f, applyImmediately) then g == f
      else exists mi :: IsDiff(cfg, f, applyImmediately, mi) && g == Applied(f, mi, waits)
    case MaintenanceWindow => g == Maintain(f)
  }

  ghost predicate Follows(stops: seq<Instance>, events: seq<Event>) {
    && |stops| == |events| + 1
    && forall i, j :: 0 <= i < |events| && j == i + 1 ==> Answered(stops[i], events[i], stops[j])
  }

  /**
   Any run of reconciles, under whatever configurations, and maintenance windows never lowers the
   engine version. stops are the states between the events.
   */
  method RunNeverLowersEngine(f: Instance, events: seq<Event>) returns (g: Instance, ghost stops: seq<Instance>)
    requires EngineSafe(f)
    ensures EngineSafe(g) && NotOlder(g.engine, f.engine)
    ensures Follows(stops, events) && stops[0] == f && stops[|events|] == g
  {
    stops := [f];
    g := f;
    NotLessThanItself(Parse(f.engine).value);
    for i := 0 to |events|
      invariant EngineSafe(g) && NotOlder(g.engine, f.engine)
      invariant Follows(stops, events[..i]) && stops[0] == f && stops[i] == g
    {
      ghost var before := g;
      match events[i] {
        case Reconciled(cfg, applyImmediately, waits) =>
          var r := BuildRDSUpdateStrategy(cfg, g, applyImmediately);
          if r.Success? && r.value.Some? {
            AppliedKeepsEngineSafe(cfg, g, applyImmediately, r.value.value, waits);
            g := Applied(g, r.value.value, waits);
          }
          assert Answered(before, events[i], g);
        case MaintenanceWindow =>
          MaintainKeepsEngineSafe(g);
          g := Maintain(g);
      }
      NotLessThanItself(Parse(before.engine).value);
      NotOlderChains(Parse(f.engine).value, Parse(before.engine).value, Parse(g.engine).value);
      stops := stops + [g];
      FollowsOneMore(stops, events, i);
    }
    assert events[..|events|] == events;
  }

  lemma FollowsOneMore(stops: seq<Instance>, events: seq<Event>, i: int)
    requires 0 <= i < |events| && |stops| == i + 2 && Follows(stops[..i + 1], events[..i])
    requires Answered(stops[i], events[i], stops[i + 1])
    ensures Follows(stops, events[..i + 1])
  {
    var e := events[..i + 1];
    forall k, j | 0 <= k < |e| && j == k + 1 ensures Answered(stops[k], e[k], stops[j]) {
      if k < i {
        assert Answered(stops[..i + 1][k], events[..i][k], stops[..i + 1][j]);
      }
    }
  }

  lemma MaintainKeepsEngineSafe(f: Instance)
    requires EngineSafe(f)
    ensures EngineSafe(Maintain(f)) && NotOlder(Maintain(f).engine, f.engine)
  {
    NotLessThanItself(Parse(f.engine).value);
  }

  /** What a request does to the engine and to the engine that is pending. */
  lemma EngineAfter(f: Instance, mi: Modify, w: Waits)
    ensures var g, wanted, was := Applied(f, mi, w), mi.parked.engine, Or(f.pending, NOTHING_PENDING).engine;
            if mi.applyImmediately == Some(true) then g.pending.None? && g.engine == Or(Over(wanted, was), f.engine)
            else
              && g.engine == Or(Unless(w.engine, wanted), f.engine)
              && g.pending.Some? && g.pending.value.engine == Replace(w.engine, wanted, was)
  {
  }

  lemma AppliedKeepsEngineSafe(cfg: Config, f: Instance, applyImmediately: bool, mi: Modify, w: Waits)
    requires EngineSafe(f) && Comparable(cfg, f) && IsDiff(cfg, f, applyImmediately, mi)
    ensures EngineSafe(Applied(f, mi, w)) && NotOlder(Applied(f, mi, w).engine, f.engine)
  {
    EngineAfter(f, mi, w);
    NotLessThanItself(Parse(f.engine).value);
    if Upgrades(cfg, f) {
      LessThanAsymmetric(Parse(f.engine).value, Parse(cfg.engine.value).value);
      NotLessThanItself(Parse(cfg.engine.value).value);
    }
  }

  // ---------------------------------------------------------------- from the strategy to the instance

  datatype Strategy = Strategy(
    deletionProtection: Option<bool>,
    port: Option<int>,
    backupRetention: Option<int>,
    instanceClass: Option<string>,
    public: Option<bool>,
    maxStorage: Option<int>,
    multiAZ: Option<bool>,
    autoMinorUpgrade: Option<bool>,
    backupWindow: Option<string>,
    maintenanceWindow: Option<string>,
    engine: Option<string>)

  const DEFAULTS: Config :=
    Config(true, 5432, 31, "db.t3.small", false, 100, true, Some(false), None, None, Some(DEFAULT_ENGINE))

  /** What is set is kept, what is not gets its default. */
  predicate Chosen<T(==)>(u: Option<T>, otherwise: T, value: T) {
    if u.Some? then value == u.value else value == otherwise
  }

  /** buildRDSCreateStrategy keeps what is set, except that an engine version outside the supported ones is replaced. */
  method BuildRDSCreateStrategy(u: Strategy) returns (c: Config)
    ensures Chosen(u.deletionProtection, DEFAULTS.deletionProtection, c.deletionProtection)
    ensures Chosen(u.port, DEFAULTS.port, c.port)
    ensures Chosen(u.backupRetention, DEFAULTS.backupRetention, c.backupRetention)
    ensures Chosen(u.instanceClass, DEFAULTS.instanceClass, c.instanceClass)
    ensures Chosen(u.public, DEFAULTS.public, c.public)
    ensures Chosen(u.maxStorage, DEFAULTS.maxStorage, c.maxStorage) && Chosen(u.multiAZ, DEFAULTS.multiAZ, c.multiAZ)
    ensures c.autoMinorUpgrade.Some?
    ensures Chosen(u.autoMinorUpgrade, DEFAULTS.autoMinorUpgrade.value, c.autoMinorUpgrade.value)
    ensures c.backupWindow == u.backupWindow && c.maintenanceWindow == u.maintenanceWindow
    ensures c.engine.Some? && c.engine.value in SUPPORTED_ENGINES
    ensures c.engine == if u.engine.Some? && u.engine.value in SUPPORTED_ENGINES then u.engine else DEFAULTS.engine
  {
    var engine := Or(u.engine, DEFAULT_ENGINE);
    assert SUPPORTED_ENGINES[0] == DEFAULT_ENGINE;
    if engine !in SUPPORTED_ENGINES {
      engine := DEFAULT_ENGINE;
    }
    c := Config(Or(u.deletionProtection, true), Or(u.port, 5432), Or(u.backupRetention, 31),
                Or(u.instanceClass, "db.t3.small"), Or(u.public, false), Or(u.maxStorage, 100),
                Or(u.multiAZ, true), Some(Or(u.autoMinorUpgrade, false)),
                u.backupWindow, u.maintenanceWindow, Some(engine));
  }

  lemma SupportedEnginesParse(v: string)
    requires v in SUPPORTED_ENGINES
    ensures Parse(v) == Some([13, 10 + (v[4] - '0') as nat])
  {
    var last, minor := v[4], 10 + (v[4] - '0') as nat;
    assert v == "13.1" + [last] && '0' <= last <= '9';
    assert v[1..] == "3.1" + [last];
    assert v[1..][1..] == ".1" + [last];
    assert v[1..][1..][1..] == "1" + [last];
    assert v[1..][1..][1..][1..] == [last];
    assert v[1..][1..][1..][1..][1..] == [];
    assert ParseFrom([last], 1, true) == ParseFrom([], minor, true) == Some([minor]);
    assert ParseFrom("1" + [last], 0, false) == Some([minor]);
    assert ParseFrom(".1" + [last], 13, true) == Some([13] + [minor]);
    assert ParseFrom("3.1" + [last], 1, true) == Some([13] + [minor]);
    assert ParseFrom(v, 0, false) == Some([13] + [minor]);
    assert [13] + [minor] == [13, minor];
  }

  /** CreateDBInstance: the configured settings, the server's own where nothing is configured. */
  function Created(c: Config, server: Instance): Instance {
    server.(deletionProtection := c.deletionProtection,
            port := if server.port.Some? then Some(c.port) else None,
            backupRetention := c.backupRetention, instanceClass := c.instanceClass, public := c.public,
            maxStorage := c.maxStorage, multiAZ := c.multiAZ,
            autoMinorUpgrade := Or(c.autoMinorUpgrade, server.autoMinorUpgrade),
            backupWindow := Or(c.backupWindow, server.backupWindow),
            maintenanceWindow := Or(c.maintenanceWindow, server.maintenanceWindow),
            engine := Or(c.engine, server.engine))
  }

  /**
   Whatever the strategy: an instance created from it, on a server that no longer issues the old
   certificate, shows no drift.
   */
  method CreateThenDiff(u: Strategy, server: Instance, applyImmediately: bool)
    returns (r: Result<Option<Modify>, DriftError>)
    requires server.cert != EXISTING_CERT
    ensures r == Success(None)
  {
    var c := BuildRDSCreateStrategy(u);
    var f := Created(c, server);
    SupportedEnginesParse(c.engine.value);
    NotLessThanItself(Parse(c.engine.value).value);
    assert InSync(c, f);
    r := BuildRDSUpdateStrategy(c, f, applyImmediately);
  }
}
