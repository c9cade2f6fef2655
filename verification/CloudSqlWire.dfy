/**
 Cloud SQL instances in the three forms they pass through: the strategy, with optional flags
 (pkg/providers/gcp/gcpiface/database_types.go), the API client's struct, where unset and zero
 are the same unless a field is force-sent, and the stored instance. Only the fields that the
 drift check compares are modelled.
 */
module CloudSqlWire {
  import opened Wrappers

  // ---------------------------------------------------------------- the strategy

  datatype Retention = Retention(unit: string, count: int)

  datatype Backup = Backup(enabled: Option<bool>, pointInTime: Option<bool>, retention: Option<Retention>)

  datatype Window = Window(day: Option<int>, hour: Option<int>)

  /** ipv4: the IP configuration and its flag. */
  datatype Config = Config(
    version: string,
    tier: string,
    availability: string,
    resizeLimit: int,
    diskSize: int,
    resize: Option<bool>,
    protection: Option<bool>,
    labels: map<string, string>,
    backup: Option<Backup>,
    ipv4: Option<Option<bool>>,
    window: Option<Window>)

  // ---------------------------------------------------------------- the client's struct

  /** What ForceSendFields can list. */
  datatype Field =
    | DatabaseVersion | Tier | AvailabilityType | StorageAutoResizeLimit | DataDiskSizeGb | StorageAutoResize
    | DeletionProtectionEnabled | UserLabels | Enabled | PointInTimeRecoveryEnabled | RetentionUnit | RetainedBackups
    | Ipv4Enabled | Day | Hour

  datatype SqlBackup = SqlBackup(enabled: bool, pointInTime: bool, retention: Option<Retention>, force: seq<Field>)

  datatype SqlIp = SqlIp(ipv4: bool, force: seq<Field>)

  datatype SqlWindow = SqlWindow(day: int, hour: int, force: seq<Field>)

  datatype Sql = Sql(
    version: string,
    tier: string,
    availability: string,
    resizeLimit: int,
    diskSize: int,
    resize: Option<bool>,
    protection: bool,
    labels: map<string, string>,
    backup: Option<SqlBackup>,
    ip: Option<SqlIp>,
    window: Option<SqlWindow>,
    force: seq<Field>)

  // ---------------------------------------------------------------- the wire

  datatype WireRetention = WireRetention(unit: Option<string>, count: Option<int>)

  datatype WireBackup = WireBackup(enabled: Option<bool>, pointInTime: Option<bool>, retention: Option<WireRetention>)

  datatype WireWindow = WireWindow(day: Option<int>, hour: Option<int>)

  datatype Wire = Wire(
    version: Option<string>,
    tier: Option<string>,
    availability: Option<string>,
    resizeLimit: Option<int>,
    diskSize: Option<int>,
    resize: Option<bool>,
    protection: Option<bool>,
    labels: Option<map<string, string>>,
    backup: Option<WireBackup>,
    ip: Option<Option<bool>>,
    window: Option<WireWindow>)

  /** A field is sent unless it is zero and not listed in ForceSendFields. */
  function Sent<T(==)>(value: T, zero: T, name: Field, force: seq<Field>): Option<T> {
    if value != zero || name in force then Some(value) else None
  }

  function EncodeRetention(r: Retention): WireRetention {
    WireRetention(Sent(r.unit, "", RetentionUnit, []), Sent(r.count, 0, RetainedBackups, []))
  }

  function EncodeBackup(b: SqlBackup): WireBackup {
    WireBackup(Sent(b.enabled, false, Enabled, b.force),
               Sent(b.pointInTime, false, PointInTimeRecoveryEnabled, b.force),
               if b.retention.Some? then Some(EncodeRetention(b.retention.value)) else None)
  }

  function EncodeIp(i: SqlIp): Option<bool> {
    Sent(i.ipv4, false, Ipv4Enabled, i.force)
  }

  function EncodeWindow(w: SqlWindow): WireWindow {
    WireWindow(Sent(w.day, 0, Day, w.force), Sent(w.hour, 0, Hour, w.force))
  }

  /** Pointers are sent unless nil, so the groups and the resize flag need no forcing. */
  function Encode(s: Sql): Wire {
    Wire(Sent(s.version, "", DatabaseVersion, []),
         Sent(s.tier, "", Tier, s.force),
         Sent(s.availability, "", AvailabilityType, s.force),
         Sent(s.resizeLimit, 0, StorageAutoResizeLimit, s.force),
         Sent(s.diskSize, 0, DataDiskSizeGb, s.force),
         s.resize,
         Sent(s.protection, false, DeletionProtectionEnabled, s.force),
         Sent(s.labels, map[], UserLabels, s.force),
         if s.backup.Some? then Some(EncodeBackup(s.backup.value)) else None,
         if s.ip.Some? then Some(EncodeIp(s.ip.value)) else None,
         if s.window.Some? then Some(EncodeWindow(s.window.value)) else None)
  }

  // ---------------------------------------------------------------- the stored instance

  datatype FoundBackup = FoundBackup(enabled: bool, pointInTime: bool, retention: Option<Retention>)

  datatype FoundWindow = FoundWindow(day: int, hour: int)

  datatype Found = Found(
    version: string,
    tier: string,
    availability: string,
    resizeLimit: int,
    diskSize: int,
    resize: Option<bool>,
    protection: bool,
    labels: map<string, string>,
    backup: Option<FoundBackup>,
    ipv4: Option<bool>,
    window: Option<FoundWindow>)

  function Or<T>(o: Option<T>, otherwise: T): T {
    if o.Some? then o.value else otherwise
  }

  function StoreRetention(r: Option<Retention>, w: Option<WireRetention>): Option<Retention> {
    if w.None? then r
    else
      var was := Or(r, Retention("", 0));
      Some(Retention(Or(w.value.unit, was.unit), Or(w.value.count, was.count)))
  }

  function StoreBackup(b: Option<FoundBackup>, w: Option<WireBackup>): Option<FoundBackup> {
    if w.None? then b
    else
      var was := Or(b, FoundBackup(false, false, None));
      Some(FoundBackup(Or(w.value.enabled, was.enabled), Or(w.value.pointInTime, was.pointInTime),
                       StoreRetention(was.retention, w.value.retention)))
  }

  function StoreWindow(v: Option<FoundWindow>, w: Option<WireWindow>): Option<FoundWindow> {
    if w.None? then v
    else
      var was := Or(v, FoundWindow(0, 0));
      Some(FoundWindow(Or(w.value.day, was.day), Or(w.value.hour, was.hour)))
  }

  /** What is sent replaces what is stored, labels as a whole; what is not sent stays. */
  function Store(f: Found, w: Wire): Found {
    Found(Or(w.version, f.version), Or(w.tier, f.tier), Or(w.availability, f.availability),
          Or(w.resizeLimit, f.resizeLimit), Or(w.diskSize, f.diskSize),
          if w.resize.Some? then w.resize else f.resize,
          Or(w.protection, f.protection), Or(w.labels, f.labels),
          StoreBackup(f.backup, w.backup),
          if w.ip.Some? then Some(Or(w.ip.value, Or(f.ipv4, false))) else f.ipv4,
          StoreWindow(f.window, w.window))
  }
}
