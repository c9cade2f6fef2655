/**
 Defaults, creation and drift of Cloud SQL instances (buildCloudSQLCreateStrategy and
 buildCloudSQLUpdateStrategy of pkg/providers/gcp/provider_postgres.go, MapToGcpDatabaseInstance
 of pkg/providers/gcp/gcpiface/database_types.go).
 */
module CloudSqlDrift {
  import opened CloudSqlWire
  import opened Wrappers

  // ---------------------------------------------------------------- defaults

  const DEFAULT_VERSION: string := "POSTGRES_13"
  const DEFAULT_TIER: string := "db-custom-2-3840"
  const DEFAULT_AVAILABILITY: string := "REGIONAL"
  const DEFAULT_RESIZE_LIMIT: int := 100
  const DEFAULT_DISK_SIZE: int := 20
  const DEFAULT_UNIT: string := "COUNT"
  const DEFAULT_BACKUPS: int := 30

  /** A strategy with every default filled in: nothing that the drift check sends unforced is zero. */
  predicate Defaulted(c: Config) {
    && c.version != "" && c.tier != "" && c.availability != "" && c.resizeLimit != 0 && c.diskSize != 0
    && c.protection.Some? && c.labels != map[] && c.ipv4.Some? && c.ipv4.value.Some?
    && c.backup.Some? && c.backup.value.enabled.Some? && c.backup.value.pointInTime.Some?
    && c.backup.value.retention.Some?
    && c.backup.value.retention.value.unit != "" && c.backup.value.retention.value.count != 0
  }

  /** What the user set is kept, what is unset or zero gets its default, tags are added to the labels. */
  predicate Refines(c: Config, u: Config, tags: map<string, string>) {
    && c.version == (if u.version != "" then u.version else DEFAULT_VERSION)
    && c.tier == (if u.tier != "" then u.tier else DEFAULT_TIER)
    && c.availability == (if u.availability != "" then u.availability else DEFAULT_AVAILABILITY)
    && c.resizeLimit == (if u.resizeLimit != 0 then u.resizeLimit else DEFAULT_RESIZE_LIMIT)
    && c.diskSize == (if u.diskSize != 0 then u.diskSize else DEFAULT_DISK_SIZE)
    && c.resize == u.resize && c.protection == Some(Or(u.protection, true))
    && c.labels == u.labels + tags && c.window == u.window
    && c.ipv4 == Some(Some(Or(Or(u.ipv4, None), false)))
    && c.backup.Some? && BackupRefines(c.backup.value, Or(u.backup, Backup(None, None, None)))
  }

  predicate BackupRefines(c: Backup, u: Backup) {
    var r := Or(u.retention, Retention("", 0));
    && c.enabled == Some(Or(u.enabled, true)) && c.pointInTime == Some(Or(u.pointInTime, true))
    && c.retention == Some(Retention(if r.unit != "" then r.unit else DEFAULT_UNIT,
                                     if r.count != 0 then r.count else DEFAULT_BACKUPS))
  }

  method DefaultBackup(u: Option<Backup>) returns (b: Backup)
    ensures b.enabled.Some? && b.pointInTime.Some? && b.retention.Some?
    ensures b.retention.value.unit != "" && b.retention.value.count != 0
    ensures BackupRefines(b, Or(u, Backup(None, None, None)))
  {
    b := if u.Some? then u.value else Backup(None, None, None);
    if b.enabled.None? {
      b := b.(enabled := Some(true));
    }
    if b.pointInTime.None? {
      b := b.(pointInTime := Some(true));
    }
    var r := if b.retention.Some? then b.retention.value else Retention("", 0);
    if r.unit == "" {
      r := r.(unit := DEFAULT_UNIT);
    }
    if r.count == 0 {
      r := r.(count := DEFAULT_BACKUPS);
    }
    b := b.(retention := Some(r));
  }

  method DefaultNames(u: Config) returns (version: string, tier: string, availability: string)
    ensures version != "" && version == if u.version != "" then u.version else DEFAULT_VERSION
    ensures tier != "" && tier == if u.tier != "" then u.tier else DEFAULT_TIER
    ensures availability != "" && availability == if u.availability != "" then u.availability else DEFAULT_AVAILABILITY
  {
    version, tier, availability := u.version, u.tier, u.availability;
    if version == "" {
      version := DEFAULT_VERSION;
    }
    if tier == "" {
      tier := DEFAULT_TIER;
    }
    if availability == "" {
      availability := DEFAULT_AVAILABILITY;
    }
  }

  /** buildCloudSQLCreateStrategy; the operator's own tags are never empty. */
  method BuildCloudSQLCreateStrategy(u: Config, tags: map<string, string>) returns (c: Config)
    requires tags != map[]
    ensures Defaulted(c) && Refines(c, u, tags)
  {
    var version, tier, availability := DefaultNames(u);
    var resizeLimit, diskSize, protection, ipv4 := u.resizeLimit, u.diskSize, u.protection, u.ipv4;
    if resizeLimit == 0 {
      resizeLimit := DEFAULT_RESIZE_LIMIT;
    }
    if diskSize == 0 {
      diskSize := DEFAULT_DISK_SIZE;
    }
    if protection.None? {
      protection := Some(true);
    }
    if ipv4.None? || ipv4.value.None? {
      ipv4 := Some(Some(false));
    }
    var backup := DefaultBackup(u.backup);
    var labels := u.labels + tags;
    LabelsNotEmpty(u.labels, tags);
    c := Config(version, tier, availability, resizeLimit, diskSize, u.resize, protection, labels,
                Some(backup), ipv4, u.window);
  }

  lemma LabelsNotEmpty(labels: map<string, string>, tags: map<string, string>)
    requires tags != map[]
    ensures labels + tags != map[]
  {
    var k :| k in tags;
    assert k in labels + tags;
  }

  // ---------------------------------------------------------------- mapping to the client's struct

  method MapBackup(b: Backup) returns (s: SqlBackup)
    ensures EncodeBackup(s) == WireBackup(b.enabled, b.pointInTime,
                                          if b.retention.Some? then Some(EncodeRetention(b.retention.value)) else None)
  {
    var enabled, pointInTime, force := false, false, [];
    if b.enabled.Some? {
      enabled := b.enabled.value;
      if !enabled {
        force := force + [Enabled];
      }
    }
    if b.pointInTime.Some? {
      pointInTime := b.pointInTime.value;
      if !pointInTime {
        force := force + [PointInTimeRecoveryEnabled];
      }
    }
    s := SqlBackup(enabled, pointInTime, b.retention, force);
  }

  /** The hour is force-sent when it is zero, the day is not. */
  method MapWindow(w: Window) returns (s: SqlWindow)
    ensures EncodeWindow(s) == WireWindow(if w.day == Some(0) then None else w.day, w.hour)
  {
    var day, hour, force := 0, 0, [];
    if w.day.Some? {
      day := w.day.value;
    }
    if w.hour.Some? {
      hour := w.hour.value;
      if hour == 0 {
        force := [Hour];
      }
    }
    s := SqlWindow(day, hour, force);
  }

  method MapIp(ipv4: Option<bool>) returns (s: SqlIp)
    ensures EncodeIp(s) == ipv4
  {
    var enabled, force := false, [];
    if ipv4.Some? {
      enabled := ipv4.value;
      if !enabled {
        force := [Ipv4Enabled];
      }
    }
    s := SqlIp(enabled, force);
  }

  /**
   Every setting of the strategy arrives, false flags and a zero hour included, a zero day not;
   and nothing else does.
   */
  ghost predicate CarriesAll(c: Config, w: Wire) {
    && w.version == (if c.version != "" then Some(c.version) else None)
    && w.tier == (if c.tier != "" then Some(c.tier) else None)
    && w.availability == (if c.availability != "" then Some(c.availability) else None)
    && w.resizeLimit == (if c.resizeLimit != 0 then Some(c.resizeLimit) else None)
    && w.diskSize == (if c.diskSize != 0 then Some(c.diskSize) else None)
    && w.resize == c.resize && w.protection == c.protection
    && w.labels == (if c.labels != map[] then Some(c.labels) else None)
    && w.ip == c.ipv4
    && w.backup == BackupOnWire(c.backup) && w.window == WindowOnWire(c.window)
  }

  function BackupOnWire(b: Option<Backup>): Option<WireBackup> {
    if b.None? then None
    else Some(WireBackup(b.value.enabled, b.value.pointInTime,
                         if b.value.retention.Some? then Some(EncodeRetention(b.value.retention.value)) else None))
  }

  function WindowOnWire(w: Option<Window>): Option<WireWindow> {
    if w.None? then None
    else Some(WireWindow(if w.value.day == Some(0) then None else w.value.day, w.value.hour))
  }

  method MapGroups(c: Config) returns (backup: Option<SqlBackup>, ip: Option<SqlIp>, window: Option<SqlWindow>)
    ensures (if backup.Some? then Some(EncodeBackup(backup.value)) else None) == BackupOnWire(c.backup)
    ensures (if ip.Some? then Some(EncodeIp(ip.value)) else None) == c.ipv4
    ensures (if window.Some? then Some(EncodeWindow(window.value)) else None) == WindowOnWire(c.window)
  {
    backup, ip, window := None, None, None;
    if c.backup.Some? {
      var b := MapBackup(c.backup.value);
      backup := Some(b);
    }
    if c.ipv4.Some? {
      var i := MapIp(c.ipv4.value);
      ip := Some(i);
    }
    if c.window.Some? {
      var w := MapWindow(c.window.value);
      window := Some(w);
    }
  }

  method MapProtection(p: Option<bool>) returns (protection: bool, force: seq<Field>)
    ensures Sent(protection, false, DeletionProtectionEnabled, force) == p
    ensures force == [] || force == [DeletionProtectionEnabled]
  {
    protection, force := false, [];
    if p.Some? {
      protection := p.value;
      if !protection {
        force := force + [DeletionProtectionEnabled];
      }
    }
  }

  /** MapToGcpDatabaseInstance. */
  method MapToGcpDatabaseInstance(c: Config) returns (s: Sql)
    ensures CarriesAll(c, Encode(s))
  {
    var backup, ip, window := MapGroups(c);
    var protection, force := MapProtection(c.protection);
    s := Sql(c.version, c.tier, c.availability, c.resizeLimit, c.diskSize, c.resize, protection, c.labels,
             backup, ip, window, force);
  }

  // ---------------------------------------------------------------- drift

  predicate Wants<T(==)>(wanted: Option<T>, got: T) {
    wanted.Some? && wanted.value != got
  }

  predicate BackupAgrees(c: Backup, f: FoundBackup) {
    && !Wants(c.enabled, f.enabled) && !Wants(c.pointInTime, f.pointInTime)
    && (c.retention.Some? && f.retention.Some? ==> c.retention == f.retention)
  }

  predicate WindowAgrees(c: Option<Window>, f: Option<FoundWindow>) {
    c.Some? && f.Some? ==> !Wants(c.value.day, f.value.day) && !Wants(c.value.hour, f.value.hour)
  }

  /** Every compared setting agrees. */
  predicate Agrees(c: Config, f: Found) {
    && TopAgrees(c, f)
    && (c.backup.Some? && f.backup.Some? ==> BackupAgrees(c.backup.value, f.backup.value))
    && IpAgrees(c.ipv4, f.ipv4) && WindowAgrees(c.window, f.window)
  }

  /** The source dereferences these without a check. */
  predicate Readable(c: Config, f: Found) {
    f.backup.Some? && (c.resize.Some? ==> f.resize.Some?)
  }

  method DiffBackup(c: Backup, f: FoundBackup) returns (d: SqlBackup, updateFound: bool)
    requires c.retention.Some? && c.retention.value.unit != "" && c.retention.value.count != 0
    ensures updateFound <==> !BackupAgrees(c, f)
    ensures StoreBackup(Some(f), Some(EncodeBackup(d))).Some?
    ensures BackupAgrees(c, StoreBackup(Some(f), Some(EncodeBackup(d))).value)
    ensures StoreBackup(Some(f), Some(EncodeBackup(d))) == Some(BackupTarget(c, f))
    ensures (c.enabled.None? ==> EncodeBackup(d).enabled.None?)
    ensures (c.pointInTime.None? ==> EncodeBackup(d).pointInTime.None?)
  {
    var enabled, pointInTime, force := false, false, [];
    updateFound := false;
    if c.enabled.Some? && c.enabled.value != f.enabled {
      enabled := c.enabled.value;
      force := force + [Enabled];
      updateFound := true;
    }
    if c.pointInTime.Some? && c.pointInTime.value != f.pointInTime {
      pointInTime := c.pointInTime.value;
      force := force + [PointInTimeRecoveryEnabled];
      updateFound := true;
    }
    var retention: Option<Retention> := None;
    if f.retention.Some? {
      var r, retentionFound := DiffRetention(c.retention.value, f.retention.value);
      retention := Some(r);
      updateFound := updateFound || retentionFound;
    }
    d := SqlBackup(enabled, pointInTime, retention, force);
  }

  method DiffRetention(c: Retention, f: Retention) returns (d: Retention, updateFound: bool)
    requires c.unit != "" && c.count != 0
    ensures updateFound <==> c != f
    ensures StoreRetention(Some(f), Some(EncodeRetention(d))) == Some(c)
  {
    var unit, count := "", 0;
    updateFound := false;
    if c.unit != f.unit {
      unit := c.unit;
      updateFound := true;
    }
    if c.count != f.count {
      count := c.count;
      updateFound := true;
    }
    d := Retention(unit, count);
  }

  method DiffIp(c: Option<bool>, f: bool) returns (d: SqlIp, updateFound: bool)
    ensures updateFound <==> Wants(c, f)
    ensures !Wants(c, Or(EncodeIp(d), f))
    ensures Or(EncodeIp(d), f) == Or(c, f) && (c.None? ==> EncodeIp(d).None?)
  {
    d, updateFound := SqlIp(false, []), false;
    if c.Some? && c.value != f {
      d := SqlIp(c.value, [Ipv4Enabled]);
      updateFound := true;
    }
  }

  /** Day 0 is asked for and differs: the one change that is never sent. */
  predicate DayLost(c: Option<Window>, f: Option<FoundWindow>) {
    c.Some? && f.Some? && c.value.day == Some(0) && f.value.day != 0
  }

  method DiffWindow(c: Window, f: FoundWindow) returns (d: SqlWindow, updateFound: bool)
    ensures updateFound <==> !WindowAgrees(Some(c), Some(f))
    ensures WindowAgrees(Some(c), StoreWindow(Some(f), Some(EncodeWindow(d)))) <==> !DayLost(Some(c), Some(f))
    ensures DayLost(Some(c), Some(f)) ==> DayLost(Some(c), StoreWindow(Some(f), Some(EncodeWindow(d))))
    ensures StoreWindow(Some(f), Some(EncodeWindow(d))) == Some(WindowTarget(c, f))
    ensures (c.day.None? ==> EncodeWindow(d).day.None?) && (c.hour.None? ==> EncodeWindow(d).hour.None?)
  {
    var day, hour, force := 0, 0, [];
    updateFound := false;
    if c.day.Some? && c.day.value != f.day {
      day := c.day.value;
      updateFound := true;
    }
    if c.hour.Some? && c.hour.value != f.hour {
      hour := c.hour.value;
      force := force + [Hour];
      updateFound := true;
    }
    d := SqlWindow(day, hour, force);
  }

  /** The settings outside the groups. */
  predicate TopAgrees(c: Config, f: Found) {
    && c.version == f.version && c.tier == f.tier && c.availability == f.availability
    && c.resizeLimit == f.resizeLimit && c.diskSize == f.diskSize
    && (c.resize.Some? ==> f.resize == c.resize) && !Wants(c.protection, f.protection) && c.labels == f.labels
  }

  method DiffFlags(c: Config, f: Found)
    returns (protection: bool, resize: Option<bool>, force: seq<Field>, updateFound: bool)
    requires Readable(c, f)
    ensures !Wants(c.protection, Or(Sent(protection, false, DeletionProtectionEnabled, force), f.protection))
    ensures (if resize.Some? then resize else f.resize) == if c.resize.Some? then c.resize else f.resize
    ensures c.resize.None? ==> resize.None?
    ensures c.protection.None? ==> Sent(protection, false, DeletionProtectionEnabled, force).None?
    ensures forall x :: x in force ==> x == DeletionProtectionEnabled || x == StorageAutoResize
    ensures updateFound <==> Wants(c.protection, f.protection) || (c.resize.Some? && f.resize != c.resize)
  {
    protection, resize, force, updateFound := false, None, [], false;
    if c.protection.Some? && c.protection.value != f.protection {
      protection := c.protection.value;
      force := force + [DeletionProtectionEnabled];
      updateFound := true;
    }
    if c.resize.Some? && c.resize.value != f.resize.value {
      resize := c.resize;
      force := force + [StorageAutoResize];
      updateFound := true;
    }
  }

  method DiffNames(c: Config, f: Found, ghost force: seq<Field>)
    returns (version: string, tier: string, availability: string, updateFound: bool)
    requires Defaulted(c) && Tier !in force && AvailabilityType !in force
    ensures Or(Sent(version, "", DatabaseVersion, []), f.version) == c.version
    ensures Or(Sent(tier, "", Tier, force), f.tier) == c.tier
    ensures Or(Sent(availability, "", AvailabilityType, force), f.availability) == c.availability
    ensures updateFound <==> c.version != f.version || c.tier != f.tier || c.availability != f.availability
  {
    version, tier, availability, updateFound := "", "", "", false;
    if c.tier != f.tier {
      tier := c.tier;
      updateFound := true;
    }
    if c.availability != f.availability {
      availability := c.availability;
      updateFound := true;
    }
    if c.version != f.version {
      version := c.version;
      updateFound := true;
    }
  }

  method DiffSizes(c: Config, f: Found, ghost force: seq<Field>)
    returns (resizeLimit: int, diskSize: int, labels: map<string, string>, updateFound: bool)
    requires Defaulted(c) && StorageAutoResizeLimit !in force && DataDiskSizeGb !in force && UserLabels !in force
    ensures Or(Sent(resizeLimit, 0, StorageAutoResizeLimit, force), f.resizeLimit) == c.resizeLimit
    ensures Or(Sent(diskSize, 0, DataDiskSizeGb, force), f.diskSize) == c.diskSize
    ensures Or(Sent(labels, map[], UserLabels, force), f.labels) == c.labels
    ensures updateFound <==> c.resizeLimit != f.resizeLimit || c.diskSize != f.diskSize || c.labels != f.labels
  {
    resizeLimit, diskSize, labels, updateFound := 0, 0, map[], false;
    if c.resizeLimit != f.resizeLimit {
      resizeLimit := c.resizeLimit;
      updateFound := true;
    }
    if c.diskSize != f.diskSize {
      diskSize := c.diskSize;
      updateFound := true;
    }
    if c.labels != f.labels {
      labels := c.labels;
      updateFound := true;
    }
  }

  method DiffTop(c: Config, f: Found) returns (d: Sql, updateFound: bool)
    requires Defaulted(c) && Readable(c, f)
    ensures updateFound <==> !TopAgrees(c, f)
    ensures TopAgrees(c, Store(f, Encode(d)))
    ensures d.backup.None? && d.ip.None? && d.window.None?
    ensures Store(f, Encode(d)).resize == (if c.resize.Some? then c.resize else f.resize)
    ensures c.resize.None? ==> d.resize.None?
  {
    var protection, resize, force, flagFound := DiffFlags(c, f);
    var version, tier, availability, nameFound := DiffNames(c, f, force);
    var resizeLimit, diskSize, labels, sizeFound := DiffSizes(c, f, force);
    updateFound := flagFound || nameFound || sizeFound;
    d := Sql(version, tier, availability, resizeLimit, diskSize, resize, protection, labels, None, None, None, force);
  }

  /**
   buildCloudSQLUpdateStrategy: no patch exactly when every compared setting agrees; and a patch,
   sent and stored, makes them all agree, unless maintenance day 0 was to replace another day.
   */
  method BuildCloudSQLUpdateStrategy(c: Config, f: Found) returns (r: Option<Sql>)
    requires Defaulted(c) && Readable(c, f)
    ensures r.None? <==> Agrees(c, f)
    ensures r.Some? ==> (Agrees(c, Store(f, Encode(r.value))) <==> !DayLost(c.window, f.window))
    ensures r.Some? ==> Readable(c, Store(f, Encode(r.value)))
    ensures r.Some? && DayLost(c.window, f.window) ==> DayLost(c.window, Store(f, Encode(r.value)).window)
    ensures r.Some? ==> Store(f, Encode(r.value)) == Target(c, f)
    ensures r.None? ==> f == Target(c, f)
    ensures r.Some? && c.resize.None? ==> Encode(r.value).resize.None?
    ensures r.Some? && c.window.None? ==> Encode(r.value).window.None?
    ensures r.Some? && c.window.Some? && Encode(r.value).window.Some? ==>
              && (c.window.value.day.None? ==> Encode(r.value).window.value.day.None?)
              && (c.window.value.hour.None? ==> Encode(r.value).window.value.hour.None?)
  {
    var d, updateFound := DiffSettings(c, f);
    AgreesIffAtTarget(c, f);
    TargetIsFixed(c, f);
    return if updateFound then Some(d) else None;
  }

  /** The patch as it is filled in, whether it is sent or not. */
  method DiffSettings(c: Config, f: Found) returns (d: Sql, updateFound: bool)
    requires Defaulted(c) && Readable(c, f)
    ensures updateFound <==> !Agrees(c, f)
    ensures Store(f, Encode(d)) == Target(c, f)
    ensures c.resize.None? ==> d.resize.None?
    ensures d.window.Some? <==> c.window.Some? && f.window.Some?
    ensures d.window.Some? && c.window.value.day.None? ==> EncodeWindow(d.window.value).day.None?
    ensures d.window.Some? && c.window.value.hour.None? ==> EncodeWindow(d.window.value).hour.None?
  {
    var top, topFound := DiffTop(c, f);
    var backup, backupFound := DiffBackup(c.backup.value, f.backup.value);
    var ip, ipFound := DiffIpGroup(c.ipv4, f.ipv4);
    var window, windowFound := DiffWindowGroup(c.window, f.window);
    updateFound := topFound || backupFound || ipFound || windowFound;
    d := top.(backup := Some(backup), ip := ip, window := window);
    PatchReachesTarget(c, f, top, d);
  }

  /** If the parts of a patch do what they should, the whole of it does. */
  lemma PatchReachesTarget(c: Config, f: Found, top: Sql, d: Sql)
    requires Defaulted(c) && Readable(c, f) && TopAgrees(c, Store(f, Encode(top)))
    requires Store(f, Encode(top)).resize == if c.resize.Some? then c.resize else f.resize
    requires d == top.(backup := d.backup, ip := d.ip, window := d.window) && d.backup.Some?
    requires StoreBackup(f.backup, Some(EncodeBackup(d.backup.value))) == Target(c, f).backup
    requires StoreIp(f.ipv4, d.ip) == Target(c, f).ipv4
    requires Target(c, f).window ==
             StoreWindow(f.window, if d.window.Some? then Some(EncodeWindow(d.window.value)) else None)
    ensures Store(f, Encode(d)) == Target(c, f)
  {
    GroupsDoNotTouchTop(f, top, d);
  }

  /** The target agrees with the configuration, day 0 aside, and a lost day stays lost. */
  lemma TargetIsFixed(c: Config, f: Found)
    requires Defaulted(c) && Readable(c, f)
    ensures Readable(c, Target(c, f)) && (Agrees(c, Target(c, f)) <==> !DayLost(c.window, f.window))
    ensures DayLost(c.window, f.window) <==> DayLost(c.window, Target(c, f).window)
  {
    AgreesIffAtTarget(c, Target(c, f));
  }

  /**
   What an instance becomes: setting by setting the configured value, and where nothing is
   configured what it was. A group that the instance does not have stays absent.
   */
  function Target(c: Config, f: Found): Found
    requires Defaulted(c) && f.backup.Some?
  {
    Found(c.version, c.tier, c.availability, c.resizeLimit, c.diskSize,
          if c.resize.Some? then c.resize else f.resize,
          c.protection.value, c.labels,
          Some(BackupTarget(c.backup.value, f.backup.value)),
          if f.ipv4.Some? then c.ipv4.value else None,
          if c.window.Some? && f.window.Some? then Some(WindowTarget(c.window.value, f.window.value)) else f.window)
  }

  function BackupTarget(c: Backup, f: FoundBackup): FoundBackup {
    FoundBackup(Or(c.enabled, f.enabled), Or(c.pointInTime, f.pointInTime),
                if c.retention.Some? && f.retention.Some? then c.retention else f.retention)
  }

  /** Day 0 does not get through. */
  function WindowTarget(c: Window, f: FoundWindow): FoundWindow {
    FoundWindow(if c.day.Some? && c.day.value != 0 then c.day.value else f.day, Or(c.hour, f.hour))
  }

  /** Agreement and target say the same, day 0 aside. */
  lemma AgreesIffAtTarget(c: Config, f: Found)
    requires Defaulted(c) && Readable(c, f)
    ensures Agrees(c, f) <==> f == Target(c, f) && !DayLost(c.window, f.window)
  {
  }

  predicate IpAgrees(c: Option<Option<bool>>, f: Option<bool>) {
    c.Some? && f.Some? ==> !Wants(c.value, f.value)
  }

  function StoreIp(f: Option<bool>, d: Option<SqlIp>): Option<bool> {
    if d.Some? then Some(Or(EncodeIp(d.value), Or(f, false))) else f
  }

  method DiffIpGroup(c: Option<Option<bool>>, f: Option<bool>) returns (d: Option<SqlIp>, updateFound: bool)
    ensures updateFound <==> !IpAgrees(c, f)
    ensures IpAgrees(c, StoreIp(f, d))
    ensures StoreIp(f, d) == if c.Some? && f.Some? then Some(Or(c.value, f.value)) else f
  {
    d, updateFound := None, false;
    if c.Some? && f.Some? {
      var i;
      i, updateFound := DiffIp(c.value, f.value);
      d := Some(i);
    }
  }

  method DiffWindowGroup(c: Option<Window>, f: Option<FoundWindow>) returns (d: Option<SqlWindow>, updateFound: bool)
    ensures updateFound <==> !WindowAgrees(c, f)
    ensures WindowAgrees(c, StoreWindow(f, if d.Some? then Some(EncodeWindow(d.value)) else None)) <==> !DayLost(c, f)
    ensures DayLost(c, f) ==> DayLost(c, StoreWindow(f, if d.Some? then Some(EncodeWindow(d.value)) else None))
    ensures d.Some? <==> c.Some? && f.Some?
    ensures d.Some? ==>
              && StoreWindow(f, Some(EncodeWindow(d.value))) == Some(WindowTarget(c.value, f.value))
              && (c.value.day.None? ==> EncodeWindow(d.value).day.None?)
              && (c.value.hour.None? ==> EncodeWindow(d.value).hour.None?)
  {
    d, updateFound := None, false;
    if c.Some? && f.Some? {
      var w;
      w, updateFound := DiffWindow(c.value, f.value);
      d := Some(w);
    }
  }

  /** The groups and the rest of a patch are stored independently. */
  lemma GroupsDoNotTouchTop(f: Found, top: Sql, d: Sql)
    requires d == top.(backup := d.backup, ip := d.ip, window := d.window) && d.backup.Some?
    ensures var a, b := Store(f, Encode(top)), Store(f, Encode(d));
            && b == a.(backup := b.backup, ipv4 := b.ipv4, window := b.window)
            && b.backup == StoreBackup(f.backup, Some(EncodeBackup(d.backup.value)))
            && b.ipv4 == StoreIp(f.ipv4, d.ip)
            && b.window == StoreWindow(f.window, if d.window.Some? then Some(EncodeWindow(d.window.value)) else None)
  {
  }

  // ---------------------------------------------------------------- the whole way round

  /**
   A strategy, defaulted, mapped, sent and stored by a server with whatever settings of its own,
   shows no drift; except that a maintenance day 0 is lost on the way when the server's own day is another.
   */
  method CreateThenCompare(u: Config, tags: map<string, string>, server: Found)
    returns (c: Config, f: Found, r: Option<Sql>)
    requires tags != map[]
    ensures Defaulted(c) && Refines(c, u, tags)
    ensures r.None? <==> !DayLost(u.window, server.window)
  {
    c := BuildCloudSQLCreateStrategy(u, tags);
    var s := MapToGcpDatabaseInstance(c);
    f := Store(server, Encode(s));
    CreatedAgrees(c, server, Encode(s));
    r := BuildCloudSQLUpdateStrategy(c, f);
  }

  lemma CreatedAgrees(c: Config, server: Found, w: Wire)
    requires Defaulted(c) && CarriesAll(c, w)
    ensures Readable(c, Store(server, w))
    ensures Agrees(c, Store(server, w)) <==> !DayLost(c.window, server.window)
  {
  }

  /** Drift, patch, compare again: nothing left, with the same exception, and that one is there after every patch. */
  method PatchThenCompare(c: Config, f: Found) returns (g: Found, r: Option<Sql>)
    requires Defaulted(c) && Readable(c, f)
    ensures r.None? <==> !DayLost(c.window, f.window)
    ensures DayLost(c.window, f.window) ==> DayLost(c.window, g.window)
  {
    g := f;
    var p := BuildCloudSQLUpdateStrategy(c, f);
    if p.Some? {
      g := Store(f, Encode(p.value));
    }
    r := BuildCloudSQLUpdateStrategy(c, g);
  }

  /** Days 1 to 7 and an unset day always settle. */
  lemma ProperDaysSettle(c: Option<Window>, f: Option<FoundWindow>)
    requires c.Some? && c.value.day.Some? ==> 1 <= c.value.day.value <= 7
    ensures !DayLost(c, f)
  {
  }

  /** Day 0 over day 3: the day is not on the wire, and the stored one stays. */
  lemma DayZeroIsNotSent()
    ensures var c, f := Window(Some(0), None), FoundWindow(3, 0);
            && DayLost(Some(c), Some(f))
            && EncodeWindow(SqlWindow(0, 0, [])) == WireWindow(None, None)
            && StoreWindow(Some(f), Some(WireWindow(None, None))) == Some(f)
  {
  }
}
