/** The disk sampler of src/data/disk.rs: the two `/proc` parsers, the sector
    rate rule and the per-cycle bookkeeping of `DiskData`.

    The host library's disk list, the text of `/proc/mounts` and of
    `/proc/diskstats` (as lines, `None` when the file cannot be read) and the
    clock (milliseconds) are inputs. `update` reads `/proc/diskstats` twice,
    once for the rates and once for the new baselines; the two reads are two
    inputs. */
module Disk {
  import opened Wrappers
  import opened Num
  import opened Text
  import I18n

  const SECTOR_SIZE: nat := 512
  const DEV_PREFIX: string := "/dev/"
  const DISKSTATS_UNREADABLE: string := "/proc/diskstats cannot be read"

  datatype DiskKind = HDD | SSD | Unknown

  /** One disk of the host library's list: device name, mount point (`None`
      when it is not valid UTF-8), kind, and total and available bytes. */
  datatype DiskInfo = DiskInfo(name: string, mountPoint: Option<string>, kind: DiskKind,
                               totalSpace: u64, availableSpace: u64)

  /** `(mount_point, used, total, read_speed, write_speed)` */
  datatype DiskEntry = DiskEntry(mountPoint: string, used: u64, total: u64, readSpeed: u64, writeSpeed: u64)

  /** Only rotational and solid-state disks are sampled. */
  predicate IsPhysical(d: DiskInfo)
  {
    d.kind == HDD || d.kind == SSD
  }

  /** The mount point as text, or the translated "unknown". */
  function MountLabel(d: DiskInfo, unknown: string): string
  {
    d.mountPoint.GetOr(unknown)
  }

  /** The sampled disks of a snapshot, in snapshot order. */
  function Physical(snapshot: seq<DiskInfo>): (r: seq<DiskInfo>)
    ensures |r| <= |snapshot|
    ensures forall d :: d in r <==> d in snapshot && IsPhysical(d)
  {
    if |snapshot| == 0 then []
    else
      var front := Physical(snapshot[..|snapshot| - 1]);
      var last := snapshot[|snapshot| - 1];
      assert snapshot == snapshot[..|snapshot| - 1] + [last];
      if IsPhysical(last) then front + [last] else front
  }

  lemma PhysicalStep(snapshot: seq<DiskInfo>, i: nat)
    requires i < |snapshot|
    ensures Physical(snapshot[..i + 1]) == Physical(snapshot[..i]) + (if IsPhysical(snapshot[i]) then [snapshot[i]] else [])
  {
    assert snapshot[..i + 1][..i] == snapshot[..i];
  }

  // ---------------------------------------------------------------- parsing

  /** A map built by inserting, line by line, the entry each line yields:
      a key seen on several lines ends up with the value of the last one. */
  function LastWins<V>(lines: seq<string>, entry: string -> Option<(string, V)>): map<string, V>
  {
    if |lines| == 0 then map[]
    else
      var m := LastWins(lines[..|lines| - 1], entry);
      match entry(lines[|lines| - 1])
      case None => m
      case Some(kv) => m[kv.0 := kv.1]
  }

  /** A key is present exactly when some line yields an entry for it. */
  lemma {:induction false} LastWinsKeys<V>(lines: seq<string>, entry: string -> Option<(string, V)>, k: string)
    ensures k in LastWins(lines, entry) <==>
      exists i :: 0 <= i < |lines| && entry(lines[i]).Some? && entry(lines[i]).value.0 == k
  {
    if |lines| > 0 {
      var front := lines[..|lines| - 1];
      LastWinsKeys(front, entry, k);
      forall i | 0 <= i < |front| ensures entry(front[i]) == entry(lines[i]) { }
    }
  }

  /** The value stored for a key is the one of the last line that names it. */
  lemma {:induction false} LastWinsValue<V>(lines: seq<string>, entry: string -> Option<(string, V)>, i: nat, k: string, v: V)
    requires i < |lines| && entry(lines[i]) == Some((k, v))
    requires forall j :: i < j < |lines| ==> entry(lines[j]).None? || entry(lines[j]).value.0 != k
    ensures k in LastWins(lines, entry) && LastWins(lines, entry)[k] == v
  {
    var front := lines[..|lines| - 1];
    if i < |lines| - 1 {
      assert front[i] == lines[i];
      forall j | i < j < |front| ensures entry(front[j]).None? || entry(front[j]).value.0 != k {
        assert front[j] == lines[j];
      }
      LastWinsValue(front, entry, i, k, v);
    }
  }

  /** One line of `/proc/mounts`: at least two whitespace-separated fields, the
      first under `/dev/`; the key is the device name without `/dev/`, the value
      the mount point. */
  function MountEntry(line: string): Option<(string, string)>
  {
    var parts := Fields(line);
    if |parts| >= 2 && StartsWith(parts[0], DEV_PREFIX) then
      Some((parts[0][|DEV_PREFIX|..], parts[1]))
    else None
  }

  function MountMap(content: Option<seq<string>>): map<string, string>
  {
    if content.None? then map[] else LastWins(content.value, MountEntry)
  }

  /** `read_device_mount_mapping`: an unreadable file gives the empty map. */
  method ReadDeviceMountMapping(content: Option<seq<string>>) returns (mapping: map<string, string>)
    ensures content.None? ==> mapping == map[]
    ensures content.Some? ==> mapping == LastWins(content.value, MountEntry)
  {
    mapping := map[];
    if content.Some? {
      var lines := content.value;
      for i := 0 to |lines|
        invariant mapping == LastWins(lines[..i], MountEntry)
      {
        assert lines[..i + 1][..i] == lines[..i];
        var parts := Fields(lines[i]);
        if |parts| >= 2 {
          var device := parts[0];
          var mountPoint := parts[1];
          if StartsWith(device, DEV_PREFIX) {
            mapping := mapping[device[|DEV_PREFIX|..] := mountPoint];
          }
        }
      }
      assert lines[..|lines|] == lines;
    }
  }

  /** A line whose first field names a `/dev/` device maps the device name,
      without `/dev/`, to the second field, however the fields are padded. */
  lemma MountLineParses(pad: string, ws: seq<string>, seps: seq<string>)
    requires IsBlank(pad) && WellSpread(ws, seps)
    requires |ws| >= 2 && StartsWith(ws[0], DEV_PREFIX)
    ensures MountEntry(pad + Spread(ws, seps)) == Some((ws[0][|DEV_PREFIX|..], ws[1]))
  {
    FieldsOfSpread(pad, ws, seps);
  }

  /** A line whose first field is not under `/dev/` (a pseudo filesystem such
      as `proc`) adds nothing, and neither does a line of one field. */
  lemma NonDeviceLineIgnored(pad: string, ws: seq<string>, seps: seq<string>)
    requires IsBlank(pad) && WellSpread(ws, seps)
    requires |ws| < 2 || !StartsWith(ws[0], DEV_PREFIX)
    ensures MountEntry(pad + Spread(ws, seps)) == None
  {
    FieldsOfSpread(pad, ws, seps);
  }

  /** One line of `/proc/diskstats`: at least fourteen fields; the device name
      is the third, the sectors read the sixth and the sectors written the
      tenth, a field that does not parse counting as zero. */
  function StatEntry(line: string): Option<(string, (u64, u64))>
  {
    var parts := Fields(line);
    if |parts| >= 14 then
      Some((parts[2], (ParseU64(parts[5]).GetOr(0), ParseU64(parts[9]).GetOr(0))))
    else None
  }

  /** `read_disk_stats`: an unreadable file is an error. */
  method ReadDiskStats(content: Option<seq<string>>) returns (r: Result<map<string, (u64, u64)>>)
    ensures content.None? <==> r.Err?
    ensures content.Some? ==> r == Ok(LastWins(content.value, StatEntry))
  {
    if content.None? {
      return Err(DISKSTATS_UNREADABLE);
    }
    var lines := content.value;
    var stats: map<string, (u64, u64)> := map[];
    for i := 0 to |lines|
      invariant stats == LastWins(lines[..i], StatEntry)
    {
      assert lines[..i + 1][..i] == lines[..i];
      var parts := Fields(lines[i]);
      if |parts| >= 14 {
        var deviceName := parts[2];
        var readSectors := ParseU64(parts[5]).GetOr(0);
        var writeSectors := ParseU64(parts[9]).GetOr(0);
        stats := stats[deviceName := (readSectors, writeSectors)];
      }
    }
    assert lines[..|lines|] == lines;
    return Ok(stats);
  }

  /** A line of fourteen or more fields yields its third field with the
      numbers in its sixth and tenth, whatever its padding: the kernel
      right-aligns the leading numbers and pads between the fields. */
  lemma StatLineParses(pad: string, ws: seq<string>, seps: seq<string>, readSectors: u64, writeSectors: u64)
    requires IsBlank(pad) && WellSpread(ws, seps)
    requires |ws| >= 14 && ws[5] == Decimal(readSectors) && ws[9] == Decimal(writeSectors)
    ensures StatEntry(pad + Spread(ws, seps)) == Some((ws[2], (readSectors, writeSectors)))
  {
    FieldsOfSpread(pad, ws, seps);
    DecimalParses(readSectors);
    DecimalParses(writeSectors);
  }

  /** The sixth and the tenth field are read independently: each one that is
      not a number counts as zero, and each one that is counts as its value,
      whatever the other holds. */
  lemma StatFieldDefaultsToZero(pad: string, ws: seq<string>, seps: seq<string>)
    requires IsBlank(pad) && WellSpread(ws, seps)
    requires |ws| >= 14
    ensures StatEntry(pad + Spread(ws, seps)).Some?
    ensures StatEntry(pad + Spread(ws, seps)).value.0 == ws[2]
    ensures ParseU64(ws[5]).None? ==> StatEntry(pad + Spread(ws, seps)).value.1.0 == 0
    ensures ParseU64(ws[5]).Some? ==> StatEntry(pad + Spread(ws, seps)).value.1.0 == ParseU64(ws[5]).value
    ensures ParseU64(ws[9]).None? ==> StatEntry(pad + Spread(ws, seps)).value.1.1 == 0
    ensures ParseU64(ws[9]).Some? ==> StatEntry(pad + Spread(ws, seps)).value.1.1 == ParseU64(ws[9]).value
  {
    FieldsOfSpread(pad, ws, seps);
  }

  /** A line of fewer than fourteen fields (the short format of some kernels)
      adds nothing. */
  lemma ShortStatLineIgnored(pad: string, ws: seq<string>, seps: seq<string>)
    requires IsBlank(pad) && WellSpread(ws, seps)
    requires |ws| < 14
    ensures StatEntry(pad + Spread(ws, seps)) == None
  {
    FieldsOfSpread(pad, ws, seps);
  }

  /** `(current - last) * 512` stays within 64 bits (the source panics otherwise). */
  predicate RateDefined(current: u64, last: u64)
  {
    current >= last ==> (current - last) * SECTOR_SIZE <= U64_MAX
  }

  /** The rate rule for one sector counter: bytes per second over the elapsed
      time floored at one millisecond, zero when the counter went backwards. */
  function SectorRate(current: u64, last: u64, elapsedMs: nat): (r: u64)
    requires RateDefined(current, last)
  {
    if current >= last then PerSecond((current - last) * SECTOR_SIZE, elapsedMs) else 0
  }

  /** What the rate means: zero after a counter reset, otherwise the floor of
      bytes moved per second; an elapsed time below 1 ms counts as 1 ms. */
  lemma SectorRateMeaning(current: u64, last: u64, elapsedMs: nat)
    requires RateDefined(current, last)
    ensures current < last ==> SectorRate(current, last, elapsedMs) == 0
    ensures SectorRate(current, last, elapsedMs) == SectorRate(current, last, RateDivisorMs(elapsedMs))
    ensures current >= last && (current - last) * SECTOR_SIZE * 1000 / RateDivisorMs(elapsedMs) <= U64_MAX ==>
      var r := SectorRate(current, last, elapsedMs);
      var bytes := (current - last) * SECTOR_SIZE;
      r * RateDivisorMs(elapsedMs) <= bytes * 1000 < (r + 1) * RateDivisorMs(elapsedMs)
  {
    if current >= last && (current - last) * SECTOR_SIZE * 1000 / RateDivisorMs(elapsedMs) <= U64_MAX {
      PerSecondIsFloor((current - last) * SECTOR_SIZE, RateDivisorMs(elapsedMs));
    }
  }

  /** 2000 sectors in one second are 1,024,000 bytes per second. */
  lemma SectorRateExample(last: u64)
    requires last + 2000 <= U64_MAX
    ensures SectorRate(last + 2000, last, 1000) == 1_024_000
  {
  }

  /** `unwrap_or(&0)`: a key without a baseline has baseline zero. */
  function Baseline(m: map<string, u64>, key: string): u64
  {
    if key in m then m[key] else 0
  }

  /** No sector multiplication of this cycle overflows. */
  ghost predicate RatesDefined(snapshot: seq<DiskInfo>, stats: map<string, (u64, u64)>,
                               lastRead: map<string, u64>, lastWrite: map<string, u64>, unknown: string)
  {
    forall d :: d in snapshot && IsPhysical(d) && d.name in stats ==>
      && RateDefined(stats[d.name].0, Baseline(lastRead, MountLabel(d, unknown)))
      && RateDefined(stats[d.name].1, Baseline(lastWrite, MountLabel(d, unknown)))
  }

  /** The entry `update_disks` pushes for one physical disk. The device is looked
      up in the statistics by its name; the baselines by its mount point. */
  function EntryOf(d: DiskInfo, stats: map<string, (u64, u64)>, lastRead: map<string, u64>,
                   lastWrite: map<string, u64>, elapsedMs: nat, unknown: string): DiskEntry
    requires d.name in stats ==>
      (RateDefined(stats[d.name].0, Baseline(lastRead, MountLabel(d, unknown))) &&
       RateDefined(stats[d.name].1, Baseline(lastWrite, MountLabel(d, unknown))))
  {
    var mountLabel := MountLabel(d, unknown);
    var used := SatSub(d.totalSpace, d.availableSpace);
    if d.name in stats then
      DiskEntry(mountLabel, used, d.totalSpace,
                SectorRate(stats[d.name].0, Baseline(lastRead, mountLabel), elapsedMs),
                SectorRate(stats[d.name].1, Baseline(lastWrite, mountLabel), elapsedMs))
    else
      DiskEntry(mountLabel, used, d.totalSpace, 0, 0)
  }

  /** One entry per physical disk, in snapshot order. */
  function DiskEntries(snapshot: seq<DiskInfo>, stats: map<string, (u64, u64)>, lastRead: map<string, u64>,
                       lastWrite: map<string, u64>, elapsedMs: nat, unknown: string): (r: seq<DiskEntry>)
    requires RatesDefined(snapshot, stats, lastRead, lastWrite, unknown)
    ensures |r| == |Physical(snapshot)|
  {
    var p := Physical(snapshot);
    seq(|p|, i requires 0 <= i < |p| => EntryOf(p[i], stats, lastRead, lastWrite, elapsedMs, unknown))
  }

  /** What each reported entry says about its disk. */
  lemma DiskEntriesMeaning(snapshot: seq<DiskInfo>, stats: map<string, (u64, u64)>, lastRead: map<string, u64>,
                           lastWrite: map<string, u64>, elapsedMs: nat, unknown: string, i: nat)
    requires RatesDefined(snapshot, stats, lastRead, lastWrite, unknown)
    requires i < |Physical(snapshot)|
    ensures var d := Physical(snapshot)[i];
      var e := DiskEntries(snapshot, stats, lastRead, lastWrite, elapsedMs, unknown)[i];
      && IsPhysical(d)
      && e.mountPoint == MountLabel(d, unknown)
      && e.total == d.totalSpace
      && e.used + d.availableSpace >= d.totalSpace && e.used <= d.totalSpace
      && (d.availableSpace <= d.totalSpace ==> e.used == d.totalSpace - d.availableSpace)
      && (d.name !in stats ==> e.readSpeed == 0 && e.writeSpeed == 0)
      && (d.name in stats && stats[d.name].0 < Baseline(lastRead, e.mountPoint) ==> e.readSpeed == 0)
      && (d.name in stats && stats[d.name].1 < Baseline(lastWrite, e.mountPoint) ==> e.writeSpeed == 0)
      && (d.name in stats ==> e.readSpeed == SectorRate(stats[d.name].0, Baseline(lastRead, e.mountPoint), elapsedMs))
      && (d.name in stats ==> e.writeSpeed == SectorRate(stats[d.name].1, Baseline(lastWrite, e.mountPoint), elapsedMs))
  {
    assert Physical(snapshot)[i] in Physical(snapshot);
  }

  lemma RatesDefinedPrefix(snapshot: seq<DiskInfo>, stats: map<string, (u64, u64)>, lastRead: map<string, u64>,
                           lastWrite: map<string, u64>, unknown: string, n: nat)
    requires RatesDefined(snapshot, stats, lastRead, lastWrite, unknown) && n <= |snapshot|
    ensures RatesDefined(snapshot[..n], stats, lastRead, lastWrite, unknown)
  {
    assert forall d :: d in snapshot[..n] ==> d in snapshot;
  }

  lemma DiskEntriesStep(snapshot: seq<DiskInfo>, stats: map<string, (u64, u64)>, lastRead: map<string, u64>,
                        lastWrite: map<string, u64>, elapsedMs: nat, unknown: string, i: nat)
    requires i < |snapshot|
    requires RatesDefined(snapshot[..i], stats, lastRead, lastWrite, unknown)
    requires RatesDefined(snapshot[..i + 1], stats, lastRead, lastWrite, unknown)
    ensures DiskEntries(snapshot[..i + 1], stats, lastRead, lastWrite, elapsedMs, unknown)
      == DiskEntries(snapshot[..i], stats, lastRead, lastWrite, elapsedMs, unknown) +
         (if IsPhysical(snapshot[i]) then [EntryOf(snapshot[i], stats, lastRead, lastWrite, elapsedMs, unknown)] else [])
  {
    PhysicalStep(snapshot, i);
    assert snapshot[i] in snapshot[..i + 1];
  }

  /** The body of the `update_disks` loop for one physical disk: its space
      figures and, when the statistics list its device, its two rates. */
  method MeasureDisk(disk: DiskInfo, stats: map<string, (u64, u64)>, lastRead: map<string, u64>,
                     lastWrite: map<string, u64>, elapsedMs: nat, unknown: string) returns (e: DiskEntry)
    requires disk.name in stats ==>
      (RateDefined(stats[disk.name].0, Baseline(lastRead, MountLabel(disk, unknown))) &&
       RateDefined(stats[disk.name].1, Baseline(lastWrite, MountLabel(disk, unknown))))
    ensures e == EntryOf(disk, stats, lastRead, lastWrite, elapsedMs, unknown)
  {
    var mountPoint := MountLabel(disk, unknown);
    var total := disk.totalSpace;
    var used := SatSub(total, disk.availableSpace);
    var deviceName := disk.name;
    var readSpeed, writeSpeed := 0, 0;
    if deviceName in stats {
      var (currentRead, currentWrite) := stats[deviceName];
      var lastR := Baseline(lastRead, mountPoint);
      var lastW := Baseline(lastWrite, mountPoint);
      readSpeed := if currentRead >= lastR then PerSecond((currentRead - lastR) * SECTOR_SIZE, elapsedMs) else 0;
      writeSpeed := if currentWrite >= lastW then PerSecond((currentWrite - lastW) * SECTOR_SIZE, elapsedMs) else 0;
    }
    e := DiskEntry(mountPoint, used, total, readSpeed, writeSpeed);
  }

  /** The loop of `update_disks`: one entry per physical disk, in snapshot order. */
  method CollectEntries(snapshot: seq<DiskInfo>, stats: map<string, (u64, u64)>, lastRead: map<string, u64>,
                        lastWrite: map<string, u64>, elapsedMs: nat, unknown: string) returns (disks: seq<DiskEntry>)
    requires RatesDefined(snapshot, stats, lastRead, lastWrite, unknown)
    ensures disks == DiskEntries(snapshot, stats, lastRead, lastWrite, elapsedMs, unknown)
  {
    disks := [];
    RatesDefinedPrefix(snapshot, stats, lastRead, lastWrite, unknown, 0);
    for i := 0 to |snapshot|
      invariant RatesDefined(snapshot[..i], stats, lastRead, lastWrite, unknown)
      invariant disks == DiskEntries(snapshot[..i], stats, lastRead, lastWrite, elapsedMs, unknown)
    {
      RatesDefinedPrefix(snapshot, stats, lastRead, lastWrite, unknown, i + 1);
      DiskEntriesStep(snapshot, stats, lastRead, lastWrite, elapsedMs, unknown, i);
      var disk := snapshot[i];
      if disk.kind == HDD || disk.kind == SSD {
        var entry := MeasureDisk(disk, stats, lastRead, lastWrite, elapsedMs, unknown);
        disks := disks + [entry];
      }
    }
    assert snapshot[..|snapshot|] == snapshot;
  }

  /** `update_disks`: reads the statistics (failing when they cannot be read)
      and builds one entry per physical disk. */
  method UpdateDisks(snapshot: seq<DiskInfo>, statsContent: Option<seq<string>>, lastRead: map<string, u64>,
                     lastWrite: map<string, u64>, elapsedMs: nat, unknown: string) returns (r: Result<seq<DiskEntry>>)
    requires statsContent.Some? ==>
      RatesDefined(snapshot, LastWins(statsContent.value, StatEntry), lastRead, lastWrite, unknown)
    ensures statsContent.None? <==> r.Err?
    ensures r.Ok? ==>
      r.value == DiskEntries(snapshot, LastWins(statsContent.value, StatEntry), lastRead, lastWrite, elapsedMs, unknown)
  {
    var currentStats := ReadDiskStats(statsContent);
    if currentStats.Err? {
      return Err(currentStats.error);
    }
    var disks := CollectEntries(snapshot, currentStats.value, lastRead, lastWrite, elapsedMs, unknown);
    return Ok(disks);
  }

  // ---------------------------------------------------------------- mount map

  /** The `entry(device_name).or_insert_with(mount_point)` loop: each physical
      disk adds its device name with its mount point, unless the name is
      already present, from the mount text or from an earlier disk. */
  function InsertSnapshotMounts(m: map<string, string>, snapshot: seq<DiskInfo>, unknown: string): map<string, string>
  {
    if |snapshot| == 0 then m
    else
      var front := InsertSnapshotMounts(m, snapshot[..|snapshot| - 1], unknown);
      var d := snapshot[|snapshot| - 1];
      if IsPhysical(d) && d.name !in front then front[d.name := MountLabel(d, unknown)] else front
  }

  /** Entries read from the mount text are never overwritten by the host
      library's names; the names it adds map to the mount point of the first
      physical disk carrying them. */
  lemma {:induction false} InsertSnapshotMountsMeaning(m: map<string, string>, snapshot: seq<DiskInfo>, unknown: string, k: string)
    ensures var r := InsertSnapshotMounts(m, snapshot, unknown);
      && (k in r <==> k in m || exists i :: 0 <= i < |snapshot| && IsPhysical(snapshot[i]) && snapshot[i].name == k)
      && (k in m ==> r[k] == m[k])
      && (k !in m && k in r ==>
            exists i :: 0 <= i < |snapshot| && IsPhysical(snapshot[i]) && snapshot[i].name == k &&
              r[k] == MountLabel(snapshot[i], unknown) &&
              (forall j :: 0 <= j < i ==> !IsPhysical(snapshot[j]) || snapshot[j].name != k))
  {
    if |snapshot| > 0 {
      var front := snapshot[..|snapshot| - 1];
      InsertSnapshotMountsMeaning(m, front, unknown, k);
      forall i | 0 <= i < |front| ensures front[i] == snapshot[i] { }
    }
  }

  // ---------------------------------------------------------------- baselines

  /** The key a device's counters are stored under: its mount point when the
      mount map knows the device, otherwise the device name itself. */
  function BaselineKey(device: string, deviceToMount: map<string, string>): string
  {
    if device in deviceToMount then deviceToMount[device] else device
  }

  /** Some device among `devices` stores its counters under `k`. */
  ghost predicate StoredUnder(k: string, devices: set<string>, deviceToMount: map<string, string>)
  {
    exists d :: d in devices && BaselineKey(d, deviceToMount) == k
  }

  /** The baseline update of `update`, for any iteration order of the
      statistics map: every device's counters land under its key, nothing is
      removed, other keys keep their values. When two devices share a key, the
      key holds the counters of one of them (the one the iteration visits last). */
  ghost predicate BaselinesStored(stats: map<string, (u64, u64)>, deviceToMount: map<string, string>,
                                  read0: map<string, u64>, write0: map<string, u64>,
                                  read1: map<string, u64>, write1: map<string, u64>)
  {
    && (forall k :: k in read1 <==> k in read0 || StoredUnder(k, stats.Keys, deviceToMount))
    && (forall k :: k in write1 <==> k in write0 || StoredUnder(k, stats.Keys, deviceToMount))
    && (forall k :: k in read0 && !StoredUnder(k, stats.Keys, deviceToMount) ==> read1[k] == read0[k])
    && (forall k :: k in write0 && !StoredUnder(k, stats.Keys, deviceToMount) ==> write1[k] == write0[k])
    && (forall k :: StoredUnder(k, stats.Keys, deviceToMount) ==>
          exists d :: d in stats && BaselineKey(d, deviceToMount) == k && read1[k] == stats[d].0 && write1[k] == stats[d].1)
  }

  /** The loop at the end of `update` that stores this cycle's counters. The
      map is visited in an order the model leaves open. */
  method StoreBaselines(stats: map<string, (u64, u64)>, deviceToMount: map<string, string>,
                        read0: map<string, u64>, write0: map<string, u64>)
    returns (read1: map<string, u64>, write1: map<string, u64>)
    ensures BaselinesStored(stats, deviceToMount, read0, write0, read1, write1)
  {
    read1, write1 := read0, write0;
    var remaining := stats.Keys;
    while remaining != {}
      invariant remaining <= stats.Keys
      invariant forall k :: k in read1 <==> k in read0 || StoredUnder(k, stats.Keys - remaining, deviceToMount)
      invariant forall k :: k in write1 <==> k in write0 || StoredUnder(k, stats.Keys - remaining, deviceToMount)
      invariant forall k :: k in read0 && !StoredUnder(k, stats.Keys - remaining, deviceToMount) ==> read1[k] == read0[k]
      invariant forall k :: k in write0 && !StoredUnder(k, stats.Keys - remaining, deviceToMount) ==> write1[k] == write0[k]
      invariant forall k :: StoredUnder(k, stats.Keys - remaining, deviceToMount) ==>
        exists d :: d in stats.Keys - remaining && BaselineKey(d, deviceToMount) == k &&
          read1[k] == stats[d].0 && write1[k] == stats[d].1
      decreases remaining
    {
      var deviceName :| deviceName in remaining;
      var (readSectors, writeSectors) := stats[deviceName];
      var key := BaselineKey(deviceName, deviceToMount);
      ghost var doneBefore := stats.Keys - remaining;
      read1 := read1[key := readSectors];
      write1 := write1[key := writeSectors];
      remaining := remaining - {deviceName};
      assert stats.Keys - remaining == doneBefore + {deviceName};
      forall k | StoredUnder(k, doneBefore + {deviceName}, deviceToMount)
        ensures StoredUnder(k, doneBefore, deviceToMount) || k == key
      {
        var d :| d in doneBefore + {deviceName} && BaselineKey(d, deviceToMount) == k;
        if d != deviceName {
          assert d in doneBefore;
        }
      }
      assert StoredUnder(key, doneBefore + {deviceName}, deviceToMount);
      forall k | StoredUnder(k, doneBefore, deviceToMount) ensures StoredUnder(k, doneBefore + {deviceName}, deviceToMount) {
        var d :| d in doneBefore && BaselineKey(d, deviceToMount) == k;
        assert d in doneBefore + {deviceName};
      }
    }
    assert stats.Keys - remaining == stats.Keys;
  }

  /** When no two devices share a key, each device's counters are exactly what
      its key holds afterwards. */
  lemma BaselinesOfDistinctKeys(stats: map<string, (u64, u64)>, deviceToMount: map<string, string>,
                                read0: map<string, u64>, write0: map<string, u64>,
                                read1: map<string, u64>, write1: map<string, u64>, device: string)
    requires BaselinesStored(stats, deviceToMount, read0, write0, read1, write1)
    requires forall a, b :: a in stats && b in stats && a != b ==> BaselineKey(a, deviceToMount) != BaselineKey(b, deviceToMount)
    requires device in stats
    ensures BaselineKey(device, deviceToMount) in read1 && BaselineKey(device, deviceToMount) in write1
    ensures read1[BaselineKey(device, deviceToMount)] == stats[device].0
    ensures write1[BaselineKey(device, deviceToMount)] == stats[device].1
  {
    var k := BaselineKey(device, deviceToMount);
    assert StoredUnder(k, stats.Keys, deviceToMount);
  }

  /** Baselines are never removed. */
  lemma BaselinesGrow(stats: map<string, (u64, u64)>, deviceToMount: map<string, string>,
                      read0: map<string, u64>, write0: map<string, u64>,
                      read1: map<string, u64>, write1: map<string, u64>)
    requires BaselinesStored(stats, deviceToMount, read0, write0, read1, write1)
    ensures read0.Keys <= read1.Keys && write0.Keys <= write1.Keys
  {
  }

  // ---------------------------------------------------------------- the sampler

  /** The baselines `new` starts from: zero under the mount point of every
      physical disk. */
  function ZeroBaselines(snapshot: seq<DiskInfo>, unknown: string): (m: map<string, u64>)
    ensures forall k :: k in m ==> m[k] == 0
  {
    if |snapshot| == 0 then map[]
    else
      var front := ZeroBaselines(snapshot[..|snapshot| - 1], unknown);
      var d := snapshot[|snapshot| - 1];
      if IsPhysical(d) then front[MountLabel(d, unknown) := 0] else front
  }

  lemma {:induction false} ZeroBaselinesKeys(snapshot: seq<DiskInfo>, unknown: string, k: string)
    ensures k in ZeroBaselines(snapshot, unknown) <==>
      exists i :: 0 <= i < |snapshot| && IsPhysical(snapshot[i]) && MountLabel(snapshot[i], unknown) == k
  {
    if |snapshot| > 0 {
      var front := snapshot[..|snapshot| - 1];
      ZeroBaselinesKeys(front, unknown, k);
      forall i | 0 <= i < |front| ensures front[i] == snapshot[i] { }
    }
  }

  datatype DiskState = DiskState(disks: seq<DiskEntry>, lastReadSectors: map<string, u64>,
                                 lastWriteSectors: map<string, u64>, lastUpdateMs: nat,
                                 deviceToMount: map<string, string>)

  /** What one call of `update` is given: the refreshed disk list, the mount
      text, the two reads of the statistics and the time. */
  datatype DiskInput = DiskInput(snapshot: seq<DiskInfo>, mounts: Option<seq<string>>,
                                 rateStats: Option<seq<string>>, baselineStats: Option<seq<string>>, nowMs: nat)

  /** The mount map of a cycle: rebuilt from this cycle's inputs alone. */
  function CycleMountMap(inp: DiskInput, unknown: string): map<string, string>
  {
    InsertSnapshotMounts(MountMap(inp.mounts), inp.snapshot, unknown)
  }

  /** What `update` requires to stay clear of the multiplication overflow. */
  ghost predicate UpdateDefined(s: DiskState, inp: DiskInput, unknown: string)
  {
    inp.rateStats.Some? ==>
      RatesDefined(inp.snapshot, LastWins(inp.rateStats.value, StatEntry), s.lastReadSectors, s.lastWriteSectors, unknown)
  }

  /** One call of `update`, from state `s0` to state `s1`. The entry list is
      cleared and the mount map rebuilt first; when the statistics cannot be
      read the call fails there, with no entries, the baselines and the clock
      untouched. Otherwise the entries use the previous baselines, the new
      baselines are stored (if the second read succeeds) and the clock moves. */
  ghost predicate Stepped(s0: DiskState, inp: DiskInput, unknown: string, s1: DiskState, r: Outcome)
    requires UpdateDefined(s0, inp, unknown)
  {
    && s1.deviceToMount == CycleMountMap(inp, unknown)
    && (inp.rateStats.None? ==>
          && r.Fail?
          && s1.disks == []
          && s1.lastReadSectors == s0.lastReadSectors && s1.lastWriteSectors == s0.lastWriteSectors
          && s1.lastUpdateMs == s0.lastUpdateMs)
    && (inp.rateStats.Some? ==>
          && r == Pass
          && s1.disks == DiskEntries(inp.snapshot, LastWins(inp.rateStats.value, StatEntry),
                                     s0.lastReadSectors, s0.lastWriteSectors,
                                     ElapsedMs(s0.lastUpdateMs, inp.nowMs), unknown)
          && s1.lastUpdateMs == inp.nowMs
          && (inp.baselineStats.None? ==>
                s1.lastReadSectors == s0.lastReadSectors && s1.lastWriteSectors == s0.lastWriteSectors)
          && (inp.baselineStats.Some? ==>
                BaselinesStored(LastWins(inp.baselineStats.value, StatEntry), CycleMountMap(inp, unknown),
                                s0.lastReadSectors, s0.lastWriteSectors, s1.lastReadSectors, s1.lastWriteSectors)))
  }

  /** The state `new` builds, when the statistics can be read: the first rates
      are taken against zero baselines over an elapsed time of zero, floored
      to one millisecond. */
  ghost predicate Created(snapshot: seq<DiskInfo>, mounts: Option<seq<string>>, stats: seq<string>,
                          nowMs: nat, unknown: string, s: DiskState)
  {
    && s.deviceToMount == InsertSnapshotMounts(MountMap(mounts), snapshot, unknown)
    && s.lastReadSectors == ZeroBaselines(snapshot, unknown)
    && s.lastWriteSectors == ZeroBaselines(snapshot, unknown)
    && s.lastUpdateMs == nowMs
    && RatesDefined(snapshot, LastWins(stats, StatEntry), s.lastReadSectors, s.lastWriteSectors, unknown)
    && s.disks == DiskEntries(snapshot, LastWins(stats, StatEntry), s.lastReadSectors, s.lastWriteSectors, 0, unknown)
  }

  /** On the first cycle a disk's rate is its whole counter as if moved in one
      millisecond: `new` reports a large rate rather than zero. */
  lemma FirstCycleRate(snapshot: seq<DiskInfo>, stats: map<string, (u64, u64)>, unknown: string, i: nat)
    requires RatesDefined(snapshot, stats, ZeroBaselines(snapshot, unknown), ZeroBaselines(snapshot, unknown), unknown)
    requires i < |Physical(snapshot)| && Physical(snapshot)[i].name in stats
    ensures var d := Physical(snapshot)[i];
      DiskEntries(snapshot, stats, ZeroBaselines(snapshot, unknown), ZeroBaselines(snapshot, unknown), 0, unknown)[i].readSpeed
        == SatCastU64(stats[d.name].0 * SECTOR_SIZE * 1000)
  {
    var d := Physical(snapshot)[i];
    assert d in Physical(snapshot);
    var z := ZeroBaselines(snapshot, unknown);
    var mountLabel := MountLabel(d, unknown);
    if mountLabel in z {
      assert z[mountLabel] == 0;
    }
  }

  /** The mount map `update` rebuilds: the mount text, then the host
      library's device names where the text has none. */
  method BuildMountMap(mounts: Option<seq<string>>, snapshot: seq<DiskInfo>, unknown: string)
    returns (deviceToMount: map<string, string>)
    ensures deviceToMount == InsertSnapshotMounts(MountMap(mounts), snapshot, unknown)
  {
    var base := ReadDeviceMountMapping(mounts);
    deviceToMount := base;
    for i := 0 to |snapshot|
      invariant deviceToMount == InsertSnapshotMounts(base, snapshot[..i], unknown)
    {
      assert snapshot[..i + 1][..i] == snapshot[..i];
      var disk := snapshot[i];
      if disk.kind == HDD || disk.kind == SSD {
        var mountPoint := MountLabel(disk, unknown);
        if disk.name !in deviceToMount {
          deviceToMount := deviceToMount[disk.name := mountPoint];
        }
      }
    }
    assert snapshot[..|snapshot|] == snapshot;
  }

  class DiskData {
    const lang: I18n.Language
    var disks: seq<DiskEntry>
    var lastReadSectors: map<string, u64>
    var lastWriteSectors: map<string, u64>
    var lastUpdateMs: nat
    var deviceToMount: map<string, string>

    function State(): DiskState
      reads this
    {
      DiskState(disks, lastReadSectors, lastWriteSectors, lastUpdateMs, deviceToMount)
    }

    /** The text a disk without a readable mount point is reported under. */
    function Unknown(): string
    {
      I18n.Get(lang, "unknown")
    }

    constructor FromState(s: DiskState, lang: I18n.Language)
      ensures State() == s && this.lang == lang
    {
      this.lang := lang;
      disks := s.disks;
      lastReadSectors := s.lastReadSectors;
      lastWriteSectors := s.lastWriteSectors;
      lastUpdateMs := s.lastUpdateMs;
      deviceToMount := s.deviceToMount;
    }

    /** `DiskData::new`; `None` when `/proc/diskstats` cannot be read. */
    static method New(snapshot: seq<DiskInfo>, mounts: Option<seq<string>>, stats: Option<seq<string>>,
                      nowMs: nat, lang: I18n.Language) returns (r: Option<DiskData>)
      requires stats.Some? ==>
        RatesDefined(snapshot, LastWins(stats.value, StatEntry),
                     ZeroBaselines(snapshot, I18n.Get(lang, "unknown")), ZeroBaselines(snapshot, I18n.Get(lang, "unknown")),
                     I18n.Get(lang, "unknown"))
      ensures r.Some? <==> stats.Some?
      ensures r.Some? ==>
        (fresh(r.value) && r.value.lang == lang &&
         Created(snapshot, mounts, stats.value, nowMs, I18n.Get(lang, "unknown"), r.value.State()))
    {
      var unknown := I18n.Get(lang, "unknown");
      var disks: seq<DiskEntry> := [];
      var lastRead: map<string, u64> := map[];
      var lastWrite: map<string, u64> := map[];
      var base := ReadDeviceMountMapping(mounts);
      var deviceToMount := base;
      for i := 0 to |snapshot|
        invariant deviceToMount == InsertSnapshotMounts(base, snapshot[..i], unknown)
        invariant lastRead == ZeroBaselines(snapshot[..i], unknown) && lastWrite == lastRead
      {
        assert snapshot[..i + 1][..i] == snapshot[..i];
        var disk := snapshot[i];
        if disk.kind == HDD || disk.kind == SSD {
          var mountPoint := MountLabel(disk, unknown);
          var deviceName := disk.name;
          if deviceName !in deviceToMount {
            deviceToMount := deviceToMount[deviceName := mountPoint];
          }
          lastRead := lastRead[mountPoint := 0];
          lastWrite := lastWrite[mountPoint := 0];
        }
      }
      assert snapshot[..|snapshot|] == snapshot;
      var entries := UpdateDisks(snapshot, stats, lastRead, lastWrite, 0, unknown);
      if entries.Err? {
        return None;
      }
      disks := entries.value;
      var d := new DiskData.FromState(DiskState(disks, lastRead, lastWrite, nowMs, deviceToMount), lang);
      return Some(d);
    }

    /** `DiskData::update` */
    method Update(inp: DiskInput) returns (r: Outcome)
      requires UpdateDefined(State(), inp, Unknown())
      modifies this
      ensures Stepped(old(State()), inp, Unknown(), State(), r)
    {
      var unknown := Unknown();
      disks := [];
      var elapsedMs := ElapsedMs(lastUpdateMs, inp.nowMs);
      deviceToMount := BuildMountMap(inp.mounts, inp.snapshot, unknown);
      var entries := UpdateDisks(inp.snapshot, inp.rateStats, lastReadSectors, lastWriteSectors, elapsedMs, unknown);
      if entries.Err? {
        return Fail(entries.error);
      }
      disks := entries.value;
      var diskStats := ReadDiskStats(inp.baselineStats);
      if diskStats.Ok? {
        lastReadSectors, lastWriteSectors := StoreBaselines(diskStats.value, deviceToMount, lastReadSectors, lastWriteSectors);
      }
      lastUpdateMs := inp.nowMs;
      return Pass;
    }
  }
}
