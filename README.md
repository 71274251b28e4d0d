# tui-dash core in Dafny

tui-dash is a terminal dashboard for Linux. It shows six tabs: processor,
memory, disks, network, containers and logs. This project models the parts
of it that have logic of their own:

- the disk sampler: `/proc/mounts` and `/proc/diskstats` parsing, sector
  rates and per-device baselines;
- the network sampler: byte rates against the previous counter readings;
- the container bridge: summary-to-record conversion and its
  listed / failed / timed-out state machine;
- the log collector: journal queries per category, the file-based fallback
  with tagging, sorting, de-duplication, the 500-line cap and 4096-byte line
  truncation, the category views and the two-second throttle;
- the application object: construction, the update cycle and tab cycling;
- the key and mouse handlers of the main loop: tab-bar and category-bar hit
  tests, scrollbar click and drag, the wheel, and the offset the log view
  writes back when drawn;
- the scroll arithmetic of the log widget;
- locale detection and the translation tables.

Every operation that changes state in the program is a method that
modifies an object. The samplers' and the application's operations are
methods of their classes (`Disk.DiskData`, `Network.NetworkData`,
`Container.DockerData`, `Logs.LogsData`, `AppState.App`). The main loop's
key, mouse and redraw handlers are module-level methods that modify the
`AppState.App` they are given (`Input.HandleKey`, `Input.HandleMouseEvent`,
`Input.SyncScroll`). In the program the mouse handlers and `ui` are free
functions taking `&mut App`, and the key arms sit inline in the main loop. Each
such method is specified by a pure function or predicate of the old state
and the inputs (`Disk.Stepped`, `Network.Step`, `Container.Step`,
`Logs.Step`, `Input.KeyStep`, `Input.MouseStep`). The lemmas state what the
program promises about those functions. Loops over sequences are `for`
loops proved against prefix-recursive specification functions. The
iteration over a `HashMap` that stores the disk baselines is a `while` loop
that picks any key not yet visited (`Disk.StoreBaselines`), so the proof
holds for every iteration order.

The outside world is passed in as parameters:

- the host library's disk and interface lists;
- the text of `/proc/mounts` and `/proc/diskstats`, with `None` for an
  unreadable file;
- the output of each `journalctl`, `dmesg` and `tail` command (failed, not
  UTF-8, or its lines);
- the outcome of each container poll (listed, failed or timed out);
- the container log streams as chunks;
- the clock, as integer milliseconds;
- the layout engine's rectangles;
- the wrapping library's pieces.

Modules:

| module | file | source |
|---|---|---|
| `Wrappers`, `Num`, `Text`, `Sorting` | wrappers, num, text, sorting | the Rust standard-library behaviour the core relies on |
| `I18n` | i18n.dfy | src/i18n.rs |
| `Tabs` | tabs.dfy | the enums of src/app.rs |
| `Disk` | disk.dfy | src/data/disk.rs |
| `Network` | network.dfy | src/data/network.rs |
| `Container` | docker.dfy | src/data/docker.rs |
| `Logs` | logs.dfy | src/data/logs.rs |
| `LogsWidget` | logs_widget.dfy | src/widgets/logs_widget.rs |
| `AppState` | app.dfy | the `App` struct of src/app.rs |
| `Input` | input.dfy | the key arms, mouse handlers and offset write-back of src/main.rs |

The enums sit in a module of their own (`Tabs`) because the log collector
needs `LogCategory` and the application imports the log collector.

### Where the code departs from what its comments and names suggest

- **First disk rates.** They are not zero. `DiskData::new` stores zero
  baselines and calls `update_disks` with an elapsed time of 0 s, which is
  floored to 1 ms. So each first rate is the whole sector counter × 512 ×
  1000 (`Disk.FirstCycleRate`).
- **Mount map.** `device_to_mount` is rebuilt from scratch on every
  `update`. It does not remember earlier cycles (`Disk.Stepped`,
  `Disk.CycleMountMap`).
- **Baseline keys.** Baselines are stored under the device's mount point
  when the mount map knows the device, and under the device name otherwise.
  They are read back under the host library's mount point.
- **Fallback logs.** When the journal fails, the fallback's lines (or the
  failure message) are stored under `All`. `get_logs_by_category(All)`
  concatenates the five real categories and never reads that entry, so the
  fallback's lines are never shown (`Logs.FallbackInvisible`).
- **`LogsData::new` fetches nothing.** Its `update` call falls inside the
  two-second throttle.
- **Network baselines after `new`.** They are empty. The first `update` then
  measures each interface's whole counter (`Network.FirstUpdateRates`).
- **Scrollbar click.** `handle_scrollbar_click` ignores both the column and
  the current offset (`LogsWidget.ClickIsDrag`). `handle_content_click` never
  returns an offset (`LogsWidget.ContentClick`).
- **Tab slots.** The tab-bar hit test uses slots of `(width − 2) / 6`
  columns. The drawing lays out six titles of `(width − 7) / 6` columns with
  a one-column divider between them. On a 79-column terminal, column 25 is
  drawn inside the second tab but selects the third, and column 73 is drawn
  inside the sixth tab but selects nothing (`Input.ClickAndDrawDisagree`).
- **Placeholder in the error text.** A failed container listing shows the
  translated text followed by a space and the error. The translated text
  still contains its literal `{}` placeholder. The model keeps the text as
  written.
- **Network updates never fail.**
- **Docker updates never fail.** Docker failures are recorded in the
  bridge's `error` field.

## Model

| member | source | states |
|---|---|---|
| Num.SatSub | src/data/disk.rs:140 | saturating subtraction: the difference when it is non-negative, zero otherwise, never more than the minuend |
| Num.SatCastU64 | src/data/disk.rs:157 | the float-to-`u64` cast keeps values in range and saturates at 2^64 − 1 above it |
| Num.TruncU16 | src/widgets/logs_widget.rs:42 | `as u16` keeps values below 65536 and otherwise takes the value modulo 65536 |
| Num.ElapsedMs | src/data/disk.rs:59 | the elapsed time is the difference of the two instants, or zero when the clock reads earlier |
| Num.RateDivisorMs | src/data/disk.rs:147 | the rate divisor is the elapsed time, raised to at least 1 ms |
| Num.PerSecond | src/data/network.rs:76-78 | models `(amount as f64 / max(secs, 0.001)) as u64` in whole milliseconds, saturating at 2^64 − 1; its meaning is `Num.PerSecondIsFloor` |
| Num.PerSecondIsFloor | src/data/disk.rs:154-157 | below saturation, the per-second rate r satisfies r·elapsed ≤ amount·1000 < (r+1)·elapsed |
| Num.PerSecondFloorsElapsed | src/data/network.rs:75-77 | an elapsed time of 0 ms rates like 1 ms |
| Text.Fields | src/data/disk.rs:105 | `split_whitespace` gives only non-empty runs without whitespace |
| Text.FieldsSkipsBlank | src/data/disk.rs:105 | leading blanks give no field |
| Text.FieldsWordThenBlank | src/data/disk.rs:105 | a run without whitespace followed by at least one blank is the first field, and splitting goes on after the blanks |
| Text.FieldsOfSpread | src/data/disk.rs:105 | the fields of a line of blank padding and words separated by arbitrary non-empty blank runs are exactly those words, in order |
| Text.FieldsOfJoin | src/data/disk.rs:105 | splitting undoes joining with spaces, for words without whitespace |
| Text.TrimStartMatches | src/data/docker.rs:74 | `trim_start_matches('/')` gives a suffix, removes only slashes, and removes all the leading ones |
| Text.Decimal | src/data/docker.rs:90 | `format!("{}")` of a number gives non-empty decimal digits without a leading zero, spelling that number |
| Text.ParseU64 | src/data/disk.rs:189-191 | models `parse::<u64>`: an optional `+` and one or more decimal digits whose value fits in 64 bits, anything else an error; its meaning is `Text.DecimalParses` |
| Text.DecimalParses | src/data/disk.rs:189 | `parse::<u64>` inverts decimal formatting for every 64-bit value |
| Text.ToLowerAscii | src/i18n.rs:21 | lower-casing keeps the length and maps each character through the ASCII lower-case map |
| Text.Join | src/data/docker.rs:96 | joining no parts gives the empty string; joining one part gives that part |
| Text.JoinConcat | src/data/docker.rs:96 | joining two non-empty lists of parts is joining each and putting one separator between them |
| Text.BytePrefix | src/data/logs.rs:80 | `&s[..n]` gives the prefix of exactly n UTF-8 bytes, or nothing when no prefix has that length |
| Text.Utf8Len | src/data/logs.rs:79 | a string's byte length is at least its character count |
| Sorting.Sort | src/data/logs.rs:310 | `sort` gives an ascending permutation of its input |
| Sorting.Dedup | src/data/logs.rs:311 | `dedup` gives no two equal neighbours, the same set of elements, the first element kept, and at most the input's length |
| Sorting.DedupSorted | src/data/logs.rs:310-311 | `dedup` after `sort` gives a strictly ascending list |
| Sorting.Truncate | src/data/logs.rs:312-314 | `truncate(n)` gives a prefix of at most n elements: the whole list when it is short enough, exactly n elements otherwise |
| Sorting.LexLeTotal | src/data/logs.rs:310 | the string order compares any two strings |
| Sorting.LexLeAntisymmetric | src/data/logs.rs:310 | two strings each at most the other are equal |
| Sorting.LexLeTransitive | src/data/logs.rs:310 | the string order is transitive |
| I18n.ResolveLocale | src/i18n.rs:13-16 | the locale is `LANG`, else `LC_ALL`, else `LC_MESSAGES`, else empty |
| I18n.Detect | src/i18n.rs:21-39 | a Chinese marker selects Chinese; English is selected exactly when there is no Chinese marker and an English marker or an `en` prefix is found; anything else is Chinese |
| I18n.Get | src/i18n.rs:54-59 | a key is translated by the language's table, and a key missing from it comes back unchanged |
| I18n.GetUnknownKey | src/i18n.rs:157 | a key in neither table is returned unchanged in both languages |
| I18n.CoreEntries | src/i18n.rs:153-154 | the values of `unknown`, `tcp` and `docker_not_available` in both tables |
| I18n.DetectsSimplifiedChinese | src/i18n.rs:22-29 | `zh_CN.UTF-8` selects Chinese |
| I18n.DetectsEnglish | src/i18n.rs:30-35 | `en_US.UTF-8` selects English |
| I18n.DetectsDefault | src/i18n.rs:36-39 | an unset locale and `C.UTF-8` select Chinese |
| I18n.ChineseWinsOverEnglish | src/i18n.rs:22-35 | a locale carrying both markers selects Chinese |
| Tabs.ActiveTab.Index | src/app.rs:11-18 | a tab's position in the bar is below six |
| Tabs.ActiveTab.Next | src/app.rs:55-64 | `next` moves one position right, wrapping around, and `previous` undoes it |
| Tabs.ActiveTab.Previous | src/app.rs:66-75 | `previous` moves one position left, wrapping around |
| Tabs.LogCategory.Index | src/app.rs:21-28 | a category's position in the bar is below six |
| Tabs.LogCategory.Next | src/app.rs:31-40 | `next` moves one category right, wrapping around, and `previous` undoes it |
| Tabs.LogCategory.Previous | src/app.rs:42-51 | `previous` moves one category left, wrapping around |
| Tabs.TabAt | src/main.rs:385-393 | the tab selected by slot i is the tab at position i |
| Tabs.CategoryAt | src/main.rs:433-459 | the category selected by slot i is the category at position i |
| Tabs.TabIndexInjective | src/app.rs:11-18 | two tabs at the same position are the same tab |
| Tabs.CategoryIndexInjective | src/app.rs:21-28 | two categories at the same position are the same category |
| Tabs.TabNextPreviousInverse | src/app.rs:55-75 | `next` and `previous` on tabs are mutually inverse |
| Tabs.CategoryNextPreviousInverse | src/app.rs:31-51 | `next` and `previous` on categories are mutually inverse |
| Tabs.TabIterateIndex | src/app.rs:55-64 | n steps of `next` advance a tab by n positions modulo six |
| Tabs.CategoryIterateIndex | src/app.rs:31-40 | n steps of `next` advance a category by n positions modulo six |
| Tabs.SixStepsReturn | src/app.rs:31-75 | both cycles return to their start after six steps |
| Disk.Physical | src/data/disk.rs:133-134 | the sampled disks are exactly the snapshot's HDD and SSD disks |
| Disk.LastWinsKeys | src/data/disk.rs:104-115 | a key is in a line-built map exactly when some line yields an entry with that key |
| Disk.LastWinsValue | src/data/disk.rs:104-115 | a key's value is the one from the last line that names it |
| Disk.ReadDeviceMountMapping | src/data/disk.rs:100-120 | an unreadable mount file gives the empty map; otherwise the map built line by line, later lines winning |
| Disk.MountEntry | src/data/disk.rs:105-113 | models one `/proc/mounts` line: at least two fields, the first under `/dev/`, giving the device name without the prefix and the mount point; its meaning is `Disk.MountLineParses` and `Disk.NonDeviceLineIgnored` |
| Disk.MountLineParses | src/data/disk.rs:105-113 | a line of blank padding and at least two fields separated by any blank runs, the first field under `/dev/`, maps the device name without the prefix to the second field |
| Disk.NonDeviceLineIgnored | src/data/disk.rs:105-113 | a padded line with fewer than two fields, or whose first field is not under `/dev/`, adds nothing |
| Disk.ReadDiskStats | src/data/disk.rs:180-198 | an unreadable statistics file is an error, and a readable one gives the line-built statistics map |
| Disk.StatEntry | src/data/disk.rs:184-194 | models one `/proc/diskstats` line: at least 14 fields, the device name in the third, the sectors in the sixth and tenth, an unparsable count reading as zero; its meaning is the three lemmas below |
| Disk.StatLineParses | src/data/disk.rs:184-194 | a line of blank padding and at least 14 fields separated by any blank runs, as the kernel pads them, maps its third field to the sector counts spelled in fields 6 and 10 |
| Disk.StatFieldDefaultsToZero | src/data/disk.rs:189-191 | a padded line of at least 14 fields always gives an entry for its third field; the sixth and tenth fields are read independently, each as its value when it parses and as zero when it does not |
| Disk.ShortStatLineIgnored | src/data/disk.rs:186 | a padded line of fewer than 14 fields adds nothing |
| Disk.SectorRate | src/data/disk.rs:149-171 | models one sector rate: the growth × 512 per second over the elapsed time floored at 1 ms, zero when the counter went back; its meaning is `Disk.SectorRateMeaning` |
| Disk.SectorRateMeaning | src/data/disk.rs:149-171 | the rate is zero when the counter went back; otherwise it is the floor of sectors × 512 per second, with the elapsed time floored at 1 ms |
| Disk.SectorRateExample | src/data/disk.rs:154-157 | 2000 sectors in one second give 1,024,000 bytes per second |
| Disk.DiskEntries | src/data/disk.rs:122-178 | one entry per physical disk |
| Disk.EntryOf | src/data/disk.rs:135-173 | models the entry of one physical disk: mount label, used and total space, and rates looked up by device name against baselines under the mount label; its meaning is `Disk.DiskEntriesMeaning` |
| Disk.DiskEntriesMeaning | src/data/disk.rs:135-173 | each entry has its disk's mount label, its total, used space as a saturating difference, and the disk's sector rates against the baselines stored under its mount label (zero without statistics) |
| Disk.MeasureDisk | src/data/disk.rs:135-173 | the loop body builds exactly the specified entry for one disk |
| Disk.CollectEntries | src/data/disk.rs:133-175 | the loop over the snapshot returns exactly the specified entries, in snapshot order |
| Disk.UpdateDisks | src/data/disk.rs:122-178 | fails exactly when the statistics cannot be read; otherwise returns the specified entries in snapshot order |
| Disk.InsertSnapshotMounts | src/data/disk.rs:65-75 | models the `or_insert_with` loop over the physical disks; its meaning is `Disk.InsertSnapshotMountsMeaning` |
| Disk.InsertSnapshotMountsMeaning | src/data/disk.rs:65-75 | entries from the mount text are never overwritten; each added device maps to the mount point of the first physical disk of that name |
| Disk.BuildMountMap | src/data/disk.rs:62-75 | the rebuilt mount map is the mount text's map plus the host library's devices |
| Disk.BaselineKey | src/data/disk.rs:83-91 | models the baseline key: the mount point the map gives the device, else the device name; used by `Disk.StoreBaselines` and `Disk.BaselinesOfDistinctKeys` |
| Disk.StoreBaselines | src/data/disk.rs:80-93 | for any iteration order, every device's counters are stored under its key, no key is removed, and other keys keep their values |
| Disk.BaselinesOfDistinctKeys | src/data/disk.rs:80-93 | when no two devices share a key, each device's baselines are exactly its counters |
| Disk.BaselinesGrow | src/data/disk.rs:80-93 | baselines are never removed |
| Disk.ZeroBaselines | src/data/disk.rs:27-38 | every baseline that `new` stores is zero |
| Disk.ZeroBaselinesKeys | src/data/disk.rs:27-38 | `new` stores baselines exactly under the mount labels of the physical disks |
| Disk.FirstCycleRate | src/data/disk.rs:17-52 | the first read rate of a disk is its whole counter × 512 × 1000, saturated |
| Disk.Stepped | src/data/disk.rs:54-97 | models one `update`: entries cleared, mount map rebuilt, failure without statistics, otherwise rates against the old baselines, new baselines and clock; `Disk.DiskData.Update` is proved against it |
| Disk.DiskData.New | src/data/disk.rs:17-52 | fails exactly when the statistics cannot be read; otherwise the mount map, zero baselines, clock and first entries are as specified |
| Disk.DiskData.Update | src/data/disk.rs:54-97 | the mount map is rebuilt; without statistics the call fails with no entries and the baselines and clock unchanged; otherwise it reports rates against the previous baselines, stores new ones and moves the clock |
| Network.Entries | src/data/network.rs:59-82 | one entry per interface |
| Network.EntryOf | src/data/network.rs:66-80 | models one interface's entry: name, totals and the saturating growth of each counter per second; its meaning is `Network.EntriesMeaning` and the two floor lemmas |
| Network.EntriesMeaning | src/data/network.rs:59-82 | each entry has its interface's name and totals, and a zero rate for a counter that did not grow past its baseline (zero when missing) |
| Network.ReceiveRateIsFloor | src/data/network.rs:76 | below saturation the receive rate is the floor of bytes gained per second |
| Network.TransmitRateIsFloor | src/data/network.rs:78 | below saturation the transmit rate is the floor of bytes sent per second |
| Network.UpdateNetworks | src/data/network.rs:59-82 | the loop returns the specified entries in snapshot order |
| Network.TotalsMeaning | src/data/network.rs:47-53 | after the baseline loop each listed interface's baselines are its current totals, and unlisted interfaces keep theirs |
| Network.ConsecutiveRates | src/data/network.rs:31-57 | across two updates, an interface present in both reports its growth between them |
| Network.FirstUpdateRates | src/data/network.rs:16-29 | the first update after `new` measures each interface's whole counter |
| Network.CounterResetRate | src/data/network.rs:76 | a receive counter that went backwards reports zero |
| Network.Step | src/data/network.rs:31-57 | models one `update`: entries against the old baselines, then the baselines set to the current totals and the clock moved; `Network.NetworkData.Update` is proved against it |
| Network.NetworkData.constructor | src/data/network.rs:16-29 | `new` computes entries against empty baselines over zero elapsed time and leaves the baselines empty |
| Network.NetworkData.Update | src/data/network.rs:31-57 | `update` computes entries against the old baselines, then stores the current totals and the time |
| Container.PortsText | src/data/docker.rs:81-98 | models the port column: the published ports' texts joined by `, `, empty without a list; its meaning is `Container.PortTextsConcat`, `Container.PortTextsSingle` and `Container.PortTextParses` |
| Container.ToRecord | src/data/docker.rs:71-106 | models the conversion of one summary; its meaning is `Container.RecordName` and `Container.RecordFields` |
| Container.ToRecords | src/data/docker.rs:68-110 | one record per summary |
| Container.RecordName | src/data/docker.rs:72-75 | the name is the first reported name with all its leading slashes removed, or the translated "unknown" |
| Container.RecordFields | src/data/docker.rs:77-104 | the status passes through or is "unknown"; the usages are zero; without a port list the port column is empty |
| Container.PortTextsConcat | src/data/docker.rs:81-96 | port texts distribute over concatenation of port lists |
| Container.PortTextsSingle | src/data/docker.rs:85-90 | a single port gives its text when published and nothing otherwise |
| Container.NoPublishedPorts | src/data/docker.rs:81-98 | a list without published ports gives an empty port column |
| Container.PortTextParses | src/data/docker.rs:85-90 | a port text starts with the public port's digits, which parse back to the port, followed by `/` and the type |
| Container.DefaultPortType | src/data/docker.rs:88-90 | port 8080 without a type shows as `8080/tcp` in both languages |
| Container.Step | src/data/docker.rs:58-128 | models one `update`: no client, a listing, a failed listing or a timeout; `Container.DockerData.Update` is proved against it |
| Container.ListingReplaces | src/data/docker.rs:68-110 | a listing replaces the containers with the records in order and clears the error |
| Container.TimeoutKeepsData | src/data/docker.rs:115-120 | a timeout keeps the containers; it records the timeout message only when there are none |
| Container.TimeoutAfterListing | src/data/docker.rs:68-120 | two listed containers survive a following timeout with no error |
| Container.TimeoutsFromEmpty | src/data/docker.rs:115-120 | repeated timeouts from the empty state show the timeout message |
| Container.FailureClears | src/data/docker.rs:111-125 | a failed listing or a missing client empties the list and sets an error, "Docker not available" without a client |
| Container.DockerData.constructor | src/data/docker.rs:41-54 | a new bridge has no containers, no error, and the given client status |
| Container.DockerData.New | src/data/docker.rs:36-55 | fails exactly when the async runtime cannot be created; a failed connection leaves the bridge without a client |
| Container.DockerData.Update | src/data/docker.rs:58-128 | the new state is the three-way outcome step of the old one, and the call never fails |
| Logs.TruncateLineAsWritten | src/data/logs.rs:78-84 | models `truncate_line` as written, its panic as the precondition; see Findings |
| Logs.TruncateLine | src/data/logs.rs:78-84 | models `truncate_line` cutting at the last character boundary within 4096 bytes; its meaning is `Logs.TruncateLineMeaning` |
| Logs.TruncateLinePanics | src/data/logs.rs:78-84 | a line of 4095 letters and one two-byte letter is over the limit and cannot be cut at byte 4096 |
| Logs.FitPrefix | src/data/logs.rs:80 | the longest prefix that fits in n bytes |
| Logs.FitPrefixAgrees | src/data/logs.rs:80 | where byte n is a boundary, the fitting prefix is the byte slice |
| Logs.TruncateLineMeaning | src/data/logs.rs:78-84 | a line within 4096 bytes is kept; a longer one becomes its longest prefix within 4096 bytes (one more character would pass 4096, and the prefix is longer than 4092 bytes) followed by the truncation marker |
| Logs.TruncateLineFixesPanic | src/data/logs.rs:78-84 | wherever the code as written does not panic, the corrected truncation agrees with it |
| Logs.TruncateKeepsTag | src/data/logs.rs:268-296 | a tag shorter than the limit stays at the head of a truncated line |
| Logs.Tagged | src/data/logs.rs:268-275 | tagging keeps the number of lines |
| Logs.Postprocess | src/data/logs.rs:310-314 | models `sort`, `dedup`, `truncate(500)`; its meaning is `Logs.PostprocessMeaning` |
| Logs.PostprocessMeaning | src/data/logs.rs:310-314 | the fallback result is strictly ascending, at most 500 lines, and holds only collected lines; a collected line is missing only when 500 smaller lines were kept |
| Logs.SortMembers | src/data/logs.rs:310 | sorting keeps exactly the same lines |
| Logs.TruncateDrops | src/data/logs.rs:312-314 | a line the cap drops comes after the 500 lines kept |
| Logs.GatherFilesErr | src/data/logs.rs:278-296 | the file loop fails exactly when a file's output is not UTF-8 |
| Logs.GatherFilesSticky | src/data/logs.rs:278-296 | once the file loop has failed, later files change nothing |
| Logs.SyslogErrors | src/data/logs.rs:264-318 | the fallback fails exactly when `dmesg`, a log file, or the journal query it makes in the few-lines case gives output that is not UTF-8 |
| Logs.JournalIgnoredWhenEnough | src/data/logs.rs:299-308 | with at least 100 lines collected, the journal's answer does not matter |
| Logs.TagsFit | src/data/logs.rs:268-308 | every origin tag fits within the line limit |
| Logs.AppendOutputTagged | src/data/logs.rs:268-308 | appending one command's output keeps every line tagged with its origin |
| Logs.GatherFilesTagged | src/data/logs.rs:278-296 | every line from the log files keeps its file's tag |
| Logs.SyslogLinesTagged | src/data/logs.rs:264-318 | every line of the fallback result starts with the tag of its origin |
| Logs.SyslogLogs | src/data/logs.rs:264-318 | models the fallback collection; its meaning is `Logs.SyslogErrors`, `Logs.SyslogLinesTagged` and `Logs.PostprocessMeaning` |
| Logs.GetSyslogLogs | src/data/logs.rs:264-318 | the fallback method returns the result of the fallback specification |
| Logs.ChunkLines | src/data/logs.rs:189-212 | models the lines one container's stream gives; its meaning is the four lemmas below |
| Logs.ChunkLinesMeaning | src/data/logs.rs:189-212 | each container log line is a non-blank stdout, stderr or console message after the container's name and stream tag |
| Logs.ChunkLinesCount | src/data/logs.rs:189-212 | when no chunk is standard input or blank, line j is the line of chunk j, and there are as many lines as chunks |
| Logs.ChunkLinesConcat | src/data/logs.rs:189-212 | the lines of a stream are the lines of its parts, in stream order |
| Logs.ChunkLinesSingle | src/data/logs.rs:191-211 | one chunk gives the container's name, its stream tag and the message, or nothing when it is standard input or blank |
| Logs.DockerLogs | src/data/logs.rs:144-230 | models the container-log collection; its meaning is `Logs.DockerLogsBound` and the chunk lemmas |
| Logs.DockerLogsBound | src/data/logs.rs:225-227 | the container logs are the first 500 lines of the concatenated streams, or all of them when there are fewer |
| Logs.CollectChunkLines | src/data/logs.rs:190-212 | the loop over one container's chunks produces exactly that container's specified lines, in stream order |
| Logs.GetDockerContainerLogs | src/data/logs.rs:144-230 | the container-log method returns the result of the container-log specification |
| Logs.JournalLogsMeaning | src/data/logs.rs:87-140 | the journal map holds exactly the categories whose query succeeded (containers unless the runtime failed), never `All`, with each query's lines |
| Logs.JournalLogs | src/data/logs.rs:87-140 | models the four journal queries and the container logs; its meaning is `Logs.JournalLogsMeaning` |
| Logs.GetJournalctlLogsByCategory | src/data/logs.rs:87-140 | the journal method returns the result of the journal specification, failing on output that is not UTF-8 |
| Logs.ViewOf | src/data/logs.rs:48-70 | models `get_logs_by_category`; its meaning is `Logs.AllViewIsConcatenation` and `Logs.AllEntryInvisible` |
| Logs.ConcatenatedIgnores | src/data/logs.rs:50-64 | the concatenation does not read categories outside its list |
| Logs.AllEntryInvisible | src/data/logs.rs:48-70 | storing under `All` changes no view |
| Logs.ConcatenatedFive | src/data/logs.rs:50-64 | the concatenation of five categories is their lines in order |
| Logs.AllViewIsConcatenation | src/data/logs.rs:50-64 | the `All` view is the five real views concatenated in order |
| Logs.Refresh | src/data/logs.rs:233-261 | models `get_all_logs`; its meaning is `Logs.FallbackInvisible` and `Logs.JournalShown` |
| Logs.Step | src/data/logs.rs:35-45 | models the two-second throttle around `get_all_logs`; its meaning is `Logs.Throttled` |
| Logs.FallbackInvisible | src/data/logs.rs:233-261 | when the journal fails, every view and the displayed lines are those of the previous cache |
| Logs.JournalShown | src/data/logs.rs:237-252 | when the journal answers, the cache becomes exactly the journal's map, the displayed lines are the system journal's lines (none when that query failed), and the cache is valid |
| Logs.Throttled | src/data/logs.rs:35-45 | a refresh happens only two seconds or more after the previous one, and it moves the clock |
| Logs.LogsData.constructor | src/data/logs.rs:21-33 | a new collector has no lines, an empty cache that is not valid, and the clock at the start |
| Logs.LogsData.GetLogsByCategory | src/data/logs.rs:48-70 | the method returns the category's view: the cached lines, none when missing, or the five real categories for `All` |
| Logs.LogsData.GetAllLogs | src/data/logs.rs:233-261 | the new state is the refresh of the old state |
| Logs.LogsData.Update | src/data/logs.rs:35-45 | the new state is the throttled refresh of the old state |
| LogsWidget.ScrollPosition | src/widgets/logs_widget.rs:133-137 | the clamped offset is at most the requested offset and the maximum offset, and equals one of them |
| LogsWidget.ScrollPositionMeaning | src/widgets/logs_widget.rs:133-137 | the clamp is `min`, and clamping twice changes nothing |
| LogsWidget.ScrollPositionFillsView | src/widgets/logs_widget.rs:133-137 | from the clamped position the remaining lines fill the list, and a log that fits scrolls to 0 |
| LogsWidget.ScrollbarDrag | src/widgets/logs_widget.rs:22-43 | there is no offset exactly when there are no lines or no content height |
| LogsWidget.DragWithinRange | src/widgets/logs_widget.rs:35-42 | on the bar, the offset is the floor of the pointer's share of the maximum offset, and never passes it |
| LogsWidget.DragAtTop | src/widgets/logs_widget.rs:35-42 | the top of the bar scrolls to the first line |
| LogsWidget.DragAtBottom | src/widgets/logs_widget.rs:35-42 | the bottom of the bar scrolls to the maximum offset |
| LogsWidget.DragMonotone | src/widgets/logs_widget.rs:35-42 | dragging further down never scrolls up |
| LogsWidget.ScrollbarClick | src/widgets/logs_widget.rs:16-18 | a click has no offset exactly when a drag has none |
| LogsWidget.ClickIsDrag | src/widgets/logs_widget.rs:16-18 | a click equals a drag to the same row, whatever its column and the current offset |
| LogsWidget.ContentClick | src/widgets/logs_widget.rs:47-73 | a content click never yields an offset |
| LogsWidget.WrapLogLine | src/widgets/logs_widget.rs:81-93 | models `wrap_log_line` over the wrapping library's pieces; its meaning is the two lemmas below |
| LogsWidget.NarrowWrapKeepsLine | src/widgets/logs_widget.rs:82-84 | on a terminal at most 8 columns wide a log line is one indented row |
| LogsWidget.WideWrapIndents | src/widgets/logs_widget.rs:85-93 | wider, each wrapped piece becomes one indented row, in order |
| AppState.App.New | src/app.rs:94-111 | fails exactly when the disk statistics are unreadable or the async runtime is missing; otherwise each source starts as its own `new` specifies, on the processor tab and system category, at offset 0, not dragging |
| AppState.App.NextTab | src/app.rs:137-139 | only the tab changes, to the next one |
| AppState.App.PreviousTab | src/app.rs:141-143 | only the tab changes, to the previous one |
| AppState.App.UpdateData | src/app.rs:113-135 | the disk step always runs; a disk failure stops the cycle with the other sources unchanged; otherwise network and containers step, and logs step only on the log tab |
| Input.KeyStep | src/main.rs:74-140 | models one key press on the interface state; its meaning is the key lemmas below, and `Input.HandleKey` is proved against it |
| Input.DigitTab | src/main.rs:80-85 | the digits 1 to 6, and only they, select the tab at that position |
| Input.HandleKey | src/main.rs:74-140 | the loop quits exactly on Esc, `q` or `Q`, and the interface state becomes the specified key step |
| Input.KeysOffLogsKeepScroll | src/main.rs:87-138 | off the log tab no key changes the offset or the category, and no key changes the drag flag |
| Input.ScrollUpKeysSaturate | src/main.rs:87-121 | on the log tab, Up and PageUp subtract with saturation, Home goes to 0 and End to 9999 |
| Input.ScrollDownUndone | src/main.rs:87-109 | Down then Up, and PageDown then PageUp, return to the same state |
| Input.ArrowKeys | src/main.rs:123-138 | Right and Left cycle the category and reset the offset on the log tab, and cycle the tabs elsewhere |
| Input.RightLeftRoundTrip | src/main.rs:123-138 | Right then Left is the identity off the log tab except from the container tab, which lands on the log tab; on the log tab only the offset resets |
| Input.DirectTabKeys | src/main.rs:76-85 | the digits select the tabs by position, Tab cycles, and the quit keys leave the state unchanged |
| Input.TabClick | src/main.rs:356-398 | models `handle_tab_click`: a click counts only on row 1, and then selects the slot of its column |
| Input.LogTabClick | src/main.rs:401-464 | models `handle_log_tab_click`: a click counts only on the middle row of the category bar, and then selects the slot of its column |
| Input.SlotAt | src/main.rs:356-398 | a hit slot is below six |
| Input.SlotMeaning | src/main.rs:366-383 | a column hits slot i exactly when it lies inside the borders and within slot i |
| Input.SlotSpan | src/main.rs:370-383 | every column of slot i hits slot i |
| Input.ClickAndDrawDisagree | src/main.rs:194-246 | on a 79-column terminal, the drawn tab and the tab the click selects differ at columns 25 and 73 |
| Input.MouseStep | src/main.rs:264-353 | models one mouse event on the interface state; its meaning is the mouse lemmas below, and `Input.HandleMouseEvent` is proved against it |
| Input.HandleMouseEvent | src/main.rs:264-353 | the interface state becomes the specified mouse step for the lines the current category shows |
| Input.ReleaseEndsDrag | src/main.rs:335-338 | a release ends a drag and changes nothing else |
| Input.DragNeedsPress | src/main.rs:314-334 | a drag event changes nothing unless a scrollbar drag is in progress on the log tab |
| Input.TabBarFirst | src/main.rs:266-313 | a press on a tab selects it, on any tab, before anything else is checked |
| Input.CategoryBarResets | src/main.rs:401-464 | on the log tab, a press on the category bar selects the category and resets the offset |
| Input.PressStartsDrag | src/main.rs:266-313 | on the log tab, a press outside both bars with lines and room starts a drag at the drag offset |
| Input.WheelIsArrows | src/main.rs:339-350 | the wheel scrolls like Up and Down |
| Input.SyncScroll | src/main.rs:255-259 | drawing the log tab stores the clamped offset back, and other tabs leave it unchanged |
| Input.EndShowsLastPage | src/main.rs:116-121 | End followed by a redraw shows the last page whenever the maximum offset is within 9999 |

## Left out

- The processor and memory samplers, their widgets, and every other
  widget's drawing. They have no logic beyond calling the host library and
  formatting. `App::cleanup` and the terminal restore guard are left out too.
- The layout engine and text rendering. The areas the handlers and the clamp
  use are inputs. The wrapping library's pieces for widths above 8 are an
  input of `LogsWidget.WrapLogLine`.
- Input and output: file reads, subprocesses, the container runtime's
  client, `tokio` and the one-second poll timeout. Their outcomes are
  inputs. `eprintln!` diagnostics are left out.
- The text of `io::Error` and `FromUtf8Error` values. They are fixed
  strings here. Lossy UTF-8 decoding of container chunks is not modelled:
  chunks are already text.
- Concurrency: there is none in the modelled core. The runtime's tasks are
  a single outcome per poll.
- `HashMap` iteration order: `Disk.StoreBaselines` leaves the order open,
  so when two devices share a baseline key the stored value is one of
  theirs. The network and container loops follow the snapshot order.
- The main loop's one-second update throttle and the event polling. One
  clock value stands for all `Instant::now()` calls within a cycle.
- The `cfg(not(target_os = "linux"))` branches.
- What the host library's `received()` and `transmitted()` count. The model
  takes the two values as given numbers and stores them as the next cycle's
  baselines, as the program does.
- `I18n.Detect`: lower-cases ASCII letters only. The program uses full
  Unicode lower-casing, which also maps some non-ASCII characters to ASCII
  letters: U+212A KELVIN SIGN becomes `k`. So `en_US zh_h` followed by
  U+212A selects Chinese in the program, through the `zh_hk` marker, and
  English in the model. The two agree on every locale written in ASCII.
- Num.PerSecond: rates are the exact floor of `amount × 1000 / ms`, with
  the time in whole milliseconds. The program divides `f64` values. When
  the true rate is a whole number, the `f64` quotient can fall just below
  it, and the cast then gives one less, at any size: 17 bytes over 17 ms is
  1000 here and 999 in the program (`17.0 / 0.017` is
  `999.9999999999999`), and 7 bytes over 35 ms is 200 here and 199 there.
  Very large counts can also round differently. The disk rates go through
  the same function.
- LogsWidget.ScrollbarDrag: uses the exact floor of `row × maxOffset /
  height`. The program computes the ratio in `f64` first, which can round
  differently at slot edges.
- Disk.DiskData.Update: requires that `(current − last) × 512` fits in 64
  bits for every disk (`Disk.UpdateDefined`). The program panics in a debug
  build and wraps in a release build when it does not.
- Disk.DiskData.New: requires the same of the first cycle.
- Input.HandleKey: requires that Down and PageDown do not carry the offset
  past 65535 (`Input.KeyDefined`). The program panics in a debug build and
  wraps in a release build.
- Input.HandleMouseEvent: requires the same of the wheel. It also requires
  that a click inside a bar's borders finds slots at least one column wide
  (`Input.MouseDefined`). The program divides by zero otherwise.
- Logs.TruncateLineAsWritten: requires byte 4096 to be a character boundary
  when the line is longer. The program panics otherwise (see Findings). The
  rest of the model uses the corrected `Logs.TruncateLine`.
- Logs.LogsData.constructor, Logs.LogsData.Update and
  Logs.LogsData.GetAllLogs: require the fallback input to hold one output
  per log file the program reads. This is the shape of the input, not a
  restriction on the program.

## Findings

| source | as written | input that shows it | evidently intended | confidence | as-written member | corrected member |
|---|---|---|---|---|---|---|
| src/data/logs.rs:78-84 | a line of more than 4096 bytes is sliced at byte 4096, which panics when that byte falls inside a multi-byte character | 4095 ASCII letters followed by `é` (4097 bytes, byte 4096 inside `é`) | cut at the last character boundary at or before byte 4096, then append the marker | high, not executed | Logs.TruncateLinePanics | Logs.TruncateLineMeaning |
