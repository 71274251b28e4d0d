/** The log collector of src/data/logs.rs (its Linux build): journal queries
    per category, container logs, the syslog fallback, and the cache the
    Logs tab reads from.

    Every external command is an input: its outcome is `Failed` (it could not
    be started or exited unsuccessfully), `InvalidUtf8` (it succeeded but its
    output is not UTF-8) or `Output(lines)`. Container logs arrive already
    decoded. The clock is an input in milliseconds. */
module Logs {
  import opened Wrappers
  import opened Num
  import opened Text
  import opened Sorting
  import opened Tabs
  import I18n

  const MAX_LOG_LINES: nat := 500
  const MAX_LINE_LENGTH: nat := 4096
  const UPDATE_INTERVAL_MS: nat := 2000
  const TRUNCATION_MARKER: string := "...[截断]"
  const KERNEL_TAG: string := "[内核] "
  const SYSTEM_TAG: string := "[系统] "
  /** The fallback reads the last hundred lines of each of these files. */
  const LOG_FILES: seq<string> := ["/var/log/syslog", "/var/log/messages", "/var/log/kern.log",
                                   "/var/log/dmesg", "/var/log/auth.log", "/var/log/boot.log"]
  /** Below this many collected lines the fallback also asks the journal. */
  const FEW_LINES: nat := 100
  const INVALID_UTF8: string := "invalid utf-8 sequence"
  const RUNTIME_FAILED: string := "async runtime could not be created"

  datatype CommandOutput = Failed | InvalidUtf8 | Output(lines: seq<string>)

  function FileTag(path: string): string
  {
    "[" + path + "] "
  }

  // ---------------------------------------------------------------- truncation

  /** `truncate_line` as written: a line of more than 4096 bytes is cut with
      `&line[..4096]`, which panics when byte 4096 is not a character
      boundary. The panic is this function's precondition. */
  function TruncateLineAsWritten(line: string): string
    requires Utf8Len(line) > MAX_LINE_LENGTH ==> BytePrefix(line, MAX_LINE_LENGTH).Some?
  {
    if Utf8Len(line) > MAX_LINE_LENGTH then BytePrefix(line, MAX_LINE_LENGTH).value + TRUNCATION_MARKER
    else line
  }

  /** 4095 ASCII letters and one two-byte letter: 4097 bytes, with byte 4096
      inside the last character. */
  function StraddlingLine(): string
  {
    seq(4095, _ => 'a') + ['é']
  }

  /** The line above is long enough to be cut, and cannot be cut at byte 4096:
      `truncate_line` as written panics on it. */
  lemma TruncateLinePanics()
    ensures Utf8Len(StraddlingLine()) > MAX_LINE_LENGTH
    ensures BytePrefix(StraddlingLine(), MAX_LINE_LENGTH).None?
  {
    var a: string := seq(4095, _ => 'a');
    var line := StraddlingLine();
    AsciiUtf8Len(a);
    Utf8LenConcat(a, ['é']);
    assert Utf8Len(['é']) == 2;
    forall k | 0 <= k <= |line| ensures Utf8Len(line[..k]) != MAX_LINE_LENGTH {
      if k <= 4095 {
        assert line[..k] == a[..k];
        assert IsAscii(a[..k]);
        AsciiUtf8Len(a[..k]);
      } else {
        assert line[..k] == line;
      }
    }
  }

  /** The longest prefix of `s` whose encoding fits in `n` bytes: the cut at
      the last character boundary not after byte `n`. */
  function FitPrefix(s: string, n: nat): (r: string)
    ensures |r| <= |s| && r == s[..|r|]
    ensures Utf8Len(r) <= n
    ensures |r| < |s| ==> Utf8Len(r) + CharWidth(s[|r|]) > n
  {
    if |s| == 0 || CharWidth(s[0]) > n then []
    else
      var rest := FitPrefix(s[1..], n - CharWidth(s[0]));
      assert ([s[0]] + rest)[1..] == rest;
      assert [s[0]] + rest == s[..|rest| + 1];
      [s[0]] + rest
  }

  /** Wherever byte `n` is a character boundary, the fitting prefix is the
      prefix of exactly `n` bytes. */
  lemma {:induction false} FitPrefixAgrees(s: string, n: nat)
    requires BytePrefix(s, n).Some?
    ensures FitPrefix(s, n) == BytePrefix(s, n).value
  {
    if n > 0 && |s| > 0 && CharWidth(s[0]) <= n {
      FitPrefixAgrees(s[1..], n - CharWidth(s[0]));
    }
  }

  /** A leading part that fits survives the cut. */
  lemma {:induction false} FitPrefixKeeps(t: string, u: string, n: nat)
    requires Utf8Len(t) <= n
    ensures StartsWith(FitPrefix(t + u, n), t)
  {
    if |t| > 0 {
      var s := t + u;
      assert s[0] == t[0] && s[1..] == t[1..] + u;
      FitPrefixKeeps(t[1..], u, n - CharWidth(t[0]));
      var rest := FitPrefix(s[1..], n - CharWidth(s[0]));
      assert FitPrefix(s, n) == [t[0]] + rest;
      assert rest[..|t| - 1] == t[1..];
      assert ([t[0]] + rest)[..|t|] == [t[0]] + rest[..|t| - 1];
    }
  }

  /** `truncate_line`, cutting at the last character boundary not after byte
      4096 instead of panicking. */
  function TruncateLine(line: string): string
  {
    if Utf8Len(line) > MAX_LINE_LENGTH then FitPrefix(line, MAX_LINE_LENGTH) + TRUNCATION_MARKER
    else line
  }

  /** A line of at most 4096 bytes is kept; a longer one becomes its longest
      prefix of at most 4096 bytes (more than 4092), followed by the marker. */
  lemma TruncateLineMeaning(line: string)
    ensures Utf8Len(line) <= MAX_LINE_LENGTH ==> TruncateLine(line) == line
    ensures Utf8Len(line) > MAX_LINE_LENGTH ==>
      exists k :: 0 <= k < |line| && TruncateLine(line) == line[..k] + TRUNCATION_MARKER &&
        MAX_LINE_LENGTH - 4 < Utf8Len(line[..k]) <= MAX_LINE_LENGTH &&
        Utf8Len(line[..k + 1]) > MAX_LINE_LENGTH
  {
    if Utf8Len(line) > MAX_LINE_LENGTH {
      var p := FitPrefix(line, MAX_LINE_LENGTH);
      assert p != line;
      assert line[..|line|] == line;
      assert |p| < |line|;
      var k := |p|;
      assert line[..k + 1] == line[..k] + [line[k]];
      Utf8LenConcat(line[..k], [line[k]]);
      assert Utf8Len([line[k]]) == CharWidth(line[k]);
      assert TruncateLine(line) == line[..k] + TRUNCATION_MARKER;
    }
  }

  /** Wherever the code as written does not panic, the two agree. */
  lemma TruncateLineFixesPanic(line: string)
    requires Utf8Len(line) > MAX_LINE_LENGTH ==> BytePrefix(line, MAX_LINE_LENGTH).Some?
    ensures TruncateLine(line) == TruncateLineAsWritten(line)
  {
    if Utf8Len(line) > MAX_LINE_LENGTH {
      FitPrefixAgrees(line, MAX_LINE_LENGTH);
    }
  }

  /** A tag shorter than the limit stays at the head of a truncated line. */
  lemma TruncateKeepsTag(tag: string, line: string)
    requires Utf8Len(tag) <= MAX_LINE_LENGTH
    ensures StartsWith(TruncateLine(tag + line), tag)
  {
    if Utf8Len(tag + line) > MAX_LINE_LENGTH {
      FitPrefixKeeps(tag, line, MAX_LINE_LENGTH);
      var p := FitPrefix(tag + line, MAX_LINE_LENGTH);
      assert (p + TRUNCATION_MARKER)[..|tag|] == p[..|tag|];
    } else {
      assert (tag + line)[..|tag|] == tag;
    }
  }

  /** `lines().map(|l| truncate_line(&format!("{tag}{l}")))` */
  function Tagged(tag: string, lines: seq<string>): (r: seq<string>)
    ensures |r| == |lines|
  {
    seq(|lines|, i requires 0 <= i < |lines| => TruncateLine(tag + lines[i]))
  }

  // ---------------------------------------------------------------- syslog fallback

  /** One command of the fallback: an unsuccessful command adds nothing, output
      that is not UTF-8 aborts the whole fallback, text adds its tagged lines. */
  function AppendOutput(acc: Result<seq<string>>, out: CommandOutput, tag: string): Result<seq<string>>
  {
    if acc.Err? then acc
    else match out
      case Failed => acc
      case InvalidUtf8 => Err(INVALID_UTF8)
      case Output(lines) => Ok(acc.value + Tagged(tag, lines))
  }

  /** The first `n` log files, in order. */
  function GatherFiles(acc: Result<seq<string>>, files: seq<CommandOutput>, n: nat): Result<seq<string>>
    requires n <= |files| && |files| <= |LOG_FILES|
  {
    if n == 0 then acc
    else AppendOutput(GatherFiles(acc, files, n - 1), files[n - 1], FileTag(LOG_FILES[n - 1]))
  }

  /** The inputs of `get_syslog_logs`: `dmesg`, `tail` of each log file,
      and the journal query it adds when few lines were found. */
  datatype SyslogSources = SyslogSources(dmesg: CommandOutput, files: seq<CommandOutput>, journal: CommandOutput)

  ghost predicate WellFormedSyslog(src: SyslogSources)
  {
    |src.files| == |LOG_FILES|
  }

  /** Lines from `dmesg` and the log files. */
  function FilesCollected(src: SyslogSources): Result<seq<string>>
    requires |src.files| == |LOG_FILES|
  {
    GatherFiles(AppendOutput(Ok([]), src.dmesg, KERNEL_TAG), src.files, |src.files|)
  }

  function SyslogRaw(src: SyslogSources): Result<seq<string>>
    requires |src.files| == |LOG_FILES|
  {
    var collected := FilesCollected(src);
    if collected.Ok? && |collected.value| < FEW_LINES then AppendOutput(collected, src.journal, SYSTEM_TAG)
    else collected
  }

  /** `sort`, `dedup`, `truncate(500)` */
  function Postprocess(lines: seq<string>): seq<string>
  {
    Truncate(Dedup(Sort(lines)), MAX_LOG_LINES)
  }

  function SyslogLogs(src: SyslogSources): Result<seq<string>>
    requires |src.files| == |LOG_FILES|
  {
    var raw := SyslogRaw(src);
    if raw.Err? then Err(raw.error) else Ok(Postprocess(raw.value))
  }

  /** The fallback's result is ascending with no repeated line, has at most
      500 lines, holds only collected lines, and when a collected line is
      missing it is because 500 smaller ones were kept. */
  lemma PostprocessMeaning(lines: seq<string>)
    ensures var r := Postprocess(lines);
      && StrictlySorted(r)
      && |r| <= MAX_LOG_LINES
      && (forall x :: x in r ==> x in lines)
      && (forall x :: x in lines && x !in r ==>
            |r| == MAX_LOG_LINES && forall j :: 0 <= j < |r| ==> LexLe(r[j], x) && r[j] != x)
  {
    var d := Dedup(Sort(lines));
    DedupSorted(Sort(lines));
    SortMembers(lines);
    var r := Postprocess(lines);
    forall x | x in lines && x !in r
      ensures |r| == MAX_LOG_LINES && forall j :: 0 <= j < |r| ==> LexLe(r[j], x) && r[j] != x
    {
      TruncateDrops(d, x);
    }
    forall x | x in r ensures x in lines {
      var j :| 0 <= j < |r| && r[j] == x;
      assert d[j] == x;
    }
  }

  lemma SortMembers(lines: seq<string>)
    ensures forall x :: x in lines <==> x in Sort(lines)
  {
    forall x ensures x in lines <==> x in Sort(lines) {
      assert x in lines <==> x in multiset(lines);
      assert x in Sort(lines) <==> x in multiset(Sort(lines));
    }
  }

  /** A line of a strictly sorted list that the cap drops comes after all 500
      kept lines. */
  lemma TruncateDrops(d: seq<string>, x: string)
    requires StrictlySorted(d) && x in d && x !in Truncate(d, MAX_LOG_LINES)
    ensures |Truncate(d, MAX_LOG_LINES)| == MAX_LOG_LINES
    ensures forall j :: 0 <= j < MAX_LOG_LINES ==> LexLe(Truncate(d, MAX_LOG_LINES)[j], x) && Truncate(d, MAX_LOG_LINES)[j] != x
  {
    var r := Truncate(d, MAX_LOG_LINES);
    var k :| 0 <= k < |d| && d[k] == x;
    assert k >= |r|;
    forall j | 0 <= j < MAX_LOG_LINES ensures LexLe(r[j], x) && r[j] != x {
      assert r[j] == d[j];
    }
  }

  /** A failing fallback step stays failed. */
  lemma {:induction false} GatherFilesErr(acc: Result<seq<string>>, files: seq<CommandOutput>, n: nat)
    requires n <= |files| && |files| <= |LOG_FILES|
    ensures GatherFiles(acc, files, n).Err? <==> acc.Err? || exists i :: 0 <= i < n && files[i].InvalidUtf8?
  {
    if n > 0 {
      GatherFilesErr(acc, files, n - 1);
    }
  }

  /** Once failed, the fallback does not read further files. */
  lemma {:induction false} GatherFilesSticky(acc: Result<seq<string>>, files: seq<CommandOutput>, i: nat, n: nat)
    requires i <= n <= |files| && |files| <= |LOG_FILES|
    requires GatherFiles(acc, files, i).Err?
    ensures GatherFiles(acc, files, n) == GatherFiles(acc, files, i)
  {
    if n > i {
      GatherFilesSticky(acc, files, i, n - 1);
    }
  }

  /** The fallback fails exactly when `dmesg`, a log file, or the journal query
      (asked only when fewer than 100 lines were found) succeeds with output
      that is not UTF-8. */
  lemma SyslogErrors(src: SyslogSources)
    requires |src.files| == |LOG_FILES|
    ensures SyslogLogs(src).Err? <==>
      || src.dmesg.InvalidUtf8?
      || (exists i :: 0 <= i < |src.files| && src.files[i].InvalidUtf8?)
      || (FilesCollected(src).Ok? && |FilesCollected(src).value| < FEW_LINES && src.journal.InvalidUtf8?)
  {
    GatherFilesErr(AppendOutput(Ok([]), src.dmesg, KERNEL_TAG), src.files, |src.files|);
  }

  /** With 100 or more lines already collected the journal is not consulted. */
  lemma JournalIgnoredWhenEnough(src: SyslogSources, journal: CommandOutput)
    requires |src.files| == |LOG_FILES|
    requires FilesCollected(src).Ok? && |FilesCollected(src).value| >= FEW_LINES
    ensures SyslogLogs(src) == SyslogLogs(src.(journal := journal))
  {
    assert FilesCollected(src) == FilesCollected(src.(journal := journal));
  }

  /** Every line the fallback collects starts with the tag of its origin. */
  ghost predicate OriginTagged(x: string)
  {
    || StartsWith(x, KERNEL_TAG)
    || StartsWith(x, SYSTEM_TAG)
    || exists i :: 0 <= i < |LOG_FILES| && StartsWith(x, FileTag(LOG_FILES[i]))
  }

  lemma TagsFit()
    ensures Utf8Len(KERNEL_TAG) <= MAX_LINE_LENGTH && Utf8Len(SYSTEM_TAG) <= MAX_LINE_LENGTH
    ensures forall i :: 0 <= i < |LOG_FILES| ==> Utf8Len(FileTag(LOG_FILES[i])) <= MAX_LINE_LENGTH
  {
    forall i | 0 <= i < |LOG_FILES| ensures Utf8Len(FileTag(LOG_FILES[i])) <= MAX_LINE_LENGTH {
      assert |LOG_FILES[i]| <= 20;
      Utf8LenAtMostFour(FileTag(LOG_FILES[i]));
    }
    Utf8LenAtMostFour(KERNEL_TAG);
    Utf8LenAtMostFour(SYSTEM_TAG);
  }

  lemma AppendOutputTagged(acc: Result<seq<string>>, out: CommandOutput, tag: string)
    requires acc.Ok? ==> forall x :: x in acc.value ==> OriginTagged(x)
    requires Utf8Len(tag) <= MAX_LINE_LENGTH
    requires forall x :: StartsWith(x, tag) ==> OriginTagged(x)
    ensures var r := AppendOutput(acc, out, tag);
      r.Ok? ==> forall x :: x in r.value ==> OriginTagged(x)
  {
    if acc.Ok? && out.Output? {
      forall x | x in Tagged(tag, out.lines) ensures OriginTagged(x) {
        var i :| 0 <= i < |out.lines| && Tagged(tag, out.lines)[i] == x;
        TruncateKeepsTag(tag, out.lines[i]);
      }
    }
  }

  lemma {:induction false} GatherFilesTagged(acc: Result<seq<string>>, files: seq<CommandOutput>, n: nat)
    requires n <= |files| && |files| <= |LOG_FILES|
    requires acc.Ok? ==> forall x :: x in acc.value ==> OriginTagged(x)
    ensures var r := GatherFiles(acc, files, n);
      r.Ok? ==> forall x :: x in r.value ==> OriginTagged(x)
  {
    if n > 0 {
      GatherFilesTagged(acc, files, n - 1);
      TagsFit();
      var tag := FileTag(LOG_FILES[n - 1]);
      forall x | StartsWith(x, tag) ensures OriginTagged(x) { }
      AppendOutputTagged(GatherFiles(acc, files, n - 1), files[n - 1], tag);
    }
  }

  lemma SyslogLinesTagged(src: SyslogSources)
    requires |src.files| == |LOG_FILES|
    ensures SyslogLogs(src).Ok? ==> forall x :: x in SyslogLogs(src).value ==> OriginTagged(x)
  {
    TagsFit();
    AppendOutputTagged(Ok([]), src.dmesg, KERNEL_TAG);
    var first := AppendOutput(Ok([]), src.dmesg, KERNEL_TAG);
    GatherFilesTagged(first, src.files, |src.files|);
    var collected := FilesCollected(src);
    if collected.Ok? && |collected.value| < FEW_LINES {
      AppendOutputTagged(collected, src.journal, SYSTEM_TAG);
    }
    if SyslogLogs(src).Ok? {
      PostprocessMeaning(SyslogRaw(src).value);
    }
  }

  /** `get_syslog_logs` */
  method GetSyslogLogs(src: SyslogSources) returns (r: Result<seq<string>>)
    requires |src.files| == |LOG_FILES|
    ensures r == SyslogLogs(src)
  {
    var allLogs: seq<string> := [];
    match src.dmesg {
      case Failed =>
      case InvalidUtf8 =>
        GatherFilesSticky(Err(INVALID_UTF8), src.files, 0, |src.files|);
        return Err(INVALID_UTF8);
      case Output(lines) => allLogs := allLogs + Tagged(KERNEL_TAG, lines);
    }
    ghost var first := AppendOutput(Ok([]), src.dmesg, KERNEL_TAG);
    for i := 0 to |LOG_FILES|
      invariant GatherFiles(first, src.files, i) == Ok(allLogs)
    {
      match src.files[i] {
        case Failed =>
        case InvalidUtf8 =>
          GatherFilesSticky(first, src.files, i + 1, |src.files|);
          return Err(INVALID_UTF8);
        case Output(lines) => allLogs := allLogs + Tagged(FileTag(LOG_FILES[i]), lines);
      }
    }
    if |allLogs| < FEW_LINES {
      match src.journal {
        case Failed =>
        case InvalidUtf8 => return Err(INVALID_UTF8);
        case Output(lines) => allLogs := allLogs + Tagged(SYSTEM_TAG, lines);
      }
    }
    allLogs := Sort(allLogs);
    allLogs := Dedup(allLogs);
    if |allLogs| > MAX_LOG_LINES {
      allLogs := allLogs[..MAX_LOG_LINES];
    }
    return Ok(allLogs);
  }

  // ---------------------------------------------------------------- container logs

  /** One frame of a container's log stream; standard input frames are dropped. */
  datatype LogChunk = StdIn(message: string) | StdOut(message: string) | StdErr(message: string) | Console(message: string)

  /** A listed container: its id and names (either may be missing) and the
      frames its log stream delivered (frames that failed are not listed). */
  datatype ContainerLogs = ContainerLogs(id: Option<string>, names: Option<seq<string>>, chunks: seq<LogChunk>)

  /** What the Docker side delivers: no async runtime, no daemon, a failed
      listing, or the listed containers. */
  datatype DockerLogSource = RuntimeFailed | NoDaemon | ListFailed | Listed(containers: seq<ContainerLogs>)

  /** The first name without its leading slashes, or the id when there is none. */
  function ContainerName(id: string, names: seq<string>): string
  {
    if |names| > 0 then TrimStartMatches(names[0], '/') else id
  }

  function StreamTag(chunk: LogChunk): string
  {
    match chunk
    case StdIn(_) => ""
    case StdOut(_) => "[OUT]"
    case StdErr(_) => "[ERR]"
    case Console(_) => "[CON]"
  }

  /** `[name][OUT] message` and its two siblings; blank messages are dropped. */
  function ChunkLine(name: string, chunk: LogChunk): Option<string>
  {
    if chunk.StdIn? || IsBlank(chunk.message) then None
    else Some("[" + name + "]" + StreamTag(chunk) + " " + chunk.message)
  }

  function ChunkLines(name: string, chunks: seq<LogChunk>): seq<string>
  {
    if |chunks| == 0 then []
    else
      var front := ChunkLines(name, chunks[..|chunks| - 1]);
      match ChunkLine(name, chunks[|chunks| - 1])
      case None => front
      case Some(line) => front + [line]
  }

  /** A container without an id or without a name list contributes nothing. */
  function ContainerLines(c: ContainerLogs): seq<string>
  {
    if c.id.Some? && c.names.Some? then ChunkLines(ContainerName(c.id.value, c.names.value), c.chunks) else []
  }

  function AllContainerLines(cs: seq<ContainerLogs>): seq<string>
  {
    if |cs| == 0 then [] else AllContainerLines(cs[..|cs| - 1]) + ContainerLines(cs[|cs| - 1])
  }

  function DockerLogs(src: DockerLogSource): Result<seq<string>>
  {
    match src
    case RuntimeFailed => Err(RUNTIME_FAILED)
    case NoDaemon => Ok([])
    case ListFailed => Ok([])
    case Listed(cs) => Ok(Truncate(AllContainerLines(cs), MAX_LOG_LINES))
  }

  /** Each line of a container's stream is a non-blank message of standard
      output, standard error or the console, behind the container's name. */
  lemma {:induction false} ChunkLinesMeaning(name: string, chunks: seq<LogChunk>, x: string)
    requires x in ChunkLines(name, chunks)
    ensures exists j :: (0 <= j < |chunks| && !chunks[j].StdIn? && !IsBlank(chunks[j].message) &&
                        x == "[" + name + "]" + StreamTag(chunks[j]) + " " + chunks[j].message)
  {
    var front := chunks[..|chunks| - 1];
    if x in ChunkLines(name, front) {
      ChunkLinesMeaning(name, front, x);
      var j :| 0 <= j < |front| && !front[j].StdIn? && !IsBlank(front[j].message) &&
        x == "[" + name + "]" + StreamTag(front[j]) + " " + front[j].message;
      assert front[j] == chunks[j];
    }
  }

  /** When no chunk is dropped, the j-th line is the j-th chunk's line. */
  lemma {:induction false} ChunkLinesCount(name: string, chunks: seq<LogChunk>)
    requires forall j :: 0 <= j < |chunks| ==> !chunks[j].StdIn? && !IsBlank(chunks[j].message)
    ensures |ChunkLines(name, chunks)| == |chunks|
    ensures forall j :: 0 <= j < |chunks| ==> ChunkLines(name, chunks)[j] == ChunkLine(name, chunks[j]).value
  {
    if |chunks| > 0 {
      var front := chunks[..|chunks| - 1];
      forall j | 0 <= j < |front| ensures front[j] == chunks[j] { }
      ChunkLinesCount(name, front);
    }
  }

  /** The lines of a stream are the lines of its parts, in order: with the
      lemma below this fixes every container's lines. */
  lemma {:induction false} ChunkLinesConcat(name: string, a: seq<LogChunk>, b: seq<LogChunk>)
    ensures ChunkLines(name, a + b) == ChunkLines(name, a) + ChunkLines(name, b)
    decreases |b|
  {
    if |b| == 0 {
      assert a + b == a;
    } else {
      assert (a + b)[..|a + b| - 1] == a + b[..|b| - 1];
      ChunkLinesConcat(name, a, b[..|b| - 1]);
    }
  }

  /** One chunk gives its line, or nothing when it is standard input or blank. */
  lemma ChunkLinesSingle(name: string, chunk: LogChunk)
    ensures ChunkLines(name, [chunk]) ==
      (if chunk.StdIn? || IsBlank(chunk.message) then []
       else ["[" + name + "]" + StreamTag(chunk) + " " + chunk.message])
  {
    assert [chunk][..0] == [];
  }

  /** The first 500 lines of the concatenated streams, or all of them when
      there are fewer. */
  lemma DockerLogsBound(src: DockerLogSource)
    requires src.Listed?
    ensures DockerLogs(src).Ok?
    ensures |DockerLogs(src).value| <= MAX_LOG_LINES
    ensures DockerLogs(src).value == AllContainerLines(src.containers)[..|DockerLogs(src).value|]
    ensures |DockerLogs(src).value| ==
      if |AllContainerLines(src.containers)| <= MAX_LOG_LINES then |AllContainerLines(src.containers)| else MAX_LOG_LINES
  {
  }

  lemma ChunkLinesStep(name: string, chunks: seq<LogChunk>, j: nat)
    requires j < |chunks|
    ensures ChunkLines(name, chunks[..j + 1]) ==
      ChunkLines(name, chunks[..j]) + (if ChunkLine(name, chunks[j]).Some? then [ChunkLine(name, chunks[j]).value] else [])
  {
    assert chunks[..j + 1][..j] == chunks[..j];
  }

  /** The inner loop of `get_docker_container_logs`: the lines of one
      container's stream. */
  method CollectChunkLines(containerName: string, logOutputs: seq<LogChunk>) returns (lines: seq<string>)
    ensures lines == ChunkLines(containerName, logOutputs)
  {
    lines := [];
    for j := 0 to |logOutputs|
      invariant lines == ChunkLines(containerName, logOutputs[..j])
    {
      var logOutput := logOutputs[j];
      ChunkLinesStep(containerName, logOutputs, j);
      match logOutput {
        case StdIn(_) =>
        case StdOut(message) =>
          if !IsBlank(message) {
            var line := "[" + containerName + "]" + "[OUT]" + " " + message;
            assert ChunkLine(containerName, logOutput) == Some(line);
            lines := lines + [line];
          }
        case StdErr(message) =>
          if !IsBlank(message) {
            var line := "[" + containerName + "]" + "[ERR]" + " " + message;
            assert ChunkLine(containerName, logOutput) == Some(line);
            lines := lines + [line];
          }
        case Console(message) =>
          if !IsBlank(message) {
            var line := "[" + containerName + "]" + "[CON]" + " " + message;
            assert ChunkLine(containerName, logOutput) == Some(line);
            lines := lines + [line];
          }
      }
    }
    assert logOutputs[..|logOutputs|] == logOutputs;
  }

  /** `get_docker_container_logs` */
  method GetDockerContainerLogs(src: DockerLogSource) returns (r: Result<seq<string>>)
    ensures r == DockerLogs(src)
  {
    var allLogs: seq<string> := [];
    if src.RuntimeFailed? {
      return Err(RUNTIME_FAILED);
    }
    if src.Listed? {
      var containers := src.containers;
      for i := 0 to |containers|
        invariant allLogs == AllContainerLines(containers[..i])
      {
        assert containers[..i + 1][..i] == containers[..i];
        var container := containers[i];
        if container.id.Some? && container.names.Some? {
          var containerName := ContainerName(container.id.value, container.names.value);
          var lines := CollectChunkLines(containerName, container.chunks);
          allLogs := allLogs + lines;
        }
      }
      assert containers[..|containers|] == containers;
    }
    if |allLogs| > MAX_LOG_LINES {
      allLogs := allLogs[..MAX_LOG_LINES];
    }
    return Ok(allLogs);
  }

  // ---------------------------------------------------------------- journal

  /** The inputs of `get_journalctl_logs_by_category`. */
  datatype JournalSources = JournalSources(system: CommandOutput, kernel: CommandOutput, error: CommandOutput,
                                           docker: DockerLogSource, boot: CommandOutput)

  /** The entry one journal query contributes: present only when it succeeded. */
  function Put(m: map<LogCategory, seq<string>>, category: LogCategory, out: CommandOutput): map<LogCategory, seq<string>>
  {
    if out.Output? then m[category := out.lines] else m
  }

  /** The journal collection fails exactly when one of its four queries
      succeeds with output that is not UTF-8; otherwise each category that
      was read holds its lines. */
  function JournalLogs(src: JournalSources): Result<map<LogCategory, seq<string>>>
  {
    if src.system.InvalidUtf8? || src.kernel.InvalidUtf8? || src.error.InvalidUtf8? || src.boot.InvalidUtf8? then
      Err(INVALID_UTF8)
    else
      var docker := DockerLogs(src.docker);
      var m := Put(Put(Put(map[], System, src.system), Kernel, src.kernel), Error, src.error);
      var m' := if docker.Ok? then m[LogCategory.Docker := docker.value] else m;
      Ok(Put(m', Boot, src.boot))
  }

  /** Which categories the journal collection fills, and with what. */
  lemma JournalLogsMeaning(src: JournalSources, c: LogCategory)
    requires JournalLogs(src).Ok?
    ensures var m := JournalLogs(src).value;
      && All !in m
      && (c in m <==> match c
            case System => src.system.Output?
            case Kernel => src.kernel.Output?
            case Error => src.error.Output?
            case Docker => !src.docker.RuntimeFailed?
            case Boot => src.boot.Output?
            case All => false)
      && (c == System && c in m ==> m[c] == src.system.lines)
      && (c == Kernel && c in m ==> m[c] == src.kernel.lines)
      && (c == Error && c in m ==> m[c] == src.error.lines)
      && (c == Boot && c in m ==> m[c] == src.boot.lines)
      && (c == LogCategory.Docker && c in m ==> m[c] == DockerLogs(src.docker).value)
  {
  }

  /** `get_journalctl_logs_by_category` */
  method GetJournalctlLogsByCategory(src: JournalSources) returns (r: Result<map<LogCategory, seq<string>>>)
    ensures r == JournalLogs(src)
  {
    var logsMap: map<LogCategory, seq<string>> := map[];
    match src.system {
      case Failed =>
      case InvalidUtf8 => return Err(INVALID_UTF8);
      case Output(lines) => logsMap := logsMap[System := lines];
    }
    match src.kernel {
      case Failed =>
      case InvalidUtf8 => return Err(INVALID_UTF8);
      case Output(lines) => logsMap := logsMap[Kernel := lines];
    }
    match src.error {
      case Failed =>
      case InvalidUtf8 => return Err(INVALID_UTF8);
      case Output(lines) => logsMap := logsMap[Error := lines];
    }
    var dockerLogs := GetDockerContainerLogs(src.docker);
    if dockerLogs.Ok? {
      logsMap := logsMap[LogCategory.Docker := dockerLogs.value];
    }
    match src.boot {
      case Failed =>
      case InvalidUtf8 => return Err(INVALID_UTF8);
      case Output(lines) => logsMap := logsMap[Boot := lines];
    }
    return Ok(logsMap);
  }

  // ---------------------------------------------------------------- the cache

  function Lookup(cache: map<LogCategory, seq<string>>, c: LogCategory): seq<string>
  {
    if c in cache then cache[c] else []
  }

  function Concatenated(cache: map<LogCategory, seq<string>>, cats: seq<LogCategory>): seq<string>
  {
    if |cats| == 0 then [] else Concatenated(cache, cats[..|cats| - 1]) + Lookup(cache, cats[|cats| - 1])
  }

  /** `get_logs_by_category`: a category's cached lines (none when missing);
      `All` is the five real categories concatenated in order, never the
      cache's own `All` entry. */
  function ViewOf(cache: map<LogCategory, seq<string>>, c: LogCategory): seq<string>
  {
    if c == All then Concatenated(cache, REAL_CATEGORIES) else Lookup(cache, c)
  }

  lemma {:induction false} ConcatenatedIgnores(cache: map<LogCategory, seq<string>>, cats: seq<LogCategory>,
                                               c: LogCategory, v: seq<string>)
    requires c !in cats
    ensures Concatenated(cache[c := v], cats) == Concatenated(cache, cats)
  {
    if |cats| > 0 {
      ConcatenatedIgnores(cache, cats[..|cats| - 1], c, v);
    }
  }

  /** Storing under `All` changes no view: the fallback's lines are never shown. */
  lemma AllEntryInvisible(cache: map<LogCategory, seq<string>>, v: seq<string>, c: LogCategory)
    ensures ViewOf(cache[All := v], c) == ViewOf(cache, c)
  {
    ConcatenatedIgnores(cache, REAL_CATEGORIES, All, v);
  }

  lemma ConcatenatedFive(cache: map<LogCategory, seq<string>>, cats: seq<LogCategory>)
    requires |cats| == 5
    ensures Concatenated(cache, cats) ==
      Lookup(cache, cats[0]) + Lookup(cache, cats[1]) + Lookup(cache, cats[2]) + Lookup(cache, cats[3]) +
      Lookup(cache, cats[4])
  {
    assert cats[..1][..0] == [];
    assert cats[..2][..1] == cats[..1];
    assert cats[..3][..2] == cats[..2];
    assert cats[..4][..3] == cats[..3];
    assert cats[..4] == cats[..5][..4];
    assert Concatenated(cache, cats[..1]) == Lookup(cache, cats[0]);
    assert Concatenated(cache, cats[..2]) == Concatenated(cache, cats[..1]) + Lookup(cache, cats[1]);
    assert Concatenated(cache, cats[..3]) == Concatenated(cache, cats[..2]) + Lookup(cache, cats[2]);
    assert Concatenated(cache, cats[..4]) == Concatenated(cache, cats[..3]) + Lookup(cache, cats[3]);
    assert cats[..5] == cats;
  }

  /** The `All` view is the concatenation of the five real views. */
  lemma AllViewIsConcatenation(cache: map<LogCategory, seq<string>>)
    ensures ViewOf(cache, All) == ViewOf(cache, System) + ViewOf(cache, Kernel) + ViewOf(cache, Error) +
                                  ViewOf(cache, LogCategory.Docker) + ViewOf(cache, Boot)
  {
    ConcatenatedFive(cache, REAL_CATEGORIES);
  }

  datatype LogsState = LogsState(lines: seq<string>, cachedLogs: map<LogCategory, seq<string>>,
                                 cacheValid: bool, lastUpdateMs: nat)

  /** The inputs of one refresh: the journal side and the fallback's. */
  datatype LogSources = LogSources(journal: JournalSources, syslog: SyslogSources)

  /** `get_all_logs`: the journal's categories replace the cache; when the
      journal fails the fallback's lines, or the translated failure message,
      are stored under `All` and the rest of the cache is kept. The displayed
      lines become the System view. */
  function Refresh(s: LogsState, src: LogSources, lang: I18n.Language): LogsState
    requires |src.syslog.files| == |LOG_FILES|
  {
    var journal := JournalLogs(src.journal);
    var syslog := SyslogLogs(src.syslog);
    var cache :=
      if journal.Ok? then journal.value
      else if syslog.Ok? then s.cachedLogs[All := syslog.value]
      else s.cachedLogs[All := [I18n.Get(lang, "log_read_failed")]];
    var valid := journal.Ok? || syslog.Ok? || s.cacheValid;
    LogsState(ViewOf(cache, System), cache, valid, s.lastUpdateMs)
  }

  /** `update`: nothing happens within two seconds of the previous refresh. */
  function Step(s: LogsState, src: LogSources, nowMs: nat, lang: I18n.Language): LogsState
    requires |src.syslog.files| == |LOG_FILES|
  {
    if ElapsedMs(s.lastUpdateMs, nowMs) < UPDATE_INTERVAL_MS then s
    else Refresh(s, src, lang).(lastUpdateMs := nowMs)
  }

  /** When the journal fails, what the tab can show does not change: every
      view, and the displayed lines, are those of the previous cache. */
  lemma FallbackInvisible(s: LogsState, src: LogSources, lang: I18n.Language, c: LogCategory)
    requires |src.syslog.files| == |LOG_FILES|
    requires JournalLogs(src.journal).Err?
    ensures ViewOf(Refresh(s, src, lang).cachedLogs, c) == ViewOf(s.cachedLogs, c)
    ensures Refresh(s, src, lang).lines == ViewOf(s.cachedLogs, System)
  {
    var syslog := SyslogLogs(src.syslog);
    AllEntryInvisible(s.cachedLogs, if syslog.Ok? then syslog.value else [I18n.Get(lang, "log_read_failed")], c);
    AllEntryInvisible(s.cachedLogs, if syslog.Ok? then syslog.value else [I18n.Get(lang, "log_read_failed")], System);
  }

  /** When the journal answers, the displayed lines are the system journal's
      lines, or none when that query failed; the cache is marked valid. */
  lemma JournalShown(s: LogsState, src: LogSources, lang: I18n.Language)
    requires |src.syslog.files| == |LOG_FILES|
    requires JournalLogs(src.journal).Ok?
    ensures Refresh(s, src, lang).lines == (if src.journal.system.Output? then src.journal.system.lines else [])
    ensures Refresh(s, src, lang).cacheValid
    ensures Refresh(s, src, lang).cachedLogs == JournalLogs(src.journal).value
  {
    JournalLogsMeaning(src.journal, System);
  }

  /** Refreshes are at least two seconds apart. */
  lemma Throttled(s: LogsState, src: LogSources, nowMs: nat, lang: I18n.Language)
    requires |src.syslog.files| == |LOG_FILES|
    requires Step(s, src, nowMs, lang) != s
    ensures nowMs >= s.lastUpdateMs + UPDATE_INTERVAL_MS
    ensures Step(s, src, nowMs, lang).lastUpdateMs == nowMs
  {
  }

  class LogsData {
    const lang: I18n.Language
    var lines: seq<string>
    var cachedLogs: map<LogCategory, seq<string>>
    var cacheValid: bool
    var lastUpdateMs: nat

    function State(): LogsState
      reads this
    {
      LogsState(lines, cachedLogs, cacheValid, lastUpdateMs)
    }

    /** `LogsData::new`: the update it runs comes within the two-second
        interval and fetches nothing, so the new collector is empty. */
    constructor (src: LogSources, nowMs: nat, lang: I18n.Language)
      requires |src.syslog.files| == |LOG_FILES|
      ensures State() == LogsState([], map[], false, nowMs) && this.lang == lang
    {
      this.lang := lang;
      lines := [];
      cachedLogs := map[];
      cacheValid := false;
      lastUpdateMs := nowMs;
      new;
      Update(src, nowMs);
    }

    /** `get_logs_by_category` */
    method GetLogsByCategory(category: LogCategory) returns (r: seq<string>)
      ensures r == ViewOf(cachedLogs, category)
    {
      if category == All {
        var allLogs: seq<string> := [];
        var cats := REAL_CATEGORIES;
        for i := 0 to |cats|
          invariant allLogs == Concatenated(cachedLogs, cats[..i])
        {
          assert cats[..i + 1][..i] == cats[..i];
          if cats[i] in cachedLogs {
            allLogs := allLogs + cachedLogs[cats[i]];
          }
        }
        assert cats[..|cats|] == cats;
        return allLogs;
      }
      return Lookup(cachedLogs, category);
    }

    /** `get_all_logs` (it never fails) */
    method GetAllLogs(src: LogSources)
      requires |src.syslog.files| == |LOG_FILES|
      modifies this
      ensures State() == Refresh(old(State()), src, lang)
    {
      var journal := GetJournalctlLogsByCategory(src.journal);
      if journal.Ok? {
        cachedLogs := journal.value;
        cacheValid := true;
      } else {
        var syslog := GetSyslogLogs(src.syslog);
        if syslog.Ok? {
          cachedLogs := cachedLogs[All := syslog.value];
          cacheValid := true;
        } else {
          var errorMsg := I18n.Get(lang, "log_read_failed");
          cachedLogs := cachedLogs[All := [errorMsg]];
        }
      }
      lines := GetLogsByCategory(System);
    }

    /** `update` (it never fails) */
    method Update(src: LogSources, nowMs: nat)
      requires |src.syslog.files| == |LOG_FILES|
      modifies this
      ensures State() == Step(old(State()), src, nowMs, lang)
    {
      if ElapsedMs(lastUpdateMs, nowMs) < UPDATE_INTERVAL_MS {
        return;
      }
      GetAllLogs(src);
      lastUpdateMs := nowMs;
    }
  }
}
