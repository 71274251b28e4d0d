/** The container bridge of src/data/docker.rs: the conversion of the
    runtime's container summaries into records, and the three-way outcome
    state machine of `DockerData::update`.

    The client connection and the one-second timed poll are inputs: whether a
    client was obtained in `new`, and the outcome of each poll. */
module Container {
  import opened Wrappers
  import opened Num
  import opened Text
  import I18n

  const TIMEOUT_MESSAGE: string := "Docker 响应超时，请检查 Docker 守护进程状态"
  const PORT_SEPARATOR: string := ", "

  /** One port mapping of a summary: the public port, if published, and the
      protocol, if reported. */
  datatype Port = Port(publicPort: Option<u16>, typ: Option<string>)

  /** The fields of a runtime container summary the bridge reads. */
  datatype ContainerSummary = ContainerSummary(names: Option<seq<string>>, status: Option<string>, ports: Option<seq<Port>>)

  /** `DockerContainer`; the two usages are percentages, always zero here. */
  datatype DockerContainer = DockerContainer(name: string, status: string, cpuUsage: real, memoryUsage: real, ports: string)

  /** What one timed poll of the runtime gives. */
  datatype ListOutcome = Listed(summaries: seq<ContainerSummary>) | ListFailed(message: string) | TimedOut

  // ---------------------------------------------------------------- records

  /** `public/type` for a published port, the type defaulting to the
      translated "tcp"; nothing for an unpublished one. */
  function PortText(p: Port, lang: I18n.Language): Option<string>
  {
    if p.publicPort.Some? then Some(Decimal(p.publicPort.value) + "/" + p.typ.GetOr(I18n.Get(lang, "tcp")))
    else None
  }

  /** The texts of the published ports, in order. */
  function PortTexts(ports: seq<Port>, lang: I18n.Language): seq<string>
  {
    if |ports| == 0 then []
    else
      var front := PortTexts(ports[..|ports| - 1], lang);
      match PortText(ports[|ports| - 1], lang)
      case None => front
      case Some(t) => front + [t]
  }

  /** The port column: the texts joined by ", ", empty without a port list. */
  function PortsText(ports: Option<seq<Port>>, lang: I18n.Language): string
  {
    if ports.None? then "" else Join(PortTexts(ports.value, lang), PORT_SEPARATOR)
  }

  /** The first name without its leading slashes, or the translated "unknown". */
  function NameOf(names: Option<seq<string>>, lang: I18n.Language): string
  {
    if names.Some? && |names.value| > 0 then TrimStartMatches(names.value[0], '/') else I18n.Get(lang, "unknown")
  }

  function ToRecord(c: ContainerSummary, lang: I18n.Language): DockerContainer
  {
    DockerContainer(NameOf(c.names, lang), c.status.GetOr(I18n.Get(lang, "unknown")), 0.0, 0.0,
                    PortsText(c.ports, lang))
  }

  /** For each summary, in order, its record. */
  function ToRecords(summaries: seq<ContainerSummary>, lang: I18n.Language): (r: seq<DockerContainer>)
    ensures |r| == |summaries|
  {
    seq(|summaries|, i requires 0 <= i < |summaries| => ToRecord(summaries[i], lang))
  }

  /** A record's name is the first reported name with every leading `/`
      removed, or the translated "unknown" when there is no name. */
  lemma RecordName(c: ContainerSummary, lang: I18n.Language)
    ensures var r := ToRecord(c, lang);
      && (c.names.Some? && |c.names.value| > 0 ==>
            var n := c.names.value[0];
            && |r.name| <= |n| && r.name == n[|n| - |r.name|..]
            && (forall i :: 0 <= i < |n| - |r.name| ==> n[i] == '/')
            && (r.name == [] || r.name[0] != '/'))
      && (c.names.None? || c.names.value == [] ==> r.name == I18n.Get(lang, "unknown"))
  {
  }

  /** The status passes through, or is the translated "unknown"; the usages
      are zero; without a port list the port column is empty. */
  lemma RecordFields(c: ContainerSummary, lang: I18n.Language)
    ensures var r := ToRecord(c, lang);
      && (c.status.Some? ==> r.status == c.status.value)
      && (c.status.None? ==> r.status == I18n.Get(lang, "unknown"))
      && r.cpuUsage == 0.0 && r.memoryUsage == 0.0
      && (c.ports.None? ==> r.ports == "")
  {
  }

  /** Port texts distribute over concatenation: with the two lemmas below this
      fixes the text of every port list. */
  lemma {:induction false} PortTextsConcat(a: seq<Port>, b: seq<Port>, lang: I18n.Language)
    ensures PortTexts(a + b, lang) == PortTexts(a, lang) + PortTexts(b, lang)
  {
    if |b| == 0 {
      assert a + b == a;
    } else {
      assert (a + b)[..|a + b| - 1] == a + b[..|b| - 1];
      PortTextsConcat(a, b[..|b| - 1], lang);
    }
  }

  /** A single port gives its text, or nothing when it is not published. */
  lemma PortTextsSingle(p: Port, lang: I18n.Language)
    ensures PortTexts([p], lang) == (if p.publicPort.Some? then [PortText(p, lang).value] else [])
  {
    assert [p][..0] == [];
  }

  /** A list without published ports gives an empty column. */
  lemma {:induction false} NoPublishedPorts(ports: seq<Port>, lang: I18n.Language)
    requires forall i :: 0 <= i < |ports| ==> ports[i].publicPort.None?
    ensures PortTexts(ports, lang) == []
    ensures PortsText(Some(ports), lang) == ""
  {
    if |ports| > 0 {
      NoPublishedPorts(ports[..|ports| - 1], lang);
    }
  }

  /** A port text reads back: the digits before the first `/` are the public
      port, and what follows is the type. */
  lemma PortTextParses(p: Port, lang: I18n.Language)
    requires p.publicPort.Some?
    ensures var t := PortText(p, lang).value;
      var k := |Decimal(p.publicPort.value)|;
      && k < |t| && t[k] == '/'
      && (forall i :: 0 <= i < k ==> IsDigit(t[i]))
      && ParseU64(t[..k]) == Some(p.publicPort.value)
      && t[k + 1..] == p.typ.GetOr(I18n.Get(lang, "tcp"))
  {
    var d := Decimal(p.publicPort.value);
    var t := PortText(p, lang).value;
    assert t[..|d|] == d;
    DecimalParses(p.publicPort.value);
  }

  /** A published port 8080 without a reported type shows as `8080/tcp`. */
  lemma DefaultPortType()
    ensures PortText(Port(Some(8080), None), I18n.English) == Some("8080/tcp")
    ensures PortText(Port(Some(8080), None), I18n.Chinese) == Some("8080/tcp")
  {
    DecimalExample();
    I18n.CoreEntries();
    assert "8080" + "/" + "tcp" == "8080/tcp";
  }

  lemma DecimalExample()
    ensures Decimal(8080) == "8080"
  {
    assert DigitChar(8) == '8' && DigitChar(0) == '0';
    assert Decimal(8) == "8";
    assert Decimal(80) == "80" by { assert Decimal(80) == Decimal(8) + [DigitChar(0)]; }
    assert Decimal(808) == "808" by { assert Decimal(808) == Decimal(80) + [DigitChar(8)]; }
    assert Decimal(8080) == Decimal(808) + [DigitChar(0)];
  }

  // ---------------------------------------------------------------- the bridge

  datatype BridgeState = BridgeState(containers: seq<DockerContainer>, error: Option<string>)

  /** One call of `update`. Without a client: the "not available" error and no
      containers. A listing replaces the containers and clears the error; a
      failed listing clears the containers and records the failure; a timeout
      keeps everything, except that with no containers it records the
      timeout. */
  function Step(s: BridgeState, hasClient: bool, outcome: ListOutcome, lang: I18n.Language): BridgeState
  {
    if !hasClient then BridgeState([], Some(I18n.Get(lang, "docker_not_available")))
    else match outcome
      case Listed(summaries) => BridgeState(ToRecords(summaries, lang), None)
      case ListFailed(e) => BridgeState([], Some(I18n.Get(lang, "failed_to_list_containers") + " " + e))
      case TimedOut => if |s.containers| == 0 then BridgeState(s.containers, Some(TIMEOUT_MESSAGE)) else s
  }

  /** A successful listing: one record per summary, in order, and no error. */
  lemma ListingReplaces(s: BridgeState, summaries: seq<ContainerSummary>, lang: I18n.Language)
    ensures var t := Step(s, true, Listed(summaries), lang);
      && |t.containers| == |summaries|
      && (forall i :: 0 <= i < |summaries| ==> t.containers[i] == ToRecord(summaries[i], lang))
      && t.error == None
  {
  }

  /** A timeout never loses data: the containers stay, and the error changes
      only when there were none to show. */
  lemma {:induction false} TimeoutKeepsData(s: BridgeState, lang: I18n.Language)
    ensures Step(s, true, TimedOut, lang).containers == s.containers
    ensures |s.containers| > 0 ==> Step(s, true, TimedOut, lang).error == s.error
    ensures |s.containers| == 0 ==> Step(s, true, TimedOut, lang).error == Some(TIMEOUT_MESSAGE)
  {
  }

  /** Two containers listed, then a timeout: both remain and no error shows. */
  lemma TimeoutAfterListing(s: BridgeState, a: ContainerSummary, b: ContainerSummary, lang: I18n.Language)
    ensures var t := Step(Step(s, true, Listed([a, b]), lang), true, TimedOut, lang);
      |t.containers| == 2 && t.error == None
  {
  }

  /** Repeated timeouts from the empty state keep showing the timeout. */
  lemma TimeoutsFromEmpty(lang: I18n.Language)
    ensures Step(Step(BridgeState([], None), true, TimedOut, lang), true, TimedOut, lang) ==
      BridgeState([], Some(TIMEOUT_MESSAGE))
  {
  }

  /** An explicit failure or a missing client always empties the list and
      sets an error. */
  lemma FailureClears(s: BridgeState, hasClient: bool, outcome: ListOutcome, lang: I18n.Language)
    requires !hasClient || outcome.ListFailed?
    ensures Step(s, hasClient, outcome, lang).containers == []
    ensures Step(s, hasClient, outcome, lang).error.Some?
    ensures !hasClient ==> Step(s, hasClient, outcome, lang).error == Some(I18n.Get(lang, "docker_not_available"))
  {
  }

  class DockerData {
    const lang: I18n.Language
    /** Whether `new` obtained a client; it is never retried. */
    const hasClient: bool
    var containers: seq<DockerContainer>
    var error: Option<string>

    function State(): BridgeState
      reads this
    {
      BridgeState(containers, error)
    }

    constructor (hasClient: bool, lang: I18n.Language)
      ensures State() == BridgeState([], None)
      ensures this.hasClient == hasClient && this.lang == lang
    {
      this.lang := lang;
      this.hasClient := hasClient;
      containers := [];
      error := None;
    }

    /** `DockerData::new`: fails only when the async runtime cannot be
        created; a failed connection leaves the bridge without a client. */
    static method New(runtimeCreated: bool, connected: bool, lang: I18n.Language) returns (r: Option<DockerData>)
      ensures r.Some? <==> runtimeCreated
      ensures r.Some? ==> fresh(r.value) && r.value.hasClient == connected && r.value.State() == BridgeState([], None)
      ensures r.Some? ==> r.value.lang == lang
    {
      if !runtimeCreated {
        return None;
      }
      var d := new DockerData(connected, lang);
      return Some(d);
    }

    /** `DockerData::update` (it never fails). */
    method Update(outcome: ListOutcome) returns (r: Outcome)
      modifies this
      ensures State() == Step(old(State()), hasClient, outcome, lang)
      ensures r == Pass
    {
      if hasClient {
        match outcome {
          case Listed(summaries) =>
            containers := ToRecords(summaries, lang);
            error := None;
          case ListFailed(e) =>
            error := Some(I18n.Get(lang, "failed_to_list_containers") + " " + e);
            containers := [];
          case TimedOut =>
            if |containers| == 0 {
              error := Some(TIMEOUT_MESSAGE);
            }
        }
      } else {
        error := Some(I18n.Get(lang, "docker_not_available"));
        containers := [];
      }
      return Pass;
    }
  }
}
