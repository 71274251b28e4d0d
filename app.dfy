/** The application object of src/app.rs: the four data sources with logic
    of their own, the selected tab and log category, the log scroll offset
    and the scrollbar drag flag; `new`, `update_data` and the tab moves.

    The processor and memory sources have no logic of their own and are not
    modelled; their updates never fail. */
module AppState {
  import opened Wrappers
  import opened Num
  import opened Tabs
  import I18n
  import Disk
  import Network
  import Container
  import Logs

  /** The interface state of the application: what the key and mouse
      handlers change. */
  datatype UiState = UiState(activeTab: ActiveTab, activeLogCategory: LogCategory,
                             logsScrollOffset: u16, isDraggingScrollbar: bool)

  /** The interface state `App::new` starts with. */
  const INITIAL_UI: UiState := UiState(Cpu, System, 0, false)

  class App {
    const disk: Disk.DiskData
    const network: Network.NetworkData
    const docker: Container.DockerData
    const logs: Logs.LogsData
    var activeTab: ActiveTab
    var activeLogCategory: LogCategory
    var logsScrollOffset: u16
    var isDraggingScrollbar: bool

    function Ui(): UiState
      reads this
    {
      UiState(activeTab, activeLogCategory, logsScrollOffset, isDraggingScrollbar)
    }

    constructor FromParts(disk: Disk.DiskData, network: Network.NetworkData, docker: Container.DockerData,
                          logs: Logs.LogsData)
      ensures Ui() == INITIAL_UI
      ensures this.disk == disk && this.network == network && this.docker == docker && this.logs == logs
    {
      this.disk := disk;
      this.network := network;
      this.docker := docker;
      this.logs := logs;
      activeTab := Cpu;
      activeLogCategory := System;
      logsScrollOffset := 0;
      isDraggingScrollbar := false;
    }

    /** `App::new`: the disk source fails without `/proc/diskstats`, the
        container source without an async runtime; the others always build.
        The application starts on the processor tab, the system category,
        at the top of the log, not dragging. */
    static method New(diskSnapshot: seq<Disk.DiskInfo>, mounts: Option<seq<string>>, stats: Option<seq<string>>,
                      netSnapshot: seq<Network.InterfaceSample>, runtimeCreated: bool, connected: bool,
                      logSources: Logs.LogSources, nowMs: nat, lang: I18n.Language) returns (r: Option<App>)
      requires stats.Some? ==>
        Disk.RatesDefined(diskSnapshot, Disk.LastWins(stats.value, Disk.StatEntry),
                          Disk.ZeroBaselines(diskSnapshot, I18n.Get(lang, "unknown")),
                          Disk.ZeroBaselines(diskSnapshot, I18n.Get(lang, "unknown")), I18n.Get(lang, "unknown"))
      requires |logSources.syslog.files| == |Logs.LOG_FILES|
      ensures r.Some? <==> stats.Some? && runtimeCreated
      ensures r.Some? ==> fresh(r.value) && r.value.Ui() == INITIAL_UI
      ensures r.Some? ==>
        && Disk.Created(diskSnapshot, mounts, stats.value, nowMs, I18n.Get(lang, "unknown"), r.value.disk.State())
        && r.value.network.State() == Network.Created(netSnapshot, nowMs)
        && r.value.docker.State() == Container.BridgeState([], None)
        && r.value.docker.hasClient == connected
        && r.value.logs.State() == Logs.LogsState([], map[], false, nowMs)
    {
      var d := Disk.DiskData.New(diskSnapshot, mounts, stats, nowMs, lang);
      if d.None? {
        return None;
      }
      var n := new Network.NetworkData(netSnapshot, nowMs);
      var c := Container.DockerData.New(runtimeCreated, connected, lang);
      if c.None? {
        return None;
      }
      var l := new Logs.LogsData(logSources, nowMs, lang);
      var app := new App.FromParts(d.value, n, c.value, l);
      return Some(app);
    }

    /** `next_tab`: only the tab moves. */
    method NextTab()
      modifies this`activeTab
      ensures Ui() == old(Ui()).(activeTab := old(activeTab).Next())
    {
      activeTab := activeTab.Next();
    }

    /** `previous_tab`: only the tab moves. */
    method PreviousTab()
      modifies this`activeTab
      ensures Ui() == old(Ui()).(activeTab := old(activeTab).Previous())
    {
      activeTab := activeTab.Previous();
    }

    /** `update_data`: disk, then network, then containers, then logs. A disk
        failure ends the cycle with that error and nothing after it runs; the
        container and log sources never make the cycle fail; the log source
        runs only while the log tab is shown. The interface state is not
        touched. */
    method UpdateData(diskInput: Disk.DiskInput, netSnapshot: seq<Network.InterfaceSample>,
                      outcome: Container.ListOutcome, logSources: Logs.LogSources, nowMs: nat)
      returns (r: Outcome)
      requires Disk.UpdateDefined(disk.State(), diskInput, disk.Unknown())
      requires |logSources.syslog.files| == |Logs.LOG_FILES|
      modifies disk, network, docker, logs
      ensures Disk.Stepped(old(disk.State()), diskInput, disk.Unknown(), disk.State(), r)
      ensures r.Fail? ==>
        && network.State() == old(network.State())
        && docker.State() == old(docker.State())
        && logs.State() == old(logs.State())
      ensures r.Pass? ==>
        && network.State() == Network.Step(old(network.State()), netSnapshot, nowMs)
        && docker.State() == Container.Step(old(docker.State()), docker.hasClient, outcome, docker.lang)
        && logs.State() == (if activeTab == Logs then Logs.Step(old(logs.State()), logSources, nowMs, logs.lang)
                            else old(logs.State()))
    {
      r := disk.Update(diskInput);
      if r.Fail? {
        return;
      }
      network.Update(netSnapshot, nowMs);
      var dockerResult := docker.Update(outcome);
      if activeTab == Logs {
        logs.Update(logSources, nowMs);
      }
    }
  }
}
