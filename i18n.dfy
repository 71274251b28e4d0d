/** Interface language selection and the translation tables (src/i18n.rs). */
module I18n {
  import opened Wrappers
  import opened Text

  datatype Language = English | Chinese

  /** The locale markers that select Chinese, checked against the lower-cased locale. */
  const CHINESE_MARKERS: seq<string> := ["zh_cn", "zh_tw", "zh_hk", "zh_sg", "zh_mo", "zh-hans", "zh-hant"]

  /** The locale markers that select English when no Chinese marker is present. */
  const ENGLISH_MARKERS: seq<string> := ["en_us", "en_gb", "en_au", "en_ca"]

  predicate HasMarker(lower: string, markers: seq<string>)
  {
    exists i :: 0 <= i < |markers| && Contains(lower, markers[i])
  }

  /** The locale value the program inspects: `LANG`, else `LC_ALL`, else
      `LC_MESSAGES`, else the empty string. A variable that is unset, or set
      but not valid Unicode, is `None`: `env::var` fails for both, and the
      program then tries the next variable. */
  function ResolveLocale(lang: Option<string>, lcAll: Option<string>, lcMessages: Option<string>): (r: string)
    ensures lang.Some? ==> r == lang.value
    ensures lang.None? && lcAll.Some? ==> r == lcAll.value
    ensures lang.None? && lcAll.None? && lcMessages.Some? ==> r == lcMessages.value
    ensures lang.None? && lcAll.None? && lcMessages.None? ==> r == ""
  {
    if lang.Some? then lang.value
    else if lcAll.Some? then lcAll.value
    else lcMessages.GetOr("")
  }

  /** `Language::detect` applied to the resolved locale value. */
  function Detect(locale: string): (r: Language)
    ensures HasMarker(ToLowerAscii(locale), CHINESE_MARKERS) ==> r == Chinese
    ensures r == English <==>
      !HasMarker(ToLowerAscii(locale), CHINESE_MARKERS) &&
      (StartsWith(ToLowerAscii(locale), "en") || HasMarker(ToLowerAscii(locale), ENGLISH_MARKERS))
  {
    var lower := ToLowerAscii(locale);
    if Contains(lower, "zh_cn") ||
       Contains(lower, "zh_tw") ||
       Contains(lower, "zh_hk") ||
       Contains(lower, "zh_sg") ||
       Contains(lower, "zh_mo") ||
       Contains(lower, "zh-hans") ||
       Contains(lower, "zh-hant") then
      assert Contains(lower, CHINESE_MARKERS[0]) || Contains(lower, CHINESE_MARKERS[1]) ||
             Contains(lower, CHINESE_MARKERS[2]) || Contains(lower, CHINESE_MARKERS[3]) ||
             Contains(lower, CHINESE_MARKERS[4]) || Contains(lower, CHINESE_MARKERS[5]) ||
             Contains(lower, CHINESE_MARKERS[6]);
      Chinese
    else if StartsWith(lower, "en") ||
            Contains(lower, "en_us") ||
            Contains(lower, "en_gb") ||
            Contains(lower, "en_au") ||
            Contains(lower, "en_ca") then
      assert StartsWith(lower, "en") ||
             Contains(lower, ENGLISH_MARKERS[0]) || Contains(lower, ENGLISH_MARKERS[1]) ||
             Contains(lower, ENGLISH_MARKERS[2]) || Contains(lower, ENGLISH_MARKERS[3]);
      English
    else
      Chinese
  }

  /** The match arms of `get_english`. */
  const ENGLISH_TABLE: map<string, string> := map[
      "system_monitor" := "System Monitor",
      "cpu" := "CPU",
      "memory" := "Memory",
      "disk" := "Disk",
      "network" := "Network",
      "docker" := "Docker",
      "logs" := "Logs",
      "global_cpu_usage" := "Global CPU Usage",
      "cpu_cores" := "CPU Cores",
      "core" := "Core",
      "usage" := "Usage",
      "memory_title" := "Memory",
      "swap_title" := "Swap",
      "disk_usage" := "Disk Usage",
      "filesystem" := "Filesystem",
      "mount_point" := "Mount Point",
      "total" := "Total",
      "used" := "Used",
      "free" := "Free",
      "percent" := "Percent",
      "read_speed" := "Read Speed",
      "write_speed" := "Write Speed",
      "network_interfaces" := "Network Interfaces",
      "interface" := "Interface",
      "received" := "Received",
      "sent" := "Sent",
      "receive_speed" := "Receive Speed",
      "transmit_speed" := "Transmit Speed",
      "docker_no_containers" := "Docker (No containers running)",
      "docker_error" := "Docker (Error)",
      "docker_containers" := "Docker Containers",
      "container_id" := "Container ID",
      "image" := "Image",
      "status" := "Status",
      "name" := "Name",
      "running_status" := "running",
      "cpu_percent" := "CPU %",
      "memory_percent" := "Memory %",
      "ports" := "Ports",
      "no_docker_containers_message" := "No Docker containers are currently running.",
      "docker_connection_error" := "Failed to connect to Docker: {}",
      "docker_not_available" := "Docker not available",
      "failed_to_list_containers" := "Failed to list containers: {}",
      "system_logs" := "System Logs (Last 20 Lines)",
      "time" := "Time",
      "message" := "Message",
      "log_category_system" := "System Logs",
      "log_category_kernel" := "Kernel Logs",
      "log_category_error" := "Error Logs",
      "log_category_docker" := "Docker Logs",
      "log_category_boot" := "Boot Logs",
      "log_category_all" := "All Logs",
      "gb" := "GB",
      "mb" := "MB",
      "kb" := "KB",
      "b" := "B",
      "url_request_about" := "Make HTTP requests to URLs",
      "url_help" := "The URL to request",
      "method_help" := "HTTP method (GET, POST, PUT, DELETE)",
      "data_help" := "Request data (JSON or plain text)",
      "unsupported_method" := "Unsupported HTTP method: {}",
      "data_update_failed" := "⚠️  Data update failed: {}",
      "docker_update_failed" := "Warning: Failed to update Docker data: {}",
      "docker_connect_failed" := "Failed to connect to Docker: {}",
      "log_read_failed" := "⚠️  Failed to read logs: {}",
      "log_update_failed" := "日志更新失败: {}",
      "linux_only_logs" := "⚠️  Log viewing is only supported on Linux systems",
      "journalctl_failed" := "journalctl execution failed (status code: {})",
      "syslog_read_failed" := "Failed to read syslog (status code: {})",
      "unknown" := "unknown",
      "tcp" := "tcp"
    ]

  /** The match arms of `get_chinese`. */
  const CHINESE_TABLE: map<string, string> := map[
      "system_monitor" := "系统监控",
      "cpu" := "CPU",
      "memory" := "内存",
      "disk" := "磁盘",
      "network" := "网络",
      "docker" := "Docker",
      "logs" := "日志",
      "global_cpu_usage" := "全局CPU使用率",
      "cpu_cores" := "CPU核心",
      "core" := "核心",
      "usage" := "使用率",
      "memory_title" := "内存",
      "swap_title" := "交换分区",
      "disk_usage" := "磁盘使用情况",
      "filesystem" := "文件系统",
      "mount_point" := "挂载点",
      "total" := "总量",
      "used" := "已用",
      "free" := "可用",
      "percent" := "百分比",
      "read_speed" := "读取速度",
      "write_speed" := "写入速度",
      "network_interfaces" := "网络接口",
      "interface" := "接口",
      "received" := "接收",
      "sent" := "发送",
      "receive_speed" := "接收速度",
      "transmit_speed" := "发送速度",
      "docker_no_containers" := "Docker (无运行中的容器)",
      "docker_error" := "Docker (错误)",
      "docker_containers" := "Docker容器",
      "container_id" := "容器ID",
      "image" := "镜像",
      "status" := "状态",
      "name" := "名称",
      "running_status" := "running",
      "cpu_percent" := "CPU %",
      "memory_percent" := "内存 %",
      "ports" := "端口",
      "no_docker_containers_message" := "当前没有运行中的Docker容器。",
      "docker_connection_error" := "连接Docker失败: {}",
      "docker_not_available" := "Docker不可用",
      "failed_to_list_containers" := "获取容器列表失败: {}",
      "system_logs" := "系统日志 (最近20行)",
      "time" := "时间",
      "message" := "消息",
      "log_category_system" := "系统日志",
      "log_category_kernel" := "内核日志",
      "log_category_error" := "错误日志",
      "log_category_docker" := "Docker日志",
      "log_category_boot" := "引导日志",
      "log_category_all" := "全部日志",
      "gb" := "GB",
      "mb" := "MB",
      "kb" := "KB",
      "b" := "B",
      "url_request_about" := "向URL发送HTTP请求",
      "url_help" := "要请求的URL",
      "method_help" := "HTTP方法 (GET, POST, PUT, DELETE)",
      "data_help" := "请求数据 (JSON或纯文本)",
      "unsupported_method" := "不支持的HTTP方法: {}",
      "data_update_failed" := "⚠️  数据更新失败: {}",
      "docker_update_failed" := "警告: Docker数据更新失败: {}",
      "docker_connect_failed" := "连接Docker失败: {}",
      "log_read_failed" := "⚠️  读取日志失败: {}",
      "log_update_failed" := "日志更新失败: {}",
      "linux_only_logs" := "⚠️  仅支持Linux系统查看日志",
      "journalctl_failed" := "journalctl执行失败 (状态码: {})",
      "syslog_read_failed" := "读取syslog失败 (状态码: {})",
      "unknown" := "未知",
      "tcp" := "tcp"
    ]

  function Table(language: Language): map<string, string>
  {
    match language
    case English => ENGLISH_TABLE
    case Chinese => CHINESE_TABLE
  }

  /** `I18n::get`: the entry of the language's table, or the key itself when the
      table has no entry for it. */
  function Get(language: Language, key: string): (r: string)
    ensures key in Table(language) ==> r == Table(language)[key]
    ensures key !in Table(language) ==> r == key
  {
    if key in Table(language) then Table(language)[key] else key
  }

  /** A key missing from both tables comes back unchanged whatever the language. */
  lemma GetUnknownKey(key: string, language: Language)
    requires key !in ENGLISH_TABLE && key !in CHINESE_TABLE
    ensures Get(language, key) == key
  {
  }

  /** The entries the modelled core looks up. */
  lemma CoreEntries()
    ensures Get(English, "unknown") == "unknown" && Get(Chinese, "unknown") == "未知"
    ensures Get(English, "tcp") == "tcp" && Get(Chinese, "tcp") == "tcp"
    ensures Get(English, "docker_not_available") == "Docker not available"
    ensures Get(Chinese, "docker_not_available") == "Docker不可用"
  {
  }

  /** A typical Chinese locale. */
  lemma {:induction false} DetectsSimplifiedChinese()
    ensures Detect("zh_CN.UTF-8") == Chinese
  {
    var lower := ToLowerAscii("zh_CN.UTF-8");
    assert lower == "zh_cn" + ".utf-8";
    ContainsInfix("", "zh_cn", ".utf-8");
    assert "" + "zh_cn" + ".utf-8" == lower;
  }

  /** A typical English locale. */
  lemma {:induction false} DetectsEnglish()
    ensures Detect("en_US.UTF-8") == English
  {
    var lower := ToLowerAscii("en_US.UTF-8");
    assert lower == "en_us.utf-8";
    assert StartsWith(lower, "en");
    assert !HasMarker(lower, CHINESE_MARKERS) by {
      forall i | 0 <= i < |CHINESE_MARKERS| ensures !Contains(lower, CHINESE_MARKERS[i]) {
        NotContainsFirst(lower, CHINESE_MARKERS[i]);
      }
    }
  }

  /** A string lacking the first character of `p` does not contain `p`. */
  lemma {:induction false} NotContainsFirst(s: string, p: string)
    requires |p| > 0
    requires forall i :: 0 <= i < |s| ==> s[i] != p[0]
    ensures !Contains(s, p)
    decreases |s|
  {
    if |s| > 0 {
      assert !StartsWith(s, p) by { assert s[0] != p[0]; }
      NotContainsFirst(s[1..], p);
    }
  }

  /** An unset locale, and any locale naming neither language, selects Chinese. */
  lemma {:induction false} DetectsDefault()
    ensures Detect("") == Chinese
    ensures Detect("C.UTF-8") == Chinese
  {
    assert ToLowerAscii("") == "";
    assert !StartsWith("", "en");
    forall i | 0 <= i < |ENGLISH_MARKERS| ensures !Contains("", ENGLISH_MARKERS[i]) {
      assert |ENGLISH_MARKERS[i]| > 0;
    }
    var lower := ToLowerAscii("C.UTF-8");
    assert lower == "c.utf-8";
    forall i | 0 <= i < |ENGLISH_MARKERS| ensures !Contains(lower, ENGLISH_MARKERS[i]) {
      NotContainsFirst(lower, ENGLISH_MARKERS[i]);
    }
    assert !StartsWith(lower, "en") by { assert lower[..2][0] == 'c'; }
  }

  /** The Chinese check comes first: a locale carrying both markers is Chinese. */
  lemma {:induction false} ChineseWinsOverEnglish()
    ensures Detect("en_US:zh_TW") == Chinese
  {
    var lower := ToLowerAscii("en_US:zh_TW");
    assert lower == "en_us:" + "zh_tw" + "";
    ContainsInfix("en_us:", "zh_tw", "");
    assert Contains(lower, CHINESE_MARKERS[1]);
  }
}
