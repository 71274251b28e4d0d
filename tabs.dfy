/** The two cyclic enumerations of src/app.rs: the top-level tabs and the log
    categories, each with `next` and `previous`. Their position in the tab bar
    (`Index`) is the order of declaration. */
module Tabs {

  datatype ActiveTab = Cpu | Memory | Disk | Network | Docker | Logs {

    /** Position in the tab bar, as `ActiveTab as usize`. */
    function Index(): (i: nat)
      ensures i < 6
    {
      match this
      case Cpu => 0
      case Memory => 1
      case Disk => 2
      case Network => 3
      case Docker => 4
      case Logs => 5
    }

    /** `ActiveTab::next`: one position to the right, wrapping from Logs to Cpu. */
    function Next(): (r: ActiveTab)
      ensures r.Index() == (Index() + 1) % 6
      ensures r.Previous() == this
    {
      match this
      case Cpu => Memory
      case Memory => Disk
      case Disk => Network
      case Network => ActiveTab.Docker
      case Docker => Logs
      case Logs => Cpu
    }

    /** `ActiveTab::previous`: one position to the left, wrapping from Cpu to Logs. */
    function Previous(): (r: ActiveTab)
      ensures r.Index() == (Index() + 5) % 6
    {
      match this
      case Cpu => Logs
      case Memory => Cpu
      case Disk => Memory
      case Network => Disk
      case Docker => Network
      case Logs => ActiveTab.Docker
    }
  }

  /** The tab at a position of the tab bar. */
  function TabAt(i: nat): (t: ActiveTab)
    requires i < 6
    ensures t.Index() == i
  {
    [Cpu, Memory, Disk, Network, ActiveTab.Docker, Logs][i]
  }

  datatype LogCategory = System | Kernel | Error | Docker | Boot | All {

    /** Position in the category bar, as listed in `render_log_tabs`. */
    function Index(): (i: nat)
      ensures i < 6
    {
      match this
      case System => 0
      case Kernel => 1
      case Error => 2
      case Docker => 3
      case Boot => 4
      case All => 5
    }

    /** `LogCategory::next`, wrapping from All to System. */
    function Next(): (r: LogCategory)
      ensures r.Index() == (Index() + 1) % 6
      ensures r.Previous() == this
    {
      match this
      case System => Kernel
      case Kernel => Error
      case Error => LogCategory.Docker
      case Docker => Boot
      case Boot => All
      case All => System
    }

    /** `LogCategory::previous`, wrapping from System to All. */
    function Previous(): (r: LogCategory)
      ensures r.Index() == (Index() + 5) % 6
    {
      match this
      case System => All
      case Kernel => System
      case Error => Kernel
      case Docker => Error
      case Boot => LogCategory.Docker
      case All => Boot
    }
  }

  /** The category at a position of the category bar. */
  function CategoryAt(i: nat): (c: LogCategory)
    requires i < 6
    ensures c.Index() == i
  {
    [System, Kernel, Error, LogCategory.Docker, Boot, All][i]
  }

  /** The five categories that have a source of their own, in the order the
      `All` view concatenates them. */
  const REAL_CATEGORIES: seq<LogCategory> := [System, Kernel, Error, LogCategory.Docker, Boot]

  /** `Index` is one-to-one, so a tab is determined by its position. */
  lemma TabIndexInjective(a: ActiveTab, b: ActiveTab)
    requires a.Index() == b.Index()
    ensures a == b
  {
  }

  lemma CategoryIndexInjective(a: LogCategory, b: LogCategory)
    requires a.Index() == b.Index()
    ensures a == b
  {
  }

  /** `previous` undoes `next` and `next` undoes `previous`, for tabs. */
  lemma TabNextPreviousInverse(t: ActiveTab)
    ensures t.Next().Previous() == t
    ensures t.Previous().Next() == t
  {
  }

  /** `previous` undoes `next` and `next` undoes `previous`, for categories. */
  lemma CategoryNextPreviousInverse(c: LogCategory)
    ensures c.Next().Previous() == c
    ensures c.Previous().Next() == c
  {
  }

  function TabIterate(t: ActiveTab, n: nat): (r: ActiveTab)
    decreases n
  {
    if n == 0 then t else TabIterate(t.Next(), n - 1)
  }

  function CategoryIterate(c: LogCategory, n: nat): (r: LogCategory)
    decreases n
  {
    if n == 0 then c else CategoryIterate(c.Next(), n - 1)
  }

  /** `n` steps of `next` advance the tab position by `n`, modulo six. */
  lemma {:induction false} TabIterateIndex(t: ActiveTab, n: nat)
    ensures TabIterate(t, n).Index() == (t.Index() + n) % 6
    decreases n
  {
    if n > 0 {
      TabIterateIndex(t.Next(), n - 1);
    }
  }

  lemma {:induction false} CategoryIterateIndex(c: LogCategory, n: nat)
    ensures CategoryIterate(c, n).Index() == (c.Index() + n) % 6
    decreases n
  {
    if n > 0 {
      CategoryIterateIndex(c.Next(), n - 1);
    }
  }

  /** Both cycles have period six: six steps of `next` return to the start. */
  lemma SixStepsReturn(t: ActiveTab, c: LogCategory)
    ensures TabIterate(t, 6) == t
    ensures CategoryIterate(c, 6) == c
  {
    TabIterateIndex(t, 6);
    TabIndexInjective(TabIterate(t, 6), t);
    CategoryIterateIndex(c, 6);
    CategoryIndexInjective(CategoryIterate(c, 6), c);
  }
}
