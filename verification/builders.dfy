/**
 The twelve widget builders and the dispatcher that picks one. A builder
 resolves its options, asks the host service for its figures and, if every
 answer is a value, returns a render job: the sink call to make later,
 holding the figures already fetched. The first error from the service ends
 the builder with that error and no job.
 */
module Builders {
  import opened Wrappers
  import opened Strings
  import opened WidgetOptions
  import Duration
  import S = Service
  import K = Catalogue

  /** What a text box shows: fetched text, or a rate shown as a two-decimal percentage. */
  datatype Content = Plain(text: string) | Percent(rate: real)

  /** A deferred call to the terminal UI, with everything it will draw. */
  datatype RenderJob =
    | AddTextBox(content: Content, title: string, options: Options)
    | AddBarChart(values: seq<int>, labels: seq<string>, title: string, options: Options)
    | AddTable(rows: S.Rows, title: string, options: Options)
  {
    /** The title every kind of job carries. */
    function Title(): string {
      match this
      case AddTextBox(_, t, _) => t
      case AddBarChart(_, _, t, _) => t
      case AddTable(_, t, _) => t
    }
  }

  /** Why no render job was built. */
  datatype Error =
    | UnknownWidget(name: string)
    | FetchFailed(message: string)

  /** The text of an error, as the caller sees it. */
  function Message(e: Error): string {
    match e
    case UnknownWidget(name) => "can't find the widget " + name
    case FetchFailed(message) => message
  }

  /** A builder's outcome together with the service calls it made, in order. */
  datatype Built = Built(job: Result<RenderJob, Error>, calls: seq<S.Call>)

  /** The default shell listing of the generic table and the disk table's columns. */
  const DfCommand: string := "/bin/df -x devtmpfs -x tmpfs -x debugfs | tail -n +2"
  const DfHeaders: seq<string> := ["Filesystem", "Size", "Used", "Available", "Use%", "Mount"]
  const DefaultMemoryMetrics: seq<string> := ["MemTotal", "MemFree", "MemAvailable"]

  /** Go's `int(f)`: truncation toward zero. */
  function TruncateRate(r: real): int {
    if r >= 0.0 then r.Floor else -((-r).Floor)
  }

  /** One service call; on a value, the job `render` makes of it. */
  function Fetch<T>(call: S.Call, answer: Result<T, string>, render: T -> RenderJob): (b: Built)
    ensures b.calls == [call]
    ensures b.job.Failure? <==> answer.Failure?
    ensures answer.Failure? ==> b.job.error == FetchFailed(answer.error)
    ensures answer.Success? ==> b.job.value == render(answer.value)
  {
    match answer
    case Failure(e) => Built(Failure(FetchFailed(e)), [call])
    case Success(v) => Built(Success(render(v)), [call])
  }

  /* ---------------------------------------------------------------------
     The builders
     --------------------------------------------------------------------- */

  function BuildBoxLoad(opts: Options, host: S.Host): (b: Built)
    ensures b.calls == [S.Load]
    ensures b.job.Failure? <==> host.load.Failure?
    ensures host.load.Failure? ==> b.job.error == FetchFailed(host.load.error)
    ensures b.job.Success? ==> b.job.value.AddTextBox? && b.job.value.content == Plain(host.load.value)
  {
    var title := ValueOr(opts, TitleKey, " Load ");
    Fetch(S.Load, host.load, (load: string) => AddTextBox(Plain(load), title, opts))
  }

  function BuildBoxProcesses(opts: Options, host: S.Host): (b: Built)
    ensures b.calls == [S.Processes]
    ensures b.job.Failure? <==> host.processes.Failure?
    ensures host.processes.Failure? ==> b.job.error == FetchFailed(host.processes.error)
    ensures b.job.Success? ==> b.job.value.AddTextBox? && b.job.value.content == Plain(host.processes.value)
  {
    var title := ValueOr(opts, TitleKey, " Running processes ");
    Fetch(S.Processes, host.processes, (procs: string) => AddTextBox(Plain(procs), title, opts))
  }

  function BuildBoxUptime(opts: Options, host: S.Host): (b: Built)
    ensures b.calls == [S.Uptime]
    ensures b.job.Failure? <==> host.uptime.Failure?
    ensures host.uptime.Failure? ==> b.job.error == FetchFailed(host.uptime.error)
    ensures b.job.Success? ==> b.job.value.AddTextBox? && b.job.value.content == Plain(Duration.Elapsed(host.uptime.value))
  {
    var title := ValueOr(opts, TitleKey, " Uptime ");
    Fetch(S.Uptime, host.uptime, (uptime: nat) => AddTextBox(Plain(Duration.Elapsed(uptime)), title, opts))
  }

  function BuildBoxCpuRate(opts: Options, host: S.Host): (b: Built)
    ensures b.calls == [S.CpuRate]
    ensures b.job.Failure? <==> host.cpuRate.Failure?
    ensures host.cpuRate.Failure? ==> b.job.error == FetchFailed(host.cpuRate.error)
    ensures b.job.Success? ==> b.job.value.AddTextBox? && b.job.value.content == Percent(host.cpuRate.value)
  {
    var title := ValueOr(opts, TitleKey, " CPU usage ");
    Fetch(S.CpuRate, host.cpuRate, (rate: real) => AddTextBox(Percent(rate), title, opts))
  }

  function BuildBoxMemRate(opts: Options, host: S.Host): (b: Built)
    ensures b.calls == [S.MemoryRate]
    ensures b.job.Failure? <==> host.memoryRate.Failure?
    ensures host.memoryRate.Failure? ==> b.job.error == FetchFailed(host.memoryRate.error)
    ensures b.job.Success? ==> b.job.value.AddTextBox? && b.job.value.content == Percent(host.memoryRate.value)
  {
    var title := ValueOr(opts, TitleKey, " Memory usage ");
    Fetch(S.MemoryRate, host.memoryRate, (rate: real) => AddTextBox(Percent(rate), title, opts))
  }

  function BuildBoxSwapRate(opts: Options, host: S.Host): (b: Built)
    ensures b.calls == [S.SwapRate]
    ensures b.job.Failure? <==> host.swapRate.Failure?
    ensures host.swapRate.Failure? ==> b.job.error == FetchFailed(host.swapRate.error)
    ensures b.job.Success? ==> b.job.value.AddTextBox? && b.job.value.content == Percent(host.swapRate.value)
  {
    var title := ValueOr(opts, TitleKey, " Swap usage ");
    Fetch(S.SwapRate, host.swapRate, (rate: real) => AddTextBox(Percent(rate), title, opts))
  }

  /**
   The rates bar asks for swap, then CPU, then memory, and stops at the
   first error; its bars are CPU, memory and swap, truncated to integers.
   */
  function BuildBarRates(opts: Options, host: S.Host): (b: Built)
    ensures b.calls == [S.SwapRate] <==> host.swapRate.Failure?
    ensures b.calls == [S.SwapRate, S.CpuRate] <==> host.swapRate.Success? && host.cpuRate.Failure?
    ensures b.calls == [S.SwapRate, S.CpuRate, S.MemoryRate] <==> host.swapRate.Success? && host.cpuRate.Success?
    ensures b.job.Success? <==> host.swapRate.Success? && host.cpuRate.Success? && host.memoryRate.Success?
    ensures b.job.Success? ==>
      && b.job.value.AddBarChart?
      && b.job.value.values == [TruncateRate(host.cpuRate.value), TruncateRate(host.memoryRate.value), TruncateRate(host.swapRate.value)]
      && b.job.value.labels == ["CPU", "Memory", "Swap"]
  {
    var title := ValueOr(opts, TitleKey, " Resources usage (%) ");
    match host.swapRate
    case Failure(e) => Built(Failure(FetchFailed(e)), [S.SwapRate])
    case Success(swapRate) =>
      match host.cpuRate
      case Failure(e) => Built(Failure(FetchFailed(e)), [S.SwapRate, S.CpuRate])
      case Success(cpuRate) =>
        var calls := [S.SwapRate, S.CpuRate, S.MemoryRate];
        match host.memoryRate
        case Failure(e) => Built(Failure(FetchFailed(e)), calls)
        case Success(memoryRate) =>
          var values := [TruncateRate(cpuRate), TruncateRate(memoryRate), TruncateRate(swapRate)];
          Built(Success(AddBarChart(values, ["CPU", "Memory", "Swap"], title, opts)), calls)
  }

  function BuildBoxNetIo(opts: Options, host: S.Host): (b: Built)
    ensures b.calls == [S.NetIo(ValueOr(opts, UnitKey, "kb"))]
    ensures b.job.Failure? <==> host.netIo(ValueOr(opts, UnitKey, "kb")).Failure?
    ensures b.job.Failure? ==> b.job.error == FetchFailed(host.netIo(ValueOr(opts, UnitKey, "kb")).error)
    ensures b.job.Success? ==> b.job.value.AddTextBox? && b.job.value.content == Plain(host.netIo(ValueOr(opts, UnitKey, "kb")).value)
  {
    var unit := ValueOr(opts, UnitKey, "kb");
    var title := ValueOr(opts, TitleKey, " Net I/O (" + ToUpper(unit) + ") ");
    Fetch(S.NetIo(unit), host.netIo(unit), (netIo: string) => AddTextBox(Plain(netIo), title, opts))
  }

  function BuildBoxDiskIo(opts: Options, host: S.Host): (b: Built)
    ensures b.calls == [S.DiskIo(ValueOr(opts, UnitKey, "kb"))]
    ensures b.job.Failure? <==> host.diskIo(ValueOr(opts, UnitKey, "kb")).Failure?
    ensures b.job.Failure? ==> b.job.error == FetchFailed(host.diskIo(ValueOr(opts, UnitKey, "kb")).error)
    ensures b.job.Success? ==> b.job.value.AddTextBox? && b.job.value.content == Plain(host.diskIo(ValueOr(opts, UnitKey, "kb")).value)
  {
    var unit := ValueOr(opts, UnitKey, "kb");
    var title := ValueOr(opts, TitleKey, " Disk I/O (" + ToUpper(unit) + ") ");
    Fetch(S.DiskIo(unit), host.diskIo(unit), (diskIo: string) => AddTextBox(Plain(diskIo), title, opts))
  }

  /**
   The memory bar asks for the resolved metrics in the resolved unit. Its
   labels are the headers option when given, else the resolved metrics.
   */
  function BuildBarMemory(opts: Options, host: S.Host): (b: Built)
    ensures |b.calls| == 1 && b.calls[0].Memory?
    ensures b.calls[0].unit == ValueOr(opts, UnitKey, "kb")
    ensures !ListGiven(opts, MetricsKey) ==> b.calls[0].metrics == DefaultMemoryMetrics
    ensures ListGiven(opts, MetricsKey) ==>
      && |b.calls[0].metrics| >= 1
      && SeparatorFree(b.calls[0].metrics, ',')
      && Join(b.calls[0].metrics, ',') == TrimSpace(opts[MetricsKey])
    ensures b.job.Success? <==> host.memory(b.calls[0].metrics, b.calls[0].unit).Success?
    ensures b.job.Success? ==>
      && b.job.value.AddBarChart?
      && b.job.value.values == host.memory(b.calls[0].metrics, b.calls[0].unit).value
      && (!ListGiven(opts, HeadersKey) ==> b.job.value.labels == b.calls[0].metrics)
      && (ListGiven(opts, HeadersKey) ==>
           && |b.job.value.labels| >= 1
           && SeparatorFree(b.job.value.labels, ',')
           && Join(b.job.value.labels, ',') == TrimSpace(opts[HeadersKey]))
  {
    var metrics := ListOr(opts, MetricsKey, DefaultMemoryMetrics);
    var headers := ListOr(opts, HeadersKey, metrics);
    var unit := ValueOr(opts, UnitKey, "kb");
    var title := ValueOr(opts, TitleKey, " Memory (" + ToUpper(unit) + ") ");
    Fetch(S.Memory(metrics, unit), host.memory(metrics, unit), (mem: seq<int>) => AddBarChart(mem, headers, title, opts))
  }

  function BuildTableDisk(opts: Options, host: S.Host): (b: Built)
    ensures b.calls == [S.Disk(DfHeaders, ValueOr(opts, UnitKey, "gb"))]
    ensures b.job.Failure? <==> host.disk(DfHeaders, ValueOr(opts, UnitKey, "gb")).Failure?
    ensures b.job.Failure? ==> b.job.error == FetchFailed(host.disk(DfHeaders, ValueOr(opts, UnitKey, "gb")).error)
    ensures b.job.Success? ==> b.job.value.AddTable? && b.job.value.rows == host.disk(DfHeaders, ValueOr(opts, UnitKey, "gb")).value
  {
    var unit := ValueOr(opts, UnitKey, "gb");
    var title := ValueOr(opts, TitleKey, " Disks ");
    var headers := DfHeaders;
    Fetch(S.Disk(headers, unit), host.disk(headers, unit), (data: S.Rows) => AddTable(data, title, opts))
  }

  /**
   The generic table runs the command option, or the `df` listing when it is
   absent. Its headers are the `df` columns without a command, none with
   one, and in either case the headers option when that is given.
   */
  function BuildTable(opts: Options, host: S.Host): (b: Built)
    ensures |b.calls| == 1 && b.calls[0].Table?
    ensures b.calls[0].command == if CommandKey in opts then opts[CommandKey] else DfCommand
    ensures !ListGiven(opts, HeadersKey) ==> b.calls[0].headers == if CommandKey in opts then [] else DfHeaders
    ensures ListGiven(opts, HeadersKey) ==>
      && |b.calls[0].headers| >= 1
      && SeparatorFree(b.calls[0].headers, ',')
      && Join(b.calls[0].headers, ',') == TrimSpace(opts[HeadersKey])
    ensures b.job.Success? <==> host.table(b.calls[0].command, b.calls[0].headers).Success?
    ensures b.job.Success? ==> b.job.value == AddTable(host.table(b.calls[0].command, b.calls[0].headers).value, b.job.value.title, opts)
  {
    var title := ValueOr(opts, TitleKey, " Table ");
    var (cmd, base) := if CommandKey in opts then (opts[CommandKey], []) else (DfCommand, DfHeaders);
    var headers := ListOr(opts, HeadersKey, base);
    Fetch(S.Table(cmd, headers), host.table(cmd, headers), (data: S.Rows) => AddTable(data, title, opts))
  }

  /* ---------------------------------------------------------------------
     Dispatch
     --------------------------------------------------------------------- */

  /** The unit a kind falls back on when the unit option is absent. */
  function DefaultUnit(kind: K.WidgetKind): string {
    if kind == K.TableDisk then "gb" else "kb"
  }

  /** The title of each kind when the title option is absent, given the resolved unit. */
  function DefaultTitle(kind: K.WidgetKind, unit: string): string {
    match kind
    case BoxUptime => " Uptime "
    case BoxLoad => " Load "
    case BoxProcesses => " Running processes "
    case BoxCpuRate => " CPU usage "
    case BoxMemRate => " Memory usage "
    case BoxSwapRate => " Swap usage "
    case BoxNetIo => " Net I/O (" + ToUpper(unit) + ") "
    case BoxDiskIo => " Disk I/O (" + ToUpper(unit) + ") "
    case BarMemory => " Memory (" + ToUpper(unit) + ") "
    case BarRates => " Resources usage (%) "
    case TableDisk => " Disks "
    case Table => " Table "
  }

  /** The sink call each kind renders with. */
  predicate Renders(kind: K.WidgetKind, job: RenderJob) {
    match kind
    case BarMemory => job.AddBarChart?
    case BarRates => job.AddBarChart?
    case TableDisk => job.AddTable?
    case Table => job.AddTable?
    case _ => job.AddTextBox?
  }

  /** The builder of a kind: the `switch` in `CreateWidgets` on the rewritten name. */
  function Build(kind: K.WidgetKind, opts: Options, host: S.Host): (b: Built)
    ensures 1 <= |b.calls| <= 3
    ensures b.job.Failure? ==> b.job.error.FetchFailed?
    ensures b.job.Success? ==> Renders(kind, b.job.value) && b.job.value.options == opts
  {
    match kind
    case BoxUptime => BuildBoxUptime(opts, host)
    case BoxLoad => BuildBoxLoad(opts, host)
    case BoxProcesses => BuildBoxProcesses(opts, host)
    case BarMemory => BuildBarMemory(opts, host)
    case BoxCpuRate => BuildBoxCpuRate(opts, host)
    case BoxMemRate => BuildBoxMemRate(opts, host)
    case BoxSwapRate => BuildBoxSwapRate(opts, host)
    case BoxNetIo => BuildBoxNetIo(opts, host)
    case BoxDiskIo => BuildBoxDiskIo(opts, host)
    case BarRates => BuildBarRates(opts, host)
    case TableDisk => BuildTableDisk(opts, host)
    case Table => BuildTable(opts, host)
  }

  /**
   The service calls of a build stop at the first error: every call before
   the last one got a value, the build fails exactly when the last call got
   an error, and then it fails with that error and produces no job.
   */
  predicate StopsAtFirstError(host: S.Host, b: Built) {
    && |b.calls| >= 1
    && (forall i :: 0 <= i < |b.calls| - 1 ==> !S.Failed(host, b.calls[i]))
    && (b.job.Failure? <==> S.Failed(host, b.calls[|b.calls| - 1]))
    && (b.job.Failure? ==> b.job.error == FetchFailed(S.ErrorOf(host, b.calls[|b.calls| - 1])))
  }

  /** What a build with a single service call must satisfy to stop at its error. */
  predicate AnswersOneCall(host: S.Host, b: Built) {
    && |b.calls| == 1
    && (b.job.Failure? <==> S.Failed(host, b.calls[0]))
    && (b.job.Failure? ==> b.job.error == FetchFailed(S.ErrorOf(host, b.calls[0])))
  }

  /** A build with one call that reports that call's error stops at its first error. */
  lemma OneCallStops(host: S.Host, b: Built)
    requires AnswersOneCall(host, b)
    ensures StopsAtFirstError(host, b)
  {
  }

  lemma BarMemoryAnswers(opts: Options, host: S.Host)
    ensures AnswersOneCall(host, BuildBarMemory(opts, host))
  {
    var metrics := ListOr(opts, MetricsKey, DefaultMemoryMetrics);
    var unit := ValueOr(opts, UnitKey, "kb");
    assert S.Failed(host, S.Memory(metrics, unit)) <==> host.memory(metrics, unit).Failure?;
  }

  lemma TableAnswers(opts: Options, host: S.Host)
    ensures AnswersOneCall(host, BuildTable(opts, host))
  {
    var b := BuildTable(opts, host);
    assert S.Failed(host, b.calls[0]) <==> host.table(b.calls[0].command, b.calls[0].headers).Failure?;
  }

  /** Every builder other than the rates bar makes one call and reports its error. */
  lemma SingleCallBuilds(kind: K.WidgetKind, opts: Options, host: S.Host)
    requires kind != K.BarRates
    ensures AnswersOneCall(host, Build(kind, opts, host))
  {
    match kind
    case BarMemory => BarMemoryAnswers(opts, host);
    case Table => TableAnswers(opts, host);
    case TableDisk =>
    case BoxNetIo =>
    case BoxDiskIo =>
    case BoxUptime =>
    case BoxLoad =>
    case BoxProcesses =>
    case BoxCpuRate =>
    case BoxMemRate =>
    case BoxSwapRate =>
  }

  /**
   Every builder stops at the first error from the service and makes exactly
   one call, except the rates bar, which makes up to three.
   */
  lemma BuildStopsAtFirstError(kind: K.WidgetKind, opts: Options, host: S.Host)
    ensures StopsAtFirstError(host, Build(kind, opts, host))
    ensures kind != K.BarRates ==> |Build(kind, opts, host).calls| == 1
    ensures |Build(kind, opts, host).calls| <= 3
  {
    if kind == K.BarRates {
      var b := BuildBarRates(opts, host);
      assert S.Failed(host, S.SwapRate) <==> host.swapRate.Failure?;
      assert S.Failed(host, S.CpuRate) <==> host.cpuRate.Failure?;
      assert S.Failed(host, S.MemoryRate) <==> host.memoryRate.Failure?;
    } else {
      SingleCallBuilds(kind, opts, host);
      OneCallStops(host, Build(kind, opts, host));
    }
  }

  /**
   A job carries the unchanged options, the kind's sink call, and the title
   option whenever its key is present (even with an empty value), else the
   kind's default title for the resolved unit.
   */
  lemma BuildTitle(kind: K.WidgetKind, opts: Options, host: S.Host)
    ensures TitledAsConfigured(kind, opts, Build(kind, opts, host))
  {
    match kind
    case BarMemory => BarMemoryTitle(opts, host);
    case Table => TableTitle(opts, host);
    case BoxNetIo => IoBoxTitles(opts, host);
    case BoxDiskIo => IoBoxTitles(opts, host);
    case _ =>
  }

  /** A successful job renders with the kind's sink call, the options and the resolved title. */
  predicate TitledAsConfigured(kind: K.WidgetKind, opts: Options, b: Built) {
    b.job.Success? ==>
      && Renders(kind, b.job.value)
      && b.job.value.options == opts
      && b.job.value.Title() == if TitleKey in opts then opts[TitleKey] else DefaultTitle(kind, ValueOr(opts, UnitKey, DefaultUnit(kind)))
  }

  lemma BarMemoryTitle(opts: Options, host: S.Host)
    ensures TitledAsConfigured(K.BarMemory, opts, BuildBarMemory(opts, host))
  {
  }

  lemma IoBoxTitles(opts: Options, host: S.Host)
    ensures TitledAsConfigured(K.BoxNetIo, opts, BuildBoxNetIo(opts, host))
    ensures TitledAsConfigured(K.BoxDiskIo, opts, BuildBoxDiskIo(opts, host))
  {
  }

  lemma TableTitle(opts: Options, host: S.Host)
    ensures TitledAsConfigured(K.Table, opts, BuildTable(opts, host))
  {
  }

  /**
   `CreateWidgets`: a name selects a builder exactly when it is a kind's
   remote-host identifier or local-host alias; any other name fails with an
   error naming it as configured, and no service call is made.
   */
  function CreateWidgets(name: string, opts: Options, host: S.Host): (b: Built)
    ensures (forall k :: name != K.Name(k) && name != K.LocalName(k)) ==> b == Built(Failure(UnknownWidget(name)), [])
    ensures forall k :: name == K.Name(k) || name == K.LocalName(k) ==> b == Build(k, opts, host)
  {
    K.AcceptedNamesAll(name);
    match K.Parse(name)
    case None => Built(Failure(UnknownWidget(name)), [])
    case Some(kind) => Build(kind, opts, host)
  }

  /* ---------------------------------------------------------------------
     Properties of the dispatcher and the builders
     --------------------------------------------------------------------- */

  /** A kind's local-host alias and its remote-host identifier build the same widget. */
  lemma AliasRouting(k: K.WidgetKind, opts: Options, host: S.Host)
    ensures CreateWidgets(K.LocalName(k), opts, host) == Build(k, opts, host)
    ensures CreateWidgets(K.Name(k), opts, host) == Build(k, opts, host)
  {
  }

  /** An unknown name makes no call and fails with a message ending in that name. */
  lemma UnknownNameFails(name: string, opts: Options, host: S.Host)
    requires forall k :: name != K.Name(k) && name != K.LocalName(k)
    ensures CreateWidgets(name, opts, host).calls == []
    ensures CreateWidgets(name, opts, host).job.Failure?
    ensures Message(CreateWidgets(name, opts, host).job.error) == "can't find the widget " + name
  {
  }

  /** The uptime box shows text that reads back as the uptime's whole seconds. */
  lemma UptimeBoxReadsBack(opts: Options, host: S.Host)
    requires host.uptime.Success?
    ensures var b := BuildBoxUptime(opts, host);
      && b.calls == [S.Uptime]
      && b.job.Success?
      && b.job.value.AddTextBox?
      && b.job.value.content.Plain?
      && Duration.ReadSeconds(b.job.value.content.text) == host.uptime.value / Duration.Second
  {
    Duration.ElapsedRoundTrip(host.uptime.value);
  }

  /** The text and rate boxes show exactly the figure they fetched. */
  lemma BoxesShowFetchedFigure(opts: Options, host: S.Host)
    ensures host.load.Success? ==> BuildBoxLoad(opts, host).job.value.content == Plain(host.load.value)
    ensures host.processes.Success? ==> BuildBoxProcesses(opts, host).job.value.content == Plain(host.processes.value)
    ensures host.cpuRate.Success? ==> BuildBoxCpuRate(opts, host).job.value.content == Percent(host.cpuRate.value)
    ensures host.memoryRate.Success? ==> BuildBoxMemRate(opts, host).job.value.content == Percent(host.memoryRate.value)
    ensures host.swapRate.Success? ==> BuildBoxSwapRate(opts, host).job.value.content == Percent(host.swapRate.value)
  {
  }

  /**
   The I/O boxes ask for the unit option, else "kb", and show the answer;
   the disk table asks for the `df` columns in the unit option, else "gb".
   */
  lemma UnitResolution(opts: Options, host: S.Host)
    ensures BuildBoxNetIo(opts, host).calls == [S.NetIo(ValueOr(opts, UnitKey, "kb"))]
    ensures BuildBoxDiskIo(opts, host).calls == [S.DiskIo(ValueOr(opts, UnitKey, "kb"))]
    ensures BuildTableDisk(opts, host).calls == [S.Disk(DfHeaders, ValueOr(opts, UnitKey, "gb"))]
    ensures var u := ValueOr(opts, UnitKey, "kb");
      host.netIo(u).Success? ==> BuildBoxNetIo(opts, host).job.value.content == Plain(host.netIo(u).value)
    ensures var u := ValueOr(opts, UnitKey, "kb");
      host.diskIo(u).Success? ==> BuildBoxDiskIo(opts, host).job.value.content == Plain(host.diskIo(u).value)
  {
  }

  lemma UpperKb()
    ensures ToUpper("kb") == "KB"
  {
    assert ToUpper("kb")[0] == 'K';
    assert ToUpper("kb")[1] == 'B';
  }

  /** Without options, the unit-bearing widgets use "kb" (the disk table "gb") and say so in their titles. */
  lemma DefaultUnitTitles(host: S.Host)
    ensures var b := Build(K.BoxNetIo, map[], host);
      b.calls == [S.NetIo("kb")] && (b.job.Success? ==> b.job.value.Title() == " Net I/O (KB) ")
    ensures var b := Build(K.BoxDiskIo, map[], host);
      b.calls == [S.DiskIo("kb")] && (b.job.Success? ==> b.job.value.Title() == " Disk I/O (KB) ")
    ensures var b := Build(K.BarMemory, map[], host);
      b.calls == [S.Memory(DefaultMemoryMetrics, "kb")] && (b.job.Success? ==> b.job.value.Title() == " Memory (KB) ")
    ensures var b := Build(K.TableDisk, map[], host);
      b.calls == [S.Disk(DfHeaders, "gb")] && (b.job.Success? ==> b.job.value.Title() == " Disks ")
  {
    IoBoxDefaults(map[], host);
    MemoryBarDefaults(map[], host);
  }

  lemma IoBoxDefaults(opts: Options, host: S.Host)
    requires opts == map[]
    ensures var b := BuildBoxNetIo(opts, host);
      b.calls == [S.NetIo("kb")] && (b.job.Success? ==> b.job.value.Title() == " Net I/O (KB) ")
    ensures var b := BuildBoxDiskIo(opts, host);
      b.calls == [S.DiskIo("kb")] && (b.job.Success? ==> b.job.value.Title() == " Disk I/O (KB) ")
  {
    assert ValueOr(opts, UnitKey, "kb") == "kb";
    assert ValueOr(opts, TitleKey, " Net I/O (KB) ") == " Net I/O (KB) ";
    UpperKb();
  }

  lemma MemoryBarDefaults(opts: Options, host: S.Host)
    requires opts == map[]
    ensures var b := BuildBarMemory(opts, host);
      b.calls == [S.Memory(DefaultMemoryMetrics, "kb")] && (b.job.Success? ==> b.job.value.Title() == " Memory (KB) ")
  {
    assert !ListGiven(opts, MetricsKey) && !ListGiven(opts, HeadersKey);
    UpperKb();
  }

  /** Without options, the CPU box is titled " CPU usage " and shows the fetched rate. */
  lemma CpuRateWithoutOptions(name: string, opts: Options, host: S.Host)
    requires name == "rh.box_cpu_rate" && opts == map[]
    requires host.cpuRate.Success?
    ensures CreateWidgets(name, opts, host)
         == Built(Success(AddTextBox(Percent(host.cpuRate.value), " CPU usage ", opts)), [S.CpuRate])
  {
    assert name == K.Name(K.BoxCpuRate);
    assert TitleKey !in opts;
  }

  /** Headers and metrics of the memory bar are resolved independently. */
  lemma MemoryBarIndependentLists(opts: Options, host: S.Host)
    requires HeadersKey in opts && opts[HeadersKey] == "A,B"
    requires MetricsKey in opts && opts[MetricsKey] == "X,Y"
    requires UnitKey !in opts
    ensures BuildBarMemory(opts, host).calls == [S.Memory(["X", "Y"], "kb")]
    ensures BuildBarMemory(opts, host).job.Success? ==> BuildBarMemory(opts, host).job.value.labels == ["A", "B"]
  {
    MemoryBarOptionLists(opts);
  }

  lemma MemoryBarOptionLists(opts: Options)
    requires HeadersKey in opts && opts[HeadersKey] == "A,B"
    requires MetricsKey in opts && opts[MetricsKey] == "X,Y"
    ensures ListOr(opts, MetricsKey, DefaultMemoryMetrics) == ["X", "Y"]
    ensures ListOr(opts, HeadersKey, ["X", "Y"]) == ["A", "B"]
  {
    TwoTokenList(opts, MetricsKey, 'X', 'Y', DefaultMemoryMetrics);
    TwoTokenList(opts, HeadersKey, 'A', 'B', ["X", "Y"]);
  }

  /** A given list option "x,y" of two one-character tokens resolves to those tokens. */
  lemma TwoTokenList(opts: Options, key: string, x: char, y: char, default: seq<string>)
    requires !IsSpace(x) && !IsSpace(y) && x != ',' && y != ','
    requires key in opts && opts[key] == [x, ',', y]
    ensures ListOr(opts, key, default) == [[x], [y]]
  {
    var v := [x, ',', y];
    assert TrimSpace(v) == v by {
      TrimSpaceOfTrimmed(v);
    }
    assert Join([[x], [y]], ',') == v by {
      assert Join([[y]], ',') == [y];
    }
    assert SeparatorFree([[x], [y]], ',');
    ListOrTokens(opts, key, default, [[x], [y]]);
  }

  /** A custom command without a headers option leaves the table without headers. */
  lemma CustomCommandClearsHeaders(opts: Options, host: S.Host)
    requires CommandKey in opts && opts[CommandKey] == "custom"
    requires HeadersKey !in opts
    ensures BuildTable(opts, host).calls == [S.Table("custom", [])]
  {
  }
}
