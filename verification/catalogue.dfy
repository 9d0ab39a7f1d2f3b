/**
 The catalogue of widget kinds a host dashboard understands, and the
 dispatcher's reading of a configured widget name: the first "lh" anywhere
 in the name is rewritten to "rh" (so local-host names reuse the
 remote-host catalogue), and the result must be one of twelve identifiers.
 */
module Catalogue {
  import opened Wrappers
  import opened Strings

  /** The twelve widget kinds, one per `rh*` identifier. */
  datatype WidgetKind =
    | BoxUptime | BoxLoad | BoxProcesses
    | BoxCpuRate | BoxMemRate | BoxSwapRate
    | BoxNetIo | BoxDiskIo
    | BarMemory | BarRates
    | TableDisk | Table

  /** The remote-host identifier of each kind. */
  function Name(k: WidgetKind): string {
    match k
    case BoxUptime => "rh.box_uptime"
    case BoxLoad => "rh.box_load"
    case BoxProcesses => "rh.box_processes"
    case BoxCpuRate => "rh.box_cpu_rate"
    case BoxMemRate => "rh.box_memory_rate"
    case BoxSwapRate => "rh.box_swap_rate"
    case BoxNetIo => "rh.box_net_io"
    case BoxDiskIo => "rh.box_disk_io"
    case BarMemory => "rh.bar_memory"
    case BarRates => "rh.bar_rates"
    case TableDisk => "rh.table_disk"
    case Table => "rh.table"
  }

  /** The local-host spelling of a kind: "lh" in place of the leading "rh". */
  function LocalName(k: WidgetKind): string {
    "lh" + Name(k)[2..]
  }

  /** Every identifier is "rh." followed by text without an 'h'. */
  lemma NameShape(k: WidgetKind)
    ensures |Name(k)| > 3 && Name(k)[..3] == "rh."
    ensures forall i :: 2 <= i < |Name(k)| ==> Name(k)[i] != 'h'
  {
  }

  /** No identifier contains "lh", so normalisation leaves it alone. */
  lemma NameHasNoLocalMarker(k: WidgetKind)
    ensures !Contains(Name(k), "lh")
  {
    NameShape(k);
    forall i: nat | i + 2 <= |Name(k)|
      ensures !OccursAt(Name(k), "lh", i)
    {
      assert Name(k)[i..i + 2][1] == Name(k)[i + 1];
      assert Name(k)[i..i + 2][0] == Name(k)[i];
    }
  }

  /** Distinct kinds have distinct identifiers. */
  lemma NameInjective(j: WidgetKind, k: WidgetKind)
    requires Name(j) == Name(k)
    ensures j == k
  {
  }

  /**
   The dispatcher's alias rewrite, `strings.Replace(name, "lh", "rh", 1)`:
   the first "lh" anywhere in the name becomes "rh"
   (`Strings.ReplaceFirst`); so the length is kept, a name without "lh" is
   kept, and the only character that can change is an 'l' turned into 'r'.
   */
  function Normalize(name: string): (r: string)
    ensures |r| == |name|
    ensures !Contains(name, "lh") ==> r == name
    ensures forall i :: 0 <= i < |name| && r[i] != name[i] ==> name[i] == 'l' && r[i] == 'r'
  {
    ReplaceFirst(name, "lh", "rh")
  }

  /** The identifier switch: which kind, if any, has exactly this identifier. */
  function Lookup(id: string): (r: Option<WidgetKind>)
    ensures r.Some? ==> Name(r.value) == id
    ensures r.None? ==> forall k :: Name(k) != id
  {
    if id == "rh.box_uptime" then Some(BoxUptime)
    else if id == "rh.box_load" then Some(BoxLoad)
    else if id == "rh.box_processes" then Some(BoxProcesses)
    else if id == "rh.bar_memory" then Some(BarMemory)
    else if id == "rh.box_cpu_rate" then Some(BoxCpuRate)
    else if id == "rh.box_memory_rate" then Some(BoxMemRate)
    else if id == "rh.box_swap_rate" then Some(BoxSwapRate)
    else if id == "rh.box_net_io" then Some(BoxNetIo)
    else if id == "rh.box_disk_io" then Some(BoxDiskIo)
    else if id == "rh.bar_rates" then Some(BarRates)
    else if id == "rh.table_disk" then Some(TableDisk)
    else if id == "rh.table" then Some(Table)
    else None
  }

  /** The kind a configured widget name selects: its normalised form must be an identifier. */
  function Parse(name: string): (r: Option<WidgetKind>)
    ensures r.Some? <==> exists k :: Name(k) == Normalize(name)
    ensures r.Some? ==> Name(r.value) == Normalize(name)
  {
    Lookup(Normalize(name))
  }

  /** A name is left unchanged by normalisation exactly when it contains no "lh". */
  lemma NormalizeUnchangedIff(name: string)
    ensures Normalize(name) == name <==> !Contains(name, "lh")
  {
    match IndexOf(name, "lh")
    case None =>
    case Some(i) =>
      var r := Normalize(name);
      assert r[i + 1] == 'h';
      assert name[i] == 'l';
      assert r[i] == 'r';
  }

  /** A leading "lh" becomes "rh" and nothing else changes. */
  lemma NormalizeLocal(t: string)
    ensures Normalize("lh" + t) == "rh" + t
  {
    ReplaceFirstLeading("lh", "rh", t);
  }

  /** Both spellings of a kind select it. */
  lemma SpellingsSelect(name: string, k: WidgetKind)
    requires name == Name(k) || name == LocalName(k)
    ensures Parse(name) == Some(k)
  {
    if name == Name(k) {
      NameHasNoLocalMarker(k);
      NormalizeUnchangedIff(name);
    } else {
      NameShape(k);
      NormalizeLocal(Name(k)[2..]);
      assert "rh" + Name(k)[2..] == Name(k);
    }
    NameInjective(Parse(name).value, k);
  }

  /** A name that selects a kind is one of its two spellings. */
  lemma SelectedBySpelling(name: string, k: WidgetKind)
    requires Parse(name) == Some(k)
    ensures name == Name(k) || name == LocalName(k)
  {
    var r := Normalize(name);
    assert r == Name(k);
    match IndexOf(name, "lh")
    case None =>
      NormalizeUnchangedIff(name);
    case Some(i) =>
      NameShape(k);
      assert r[i + 1] == 'h';
      assert i == 0;
      assert name == "lh" + name[2..];
      assert r == "rh" + name[2..];
      assert name[2..] == Name(k)[2..];
  }

  /**
   Exactly two spellings select a kind: its remote-host identifier and its
   local-host alias. Any other "lh" in a name (a second one, or one not at
   the start) leaves a name that is not in the catalogue.
   */
  lemma AcceptedNames(name: string, k: WidgetKind)
    ensures Parse(name) == Some(k) <==> name == Name(k) || name == LocalName(k)
  {
    if Parse(name) == Some(k) {
      SelectedBySpelling(name, k);
    }
    if name == Name(k) || name == LocalName(k) {
      SpellingsSelect(name, k);
    }
  }

  /** `AcceptedNames` for every kind at once. */
  lemma AcceptedNamesAll(name: string)
    ensures forall k :: Parse(name) == Some(k) <==> name == Name(k) || name == LocalName(k)
  {
    forall k ensures Parse(name) == Some(k) <==> name == Name(k) || name == LocalName(k) {
      AcceptedNames(name, k);
    }
  }
}
