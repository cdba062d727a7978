/** `TaskDocument.from_directory`: one VASP run directory turned into a task
    record. `vasprun.xml` must parse, the OUTCAR may fail, a CONTCAR that is
    present must parse; the POTCAR titles give the pseudopotential summary,
    the OUTCAR the run statistics, the initial structure the metadata, and
    the outputs are stored through `OutputData`. The record is assembled
    from the computed fields, then the structure metadata, then the caller's
    keyword arguments, later ones winning. pymatgen's readers are
    parameters; the model receives what they report. */
module VaspTask {
  import opened Results
  import opened Strings
  import opened PyDict
  import opened PyValues
  import opened Models
  import opened FileSystem
  import opened Structure
  import opened CalcTypes
  import opened Outputs

  // ------------------------------------------------------------------ state

  /** `Status`, a value enum. */
  datatype Status = Success | Failed

  function StatusValue(s: Status): PyVal {
    match s
    case Success => PEnum("successful", PStr("successful"))
    case Failed => PEnum("failed", PStr("failed"))
  }

  // -------------------------------------------------------- pseudopotentials

  /** The `pseudo_potentials` summary read from the POTCAR titles. */
  datatype PseudoPotentials = PseudoPotentials(functional: string, potType: string, labels: seq<string>)

  /** Every `[0]`/`[1]` that runs past the end of a list. */
  const OutOfRange := IndexError

  /** The second word of every title, in order: `title.split()[1]`. */
  function Labels(symbols: seq<string>): (r: Result<seq<string>>)
    ensures r.Ok? <==> forall i :: 0 <= i < |symbols| ==> |SplitWs(symbols[i])| >= 2
    ensures r.Err? ==> r.error == OutOfRange
    ensures r.Ok? ==> |r.value| == |symbols|
    ensures r.Ok? ==> forall i :: 0 <= i < |symbols| ==> r.value[i] == SplitWs(symbols[i])[1]
  {
    if forall i :: 0 <= i < |symbols| ==> |SplitWs(symbols[i])| >= 2 then
      Ok(seq(|symbols|, i requires 0 <= i < |symbols| => SplitWs(symbols[i])[1]))
    else Err(OutOfRange)
  }

  /** The summary of titles such as `PAW_PBE Fe 06Sep2000`: the first
      title's first word split at `_` gives the pseudopotential type and the
      functional, and each title's second word is its label. A missing
      title, word or `_` raises `IndexError`. */
  function PseudoPotentialsOf(symbols: seq<string>): (r: Result<PseudoPotentials>)
    ensures r.Ok? <==> |symbols| > 0 && |SplitWs(symbols[0])| > 0 && '_' in SplitWs(symbols[0])[0]
                       && forall i :: 0 <= i < |symbols| ==> |SplitWs(symbols[i])| >= 2
    ensures r.Err? ==> r.error == OutOfRange
    ensures r.Ok? ==> '_' !in r.value.potType && '_' !in r.value.functional
    ensures r.Ok? ==> StartsWith(SplitWs(symbols[0])[0], r.value.potType + "_" + r.value.functional)
    ensures r.Ok? ==>
      var w := SplitWs(symbols[0])[0];
      var head := r.value.potType + "_" + r.value.functional;
      w == head || StartsWith(w, head + "_")
    ensures r.Ok? ==> |r.value.labels| == |symbols|
    ensures r.Ok? ==> forall i :: 0 <= i < |symbols| ==> IsWord(r.value.labels[i])
    ensures r.Ok? ==> forall i :: 0 <= i < |symbols| ==> r.value.labels[i] == SplitWs(symbols[i])[1]
  {
    if |symbols| == 0 then Err(OutOfRange)
    else
      var words := SplitWs(symbols[0]);
      if |words| == 0 then Err(OutOfRange)
      else
        var parts := SplitOn(words[0], '_');
        SplitOnSecond(words[0], '_');
        if |parts| < 2 then Err(OutOfRange)
        else
          SplitOnStarts(words[0], '_');
          SplitOnFirstTwo(words[0], '_');
          var labels :- Labels(symbols);
          Ok(PseudoPotentials(parts[1], parts[0], labels))
  }

  /** Titles written as words joined by single spaces, the first starting
      with `<type>_<functional>`, parse back into exactly that type,
      functional and the second words. */
  lemma TitlesParse(potType: string, functional: string, words: seq<seq<string>>, symbols: seq<string>)
    requires |words| > 0 && |words| == |symbols|
    requires forall i :: 0 <= i < |words| ==> |words[i]| >= 2 && symbols[i] == JoinWith(" ", words[i])
    requires forall i, k :: 0 <= i < |words| && 0 <= k < |words[i]| ==> IsWord(words[i][k])
    requires words[0][0] == potType + "_" + functional && '_' !in potType && '_' !in functional
    ensures PseudoPotentialsOf(symbols) ==
      Ok(PseudoPotentials(functional, potType, seq(|words|, i requires 0 <= i < |words| => words[i][1])))
  {
    forall i | 0 <= i < |words| ensures SplitWs(symbols[i]) == words[i] {
      SplitWsJoin(words[i]);
    }
    JoinSplitRoundTrip([potType, functional], '_');
    assert JoinWith("_", [potType, functional]) == potType + "_" + functional;
    assert SplitOn(SplitWs(symbols[0])[0], '_') == [potType, functional];
    var labels := seq(|words|, i requires 0 <= i < |words| => words[i][1]);
    assert Labels(symbols).Ok?;
    assert forall i :: 0 <= i < |words| ==> Labels(symbols).value[i] == labels[i];
    assert Labels(symbols).value == labels;
  }

  /** `PAW_PBE Fe 06Sep2000` is a PAW potential for PBE labelled `Fe`. */
  lemma IronTitle(title: string)
    requires title == "PAW_PBE Fe 06Sep2000"
    ensures PseudoPotentialsOf([title]) == Ok(PseudoPotentials("PBE", "PAW", ["Fe"]))
  {
    var ws := ["PAW_PBE", "Fe", "06Sep2000"];
    assert JoinWith(" ", ws) == title;
    assert IsWord("PAW_PBE") && IsWord("Fe") && IsWord("06Sep2000");
    TitlesParse("PAW", "PBE", [ws], [title]);
    assert seq(1, i requires 0 <= i < 1 => [ws][i][1]) == ["Fe"];
  }

  // ---------------------------------------------------------- run statistics

  /** The fields of `RunStatistics`, in declaration order, all `None` by
      default. */
  const RunStatisticsSchema: Schema := [
    Field("average_memory", Some(PNone)), Field("max_memory", Some(PNone)),
    Field("elapsed_time", Some(PNone)), Field("system_time", Some(PNone)),
    Field("user_time", Some(PNone)), Field("total_time", Some(PNone)),
    Field("cores", Some(PNone))
  ]

  /** Each field with the OUTCAR `run_stats` key it is read from, in the
      order `from_vaspout_dict` reads them. */
  const RunStatSources: seq<(string, string)> := [
    ("average_memory", "Average memory used (kb)"),
    ("max_memory", "Maximum memory used (kb)"),
    ("elapsed_time", "Elapsed time (sec)"),
    ("user_time", "User time (sec)"),
    ("system_time", "System time (sec)"),
    ("total_time", "Total CPU time used (sec)"),
    ("cores", "cores")
  ]

  /** `RunStatistics()`: every field `None`. */
  function EmptyRunStatistics(): (r: StrDict)
    ensures Keys(r) == Names(RunStatisticsSchema)
    ensures forall i :: 0 <= i < |r| ==> r[i].1 == PNone
  {
    Construct(RunStatisticsSchema, []).value
  }

  /** `ret[field] = d[source]` for each pair in turn: the first missing
      source key raises `KeyError`. */
  function Renamed(d: seq<(PyVal, PyVal)>, sources: seq<(string, string)>): (r: Result<StrDict>)
    ensures r.Ok? <==> forall i :: 0 <= i < |sources| ==> PStr(sources[i].1) in Keys(d)
    ensures r.Err? ==> exists i :: 0 <= i < |sources| && PStr(sources[i].1) !in Keys(d) && r.error == KeyError(sources[i].1)
    ensures r.Ok? ==> |r.value| == |sources|
    ensures r.Ok? ==> forall i :: 0 <= i < |sources| ==>
      r.value[i].0 == sources[i].0 && Some(r.value[i].1) == Get(d, PStr(sources[i].1))
    decreases |sources|
  {
    if |sources| == 0 then Ok([])
    else
      GetPresent(d, PStr(sources[0].1));
      match Get(d, PStr(sources[0].1))
      case None => Err(KeyError(sources[0].1))
      case Some(v) =>
        var rest :- Renamed(d, sources[1..]);
        assert forall i :: 1 <= i < |sources| ==> sources[i] == sources[1..][i - 1];
        Ok([(sources[0].0, v)] + rest)
  }

  /** `RunStatistics.from_vaspout_dict(d)`: the seven OUTCAR statistics
      under the record's own names. `d[...]` on anything but a dict
      raises. */
  function FromVaspoutDict(d: PyVal): (r: Result<StrDict>)
    ensures r.Ok? <==> d.PDict? && HasRunStats(d.entries)
    ensures r.Ok? ==> Keys(r.value) == Names(RunStatisticsSchema)
  {
    if !d.PDict? then Err(TypeError("object is not subscriptable"))
    else
      var ret :- Renamed(d.entries, RunStatSources);
      RunStatsOptional(Keys(ret));
      Construct(RunStatisticsSchema, ret)
  }

  /** Every source key of the statistics is present. */
  predicate HasRunStats(d: seq<(PyVal, PyVal)>) {
    forall i :: 0 <= i < |RunStatSources| ==> PStr(RunStatSources[i].1) in Keys(d)
  }

  /** Every field of `RunStatistics` has a default. */
  lemma RunStatsOptional(ks: seq<string>)
    ensures Supplied(RunStatisticsSchema, ks)
  {
  }


  /** Each field of the record holds the OUTCAR statistic it is named
      after: the renaming loses and mixes up nothing. */
  lemma RunStatisticsRenames(d: PyVal, i: nat)
    requires FromVaspoutDict(d).Ok? && i < |RunStatSources|
    ensures Get(FromVaspoutDict(d).value, RunStatSources[i].0) == Get(d.entries, PStr(RunStatSources[i].1))
  {
    var ret := Renamed(d.entries, RunStatSources).value;
    KeysLength(ret);
    RunStatNames();
    assert DistinctKeys(ret);
    GetAt(ret, i);
    RunStatsOptional(Keys(ret));
    ConstructGet(RunStatisticsSchema, ret, RunStatSources[i].0);
  }

  /** The record's field names, and the names the statistics are stored
      under, are two orderings of the same seven distinct names. */
  lemma RunStatNames()
    ensures Distinct(Names(RunStatisticsSchema))
    ensures forall i :: 0 <= i < |RunStatSources| ==> RunStatSources[i].0 in Names(RunStatisticsSchema)
    ensures forall i, j :: 0 <= i < j < |RunStatSources| ==> RunStatSources[i].0 != RunStatSources[j].0
  {
    assert Names(RunStatisticsSchema) == ["average_memory", "max_memory", "elapsed_time", "system_time",
                                          "user_time", "total_time", "cores"];
  }

  /** The OUTCAR's `run_stats` entry, when it is a dict holding all seven
      statistics. */
  predicate HasOutcarStats(out: StrDict) {
    var st := GetOr(out, "run_stats", PNone);
    st.PDict? && HasRunStats(st.entries)
  }

  /** `RunStatistics.from_vaspout_dict(out.as_dict()['run_stats'])` under a
      bare `except` that falls back to `RunStatistics()`: an OUTCAR that did
      not parse (`out = {}` has no `as_dict`), a missing `run_stats` or a
      missing statistic all give the empty record; otherwise every field
      holds its statistic. */
  function RunStats(out: Option<StrDict>): (r: StrDict)
    ensures Keys(r) == Names(RunStatisticsSchema)
    ensures out.None? || !HasOutcarStats(out.value) ==> r == EmptyRunStatistics()
    ensures out.Some? && HasOutcarStats(out.value) ==>
      forall i :: 0 <= i < |RunStatSources| ==>
        Get(r, RunStatSources[i].0) == Get(GetOr(out.value, "run_stats", PNone).entries, PStr(RunStatSources[i].1))
  {
    if out.None? then EmptyRunStatistics()
    else
      GetPresent(out.value, "run_stats");
      var st := Item(out.value, "run_stats");
      if st.Err? then EmptyRunStatistics()
      else
        var rs := FromVaspoutDict(st.value);
        if rs.Err? then EmptyRunStatistics()
        else
          forall i | 0 <= i < |RunStatSources|
            ensures Get(rs.value, RunStatSources[i].0) == Get(st.value.entries, PStr(RunStatSources[i].1))
          {
            RunStatisticsRenames(st.value, i);
          }
          rs.value
  }

  // ---------------------------------------------------------------- readers

  /** One ionic step's forces and stress, as `Vasprun.as_dict()` lists them. */
  datatype IonicStep = IonicStep(forces: PyVal, stress: PyVal)

  /** What pymatgen's `Vasprun` reports: the convergence flag, the POTCAR
      titles, the INCAR parameters, the initial structure, the final
      structure's `as_dict()` and site count, the final energy, and the
      fields copied into the summaries unchanged. */
  datatype Vasprun = Vasprun(
    converged: bool, potcarSymbols: seq<string>, parameters: StrDict,
    initial: StructureIn, finalStructure: PyVal, finalSites: nat, finalEnergy: real,
    potcarSpec: PyVal, isHubbard: bool, hubbards: PyVal, eigenBand: PyVal,
    ionicSteps: seq<IonicStep>)

  /** The readers `from_directory` calls, each on a path: `None` or an error
      where the reader raises. `poscar` tells whether `Poscar.from_file`
      reads the file; `inputs` is `VaspInput.from_directory(...).as_dict()`. */
  datatype Readers = Readers(
    vasprun: string -> Option<Vasprun>,
    outcar: string -> Option<StrDict>,
    poscar: string -> bool,
    inputs: string -> Result<StrDict>)

  const BadVasprun := RuntimeError("Bad vasprun.xml")
  const BadContcar := RuntimeError("Bad CONTCAR")

  /** A CONTCAR is present but does not read. A missing CONTCAR is replaced
      by the final structure of the run, which always converts. */
  predicate ContcarBad(fs: FS, readers: Readers, taskDir: string) {
    var p := Join(taskDir, "CONTCAR");
    IsFile(fs, Resolve(fs.cwd, p)) && !readers.poscar(p)
  }

  // --------------------------------------------------------------- summaries

  /** `InputData(**vi.as_dict())`: the four input files, each `{}` when
      absent; other keys of the dict are ignored. */
  const InputDataSchema: Schema := [
    Field("INCAR", Some(PDict([]))), Field("POSCAR", Some(PDict([]))),
    Field("POTCAR", Some(PDict([]))), Field("KPOINTS", Some(PDict([])))
  ]

  function InputDataRecord(d: StrDict): (r: StrDict)
    ensures Keys(r) == ["INCAR", "POSCAR", "POTCAR", "KPOINTS"]
  {
    assert Supplied(InputDataSchema, Keys(d));
    Construct(InputDataSchema, d).value
  }

  /** The `input` dict: the initial structure, the parameters, the
      pseudopotential summary and the Hubbard settings. */
  function InputSummary(vr: Vasprun, pp: PseudoPotentials): StrDict {
    [("structure", vr.initial.asDict), ("parameters", DictVal(vr.parameters)),
     ("pseudo_potentials", DictVal([("functional", PStr(pp.functional)), ("pot_type", PStr(pp.potType)),
                                    ("labels", PList(seq(|pp.labels|, i requires 0 <= i < |pp.labels| => PStr(pp.labels[i]))))])),
     ("potcar_spec", vr.potcarSpec), ("is_hubbard", PBool(vr.isHubbard)), ("hubbards", vr.hubbards)]
  }

  /** The `output` dict. The energy per atom divides by the number of final
      sites, and forces and stress come from the last ionic step. */
  function OutputSummary(vr: Vasprun): (r: Result<StrDict>)
    ensures r.Err? <==> vr.finalSites == 0 || |vr.ionicSteps| == 0
    ensures vr.finalSites == 0 ==> r == Err(ZeroDivisionError)
    ensures vr.finalSites > 0 && |vr.ionicSteps| == 0 ==> r == Err(OutOfRange)
  {
    if vr.finalSites == 0 then Err(ZeroDivisionError)
    else if |vr.ionicSteps| == 0 then Err(OutOfRange)
    else
      var last := vr.ionicSteps[|vr.ionicSteps| - 1];
      Ok([("structure", vr.finalStructure), ("energy", PFloat(vr.finalEnergy)),
          ("energy_per_atom", PFloat(vr.finalEnergy / vr.finalSites as real)), ("eigen_band", vr.eigenBand),
          ("forces", last.forces), ("stress", last.stress)])
  }


  // ---------------------------------------------------------------- document

  /** `TaskDocument`'s own fields after those it inherits from
      `StructureMetadata`, with their defaults; `input` and `output`
      default to empty summaries. */
  const TaskFields: Schema := [
    Field("label", Some(PStr(""))), Field("description", Some(PStr(""))),
    Field("dir_name", Some(PStr(""))), Field("run_stats", Some(PDict([]))),
    Field("completed_at", Some(PNone)), Field("last_updated", Some(PNone)),
    Field("is_valid", Some(PBool(true))),
    Field("input", Some(Record([("structure", PNone), ("parameters", PDict([])), ("pseudo_potentials", PDict([])),
                                ("potcar_spec", PList([])), ("is_hubbard", PBool(false)), ("hubbards", PDict([]))]))),
    Field("output", Some(Record([("structure", PNone), ("energy", PNone), ("energy_per_atom", PNone),
                                 ("eigen_band", PNone), ("forces", PList([])), ("stress", PList([]))]))),
    Field("state", Some(PNone)), Field("orig_inputs", Some(PDict([]))),
    Field("orig_outputs", Some(PDict([]))), Field("task_id", Some(PNone)),
    Field("short_id", Some(PNone)), Field("tags", Some(PList([]))),
    Field("calcs_reversed", Some(PList([])))
  ]

  const TaskDocumentSchema: Schema := StructureMetadataSchema + TaskFields

  /** The keys `from_directory` computes itself. */
  const ComputedKeys: seq<string> := [
    "dir_name", "run_stats", "task_id", "state", "input", "output",
    "orig_inputs", "orig_outputs", "last_updated"]

  /** Every computed key is a field of the record, and none is a
      metadata field. */
  lemma ComputedKeysDeclared(k: string)
    requires k in ComputedKeys
    ensures k in Names(TaskDocumentSchema) && k !in Names(StructureMetadataSchema)
  {
    NamesAppend(StructureMetadataSchema, TaskFields);
    ComputedNotMetadata(k);
    ComputedInTaskFields(k);
  }

  lemma ComputedNotMetadata(k: string)
    requires k in ComputedKeys
    ensures k !in Names(StructureMetadataSchema)
  {
    assert Names(StructureMetadataSchema) == [
      "nsites", "elements", "nelements", "composition", "composition_reduced",
      "formula_pretty", "formula_anonymous", "chemsys", "volume", "density",
      "density_atomic", "symmetry"];
  }

  lemma ComputedInTaskFields(k: string)
    requires k in ComputedKeys
    ensures k in Names(TaskFields)
  {
    var ns := Names(TaskFields);
    assert ns[2..13] == [
      "dir_name", "run_stats", "completed_at", "last_updated",
      "is_valid", "input", "output", "state", "orig_inputs", "orig_outputs", "task_id"];
    assert k in ns[2..13];
  }

  /** `d.update(structure_meta); d.update(kwargs)`: a keyword argument
      wins over the metadata, which wins over the computed fields. */
  function Assemble(computed: StrDict, meta: StrDict, kwargs: StrDict): (d: StrDict)
    ensures forall k ::
              Get(d, k) == (if LastValue(kwargs, k).Some? then LastValue(kwargs, k)
                            else if LastValue(meta, k).Some? then LastValue(meta, k)
                            else Get(computed, k))
  {
    Update(Update(computed, meta), kwargs)
  }

  /** Every field of `TaskDocument` has a default. */
  lemma TaskOptional(ks: seq<string>)
    ensures Supplied(TaskDocumentSchema, ks)
  {
    assert forall i :: 0 <= i < |TaskDocumentSchema| ==> TaskDocumentSchema[i].default.Some?;
  }

  /** `cls(**d)`: the record always builds, and each declared field holds
      what `d` gives it. */
  function TaskDocument(d: StrDict): (r: StrDict)
    ensures Keys(r) == Names(TaskDocumentSchema)
    ensures forall n :: n in Names(TaskDocumentSchema) && Get(d, n).Some? ==> Get(r, n) == Get(d, n)
  {
    TaskOptional(Keys(d));
    var r := Construct(TaskDocumentSchema, d).value;
    forall n | n in Names(TaskDocumentSchema) && Get(d, n).Some? ensures Get(r, n) == Get(d, n) {
      ConstructGet(TaskDocumentSchema, d, n);
    }
    r
  }

  /** The fields `from_directory` computes itself, in the order it lists
      them. */
  function Computed(taskId: string, taskDir: string, status: Status, stats: StrDict, input: StrDict,
                    output: StrDict, origInputs: StrDict, origOutputs: StrDict, now: PyVal): (c: StrDict)
    ensures Keys(c) == ComputedKeys
  {
    var c := [("dir_name", PStr(taskDir)), ("run_stats", PDict([(PStr("standard"), Record(stats))])),
              ("task_id", PStr(taskId)), ("state", StatusValue(status)), ("input", Record(input)),
              ("output", Record(output)), ("orig_inputs", Record(origInputs)),
              ("orig_outputs", Record(origOutputs)), ("last_updated", now)];
    KeysLength(c);
    c
  }

  /** Where `from_directory` puts its state, id and run statistics. */
  lemma ComputedGets(taskId: string, taskDir: string, status: Status, stats: StrDict, input: StrDict,
                     output: StrDict, origInputs: StrDict, origOutputs: StrDict, now: PyVal)
    ensures var c := Computed(taskId, taskDir, status, stats, input, output, origInputs, origOutputs, now);
      && Get(c, "state") == Some(StatusValue(status))
      && Get(c, "task_id") == Some(PStr(taskId))
      && Get(c, "run_stats") == Some(PDict([(PStr("standard"), Record(stats))]))
  {
    var c := Computed(taskId, taskDir, status, stats, input, output, origInputs, origOutputs, now);
    GetFirst(c, "state", 3);
    GetFirst(c, "task_id", 2);
    GetFirst(c, "run_stats", 1);
  }

  /** Which value each field of the document ends up with: a keyword
      argument for a declared field wins; a metadata field not given as a
      keyword holds the metadata; a computed field given by neither holds
      the computed value. */
  lemma DocumentPrecedence(computed: StrDict, meta: StrDict, kwargs: StrDict)
    requires Keys(computed) == ComputedKeys && Keys(meta) == Names(StructureMetadataSchema)
    ensures var doc := TaskDocument(Assemble(computed, meta, kwargs));
      && (forall n :: n in Names(TaskDocumentSchema) && LastValue(kwargs, n).Some? ==> Get(doc, n) == LastValue(kwargs, n))
      && (forall n :: n in Names(StructureMetadataSchema) && LastValue(kwargs, n).None? ==>
            Get(doc, n) == LastValue(meta, n) && Get(doc, n).Some?)
      && (forall k :: k in ComputedKeys && LastValue(kwargs, k).None? ==> Get(doc, k) == Get(computed, k) && Get(doc, k).Some?)
  {
    var d := Assemble(computed, meta, kwargs);
    NamesAppend(StructureMetadataSchema, TaskFields);
    forall n | n in Names(StructureMetadataSchema) && LastValue(kwargs, n).None?
      ensures Get(TaskDocument(d), n) == LastValue(meta, n) && LastValue(meta, n).Some?
    {
      LastValuePresent(meta, n);
    }
    forall k | k in ComputedKeys && LastValue(kwargs, k).None?
      ensures Get(TaskDocument(d), k) == Get(computed, k) && Get(computed, k).Some?
    {
      ComputedKeysDeclared(k);
      LastValuePresent(meta, k);
      GetPresent(computed, k);
    }
  }


  // ---------------------------------------------------------- from_directory

  function StatusOf(vr: Vasprun): (r: Status)
    ensures r == Success <==> vr.converged
    ensures r == Failed <==> !vr.converged
  {
    if vr.converged then Success else Failed
  }

  /** The record `from_directory` builds from the fields it computed and
      the structure metadata: it has every declared field; a keyword
      argument for a declared field wins; otherwise a metadata field holds
      the metadata and a computed field its computed value. */
  function Document(computed: StrDict, meta: StrDict, kwargs: StrDict): (doc: StrDict)
    requires Keys(computed) == ComputedKeys && Keys(meta) == Names(StructureMetadataSchema)
    ensures Keys(doc) == Names(TaskDocumentSchema)
    ensures forall n :: n in Names(TaskDocumentSchema) && LastValue(kwargs, n).Some? ==> Get(doc, n) == LastValue(kwargs, n)
    ensures forall n :: n in Names(StructureMetadataSchema) && LastValue(kwargs, n).None? ==> Get(doc, n) == Get(meta, n)
    ensures forall k :: k in ComputedKeys && LastValue(kwargs, k).None? ==> Get(doc, k) == Get(computed, k)
  {
    DocumentPrecedence(computed, meta, kwargs);
    MetaDistinct(meta);
    TaskDocument(Assemble(computed, meta, kwargs))
  }

  /** The part of `from_directory` after the run was read and the CONTCAR
      checked: the pseudopotentials, the output summary, the original
      inputs, the structure metadata and the output data are taken in that
      order, the first failure is the result, and otherwise the document is
      assembled over the output data's file system. */
  function FromRun(vr: Vasprun, out: Option<StrDict>, inputs: Result<StrDict>, outputData: Result<(FS, StrDict)>,
                   taskId: string, taskDir: string, kwargs: StrDict, now: PyVal): (r: Result<(FS, StrDict)>)
    ensures r.Ok? <==> && PseudoPotentialsOf(vr.potcarSymbols).Ok?
                       && vr.finalSites > 0 && |vr.ionicSteps| > 0
                       && inputs.Ok? && vr.initial.numSites > 0 && outputData.Ok?
    ensures PseudoPotentialsOf(vr.potcarSymbols).Err? ==> r == Err(OutOfRange)
    ensures PseudoPotentialsOf(vr.potcarSymbols).Ok? && vr.finalSites == 0 ==> r == Err(ZeroDivisionError)
    ensures r.Ok? ==> r.value.0 == outputData.value.0
    ensures r.Ok? ==>
      r.value.1 == Document(Computed(taskId, taskDir, StatusOf(vr), RunStats(out),
                                     InputSummary(vr, PseudoPotentialsOf(vr.potcarSymbols).value), OutputSummary(vr).value,
                                     InputDataRecord(inputs.value), outputData.value.1, now),
                            FromStructure(vr.initial, None, false, []).value, kwargs)
  {
    var pp :- PseudoPotentialsOf(vr.potcarSymbols);
    var output :- OutputSummary(vr);
    var orig :- inputs;
    var meta :- FromStructure(vr.initial, None, false, []);
    var outs :- outputData;
    var computed := Computed(taskId, taskDir, StatusOf(vr), RunStats(out), InputSummary(vr, pp), output,
                             InputDataRecord(orig), outs.1, now);
    Ok((outs.0, Document(computed, meta, kwargs)))
  }

  /** What the document `from_directory` returns holds: every declared
      field; a keyword argument wherever one is given; otherwise the
      structure metadata of the initial structure, `successful` or `failed`
      as the run converged, the id passed in, and the OUTCAR statistics
      under `standard`, which are all `None` when the OUTCAR did not
      parse. */
  lemma FromRunFields(vr: Vasprun, out: Option<StrDict>, inputs: Result<StrDict>, outputData: Result<(FS, StrDict)>,
                      taskId: string, taskDir: string, kwargs: StrDict, now: PyVal)
    requires FromRun(vr, out, inputs, outputData, taskId, taskDir, kwargs, now).Ok?
    ensures var doc := FromRun(vr, out, inputs, outputData, taskId, taskDir, kwargs, now).value.1;
      && Keys(doc) == Names(TaskDocumentSchema)
      && (forall n :: n in Names(TaskDocumentSchema) && LastValue(kwargs, n).Some? ==> Get(doc, n) == LastValue(kwargs, n))
      && (forall n :: n in Names(StructureMetadataSchema) && LastValue(kwargs, n).None? ==>
            Get(doc, n) == Get(FromStructure(vr.initial, None, false, []).value, n))
      && (LastValue(kwargs, "state").None? ==>
            Get(doc, "state") == Some(if vr.converged then PEnum("successful", PStr("successful"))
                                      else PEnum("failed", PStr("failed"))))
      && (LastValue(kwargs, "task_id").None? ==> Get(doc, "task_id") == Some(PStr(taskId)))
      && (LastValue(kwargs, "run_stats").None? ==>
            Get(doc, "run_stats") == Some(PDict([(PStr("standard"), Record(RunStats(out)))])))
      && (out.None? && LastValue(kwargs, "run_stats").None? ==>
            Get(doc, "run_stats") == Some(PDict([(PStr("standard"), Record(EmptyRunStatistics()))])))
  {
    var pp := PseudoPotentialsOf(vr.potcarSymbols).value;
    ComputedGets(taskId, taskDir, StatusOf(vr), RunStats(out), InputSummary(vr, pp), OutputSummary(vr).value,
                 InputDataRecord(inputs.value), outputData.value.1, now);
    assert "state" in ComputedKeys && "task_id" in ComputedKeys && "run_stats" in ComputedKeys;
  }

  /** `TaskDocument.from_directory(task_id, task_dir, dst_dir, **kwargs)`:
      a `vasprun.xml` that does not parse and a CONTCAR that is present but
      does not parse raise `RuntimeError`; an OUTCAR that does not parse is
      tolerated. The file lists it accepts are never used. The only change
      to the file system is the one `OutputData.from_directory` makes in
      `dst_dir`. */
  function FromDirectory(fs: FS, readers: Readers, codecs: Codecs, parsers: Parsers,
                         taskId: string, taskDir: string, dstDir: string, kwargs: StrDict, now: PyVal): (r: Result<(FS, StrDict)>)
    ensures readers.vasprun(Join(taskDir, "vasprun.xml")).None? ==> r == Err(BadVasprun)
    ensures readers.vasprun(Join(taskDir, "vasprun.xml")).Some? && ContcarBad(fs, readers, taskDir) ==> r == Err(BadContcar)
    ensures var vr := readers.vasprun(Join(taskDir, "vasprun.xml"));
      vr.Some? && !ContcarBad(fs, readers, taskDir) ==>
        r == FromRun(vr.value, readers.outcar(Join(taskDir, "OUTCAR")), readers.inputs(taskDir),
                     OutputDataFromDirectory(fs, codecs, parsers, taskDir, dstDir, None), taskId, taskDir, kwargs, now)
  {
    var vrO := readers.vasprun(Join(taskDir, "vasprun.xml"));
    if vrO.None? then Err(BadVasprun)
    else
      var out := readers.outcar(Join(taskDir, "OUTCAR"));
      if ContcarBad(fs, readers, taskDir) then Err(BadContcar)
      else
        FromRun(vrO.value, out, readers.inputs(taskDir), OutputDataFromDirectory(fs, codecs, parsers, taskDir, dstDir, None),
                taskId, taskDir, kwargs, now)
  }

  /** `from_directory` writes only below `dst_dir`: the working directory
      and every node outside it stay as they were, and the tree stays well
      formed. */
  lemma FromDirectoryFrame(fs: FS, readers: Readers, codecs: Codecs, parsers: Parsers,
                           taskId: string, taskDir: string, dstDir: string, kwargs: StrDict, now: PyVal)
    requires FromDirectory(fs, readers, codecs, parsers, taskId, taskDir, dstDir, kwargs, now).Ok?
    ensures var r := FromDirectory(fs, readers, codecs, parsers, taskId, taskDir, dstDir, kwargs, now).value.0;
      r.cwd == fs.cwd &&
      (forall q :: !Below(Resolve(fs.cwd, dstDir), q) ==> Agree(fs, r, q)) &&
      (Valid(fs) ==> Valid(r))
  {
    OutputDataFrame(fs, codecs, parsers, taskDir, dstDir);
  }

  // ------------------------------------------------- task_type, calc_type

  /** The dict the `task_type` and `calc_type` properties classify: the
      run's INCAR parameters and the KPOINTS, POSCAR and POTCAR of the
      original inputs. Every field of the inputs record is present, so the
      `None` default is never read there. */
  function TypeInputs(parameters: StrDict, origInputs: StrDict): (d: StrDict) {
    [("incar", DictVal(parameters)), ("kpoints", GetOr(origInputs, "KPOINTS", PNone)),
     ("poscar", GetOr(origInputs, "POSCAR", PNone)), ("potcar", GetOr(origInputs, "POTCAR", PNone))]
  }

  /** `TaskDocument.task_type`: the INCAR is always a dict here, so the
      classification fails only on an `ICHARG` or `IBRION` that is not a
      number, or on k-point labels that cannot be counted. */
  function TaskTypeOf(parameters: StrDict, origInputs: StrDict): (r: Result<string>)
    ensures r.Ok? ==> r.value in TaskTypes
    ensures var icharg := GetOr(parameters, "ICHARG", PInt(0));
      r.Err? <==> || !IsNumber(icharg)
                  || (Above(icharg, 10) && KptLabelCount(TypeInputs(parameters, origInputs)).Err?)
                  || (!Above(icharg, 10) && !IsNumber(GetOr(parameters, "IBRION", PInt(0))))
    ensures var kpts := GetOr(origInputs, "KPOINTS", PNone);
      (Above(GetOr(parameters, "ICHARG", PInt(0)), 10) && kpts.PDict? && Truthy(kpts) &&
       !Truthy(Param(kpts.entries, "labels", PNone))) ==> r == Ok("NSCF Uniform")
  {
    StrKeyedGet(parameters, "ICHARG");
    StrKeyedGet(parameters, "IBRION");
    var inputs := TypeInputs(parameters, origInputs);
    var kpts := GetOr(origInputs, "KPOINTS", PNone);
    GetFirst(inputs, "kpoints", 1);
    assert kpts.PDict? && Truthy(kpts) && !Truthy(Param(kpts.entries, "labels", PNone)) ==>
      KptLabelCount(inputs) == Ok(CountNotNone([]));
    TaskType(inputs)
  }

  /** The task type reads the INCAR and the KPOINTS only: two documents
      whose original inputs differ in their POSCAR or POTCAR alone have the
      same task type. */
  lemma TaskTypeIgnoresPoscarPotcar(parameters: StrDict, origA: StrDict, origB: StrDict)
    requires GetOr(origA, "KPOINTS", PNone) == GetOr(origB, "KPOINTS", PNone)
    ensures TaskTypeOf(parameters, origA) == TaskTypeOf(parameters, origB)
  {
    var a := TypeInputs(parameters, origA);
    var b := TypeInputs(parameters, origB);
    GetFirst(a, "kpoints", 1);
    GetFirst(b, "kpoints", 1);
    assert KptLabelCount(a) == KptLabelCount(b);
  }

  /** `TaskDocument.calc_type`: the run type of the INCAR parameters, a
      space, and the task type of the same document. */
  function CalcTypeOf(parameters: StrDict, origInputs: StrDict, table: RunTypeTable): (r: Result<string>)
    ensures r.Ok? <==> RunType(parameters, table).Ok? && TaskTypeOf(parameters, origInputs).Ok?
    ensures RunType(parameters, table).Err? ==> r == Err(RunType(parameters, table).error)
    ensures r.Ok? ==> r.value == RunType(parameters, table).value + " " + TaskTypeOf(parameters, origInputs).value
  {
    CalcType(TypeInputs(parameters, origInputs), parameters, table)
  }

  /** The metadata record has one value per field, so its last value for a
      field is the one `Get` finds. */
  lemma MetaDistinct(meta: StrDict)
    requires Keys(meta) == Names(StructureMetadataSchema)
    ensures forall n :: LastValue(meta, n) == Get(meta, n)
  {
    MetadataNamesDistinct();
    KeysLength(meta);
    forall n ensures LastValue(meta, n) == Get(meta, n) {
      GetPresent(meta, n);
      LastValuePresent(meta, n);
      if n in Keys(meta) {
        var i := FirstIndex(Keys(meta), n);
        GetAt(meta, i);
        LastValueLast(meta, i);
      }
    }
  }

  lemma MetadataNamesDistinct()
    ensures Distinct(Names(StructureMetadataSchema))
  {
    var a := ["nsites", "elements", "nelements", "composition", "composition_reduced", "formula_pretty"];
    var b := ["formula_anonymous", "chemsys", "volume", "density", "density_atomic", "symmetry"];
    assert Names(StructureMetadataSchema) == a + b;
    DistinctConcat(a, b);
  }

}
