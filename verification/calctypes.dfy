/** VASP calculation classification: the run type (functional, with `+U`
    when Hubbard corrections are on), the task type (what the run computes)
    and the calc type that joins the two. The run-type table read from
    `run_types.yaml` is a parameter. */
module CalcTypes {
  import opened Results
  import opened Strings
  import opened PyDict
  import opened PyValues

  // ---------------------------------------------------------------- run type

  /** The run-type table: for each functional class, its special types in
      file order, each with the parameter values it requires. */
  type RunTypeTable = Dict<string, Dict<string, StrDict>>

  /** The classes are scanned in this order, whatever order the table has. */
  const FunctionalClasses: seq<string> := ["HF", "VDW", "METAGGA", "GGA"]

  /** `_variant_equal`: two strings compare after `strip().upper()`, any
      other pair with `==`. */
  predicate VariantEqual(v1: PyVal, v2: PyVal) {
    if v1.PStr? && v2.PStr? then Upper(Strip(v1.s)) == Upper(Strip(v2.s))
    else PyEq(v1, v2)
  }

  /** The comparison does not depend on the order of its arguments. */
  lemma VariantEqualSymmetric(v1: PyVal, v2: PyVal)
    ensures VariantEqual(v1, v2) <==> VariantEqual(v2, v1)
  {
    PyEqSymmetric(v1, v2);
  }

  /** Every parameter a table entry names has the value it requires; a
      parameter the run does not set reads as `None`. */
  predicate Matches(parameters: StrDict, params: StrDict) {
    forall k :: 0 <= k < |params| ==> VariantEqual(GetOr(parameters, params[k].0, PNone), params[k].1)
  }

  /** Position of the first candidate whose parameters all match. */
  function FirstMatching(parameters: StrDict, cands: seq<(string, StrDict)>): (r: Option<nat>)
    ensures r.Some? ==> r.value < |cands| && Matches(parameters, cands[r.value].1)
    ensures forall j :: 0 <= j < |cands| && (r.None? || j < r.value) ==> !Matches(parameters, cands[j].1)
    decreases |cands|
  {
    if |cands| == 0 then None
    else if Matches(parameters, cands[0].1) then Some(0)
    else
      match FirstMatching(parameters, cands[1..])
      case None => None
      case Some(i) => Some(i + 1)
  }

  /** The name of the first matching candidate. */
  function Winner(parameters: StrDict, cands: seq<(string, StrDict)>): Option<string> {
    match FirstMatching(parameters, cands)
    case None => None
    case Some(i) => Some(cands[i].0)
  }

  predicate AllPresent(table: RunTypeTable, classes: seq<string>) {
    forall k :: 0 <= k < |classes| ==> Get(table, classes[k]).Some?
  }

  /** The entries of the given classes, one class after the other: the
      order in which the nested loops visit them. */
  function Flatten(table: RunTypeTable, classes: seq<string>): seq<(string, StrDict)>
    decreases |classes|
  {
    if |classes| == 0 then []
    else Get(table, classes[0]).GetOr([]) + Flatten(table, classes[1..])
  }

  /** The nested loops of `run_type`: a class is looked up only when no
      earlier class matched, so a missing class raises `KeyError` only if
      the scan reaches it. */
  function ScanClasses(parameters: StrDict, table: RunTypeTable, classes: seq<string>): (r: Result<Option<string>>)
    ensures AllPresent(table, classes) ==> r == Ok(Winner(parameters, Flatten(table, classes)))
    ensures r.Err? ==> r.error.KeyError? && r.error.key in classes && Get(table, r.error.key).None?
    decreases |classes|
  {
    if |classes| == 0 then Ok(None)
    else
      match Get(table, classes[0])
      case None => Err(KeyError(classes[0]))
      case Some(entries) =>
        WinnerAppend(parameters, entries, Flatten(table, classes[1..]));
        assert AllPresent(table, classes) ==> AllPresent(table, classes[1..]) by {
          if AllPresent(table, classes) {
            forall k | 0 <= k < |classes[1..]| ensures Get(table, classes[1..][k]).Some? {
              assert classes[1..][k] == classes[k + 1];
            }
          }
        }
        match FirstMatching(parameters, entries)
        case Some(i) => Ok(Some(entries[i].0))
        case None =>
          var r := ScanClasses(parameters, table, classes[1..]);
          assert r.Err? ==> r.error.key in classes by {
            if r.Err? { assert r.error.key in classes[1..]; }
          }
          r
  }

  /** The first match in a concatenation is the first match of the front
      part, or else the first match of the back part. */
  lemma WinnerAppend(parameters: StrDict, a: seq<(string, StrDict)>, b: seq<(string, StrDict)>)
    ensures Winner(parameters, a + b) ==
      if Winner(parameters, a).Some? then Winner(parameters, a) else Winner(parameters, b)
  {
    var fa := FirstMatching(parameters, a);
    var fb := FirstMatching(parameters, b);
    if fa.Some? {
      assert (a + b)[fa.value] == a[fa.value];
    } else if fb.Some? {
      assert (a + b)[|a| + fb.value] == b[fb.value];
    }
  }

  /** The `+U` suffix: present exactly when `LDAU` is set and truthy. */
  function Hubbard(parameters: StrDict): (u: string)
    ensures u == "+U" <==> Truthy(GetOr(parameters, "LDAU", PBool(false)))
    ensures u == "" || u == "+U"
  {
    if Truthy(GetOr(parameters, "LDAU", PBool(false))) then "+U" else ""
  }

  /** `run_type(parameters)`: the first table entry, in class order and then
      file order, whose parameters all match, with `+U` appended when
      `LDAU` is truthy; `LDA[+U]` when none matches. */
  function RunType(parameters: StrDict, table: RunTypeTable): (r: Result<string>)
    ensures r.Err? ==> r.error.KeyError? && r.error.key in FunctionalClasses && Get(table, r.error.key).None?
    ensures AllPresent(table, FunctionalClasses) ==>
      var w := Winner(parameters, Flatten(table, FunctionalClasses));
      r == Ok((if w.Some? then w.value else "LDA") + Hubbard(parameters))
  {
    var w :- ScanClasses(parameters, table, FunctionalClasses);
    Ok((if w.Some? then w.value else "LDA") + Hubbard(parameters))
  }

  /** A parameter the run does not set satisfies only a `None` requirement. */
  lemma MissingParameterIsNone(parameters: StrDict, p: string, v: PyVal)
    requires p !in Keys(parameters)
    ensures VariantEqual(GetOr(parameters, p, PNone), v) <==> v == PNone
  {
    GetPresent(parameters, p);
  }

  /** Strings compare without surrounding space and case. */
  lemma VariantEqualIgnoresCaseAndSpace()
    ensures VariantEqual(PStr(" pe\n"), PStr("PE"))
    ensures !VariantEqual(PStr("PE"), PStr("PS"))
  {
    assert Strip(" pe\n") == "pe";
    assert Upper("pe") == "PE";
    assert Strip("PE") == "PE";
    assert Strip("PS") == "PS";
    assert Upper("PE") == "PE";
    assert Upper("PS") == "PS";
  }

  // --------------------------------------------------------------- task type

  /** `d.get(k, default)` on a dict value whose keys are Python strings. */
  function Param(d: seq<(PyVal, PyVal)>, k: string, default: PyVal): PyVal {
    GetOr(d, PStr(k), default)
  }

  /** `v > t` once `v` is known to be a number. */
  predicate Above(v: PyVal, t: int) {
    Num(v).Some? && Num(v).value > t as real
  }

  /** `len(list(filter(None.__ne__, xs)))`: how many items are not `None`. */
  function CountNotNone(xs: seq<PyVal>): (n: nat)
    ensures n <= |xs|
    ensures n == 0 <==> forall i :: 0 <= i < |xs| ==> xs[i] == PNone
    decreases |xs|
  {
    if |xs| == 0 then 0
    else
      var rest := CountNotNone(xs[1..]);
      assert forall i :: 1 <= i < |xs| ==> xs[i] == xs[1..][i - 1];
      (if xs[0] == PNone then 0 else 1) + rest
  }

  const KptLabelsError: Error := Exception("Couldn't identify total number of kpt labels")

  /** The number of k-point labels that are not `None`. `inputs.get("kpoints")
      or {}` must be a dict and its `labels or []` must be iterable; any
      failure on the way is re-raised as one `Exception`. */
  function KptLabelCount(inputs: StrDict): (r: Result<nat>)
    ensures r.Err? ==> r.error == KptLabelsError
  {
    var kpts := GetOr(inputs, "kpoints", PNone);
    var kd := if Truthy(kpts) then kpts else PDict([]);
    if !kd.PDict? then Err(KptLabelsError)
    else
      var labels := Param(kd.entries, "labels", PNone);
      var ls := if Truthy(labels) then labels else PList([]);
      match ls
      case PList(xs) => Ok(CountNotNone(xs))
      case PTuple(xs) => Ok(CountNotNone(xs))
      case PSet(xs) => Ok(CountNotNone(xs))
      case PStr(s) => Ok(|s|)
      case PDict(es) => Ok(CountNotNone(Keys(es)))
      case PModel(_, fs) => Ok(|fs|)
      case _ => Err(KptLabelsError)
  }

  /** Every name `task_type` can return. */
  const TaskTypes: set<string> := {
    "NSCF Line", "NSCF Uniform", "DFPT Dielectric", "Dielectric", "DFPT",
    "NMR Nuclear Shielding", "NMR Electric Field Gradient", "Static",
    "Structure Optimization", "Deformation", "Unrecognized"
  }

  /** `task_type(inputs)`: the first rule of the priority chain that
      applies. Comparing `ICHARG` or `IBRION` (when it is reached) with an
      int raises `TypeError` unless it is a number. */
  function TaskType(inputs: StrDict): (r: Result<string>)
    ensures r.Ok? ==> r.value in TaskTypes
    ensures r.Err? <==>
      !GetOr(inputs, "incar", PDict([])).PDict? ||
      (var incar := GetOr(inputs, "incar", PDict([])).entries;
       !IsNumber(Param(incar, "ICHARG", PInt(0))) ||
       (Above(Param(incar, "ICHARG", PInt(0)), 10) && KptLabelCount(inputs).Err?) ||
       (!Above(Param(incar, "ICHARG", PInt(0)), 10) && !IsNumber(Param(incar, "IBRION", PInt(0)))))
  {
    var incarV := GetOr(inputs, "incar", PDict([]));
    if !incarV.PDict? then Err(AttributeError("get"))
    else
      var incar := incarV.entries;
      var ib := Param(incar, "IBRION", PInt(0));
      var nscf :- GreaterThan(Param(incar, "ICHARG", PInt(0)), 10);
      if nscf then
        var n :- KptLabelCount(inputs);
        Ok(if n > 0 then "NSCF Line" else "NSCF Uniform")
      else
        var dfpt :- GreaterThan(ib, 6);
        if Truthy(Param(incar, "LEPSILON", PBool(false))) then
          Ok(if dfpt then "DFPT Dielectric" else "Dielectric")
        else if dfpt then Ok("DFPT")
        else if Truthy(Param(incar, "LCHIMAG", PBool(false))) then Ok("NMR Nuclear Shielding")
        else if Truthy(Param(incar, "LEFG", PBool(false))) then Ok("NMR Electric Field Gradient")
        else if PyEq(Param(incar, "NSW", PInt(1)), PInt(0)) then Ok("Static")
        else if PyEq(Param(incar, "ISIF", PInt(2)), PInt(3)) && Above(ib, 0) then Ok("Structure Optimization")
        else if PyEq(Param(incar, "ISIF", PInt(3)), PInt(2)) && Above(ib, 0) then Ok("Deformation")
        else Ok("Unrecognized")
  }

  /** The INCAR dict of `inputs`, once it is known to be a dict. */
  function Incar(inputs: StrDict): seq<(PyVal, PyVal)>
    requires GetOr(inputs, "incar", PDict([])).PDict?
  {
    GetOr(inputs, "incar", PDict([])).entries
  }

  /** Without `ISIF` the defaults 2 and 3 of the two relaxation tests
      disagree with the values they are compared to, so neither a structure
      optimization nor a deformation is ever recognised. */
  lemma AbsentIsifNeverRelaxes(inputs: StrDict)
    requires GetOr(inputs, "incar", PDict([])).PDict?
    requires PStr("ISIF") !in Keys(Incar(inputs))
    ensures TaskType(inputs) != Ok("Structure Optimization")
    ensures TaskType(inputs) != Ok("Deformation")
  {
    GetPresent(Incar(inputs), PStr("ISIF"));
  }

  /** Without `NSW` the default 1 applies and the run is never static. */
  lemma AbsentNswNeverStatic(inputs: StrDict)
    requires GetOr(inputs, "incar", PDict([])).PDict?
    requires PStr("NSW") !in Keys(Incar(inputs))
    ensures TaskType(inputs) != Ok("Static")
  {
    GetPresent(Incar(inputs), PStr("NSW"));
  }

  /** A non-self-consistent run (`ICHARG > 10`) is a line-mode run exactly
      when some k-point label is not `None`. */
  lemma NscfLineIff(inputs: StrDict)
    requires GetOr(inputs, "incar", PDict([])).PDict?
    ensures TaskType(inputs) == Ok("NSCF Line") <==>
      Above(Param(Incar(inputs), "ICHARG", PInt(0)), 10) &&
      KptLabelCount(inputs).Ok? && KptLabelCount(inputs).value > 0
    ensures TaskType(inputs) == Ok("NSCF Uniform") <==>
      Above(Param(Incar(inputs), "ICHARG", PInt(0)), 10) && KptLabelCount(inputs) == Ok(0)
  {
  }

  /** Outside the non-self-consistent case, `LEPSILON` makes a dielectric
      run, and `IBRION > 6` puts "DFPT " in front of it. */
  lemma DielectricIff(inputs: StrDict)
    requires GetOr(inputs, "incar", PDict([])).PDict?
    requires IsNumber(Param(Incar(inputs), "ICHARG", PInt(0)))
    requires !Above(Param(Incar(inputs), "ICHARG", PInt(0)), 10)
    requires IsNumber(Param(Incar(inputs), "IBRION", PInt(0)))
    ensures (TaskType(inputs) == Ok("Dielectric") || TaskType(inputs) == Ok("DFPT Dielectric")) <==>
      Truthy(Param(Incar(inputs), "LEPSILON", PBool(false)))
    ensures TaskType(inputs) == Ok("DFPT Dielectric") <==>
      Truthy(Param(Incar(inputs), "LEPSILON", PBool(false))) && Above(Param(Incar(inputs), "IBRION", PInt(0)), 6)
  {
  }

  // --------------------------------------------------------------- calc type

  /** `calc_type(inputs, parameters)`: the run type, a space, the task type.
      The run type is computed first, so its error wins. */
  function CalcType(inputs: StrDict, parameters: StrDict, table: RunTypeTable): (r: Result<string>)
    ensures r.Ok? <==> RunType(parameters, table).Ok? && TaskType(inputs).Ok?
    ensures RunType(parameters, table).Err? ==> r == Err(RunType(parameters, table).error)
    ensures r.Ok? ==>
      StartsWith(r.value, RunType(parameters, table).value + " ") &&
      EndsWith(r.value, TaskType(inputs).value)
  {
    var rt :- RunType(parameters, table);
    var tt :- TaskType(inputs);
    assert (rt + " " + tt)[..|rt + " "|] == rt + " ";
    Ok(rt + " " + tt)
  }

  /** When the run type has no space, the calc type splits at its first
      space back into the run type and the task type. */
  lemma CalcTypeSplits(inputs: StrDict, parameters: StrDict, table: RunTypeTable)
    requires CalcType(inputs, parameters, table).Ok?
    requires ' ' !in RunType(parameters, table).value
    ensures var c := CalcType(inputs, parameters, table).value;
      ' ' in c &&
      c[..FirstIndex(c, ' ')] == RunType(parameters, table).value &&
      c[FirstIndex(c, ' ') + 1..] == TaskType(inputs).value
  {
    var rt := RunType(parameters, table).value;
    var tt := TaskType(inputs).value;
    var c := rt + " " + tt;
    assert c[|rt|] == ' ';
    assert c[..|rt|] == rt;
    FirstIndexUnique(c, ' ', |rt|);
    assert c[|rt| + 1..] == tt;
  }
}
