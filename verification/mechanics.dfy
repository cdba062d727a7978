/** `Mechanics2D.from_file`: the elastic results of a 2D calculation, read
    from a `Result.json` dict and renamed into the record's fields. The
    file is given as the dict it loads to, or as absent. */
module Mechanics {
  import opened Results
  import opened PyDict
  import opened PyValues
  import opened Models

  /** The `YesOrNo` enumeration (a plain `Enum`, so its `str` is the member name). */
  function YesOrNo(yes: bool): (r: PyVal)
    ensures r.PEnum? && r.value.PStr?
    ensures r.value == PStr("YES") <==> yes
    ensures r.value == PStr("NO") <==> !yes
  {
    if yes then PEnum("YesOrNo.yes", PStr("YES")) else PEnum("YesOrNo.no", PStr("NO"))
  }

  /** The fields of `Mechanics2D`, inherited ones first. */
  const Mechanics2DSchema: Schema :=
    [Field("description", Some(PStr("mechanical information"))),
     Field("link", Some(PNone)),
     Field("s_tensor", None), Field("c_tensor", None),
     Field("Lm", None), Field("Y10", None), Field("Y01", None), Field("Gm", None),
     Field("V10", None), Field("V01", None), Field("stability", None)]

  /** The keys passed on from the loaded dict. */
  const Mechanics2DFields: seq<string> :=
    ["link", "s_tensor", "c_tensor", "Lm", "Y01", "Y10", "Gm", "V01", "V10", "stability"]

  /** The keys `Result.json` must hold. */
  const ResultKeys: seq<string> :=
    ["Stiffness_tensor", "Compliance_tensor", "Lm", "Y01", "Y10", "Gm", "V10", "V01", "Stability"]

  /** The renaming of the values found under `ResultKeys`, in that order,
      into the record's fields: note `V01` takes the value of `V10` and the
      other way round. */
  function Mapped(v: seq<PyVal>): (m: StrDict)
    requires |v| == 9
    ensures |m| == 9
  {
    [("s_tensor", v[0]), ("c_tensor", v[1]), ("Lm", v[2]), ("Y01", v[3]), ("Y10", v[4]),
     ("Gm", v[5]), ("V01", v[6]), ("V10", v[7]),
     ("stability", YesOrNo(PyEq(v[8], PStr("Stable"))))]
  }

  /** The values of `d` under the keys `ks`. */
  function Looked(d: StrDict, ks: seq<string>): (v: seq<PyVal>)
    ensures |v| == |ks|
  {
    seq(|ks|, i requires 0 <= i < |ks| => GetOr(d, ks[i], PNone))
  }

  /** The field dict built from the loaded file, or the `KeyError` of the
      first key it lacks. */
  function MapResult(d: StrDict): (r: Result<StrDict>)
    ensures r.Ok? <==> forall k :: k in ResultKeys ==> k in Keys(d)
    ensures r.Err? ==> r.error.KeyError? && r.error.key in ResultKeys && r.error.key !in Keys(d)
  {
    var m := FirstMissing(d, ResultKeys);
    if m.Some? then Err(KeyError(m.value)) else Ok(Mapped(Looked(d, ResultKeys)))
  }

  /** The mapped dict's keys are the wanted fields after `link`, each once. */
  lemma MappedKeys(v: seq<PyVal>)
    requires |v| == 9
    ensures Keys(Mapped(v)) == Mechanics2DFields[1..]
    ensures DistinctKeys(Mapped(v))
  {
    KeysLength(Mapped(v));
    FieldsDistinct();
  }

  lemma FieldsDistinct()
    ensures Distinct(Mechanics2DFields[1..])
  {
  }

  /** Every key of the mapped dict is a wanted field, so the filter keeps
      all of it. */
  lemma NoMappedKeyDropped(v: seq<PyVal>)
    requires |v| == 9
    ensures Filter(Mapped(v), Mechanics2DFields) == Mapped(v)
  {
    MappedKeys(v);
    KeysLength(Mapped(v));
    FilterAllKept(Mapped(v), Mechanics2DFields);
  }

  lemma {:induction false} FilterAllKept(m: StrDict, fields: seq<string>)
    requires forall i :: 0 <= i < |m| ==> m[i].0 in fields
    ensures Filter(m, fields) == m
    decreases |m|
  {
    if |m| > 0 {
      FilterAllKept(m[1..], fields);
    }
  }

  /** What the constructor finds for each field among the arguments. */
  lemma ArgsLookup(v: seq<PyVal>, kwargs: StrDict)
    requires |v| == 9
    ensures var m := Mapped(v);
      forall i :: 0 <= i < 9 ==> Get(m + kwargs, m[i].0) == Some(m[i].1)
    ensures Get(Mapped(v) + kwargs, "link") == Get(kwargs, "link")
    ensures Get(Mapped(v) + kwargs, "description") == Get(kwargs, "description")
  {
    var m := Mapped(v);
    GetAppend(m, kwargs);
    MappedKeys(v);
    forall i | 0 <= i < 9 ensures Get(m, m[i].0) == Some(m[i].1) {
      GetAt(m, i);
    }
    GetPresent(m, "link");
    GetPresent(m, "description");
  }

  /** The record built from the mapped values and the keyword arguments. */
  lemma BuildMapped(v: seq<PyVal>, kwargs: StrDict)
    requires |v| == 9
    ensures var r := Build(Mechanics2DSchema, Mapped(v), Mechanics2DFields, kwargs);
      (r.Ok? <==> Disjoint(Mechanics2DFields[1..], Keys(kwargs))) &&
      (r.Ok? ==> (r.value ==
        [("description", GetOr(kwargs, "description", PStr("mechanical information"))),
         ("link", GetOr(kwargs, "link", PNone))] + Mapped4(v)))
  {
    var m := Mapped(v);
    NoMappedKeyDropped(v);
    MappedKeys(v);
    var r := Build(Mechanics2DSchema, m, Mechanics2DFields, kwargs);
    if Disjoint(Mechanics2DFields[1..], Keys(kwargs)) {
      var args := m + kwargs;
      assert Kwargs(m, kwargs) == Ok(args);
      assert Supplied(Mechanics2DSchema, Keys(args)) by { SuppliedMapped(v, kwargs); }
      var c := ConstructedMapped(v, kwargs);
      assert r.value == c;
    }
  }

  lemma SuppliedMapped(v: seq<PyVal>, kwargs: StrDict)
    requires |v| == 9
    ensures Supplied(Mechanics2DSchema, Keys(Mapped(v) + kwargs))
  {
    MappedKeys(v);
    KeysAppend(Mapped(v), kwargs);
  }

  /** The record the constructor makes from the mapped values followed by
      the keyword arguments. */
  lemma ConstructedMapped(v: seq<PyVal>, kwargs: StrDict) returns (c: StrDict)
    requires |v| == 9
    ensures Supplied(Mechanics2DSchema, Keys(Mapped(v) + kwargs))
    ensures Construct(Mechanics2DSchema, Mapped(v) + kwargs) == Ok(c)
    ensures c == [("description", GetOr(kwargs, "description", PStr("mechanical information"))),
                  ("link", GetOr(kwargs, "link", PNone))] + Mapped4(v)
  {
    var m := Mapped(v);
    var args := m + kwargs;
    SuppliedMapped(v, kwargs);
    ArgsLookup(v, kwargs);
    var sc := Mechanics2DSchema;
    c := Construct(sc, args).value;
    var want := [("description", GetOr(kwargs, "description", PStr("mechanical information"))),
                 ("link", GetOr(kwargs, "link", PNone))] + Mapped4(v);
    assert Get(args, "s_tensor") == Some(v[0]) by { assert m[0].0 == "s_tensor"; }
    assert Get(args, "c_tensor") == Some(v[1]) by { assert m[1].0 == "c_tensor"; }
    assert Get(args, "Lm") == Some(v[2]) by { assert m[2].0 == "Lm"; }
    assert Get(args, "Y01") == Some(v[3]) by { assert m[3].0 == "Y01"; }
    assert Get(args, "Y10") == Some(v[4]) by { assert m[4].0 == "Y10"; }
    assert Get(args, "Gm") == Some(v[5]) by { assert m[5].0 == "Gm"; }
    assert Get(args, "V01") == Some(v[6]) by { assert m[6].0 == "V01"; }
    assert Get(args, "V10") == Some(v[7]) by { assert m[7].0 == "V10"; }
    assert Get(args, "stability") == Some(m[8].1) by { assert m[8].0 == "stability"; }
    forall i | 0 <= i < 11 ensures c[i] == want[i] {
      ConstructCell(sc, args, i);
    }
    assert |c| == |want| == 11;
  }

  /** The mapped values in the record's declaration order. */
  function Mapped4(v: seq<PyVal>): StrDict
    requires |v| == 9
  {
    [("s_tensor", v[0]), ("c_tensor", v[1]), ("Lm", v[2]), ("Y10", v[4]), ("Y01", v[3]),
     ("Gm", v[5]), ("V10", v[7]), ("V01", v[6]),
     ("stability", YesOrNo(PyEq(v[8], PStr("Stable"))))]
  }

  /** The two fields that come from the keyword arguments or defaults. */
  function Header(kwargs: StrDict): StrDict {
    [("description", GetOr(kwargs, "description", PStr("mechanical information"))),
     ("link", GetOr(kwargs, "link", PNone))]
  }

  /** `Mechanics2D.from_file(fname, **kwargs)` where `file` is what
      `fname` loads to, `None` when it is not a file. */
  function FromFile(file: Option<StrDict>, kwargs: StrDict): (r: Result<StrDict>)
    ensures file.None? ==> r.Err? && r.error.RuntimeError?
    ensures r.Ok? <==> file.Some? && (forall k :: k in ResultKeys ==> k in Keys(file.value)) &&
                       Disjoint(Mechanics2DFields[1..], Keys(kwargs))
    ensures r.Ok? ==> r.value == Header(kwargs) + Mapped4(Looked(file.value, ResultKeys))
  {
    if file.None? then Err(RuntimeError("File not exits"))
    else
      var data :- MapResult(file.value);
      BuildMapped(Looked(file.value, ResultKeys), kwargs);
      Build(Mechanics2DSchema, data, Mechanics2DFields, kwargs)
  }

  /** The record lists the fields in declaration order; the two Poisson
      ratios trade places, the tensors are renamed, `stability` is yes
      exactly for `'Stable'`, the moduli are copied, and `description` and
      `link` come from the keyword arguments. */
  lemma FromFileFields(d: StrDict, kwargs: StrDict)
    requires FromFile(Some(d), kwargs).Ok?
    ensures var r := FromFile(Some(d), kwargs).value;
      |r| == 11 &&
      r[0] == ("description", GetOr(kwargs, "description", PStr("mechanical information"))) &&
      r[1] == ("link", GetOr(kwargs, "link", PNone)) &&
      r[2] == ("s_tensor", GetOr(d, "Stiffness_tensor", PNone)) &&
      r[3] == ("c_tensor", GetOr(d, "Compliance_tensor", PNone)) &&
      r[4] == ("Lm", GetOr(d, "Lm", PNone)) &&
      r[5] == ("Y10", GetOr(d, "Y10", PNone)) &&
      r[6] == ("Y01", GetOr(d, "Y01", PNone)) &&
      r[7] == ("Gm", GetOr(d, "Gm", PNone)) &&
      r[8] == ("V10", GetOr(d, "V01", PNone)) &&
      r[9] == ("V01", GetOr(d, "V10", PNone)) &&
      r[10] == ("stability", YesOrNo(PyEq(GetOr(d, "Stability", PNone), PStr("Stable"))))
  {
    RecordCells(kwargs, Looked(d, ResultKeys));
    LookedValues(d);
  }

  lemma RecordCells(kwargs: StrDict, v: seq<PyVal>)
    requires |v| == 9
    ensures var r := Header(kwargs) + Mapped4(v);
      |r| == 11 &&
      r[0] == ("description", GetOr(kwargs, "description", PStr("mechanical information"))) &&
      r[1] == ("link", GetOr(kwargs, "link", PNone)) &&
      r[2] == ("s_tensor", v[0]) && r[3] == ("c_tensor", v[1]) && r[4] == ("Lm", v[2]) &&
      r[5] == ("Y10", v[4]) && r[6] == ("Y01", v[3]) && r[7] == ("Gm", v[5]) &&
      r[8] == ("V10", v[7]) && r[9] == ("V01", v[6]) &&
      r[10] == ("stability", YesOrNo(PyEq(v[8], PStr("Stable"))))
  {
  }

  lemma LookedValues(d: StrDict)
    ensures var v := Looked(d, ResultKeys);
      v[0] == GetOr(d, "Stiffness_tensor", PNone) && v[1] == GetOr(d, "Compliance_tensor", PNone) &&
      v[2] == GetOr(d, "Lm", PNone) && v[3] == GetOr(d, "Y01", PNone) && v[4] == GetOr(d, "Y10", PNone) &&
      v[5] == GetOr(d, "Gm", PNone) && v[6] == GetOr(d, "V10", PNone) && v[7] == GetOr(d, "V01", PNone) &&
      v[8] == GetOr(d, "Stability", PNone)
  {
  }
}
