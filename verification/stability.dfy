/** The three stability labels of a material (thermodynamic, phonon and
    stiffness), each computed from one number by fixed thresholds and
    stored in a small record whose `value` is kept only when `value` is
    among the wanted fields. Thresholds are compared exactly; the rounding
    of `0.2 + e_abh` in binary floating point is not modelled. */
module Stability {
  import opened Results
  import opened PyDict
  import opened PyValues
  import opened Models

  /** The `LMH` enumeration. */
  datatype LMH = Low | Middle | High

  /** An `LMH` member as a value: its `str` is its value. */
  function LMHVal(l: LMH): PyVal {
    var t := match l case Low => "low" case Middle => "middle" case High => "high";
    PEnum(t, PStr(t))
  }

  /** Thermodynamic label from the formation energy `e_f` and the energy
      above the hull `e_abh`. */
  function ThermoLabel(e_f: real, e_abh: real): (r: LMH)
    ensures r == Low <==> e_f > 0.2
    ensures r == Middle <==> 0.2 + e_abh < e_f < 0.2
  {
    if e_f > 0.2 then Low
    else if e_f > 0.2 + e_abh && e_f < 0.2 then Middle
    else High
  }

  /** "Middle" is reachable only with a negative energy above the hull; a
      non-negative `e_abh` leaves only low and high. */
  lemma MiddleNeedsNegativeAbh(e_f: real, e_abh: real)
    ensures ThermoLabel(e_f, e_abh) == Middle ==> e_abh < 0.0
    ensures e_abh >= 0.0 ==> (ThermoLabel(e_f, e_abh) == High <==> e_f <= 0.2)
  {
  }

  /** The boundary value itself is high, for every `e_abh`. */
  lemma ThresholdIsHigh(e_abh: real)
    ensures ThermoLabel(0.2, e_abh) == High
  {
  }

  /** Raising the formation energy never improves the label from low. */
  lemma ThermoLowUpward(e_f: real, e_f2: real, e_abh: real, e_abh2: real)
    requires ThermoLabel(e_f, e_abh) == Low && e_f <= e_f2
    ensures ThermoLabel(e_f2, e_abh2) == Low
  {
  }

  function PhononLabel(max_hessian: real): (r: LMH)
    ensures r != Middle
    ensures r == Low <==> max_hessian <= -0.01
  {
    if max_hessian <= -0.01 then Low else High
  }

  function StiffnessLabel(min_eig_tensor: real): (r: LMH)
    ensures r != Middle
    ensures r == Low <==> min_eig_tensor <= 0.0
  {
    if min_eig_tensor <= 0.0 then Low else High
  }

  /** The fields of each stability record, in declaration order. */
  const StabilitySchema: Schema :=
    [Field("description", Some(PStr("Stability informaion"))),
     Field("value", Some(PNone)),
     Field("link", Some(PNone))]

  /** `fields`, or its default `['value', 'link']` when not given. */
  function WantedFields(fields: Option<seq<string>>): seq<string> {
    fields.GetOr(["value", "link"])
  }

  /** The shared tail of the three `from_dict` class methods. */
  function FromLabel(l: LMH, fields: Option<seq<string>>, kwargs: StrDict): (r: Result<StrDict>)
    ensures r.Ok? <==> !("value" in WantedFields(fields) && "value" in Keys(kwargs))
    ensures r.Ok? ==> (r.value ==
      [("description", Get(kwargs, "description").GetOr(PStr("Stability informaion"))),
       ("value", if "value" in WantedFields(fields) then LMHVal(l) else Get(kwargs, "value").GetOr(PNone)),
       ("link", Get(kwargs, "link").GetOr(PNone))])
  {
    BuildLabelFacts(l, WantedFields(fields), kwargs);
    Build(StabilitySchema, [("value", LMHVal(l))], WantedFields(fields), kwargs)
  }

  lemma BuildLabelFacts(l: LMH, f: seq<string>, kwargs: StrDict)
    ensures var r := Build(StabilitySchema, [("value", LMHVal(l))], f, kwargs);
      (r.Ok? <==> !("value" in f && "value" in Keys(kwargs))) &&
      (r.Ok? ==> r.value == [("description", Get(kwargs, "description").GetOr(PStr("Stability informaion"))),
                             ("value", if "value" in f then LMHVal(l) else Get(kwargs, "value").GetOr(PNone)),
                             ("link", Get(kwargs, "link").GetOr(PNone))])
  {
    LabelArgs(l, f, kwargs);
    var a := Kwargs(Filter([("value", LMHVal(l))], f), kwargs);
    if a.Ok? {
      LabelConstruct(a.value, if "value" in f then Some(LMHVal(l)) else Get(kwargs, "value"), kwargs);
    }
  }

  /** The keyword arguments a label record is built from. */
  lemma LabelArgs(l: LMH, f: seq<string>, kwargs: StrDict)
    ensures var a := Kwargs(Filter([("value", LMHVal(l))], f), kwargs);
      (a.Ok? <==> !("value" in f && "value" in Keys(kwargs))) &&
      (a.Ok? ==> Get(a.value, "description") == Get(kwargs, "description") &&
                 Get(a.value, "link") == Get(kwargs, "link") &&
                 Get(a.value, "value") == if "value" in f then Some(LMHVal(l)) else Get(kwargs, "value"))
  {
    var data := [("value", LMHVal(l))];
    var fd := Filter(data, f);
    assert fd == if "value" in f then data else [];
    assert Keys(fd) == if "value" in f then ["value"] else [];
  }

  lemma LabelConstruct(args: StrDict, v: Option<PyVal>, kwargs: StrDict)
    requires Get(args, "description") == Get(kwargs, "description")
    requires Get(args, "link") == Get(kwargs, "link")
    requires Get(args, "value") == v
    ensures Construct(StabilitySchema, args).Ok?
    ensures Construct(StabilitySchema, args).value ==
      [("description", Get(kwargs, "description").GetOr(PStr("Stability informaion"))),
       ("value", v.GetOr(PNone)),
       ("link", Get(kwargs, "link").GetOr(PNone))]
  {
    assert Supplied(StabilitySchema, Keys(args));
    var c := Construct(StabilitySchema, args);
    assert c.value == [c.value[0], c.value[1], c.value[2]];
  }

  /** `ThermoDynamicStability.from_dict(e_f, e_abh, fields, **kwargs)` */
  function ThermoFromDict(e_f: real, e_abh: real, fields: Option<seq<string>>, kwargs: StrDict): (r: Result<StrDict>)
    ensures r.Ok? <==> !("value" in WantedFields(fields) && "value" in Keys(kwargs))
    ensures r.Ok? ==> |r.value| == 3 && r.value[1].0 == "value"
    ensures r.Ok? && "value" in WantedFields(fields) ==>
      (r.value[1].1 == LMHVal(Low) <==> e_f > 0.2)
    ensures r.Ok? && "value" in WantedFields(fields) ==>
      (r.value[1].1 == LMHVal(Middle) <==> 0.2 + e_abh < e_f < 0.2)
  {
    FromLabel(ThermoLabel(e_f, e_abh), fields, kwargs)
  }

  /** `PhononStability.from_dict(max_hessian, fields, **kwargs)` */
  function PhononFromDict(max_hessian: real, fields: Option<seq<string>>, kwargs: StrDict): (r: Result<StrDict>)
    ensures r.Ok? <==> !("value" in WantedFields(fields) && "value" in Keys(kwargs))
    ensures r.Ok? ==> |r.value| == 3 && r.value[1].0 == "value"
    ensures r.Ok? && "value" in WantedFields(fields) ==>
      (r.value[1].1 == LMHVal(Low) <==> max_hessian <= -0.01)
  {
    FromLabel(PhononLabel(max_hessian), fields, kwargs)
  }

  /** `StiffnessStability.from_dict(min_eig_tensor, fields, **kwargs)` */
  function StiffnessFromDict(min_eig_tensor: real, fields: Option<seq<string>>, kwargs: StrDict): (r: Result<StrDict>)
    ensures r.Ok? <==> !("value" in WantedFields(fields) && "value" in Keys(kwargs))
    ensures r.Ok? ==> |r.value| == 3 && r.value[1].0 == "value"
    ensures r.Ok? && "value" in WantedFields(fields) ==>
      (r.value[1].1 == LMHVal(Low) <==> min_eig_tensor <= 0.0)
  {
    FromLabel(StiffnessLabel(min_eig_tensor), fields, kwargs)
  }
}
