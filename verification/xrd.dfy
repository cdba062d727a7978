/** The X-ray diffraction record: `XRD.from_target` names the spectrum after
    the material and the radiation source, and the `get_target_and_edge`
    root validator recovers the source from a bare wavelength. The pattern
    itself comes from pymatgen's `XRDCalculator` and is an opaque value
    here; the wavelength table and `np.allclose` are parameters. */
module Xrd {
  import opened Results
  import opened Strings
  import opened PyDict
  import opened PyValues
  import opened Models

  /** pymatgen's `WAVELENGTHS`: source name (target element and edge) to
      wavelength in angstrom, in table order. */
  type Wavelengths = Dict<string, real>

  /** `np.allclose(wavelength, v)`: `None` when the comparison raises. */
  type Close = (PyVal, real) -> Option<bool>

  // --------------------------------------------------------------- validator

  /** Position of the table entry `next(k for k, v in WAVELENGTHS.items() if
      np.allclose(w, v))` stops at; `None` when the generator raises
      `StopIteration` or a comparison raises first. */
  function FirstClose(w: PyVal, table: Wavelengths, close: Close): (r: Option<nat>)
    ensures r.Some? ==>
      r.value < |table| && close(w, table[r.value].1) == Some(true) &&
      forall j :: 0 <= j < r.value ==> close(w, table[j].1) == Some(false)
    ensures r.None? ==>
      forall i :: 0 <= i < |table| && close(w, table[i].1) == Some(true) ==>
        exists j :: 0 <= j < i && close(w, table[j].1) != Some(false)
    decreases |table|
  {
    if |table| == 0 then None
    else
      match close(w, table[0].1)
      case Some(true) => Some(0)
      case None => None
      case Some(false) =>
        var rest := FirstClose(w, table[1..], close);
        assert forall j :: 1 <= j < |table| ==> table[j] == table[1..][j - 1];
        if rest.None? then
          assert forall i :: 1 <= i < |table| && close(w, table[i].1) == Some(true) ==>
            exists j :: 0 <= j < i && close(w, table[j].1) != Some(false) by {
            forall i | 1 <= i < |table| && close(w, table[i].1) == Some(true)
              ensures exists j :: 0 <= j < i && close(w, table[j].1) != Some(false)
            {
              var j :| 0 <= j < i - 1 && close(w, table[1..][j].1) != Some(false);
              assert close(w, table[j + 1].1) != Some(false);
            }
          }
          None
        else Some(rest.value + 1)
  }

  /** `get_target_and_edge`: when neither `target` nor `edge` is given and the
      wavelength is close to a table entry, the entry's name is split after
      its second character into target and edge. Every failure on the way
      (no wavelength, no match, a comparison that raises) leaves the values
      as they were. */
  function TargetAndEdge(values: StrDict, table: Wavelengths, close: Close): (r: StrDict)
    ensures "target" in Keys(values) || "edge" in Keys(values) ==> r == values
    ensures r != values ==>
      Get(values, "wavelength").Some? &&
      var i := FirstClose(Get(values, "wavelength").value, table, close);
      i.Some? &&
      Get(r, "target") == Some(PStr(Head(table[i.value].0, 2))) &&
      Get(r, "edge") == Some(PStr(Drop(table[i.value].0, 2)))
    ensures forall k :: k != "target" && k != "edge" ==> Get(r, k) == Get(values, k)
  {
    if "target" in Keys(values) || "edge" in Keys(values) then values
    else
      match Get(values, "wavelength")
      case None => values
      case Some(w) =>
        match FirstClose(w, table, close)
        case None => values
        case Some(i) => SetSource(values, table[i].0)
  }

  /** `values["target"] = k[:2]; values["edge"] = k[2:]` */
  function SetSource(values: StrDict, k: string): (r: StrDict)
    ensures Get(r, "target") == Some(PStr(Head(k, 2)))
    ensures Get(r, "edge") == Some(PStr(Drop(k, 2)))
    ensures forall j :: j != "target" && j != "edge" ==> Get(r, j) == Get(values, j)
  {
    Put(Put(values, "target", PStr(Head(k, 2))), "edge", PStr(Drop(k, 2)))
  }

  /** The validator undoes the naming of `from_target`: for a two-letter
      target, a wavelength whose first close table entry is `target + edge`
      gives back that target and edge. */
  lemma TargetAndEdgeRecovers(values: StrDict, table: Wavelengths, close: Close, target: string, edge: string)
    requires |target| == 2
    requires "target" !in Keys(values) && "edge" !in Keys(values)
    requires Get(values, "wavelength").Some?
    requires var i := FirstClose(Get(values, "wavelength").value, table, close);
      i.Some? && table[i.value].0 == target + edge
    ensures Get(TargetAndEdge(values, table, close), "target") == Some(PStr(target))
    ensures Get(TargetAndEdge(values, table, close), "edge") == Some(PStr(edge))
  {
    var k := target + edge;
    var w := Get(values, "wavelength").value;
    var i := FirstClose(w, table, close).value;
    assert TargetAndEdge(values, table, close) == SetSource(values, k);
    assert Head(k, 2) == target;
    assert Drop(k, 2) == edge;
  }

  // ------------------------------------------------------------ from_target

  /** Names `from_target` binds itself, so `**kwargs` never holds them. */
  const FromTargetParams: seq<string> :=
    ["material_id", "structure", "target", "edge", "min_two_theta", "max_two_theta", "symprec"]

  function SourceName(target: string, edge: string): string {
    target + edge
  }

  /** The keyword arguments `XRD(...)` receives from `XRD.from_target`, after
      the root validator: the spectrum id `<material_id>-<target><edge>`,
      the pattern, the table wavelength of the source, the angle range, then
      target, edge and the caller's keywords. An unknown source is a
      `ValueError`; a keyword given twice on the way (`spectrum_id`,
      `wavelength` or `spectrum` among the caller's keywords) a `TypeError`. */
  function FromTarget(materialId: string, target: string, edge: string, minTwoTheta: PyVal, maxTwoTheta: PyVal,
                      kwargs: StrDict, table: Wavelengths, pattern: PyVal, close: Close): (r: Result<StrDict>)
    requires Disjoint(Keys(kwargs), FromTargetParams)
    ensures r.Err? && r.error.ValueError? <==> SourceName(target, edge) !in Keys(table)
    ensures r.Ok? <==>
      SourceName(target, edge) in Keys(table) &&
      "spectrum_id" !in Keys(kwargs) && "wavelength" !in Keys(kwargs) && "spectrum" !in Keys(kwargs)
    ensures r.Ok? ==>
      Get(r.value, "spectrum_id") == Some(PStr(materialId + "-" + target + edge)) &&
      Get(table, SourceName(target, edge)).Some? &&
      Get(r.value, "wavelength") == Some(PFloat(Get(table, SourceName(target, edge)).value)) &&
      Get(r.value, "spectrum") == Some(pattern) &&
      Get(r.value, "target") == Some(PStr(target)) && Get(r.value, "edge") == Some(PStr(edge)) &&
      Get(r.value, "min_two_theta") == Some(minTwoTheta) && Get(r.value, "max_two_theta") == Some(maxTwoTheta) &&
      forall k :: k in Keys(kwargs) ==> Get(r.value, k) == Get(kwargs, k)
  {
    var key := SourceName(target, edge);
    GetPresent(table, key);
    if key !in Keys(table) then Err(ValueError(key + " not in pymatgen wavelenghts dictionarty"))
    else if "spectrum_id" in Keys(kwargs) || "wavelength" in Keys(kwargs) then
      Err(TypeError("got multiple values for keyword argument"))
    else
      assert materialId + "-" + key == materialId + "-" + target + edge;
      var values :- XrdKeywords(materialId + "-" + key, pattern, Get(table, key).value, minTwoTheta, maxTwoTheta,
                                target, edge, kwargs);
      assert TargetAndEdge(values, table, close) == values;
      Ok(TargetAndEdge(values, table, close))
  }

  /** `cls(spectrum_id=..., spectrum=..., wavelength=..., min_two_theta=...,
      max_two_theta=..., **kwargs)` in `from_structure`, whose `**kwargs`
      holds target, edge and the caller's keywords. */
  function XrdKeywords(spectrumId: string, pattern: PyVal, wavelength: real, minTwoTheta: PyVal, maxTwoTheta: PyVal,
                       target: string, edge: string, kwargs: StrDict): (r: Result<StrDict>)
    requires Disjoint(Keys(kwargs), FromTargetParams)
    requires "spectrum_id" !in Keys(kwargs) && "wavelength" !in Keys(kwargs)
    ensures r.Ok? <==> "spectrum" !in Keys(kwargs)
    ensures r.Err? ==> r.error.TypeError?
    ensures r.Ok? ==>
      "target" in Keys(r.value) &&
      Get(r.value, "spectrum_id") == Some(PStr(spectrumId)) &&
      Get(r.value, "wavelength") == Some(PFloat(wavelength)) &&
      Get(r.value, "spectrum") == Some(pattern) &&
      Get(r.value, "target") == Some(PStr(target)) && Get(r.value, "edge") == Some(PStr(edge)) &&
      Get(r.value, "min_two_theta") == Some(minTwoTheta) && Get(r.value, "max_two_theta") == Some(maxTwoTheta) &&
      forall k :: k in Keys(kwargs) ==> Get(r.value, k) == Get(kwargs, k)
  {
    var explicit := [("spectrum_id", PStr(spectrumId)), ("spectrum", pattern), ("wavelength", PFloat(wavelength)),
                     ("min_two_theta", minTwoTheta), ("max_two_theta", maxTwoTheta)];
    var rest := [("target", PStr(target)), ("edge", PStr(edge))] + kwargs;
    ExplicitGets(explicit, spectrumId, pattern, wavelength, minTwoTheta, maxTwoTheta);
    SourceGets(target, edge, kwargs);
    KeywordsDisjoint(explicit, rest, kwargs);
    var r := Kwargs(explicit, rest);
    if r.Ok? then
      MergedExplicit(r.value, explicit, rest, spectrumId, pattern, wavelength, minTwoTheta, maxTwoTheta);
      MergedRest(r.value, explicit, rest, kwargs, target, edge);
      r
    else r
  }

  /** The merged keywords read the explicit ones where those are given. */
  lemma MergedExplicit(m: StrDict, explicit: StrDict, rest: StrDict, spectrumId: string, pattern: PyVal,
                       wavelength: real, minTwoTheta: PyVal, maxTwoTheta: PyVal)
    requires forall k :: Get(m, k) == (if Get(explicit, k).Some? then Get(explicit, k) else Get(rest, k))
    requires Get(explicit, "spectrum_id") == Some(PStr(spectrumId))
    requires Get(explicit, "spectrum") == Some(pattern)
    requires Get(explicit, "wavelength") == Some(PFloat(wavelength))
    requires Get(explicit, "min_two_theta") == Some(minTwoTheta)
    requires Get(explicit, "max_two_theta") == Some(maxTwoTheta)
    ensures Get(m, "spectrum_id") == Some(PStr(spectrumId))
    ensures Get(m, "spectrum") == Some(pattern)
    ensures Get(m, "wavelength") == Some(PFloat(wavelength))
    ensures Get(m, "min_two_theta") == Some(minTwoTheta)
    ensures Get(m, "max_two_theta") == Some(maxTwoTheta)
  {
  }

  /** The merged keywords read the rest where the explicit ones are silent. */
  lemma MergedRest(m: StrDict, explicit: StrDict, rest: StrDict, kwargs: StrDict, target: string, edge: string)
    requires forall k :: Get(m, k) == (if Get(explicit, k).Some? then Get(explicit, k) else Get(rest, k))
    requires forall k :: k !in Keys(explicit) ==> Get(explicit, k) == None
    requires "target" !in Keys(explicit) && "edge" !in Keys(explicit)
    requires forall k :: k in Keys(kwargs) ==> k !in Keys(explicit)
    requires Get(rest, "target") == Some(PStr(target)) && Get(rest, "edge") == Some(PStr(edge))
    requires forall k :: k in Keys(kwargs) ==> Get(rest, k) == Get(kwargs, k)
    ensures "target" in Keys(m)
    ensures Get(m, "target") == Some(PStr(target)) && Get(m, "edge") == Some(PStr(edge))
    ensures forall k :: k in Keys(kwargs) ==> Get(m, k) == Get(kwargs, k)
  {
    MergedFromRest(m, explicit, rest, "target");
    MergedFromRest(m, explicit, rest, "edge");
  }

  lemma MergedFromRest(m: StrDict, explicit: StrDict, rest: StrDict, k: string)
    requires forall k :: Get(m, k) == (if Get(explicit, k).Some? then Get(explicit, k) else Get(rest, k))
    requires forall k :: k !in Keys(explicit) ==> Get(explicit, k) == None
    requires k !in Keys(explicit)
    ensures Get(m, k) == Get(rest, k)
    ensures Get(rest, k).Some? ==> k in Keys(m)
  {
    GetPresent(m, k);
  }

  lemma ExplicitGets(explicit: StrDict, spectrumId: string, pattern: PyVal, wavelength: real,
                     minTwoTheta: PyVal, maxTwoTheta: PyVal)
    requires explicit == [("spectrum_id", PStr(spectrumId)), ("spectrum", pattern), ("wavelength", PFloat(wavelength)),
                          ("min_two_theta", minTwoTheta), ("max_two_theta", maxTwoTheta)]
    ensures Keys(explicit) == ["spectrum_id", "spectrum", "wavelength", "min_two_theta", "max_two_theta"]
    ensures Get(explicit, "spectrum_id") == Some(PStr(spectrumId))
    ensures Get(explicit, "spectrum") == Some(pattern)
    ensures Get(explicit, "wavelength") == Some(PFloat(wavelength))
    ensures Get(explicit, "min_two_theta") == Some(minTwoTheta)
    ensures Get(explicit, "max_two_theta") == Some(maxTwoTheta)
    ensures forall k :: k !in Keys(explicit) ==> Get(explicit, k) == None
    ensures "target" !in Keys(explicit) && "edge" !in Keys(explicit)
  {
    KeysLength(explicit);
    GetFirst(explicit, "spectrum_id", 0);
    GetFirst(explicit, "spectrum", 1);
    GetFirst(explicit, "wavelength", 2);
    GetFirst(explicit, "min_two_theta", 3);
    GetFirst(explicit, "max_two_theta", 4);
    forall k | k !in Keys(explicit) ensures Get(explicit, k) == None { GetPresent(explicit, k); }
  }

  lemma SourceGets(target: string, edge: string, kwargs: StrDict)
    requires Disjoint(Keys(kwargs), FromTargetParams)
    ensures var rest := [("target", PStr(target)), ("edge", PStr(edge))] + kwargs;
      Keys(rest) == ["target", "edge"] + Keys(kwargs) &&
      Get(rest, "target") == Some(PStr(target)) && Get(rest, "edge") == Some(PStr(edge)) &&
      forall k :: k in Keys(kwargs) ==> Get(rest, k) == Get(kwargs, k)
  {
    var source := [("target", PStr(target)), ("edge", PStr(edge))];
    KeysLength(source);
    KeysAppend(source, kwargs);
    GetAppend(source, kwargs);
    GetFirst(source, "target", 0);
    GetFirst(source, "edge", 1);
    forall k | k in Keys(kwargs) ensures Get(source, k) == None {
      assert k !in FromTargetParams;
      GetPresent(source, k);
    }
  }

  lemma KeywordsDisjoint(explicit: StrDict, rest: StrDict, kwargs: StrDict)
    requires Keys(explicit) == ["spectrum_id", "spectrum", "wavelength", "min_two_theta", "max_two_theta"]
    requires Disjoint(Keys(kwargs), FromTargetParams)
    requires "spectrum_id" !in Keys(kwargs) && "wavelength" !in Keys(kwargs)
    requires Keys(rest) == ["target", "edge"] + Keys(kwargs)
    ensures Disjoint(Keys(explicit), Keys(rest)) <==> "spectrum" !in Keys(kwargs)
    ensures "spectrum" !in Keys(kwargs) ==> forall k :: k in Keys(kwargs) ==> k !in Keys(explicit)
  {
    if "spectrum" in Keys(kwargs) {
      assert "spectrum" in Keys(explicit) && "spectrum" in Keys(rest);
    } else {
      forall k | k in Keys(kwargs) ensures k !in Keys(explicit) {
        assert k !in FromTargetParams;
        assert "min_two_theta" in FromTargetParams && "max_two_theta" in FromTargetParams;
      }
      forall k | k in Keys(explicit) ensures k !in Keys(rest) {
        assert k !in Keys(kwargs);
        assert |k| != |"target"| && |k| != |"edge"| by {
          assert k == "spectrum_id" || k == "spectrum" || k == "wavelength" || k == "min_two_theta" || k == "max_two_theta";
        }
      }
    }
  }

  /** The sources are named by a two-letter element and an edge. */
  lemma SourceNameSplits()
    ensures Head(SourceName("Mo", "Ka1"), 2) == "Mo" && Drop(SourceName("Mo", "Ka1"), 2) == "Ka1"
  {
  }
}
