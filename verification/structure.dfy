/** Structure metadata: the element list, element count and chemical system
    derived from a composition, filtered to the wanted fields; and the
    `StructureMatvird` record with its dimension. pymatgen's composition
    and structure objects, the symmetry analysis and the dimensionality
    algorithm are opaque: the model receives what they report. */
module Structure {
  import opened Results
  import opened Strings
  import opened PyDict
  import opened PyValues
  import opened Models
  import opened Sorting

  /** What a pymatgen `Composition` reports: the symbols of its elements,
      the object itself, its reduced and anonymized formulas and its
      `to_reduced_dict`. */
  datatype Composition = Composition(
    symbols: seq<string>, value: PyVal, reducedFormula: string, anonymizedFormula: string, reducedDict: PyVal)

  /** What a pymatgen `Structure` reports, with the results of the symmetry
      analysis and of the dimensionality algorithm. */
  datatype StructureIn = StructureIn(
    composition: Composition, numSites: nat, volume: real, density: real,
    symmetry: PyVal, dimensionality: PyVal, asDict: PyVal, value: PyVal)

  const StructureMetadataSchema: Schema := [
    Field("nsites", Some(PNone)), Field("elements", Some(PNone)), Field("nelements", Some(PNone)),
    Field("composition", Some(PNone)), Field("composition_reduced", Some(PNone)),
    Field("formula_pretty", Some(PNone)), Field("formula_anonymous", Some(PNone)),
    Field("chemsys", Some(PNone)), Field("volume", Some(PNone)), Field("density", Some(PNone)),
    Field("density_atomic", Some(PNone)), Field("symmetry", Some(PNone))
  ]

  const CompositionFields: seq<string> := [
    "elements", "nelements", "composition", "composition_reduced",
    "formula_pretty", "formula_anonymous", "chemsys"]

  const StructureFields: seq<string> := [
    "nsites", "elements", "nelements", "composition", "composition_reduced",
    "formula_pretty", "formula_anonymous", "chemsys", "volume", "density",
    "density_atomic", "symmetry"]

  /** `sorted(set(e.symbol for e in composition.elements))` */
  function Elements(c: Composition): (r: seq<string>)
    ensures StrictlySorted(r)
    ensures forall y :: y in r <==> y in c.symbols
  {
    SortedSet(c.symbols)
  }

  /** Any strictly sorted list of exactly the composition's symbols is the
      element list. */
  lemma ElementsUnique(c: Composition, s: seq<string>)
    requires StrictlySorted(s)
    requires forall y :: y in s <==> y in c.symbols
    ensures Elements(c) == s
  {
    SortedUnique(Elements(c), s);
  }

  function StrList(xs: seq<string>): PyVal {
    PList(seq(|xs|, i requires 0 <= i < |xs| => PStr(xs[i])))
  }

  /** The `data` dict of `from_composition`. */
  function CompositionData(c: Composition): (d: StrDict)
    ensures Keys(d) == CompositionFields
  {
    var els := Elements(c);
    var d := [("elements", StrList(els)), ("nelements", PInt(|els|)),
      ("composition", c.value), ("composition_reduced", c.value),
      ("formula_pretty", PStr(c.reducedFormula)), ("formula_anonymous", PStr(c.anonymizedFormula)),
      ("chemsys", PStr(JoinWith("-", els)))];
    KeysLength(d);
    d
  }

  /** `StructureMetadata.from_composition(composition, fields, **kwargs)` */
  function FromComposition(c: Composition, fields: Option<seq<string>>, kwargs: StrDict): (r: Result<StrDict>)
    ensures r.Ok? <==> Disjoint(Keys(Filter(CompositionData(c), fields.GetOr(CompositionFields))), Keys(kwargs))
    ensures r.Ok? ==> Keys(r.value) == Names(StructureMetadataSchema)
  {
    AllOptional(Keys(Filter(CompositionData(c), fields.GetOr(CompositionFields)) + kwargs));
    Build(StructureMetadataSchema, CompositionData(c), fields.GetOr(CompositionFields), kwargs)
  }

  /** Every field of `StructureMetadata` has a default. */
  lemma AllOptional(ks: seq<string>)
    ensures Supplied(StructureMetadataSchema, ks)
  {
  }

  /** ... and that default is `None`. */
  lemma MetadataDefaults()
    ensures forall i :: 0 <= i < |StructureMetadataSchema| ==> StructureMetadataSchema[i].default == Some(PNone)
  {
  }

  /** The `data` dict of `from_structure`; `volume / num_sites` raises on a
      structure without sites, whatever fields are wanted. */
  function StructureData(st: StructureIn): (r: Result<StrDict>)
    ensures r.Err? <==> st.numSites == 0
    ensures r.Err? ==> r.error == ZeroDivisionError
    ensures r.Ok? ==> Keys(r.value) == StructureFields
  {
    if st.numSites == 0 then Err(ZeroDivisionError)
    else
      var c := st.composition;
      var els := Elements(c);
      var d := [("nsites", PInt(st.numSites)), ("elements", StrList(els)), ("nelements", PInt(|els|)),
        ("composition", c.value), ("composition_reduced", c.reducedDict),
        ("formula_pretty", PStr(c.reducedFormula)), ("formula_anonymous", PStr(c.anonymizedFormula)),
        ("chemsys", PStr(JoinWith("-", els))), ("volume", PFloat(st.volume)), ("density", PFloat(st.density)),
        ("density_atomic", PFloat(st.volume / (st.numSites as real))), ("symmetry", st.symmetry)];
      KeysLength(d);
      Ok(d)
  }

  /** The keyword arguments after `include_structure` has added the
      structure. */
  function StructureKwargs(st: StructureIn, includeStructure: bool, kwargs: StrDict): StrDict {
    if includeStructure then Put(kwargs, "structure", st.value) else kwargs
  }

  /** `StructureMetadata.from_structure(structure, fields, include_structure, **kwargs)` */
  function FromStructure(st: StructureIn, fields: Option<seq<string>>, includeStructure: bool,
                         kwargs: StrDict): (r: Result<StrDict>)
    ensures st.numSites == 0 ==> r == Err(ZeroDivisionError)
    ensures st.numSites > 0 && !includeStructure && kwargs == [] ==> r.Ok?
    ensures r.Ok? ==> Keys(r.value) == Names(StructureMetadataSchema)
  {
    var data :- StructureData(st);
    var kw := StructureKwargs(st, includeStructure, kwargs);
    AllOptional(Keys(Filter(data, fields.GetOr(StructureFields)) + kw));
    Build(StructureMetadataSchema, data, fields.GetOr(StructureFields), kw)
  }

  /** The element fields of a record built from `from_composition`: the
      sorted distinct symbols, their count, and the symbols joined by `-`;
      the reduced composition is the composition as given. */
  lemma CompositionMetadata(c: Composition, fields: Option<seq<string>>, kwargs: StrDict)
    requires FromComposition(c, fields, kwargs).Ok?
    ensures var r := FromComposition(c, fields, kwargs).value;
      var f := fields.GetOr(CompositionFields);
      var els := Elements(c);
      ("elements" in f ==> Get(r, "elements") == Some(StrList(els))) &&
      ("nelements" in f ==> Get(r, "nelements") == Some(PInt(|els|))) &&
      ("chemsys" in f ==> Get(r, "chemsys") == Some(PStr(JoinWith("-", els)))) &&
      ("composition_reduced" in f ==> Get(r, "composition_reduced") == Some(c.value))
  {
    var f := fields.GetOr(CompositionFields);
    var d := CompositionData(c);
    CompositionDataGet(c);
    MetadataNames();
    BuildGetNamed(StructureMetadataSchema, d, f, kwargs, "elements");
    BuildGetNamed(StructureMetadataSchema, d, f, kwargs, "nelements");
    BuildGetNamed(StructureMetadataSchema, d, f, kwargs, "chemsys");
    BuildGetNamed(StructureMetadataSchema, d, f, kwargs, "composition_reduced");
  }

  /** The derived fields of a record built from `from_structure`: the site
      count, the sorted distinct element symbols, their count, the symbols
      joined by `-`, the reduced composition as `to_reduced_dict`, and the
      volume per site, each present when wanted. */
  lemma StructureMetadataValues(st: StructureIn, fields: Option<seq<string>>, includeStructure: bool, kwargs: StrDict)
    requires FromStructure(st, fields, includeStructure, kwargs).Ok?
    ensures st.numSites > 0
    ensures var r := FromStructure(st, fields, includeStructure, kwargs).value;
      var f := fields.GetOr(StructureFields);
      var els := Elements(st.composition);
      ("nsites" in f ==> Get(r, "nsites") == Some(PInt(st.numSites))) &&
      ("elements" in f ==> Get(r, "elements") == Some(StrList(els))) &&
      ("nelements" in f ==> Get(r, "nelements") == Some(PInt(|els|))) &&
      ("chemsys" in f ==> Get(r, "chemsys") == Some(PStr(JoinWith("-", els)))) &&
      ("composition_reduced" in f ==> Get(r, "composition_reduced") == Some(st.composition.reducedDict)) &&
      ("density_atomic" in f ==> Get(r, "density_atomic") == Some(PFloat(st.volume / (st.numSites as real))))
  {
    var f := fields.GetOr(StructureFields);
    var d := StructureData(st).value;
    var kw := StructureKwargs(st, includeStructure, kwargs);
    StructureDataGet(st);
    MetadataNames();
    BuildGetNamed(StructureMetadataSchema, d, f, kw, "nsites");
    BuildGetNamed(StructureMetadataSchema, d, f, kw, "elements");
    BuildGetNamed(StructureMetadataSchema, d, f, kw, "nelements");
    BuildGetNamed(StructureMetadataSchema, d, f, kw, "chemsys");
    BuildGetNamed(StructureMetadataSchema, d, f, kw, "composition_reduced");
    BuildGetNamed(StructureMetadataSchema, d, f, kw, "density_atomic");
  }

  lemma StructureDataGet(st: StructureIn)
    requires st.numSites > 0
    ensures var d := StructureData(st).value;
      var els := Elements(st.composition);
      Get(d, "nsites") == Some(PInt(st.numSites)) &&
      Get(d, "elements") == Some(StrList(els)) &&
      Get(d, "nelements") == Some(PInt(|els|)) &&
      Get(d, "chemsys") == Some(PStr(JoinWith("-", els))) &&
      Get(d, "composition_reduced") == Some(st.composition.reducedDict) &&
      Get(d, "density_atomic") == Some(PFloat(st.volume / (st.numSites as real)))
  {
    var d := StructureData(st).value;
    assert DistinctKeys(d) by { StructureFieldsDistinct(); }
    GetAt(d, 0);
    GetAt(d, 1);
    GetAt(d, 2);
    GetAt(d, 4);
    GetAt(d, 7);
    GetAt(d, 10);
  }

  lemma CompositionDataGet(c: Composition)
    ensures var d := CompositionData(c);
      var els := Elements(c);
      Get(d, "elements") == Some(StrList(els)) &&
      Get(d, "nelements") == Some(PInt(|els|)) &&
      Get(d, "chemsys") == Some(PStr(JoinWith("-", els))) &&
      Get(d, "composition_reduced") == Some(c.value)
  {
    var d := CompositionData(c);
    assert DistinctKeys(d) by { assert Keys(d) == CompositionFields; }
    GetAt(d, 0);
    GetAt(d, 1);
    GetAt(d, 3);
    GetAt(d, 6);
  }

  lemma MetadataNames()
    ensures Names(StructureMetadataSchema) == StructureFields
    ensures Distinct(Names(StructureMetadataSchema))
  {
    assert Names(StructureMetadataSchema) == StructureFields;
    StructureFieldsDistinct();
  }

  /** The record declares no `structure` field. */
  lemma MetadataHasNoStructure()
    ensures "structure" !in Names(StructureMetadataSchema)
  {
    MetadataNames();
    assert "structure" !in StructureFields;
  }

  lemma StructureFieldsDistinct()
    ensures Distinct(StructureFields)
  {
  }

  /** Fields neither wanted nor passed as keywords keep their default
      `None`: the filter drops the rest of the data. */
  lemma UnwantedFieldsDropped(d: StrDict, f: seq<string>, kwargs: StrDict, i: nat)
    requires i < |StructureMetadataSchema|
    requires Build(StructureMetadataSchema, d, f, kwargs).Ok?
    requires StructureMetadataSchema[i].name !in f && StructureMetadataSchema[i].name !in Keys(kwargs)
    ensures Build(StructureMetadataSchema, d, f, kwargs).value[i].1 == PNone
  {
    BuildField(StructureMetadataSchema, d, f, kwargs, i);
    GetPresent(kwargs, StructureMetadataSchema[i].name);
    MetadataDefaults();
  }

  /** `include_structure` adds a keyword the record does not declare, so it
      changes nothing: the record is the one built without it. */
  lemma IncludeStructureIgnored(st: StructureIn, fields: Option<seq<string>>, kwargs: StrDict)
    ensures FromStructure(st, fields, true, kwargs) == FromStructure(st, fields, false, kwargs)
  {
    if st.numSites > 0 {
      var data := StructureData(st).value;
      var f := fields.GetOr(StructureFields);
      StructureNotInData(data, f);
      MetadataHasNoStructure();
      BuildExtraKeyword(StructureMetadataSchema, data, f, kwargs, "structure", st.value);
    }
  }

  lemma StructureNotInData(data: StrDict, f: seq<string>)
    requires Keys(data) == StructureFields
    ensures "structure" !in Keys(Filter(data, f))
  {
    GetPresent(data, "structure");
    GetPresent(Filter(data, f), "structure");
  }

  // -------------------------------------------------------- StructureMatvird

  const StructureMatvirdSchema: Schema := [
    Field("description", Some(PStr("Structure information"))),
    Field("dimension", Some(PNone)),
    Field("structure", None),
    Field("metadata", None)
  ]

  const MatvirdFields: seq<string> := ["dimension", "structure", "metadata"]

  /** The dimension used: the given one when it is truthy, otherwise the
      one the dimensionality algorithm finds (so a plain `0` is
      recomputed). */
  function ChosenDimension(st: StructureIn, dimension: PyVal): (d: PyVal)
    ensures Truthy(dimension) ==> d == dimension
    ensures !Truthy(dimension) ==> d == st.dimensionality
  {
    if Truthy(dimension) then dimension else st.dimensionality
  }

  /** `StructureMatvird.from_structure(structure, dimension, fields, **kwargs)` */
  function MatvirdFromStructure(st: StructureIn, dimension: PyVal, fields: Option<seq<string>>,
                                kwargs: StrDict): (r: Result<StrDict>)
    ensures st.numSites == 0 ==> r == Err(ZeroDivisionError)
    ensures st.numSites > 0 && fields.None? && kwargs == [] ==>
      r.Ok? &&
      Get(r.value, "dimension") == Some(ChosenDimension(st, dimension)) &&
      Get(r.value, "structure") == Some(st.asDict) &&
      Get(r.value, "metadata") == Some(Record(FromStructure(st, None, false, []).value))
  {
    var meta :- FromStructure(st, None, false, []);
    MatvirdDefaultValues(st, dimension, Record(meta), fields, kwargs);
    MatvirdBuild(st, dimension, Record(meta), fields, kwargs)
  }

  lemma MatvirdDefaultValues(st: StructureIn, dimension: PyVal, meta: PyVal, fields: Option<seq<string>>,
                             kwargs: StrDict)
    ensures fields.None? && kwargs == [] ==>
      var r := MatvirdBuild(st, dimension, meta, fields, kwargs);
      r.Ok? &&
      Get(r.value, "dimension") == Some(ChosenDimension(st, dimension)) &&
      Get(r.value, "structure") == Some(st.asDict) &&
      Get(r.value, "metadata") == Some(meta)
  {
    if fields.None? && kwargs == [] {
      var data := [("dimension", ChosenDimension(st, dimension)), ("structure", st.asDict), ("metadata", meta)];
      var fd := Filter(data, MatvirdFields);
      assert fd + kwargs == fd;
      GetPresent(fd, "structure");
      GetPresent(fd, "metadata");
      GetPresent(fd, "dimension");
      GetFirst(data, "dimension", 0);
      GetFirst(data, "structure", 1);
      GetFirst(data, "metadata", 2);
      MatvirdNamesDistinct();
      BuildGetNamed(StructureMatvirdSchema, data, MatvirdFields, kwargs, "dimension");
      BuildGetNamed(StructureMatvirdSchema, data, MatvirdFields, kwargs, "structure");
      BuildGetNamed(StructureMatvirdSchema, data, MatvirdFields, kwargs, "metadata");
    }
  }

  /** The record built once the metadata record `meta` exists. */
  function MatvirdBuild(st: StructureIn, dimension: PyVal, meta: PyVal, fields: Option<seq<string>>,
                        kwargs: StrDict): Result<StrDict>
  {
    var data := [("dimension", ChosenDimension(st, dimension)), ("structure", st.asDict), ("metadata", meta)];
    Build(StructureMatvirdSchema, data, fields.GetOr(MatvirdFields), kwargs)
  }

  lemma MatvirdNamesDistinct()
    ensures Names(StructureMatvirdSchema) == ["description", "dimension", "structure", "metadata"]
    ensures Distinct(Names(StructureMatvirdSchema))
  {
    assert Names(StructureMatvirdSchema) == ["description", "dimension", "structure", "metadata"];
  }

  /** The structure and the metadata are required: leaving either out of
      the wanted fields without passing it as a keyword fails validation. */
  lemma MatvirdNeedsStructure(st: StructureIn, dimension: PyVal, fields: seq<string>, kwargs: StrDict)
    requires st.numSites > 0
    requires ("structure" !in fields && "structure" !in Keys(kwargs)) ||
             ("metadata" !in fields && "metadata" !in Keys(kwargs))
    ensures MatvirdFromStructure(st, dimension, Some(fields), kwargs).Err?
  {
    MatvirdBuildNeeds(st, dimension, Record(FromStructure(st, None, false, []).value), fields, kwargs);
  }

  lemma MatvirdBuildNeeds(st: StructureIn, dimension: PyVal, meta: PyVal, fields: seq<string>, kwargs: StrDict)
    requires ("structure" !in fields && "structure" !in Keys(kwargs)) ||
             ("metadata" !in fields && "metadata" !in Keys(kwargs))
    ensures MatvirdBuild(st, dimension, meta, Some(fields), kwargs).Err?
  {
    var data := [("dimension", ChosenDimension(st, dimension)), ("structure", st.asDict), ("metadata", meta)];
    if "structure" !in fields && "structure" !in Keys(kwargs) {
      BuildMissingRequired(StructureMatvirdSchema, data, fields, kwargs, 2);
    } else {
      BuildMissingRequired(StructureMatvirdSchema, data, fields, kwargs, 3);
    }
  }
}
