/** How the system builds its pydantic records. A record class declares its
    fields in order, each required (`Field(...)`) or with a default. Calling
    the class with keyword arguments keeps the declared order, takes each
    field from the arguments or its default, ignores unknown arguments, and
    fails when a required field is missing. The recurring idiom
    `cls(**{k: v for k, v in data.items() if k in fields}, **kwargs)` first
    filters `data` to the wanted keys and then passes `kwargs` as well,
    which raises `TypeError` when both supply the same keyword. */
module Models {
  import opened Results
  import opened Strings
  import opened PyDict
  import opened PyValues

  /** A declared field: `default` is `None` for a required field. */
  datatype Field = Field(name: string, default: Option<PyVal>)

  type Schema = seq<Field>

  function Names(schema: Schema): (r: seq<string>)
    ensures |r| == |schema|
    ensures forall i :: 0 <= i < |schema| ==> r[i] == schema[i].name
  {
    seq(|schema|, i requires 0 <= i < |schema| => schema[i].name)
  }

  /** A record class that extends another declares the parent's fields
      first. */
  lemma NamesAppend(a: Schema, b: Schema)
    ensures Names(a + b) == Names(a) + Names(b)
  {
  }

  /** `{k: v for k, v in data.items() if k in fields}` */
  function Filter(data: StrDict, fields: seq<string>): (r: StrDict)
    ensures forall k :: Get(r, k) == (if k in fields then Get(data, k) else None)
    ensures forall p :: p in r ==> p in data && p.0 in fields
    decreases |data|
  {
    if |data| == 0 then []
    else if data[0].0 in fields then [data[0]] + Filter(data[1..], fields)
    else Filter(data[1..], fields)
  }

  /** A key list with no key that is also in `ks`. */
  predicate Disjoint(ks: seq<string>, ls: seq<string>) {
    forall k :: k in ks ==> k !in ls
  }

  /** The keyword arguments of `f(**a, **b)`: `TypeError` when a keyword
      comes from both, otherwise all of `a` followed by all of `b`. */
  function Kwargs(a: StrDict, b: StrDict): (r: Result<StrDict>)
    ensures r.Ok? <==> Disjoint(Keys(a), Keys(b))
    ensures r.Ok? ==> forall k :: Get(r.value, k) == (if Get(a, k).Some? then Get(a, k) else Get(b, k))
  {
    if Disjoint(Keys(a), Keys(b)) then
      GetAppend(a, b);
      Ok(a + b)
    else
      Err(TypeError("got multiple values for keyword argument"))
  }

  lemma {:induction false} GetAppend(a: StrDict, b: StrDict)
    ensures forall k :: Get(a + b, k) == (if Get(a, k).Some? then Get(a, k) else Get(b, k))
    decreases |a|
  {
    if |a| == 0 {
      assert a + b == b;
    } else {
      assert (a + b)[1..] == a[1..] + b;
      GetAppend(a[1..], b);
    }
  }

  /** Every required field of `schema` is among `ks`. */
  predicate Supplied(schema: Schema, ks: seq<string>) {
    forall i :: 0 <= i < |schema| && schema[i].default.None? ==> schema[i].name in ks
  }

  /** The value a field takes: the argument when given, else its default. */
  function FieldValue(f: Field, args: StrDict): PyVal
    requires Get(args, f.name).Some? || f.default.Some?
  {
    if Get(args, f.name).Some? then Get(args, f.name).value else f.default.value
  }

  /** `cls(**args)` for a record class with the given fields: the record
      lists the declared fields in order, each holding its argument or its
      default; a missing required field is a validation error. */
  function Construct(schema: Schema, args: StrDict): (r: Result<StrDict>)
    ensures r.Ok? <==> Supplied(schema, Keys(args))
    ensures r.Ok? ==> |r.value| == |schema| && Keys(r.value) == Names(schema)
    ensures r.Ok? ==> forall i :: 0 <= i < |schema| ==>
      (Get(args, schema[i].name).Some? ==> r.value[i].1 == Get(args, schema[i].name).value) &&
      (Get(args, schema[i].name).None? ==> Some(r.value[i].1) == schema[i].default)
  {
    forall k ensures Get(args, k).Some? <==> k in Keys(args) { GetPresent(args, k); }
    if Supplied(schema, Keys(args)) then
      var r := seq(|schema|, i requires 0 <= i < |schema| => (schema[i].name, FieldValue(schema[i], args)));
      KeysLength(r);
      Ok(r)
    else
      Err(ValueError("field required"))
  }

  /** `cls(**{k: v for k, v in data.items() if k in fields}, **kwargs)` */
  function Build(schema: Schema, data: StrDict, fields: seq<string>, kwargs: StrDict): (r: Result<StrDict>)
    ensures r.Ok? <==> Disjoint(Keys(Filter(data, fields)), Keys(kwargs)) &&
                       Supplied(schema, Keys(Filter(data, fields) + kwargs))
  {
    var args :- Kwargs(Filter(data, fields), kwargs);
    Construct(schema, args)
  }

  /** A field of a built record holds the filtered datum when there is one,
      the keyword argument when there is one, and the default otherwise. */
  lemma BuildField(schema: Schema, data: StrDict, fields: seq<string>, kwargs: StrDict, i: nat)
    requires Build(schema, data, fields, kwargs).Ok?
    requires i < |schema|
    ensures Build(schema, data, fields, kwargs).value[i].0 == schema[i].name
    ensures var n := schema[i].name;
            var v := Build(schema, data, fields, kwargs).value[i].1;
            if n in fields && Get(data, n).Some? then v == Get(data, n).value
            else if Get(kwargs, n).Some? then v == Get(kwargs, n).value
            else Some(v) == schema[i].default
  {
    var r := Build(schema, data, fields, kwargs).value;
    KeysLength(r);
  }

  /** One field of a constructed record: its declared name with the
      argument when there is one, the default otherwise. */
  lemma ConstructCell(schema: Schema, args: StrDict, i: nat)
    requires Construct(schema, args).Ok? && i < |schema|
    ensures Construct(schema, args).value[i] ==
            (schema[i].name, if Get(args, schema[i].name).Some? then Get(args, schema[i].name).value
                             else schema[i].default.value)
  {
    var r := Construct(schema, args).value;
    KeysLength(r);
    assert Keys(r)[i] == Names(schema)[i];
  }

  /** When the declared names are distinct, looking a field up in a built
      record finds the value at its position. */
  lemma BuildGet(schema: Schema, data: StrDict, fields: seq<string>, kwargs: StrDict, i: nat)
    requires Build(schema, data, fields, kwargs).Ok?
    requires i < |schema| && Distinct(Names(schema))
    ensures Get(Build(schema, data, fields, kwargs).value, schema[i].name) ==
            Some(Build(schema, data, fields, kwargs).value[i].1)
  {
    var r := Build(schema, data, fields, kwargs).value;
    KeysLength(r);
    BuildField(schema, data, fields, kwargs, i);
    GetAt(r, i);
  }

  /** A declared field the arguments supply reads back as the argument. */
  lemma ConstructGet(schema: Schema, args: StrDict, n: string)
    requires Construct(schema, args).Ok?
    requires n in Names(schema) && Get(args, n).Some?
    ensures Get(Construct(schema, args).value, n) == Get(args, n)
  {
    var r := Construct(schema, args).value;
    var i := FirstIndex(Names(schema), n);
    ConstructCell(schema, args, i);
    KeysLength(r);
    forall j | 0 <= j < i ensures r[j].0 != n {
      assert Names(schema)[..i][j] == r[j].0;
    }
    GetFirst(r, n, i);
  }

  /** A record depends only on the arguments for its declared fields. */
  lemma ConstructSameFields(schema: Schema, a: StrDict, b: StrDict)
    requires forall i :: 0 <= i < |schema| ==> Get(a, schema[i].name) == Get(b, schema[i].name)
    ensures Construct(schema, a) == Construct(schema, b)
  {
    forall i | 0 <= i < |schema| ensures (schema[i].name in Keys(a)) == (schema[i].name in Keys(b)) {
      GetPresent(a, schema[i].name);
      GetPresent(b, schema[i].name);
    }
    assert Supplied(schema, Keys(a)) == Supplied(schema, Keys(b));
    if Supplied(schema, Keys(a)) {
      var ra := Construct(schema, a).value;
      var rb := Construct(schema, b).value;
      KeysLength(ra);
      KeysLength(rb);
      forall i | 0 <= i < |schema| ensures ra[i] == rb[i] {
        assert ra[i].0 == schema[i].name == rb[i].0;
      }
      assert ra == rb;
    }
  }

  /** A keyword the record does not declare, and the filtered data does not
      supply, changes nothing: it is accepted and ignored. */
  lemma BuildExtraKeyword(schema: Schema, data: StrDict, fields: seq<string>, kwargs: StrDict,
                          k: string, v: PyVal)
    requires k !in Names(schema) && k !in Keys(Filter(data, fields))
    ensures Build(schema, data, fields, Put(kwargs, k, v)) == Build(schema, data, fields, kwargs)
  {
    var fd := Filter(data, fields);
    var kw := Put(kwargs, k, v);
    assert Disjoint(Keys(fd), Keys(kw)) == Disjoint(Keys(fd), Keys(kwargs));
    if Disjoint(Keys(fd), Keys(kwargs)) {
      GetAppend(fd, kw);
      GetAppend(fd, kwargs);
      forall i | 0 <= i < |schema| ensures Get(fd + kw, schema[i].name) == Get(fd + kwargs, schema[i].name) {
        assert Names(schema)[i] == schema[i].name;
      }
      ConstructSameFields(schema, fd + kw, fd + kwargs);
    }
  }

  /** The same, by field name: a wanted field the data supplies holds the
      data's value. */
  lemma BuildGetNamed(schema: Schema, data: StrDict, fields: seq<string>, kwargs: StrDict, n: string)
    requires Build(schema, data, fields, kwargs).Ok? && Distinct(Names(schema))
    ensures n in Names(schema) && n in fields && Get(data, n).Some? ==>
            Get(Build(schema, data, fields, kwargs).value, n) == Get(data, n)
  {
    if n in Names(schema) && n in fields && Get(data, n).Some? {
      var i :| 0 <= i < |Names(schema)| && Names(schema)[i] == n;
      BuildField(schema, data, fields, kwargs, i);
      BuildGet(schema, data, fields, kwargs, i);
    }
  }

  /** A required field that is neither wanted from the data nor passed as
      a keyword makes validation fail. */
  lemma BuildMissingRequired(schema: Schema, data: StrDict, fields: seq<string>, kwargs: StrDict, i: nat)
    requires i < |schema| && schema[i].default.None?
    requires schema[i].name !in fields && schema[i].name !in Keys(kwargs)
    ensures Build(schema, data, fields, kwargs).Err?
  {
    var fd := Filter(data, fields);
    var n := schema[i].name;
    GetPresent(fd, n);
    KeysAppend(fd, kwargs);
  }

  /** `str(record)` for a pydantic record: `name=repr(value)` for each
      field, separated by spaces. */
  function ModelText(fields: StrDict): string {
    JoinWith(" ", seq(|fields|, k requires 0 <= k < |fields| => fields[k].0 + "=" + Repr(fields[k].1)))
  }

  /** A constructed record as a Python value. */
  function Record(fields: StrDict): (v: PyVal)
    ensures v.PModel? && v.fields == fields
  {
    PModel(ModelText(fields), fields)
  }
}
