/** The accumulators of `Builder`: property origins grouped by property
    key, the merged properties dict, and customer data by label. A builder
    is a value here and every mutator returns the next one. */
module BuilderBase {
  import opened Results
  import opened Strings
  import opened PyDict
  import opened PyValues

  /** `PropertyOrigin(name, task_id, last_updated, link)`; the time stamp
      is the clock reading `datetime.utcnow()` gives, passed in. */
  datatype PropertyOrigin = PropertyOrigin(name: string, taskId: string, lastUpdated: int, link: Option<string>)

  datatype Builder = Builder(
    origins: Dict<string, seq<PropertyOrigin>>,
    properties: Dict<PyVal, PyVal>,
    customer: Dict<string, PyVal>)

  /** The accumulators `__init__` starts with. */
  const Fresh := Builder([], [], [])

  // -------------------------------------------------------- PropertyOrigin

  /** pydantic's `str` field: a string is kept, a bool, int or float is
      rendered with `str`, anything else fails validation. */
  function StrField(v: PyVal): (r: Result<string>)
    ensures r.Ok? <==> v.PStr? || v.PBool? || v.PInt? || v.PFloat? || v.PNaN?
    ensures v.PStr? ==> r == Ok(v.s)
    ensures r.Err? ==> r.error == ValueError("str type expected")
  {
    match v
    case PStr(s) => Ok(s)
    case PBool(_) => Ok(Str(v))
    case PInt(_) => Ok(Str(v))
    case PFloat(_) => Ok(Str(v))
    case PNaN => Ok(Str(v))
    case _ => Err(ValueError("str type expected"))
  }

  /** A `str` field whose default is `None` also accepts `None`. */
  function OptionalStrField(v: PyVal): (r: Result<Option<string>>)
    ensures r.Ok? <==> v.PNone? || StrField(v).Ok?
    ensures v.PNone? ==> r == Ok(None)
    ensures r.Ok? && !v.PNone? ==> r.value == Some(StrField(v).value)
  {
    if v.PNone? then Ok(None)
    else
      var s :- StrField(v);
      Ok(Some(s))
  }

  /** `PropertyOrigin(name=name, task_id=task_id, link=link)`. `name` and
      `task_id` are required strings, so `None` is refused for them. */
  function MakeOrigin(name: PyVal, taskId: PyVal, link: PyVal, now: int): (r: Result<PropertyOrigin>)
    ensures r.Ok? <==> StrField(name).Ok? && StrField(taskId).Ok? && OptionalStrField(link).Ok?
    ensures r.Ok? ==> r.value == PropertyOrigin(StrField(name).value, StrField(taskId).value, now,
                                                OptionalStrField(link).value)
  {
    var n :- StrField(name);
    var t :- StrField(taskId);
    var l :- OptionalStrField(link);
    Ok(PropertyOrigin(n, t, now, l))
  }

  // ------------------------------------------------------------- origins

  /** `set_origins(key, task_id, name, link)`: the new origin goes at the
      end of the key's list, or starts a one-element list for a new key;
      the lists of other keys, the properties and the customer data stay as
      they were. An argument the record refuses raises before anything
      changes. */
  function SetOrigins(b: Builder, key: string, taskId: PyVal, name: PyVal, link: PyVal, now: int): (r: Result<Builder>)
    ensures r.Ok? <==> MakeOrigin(name, taskId, link, now).Ok?
    ensures r.Ok? ==> Get(r.value.origins, key) == Some(GetOr(b.origins, key, []) + [MakeOrigin(name, taskId, link, now).value])
    ensures r.Ok? ==> forall k :: k != key ==> Get(r.value.origins, k) == Get(b.origins, k)
    ensures r.Ok? ==> r.value.properties == b.properties && r.value.customer == b.customer
  {
    var o :- MakeOrigin(name, taskId, link, now);
    GetPresent(b.origins, key);
    if key in Keys(b.origins) then
      Ok(b.(origins := Put(b.origins, key, Get(b.origins, key).value + [o])))
    else
      assert GetOr(b.origins, key, []) + [o] == [o];
      Ok(b.(origins := Put(b.origins, key, [o])))
  }

  /** What `get_origins` returns: the whole map, or one key's list. */
  datatype OriginsView = AllOrigins(all: Dict<string, seq<PropertyOrigin>>) | KeyOrigins(list: seq<PropertyOrigin>)

  /** `get_origins(key)`: a falsy key (`None` or `''`) gives the whole map,
      an unknown key an empty list. */
  function GetOrigins(b: Builder, key: Option<string>): (r: OriginsView)
    ensures key.None? || key == Some("") <==> r.AllOrigins?
    ensures r.AllOrigins? ==> r.all == b.origins
    ensures r.KeyOrigins? ==> (r.list == [] <== key.value !in Keys(b.origins))
    ensures key.Some? && key.value != "" && Get(b.origins, key.value).Some? ==>
      r == KeyOrigins(Get(b.origins, key.value).value)
    ensures r.KeyOrigins? ==> forall o :: o in r.list ==> Get(b.origins, key.value).Some? && o in Get(b.origins, key.value).value
  {
    if key.None? || key.value == "" then AllOrigins(b.origins)
    else
      GetPresent(b.origins, key.value);
      if key.value in Keys(b.origins) then KeyOrigins(Get(b.origins, key.value).value)
      else KeyOrigins([])
  }

  /** Reading a key back after recording an origin under it gives the
      earlier origins followed by the new one. */
  lemma SetThenGet(b: Builder, key: string, taskId: PyVal, name: PyVal, link: PyVal, now: int)
    requires key != "" && SetOrigins(b, key, taskId, name, link, now).Ok?
    ensures var old_ := GetOrigins(b, Some(key)).list;
      GetOrigins(SetOrigins(b, key, taskId, name, link, now).value, Some(key))
        == KeyOrigins(old_ + [MakeOrigin(name, taskId, link, now).value])
  {
    var b' := SetOrigins(b, key, taskId, name, link, now).value;
    GetPresent(b'.origins, key);
    GetPresent(b.origins, key);
  }

  /** Recording under one key leaves what another key reads unchanged. */
  lemma SetOriginsElsewhere(b: Builder, key: string, other: string, taskId: PyVal, name: PyVal, link: PyVal, now: int)
    requires other != key && other != "" && SetOrigins(b, key, taskId, name, link, now).Ok?
    ensures GetOrigins(SetOrigins(b, key, taskId, name, link, now).value, Some(other)) == GetOrigins(b, Some(other))
  {
    var b' := SetOrigins(b, key, taskId, name, link, now).value;
    GetPresent(b'.origins, other);
    GetPresent(b.origins, other);
  }

  /** The keyword default `link=[]` as written: a list is not a string, so
      the record refuses it. */
  const DefaultLinkAsWritten := PList([])

  /** The default `link` evidently meant: the field's own default, `None`. */
  const DefaultLink := PNone

  /** `set_origins(key, task_id)` as written, leaning on the `link=[]` and
      `name=''` defaults: every such call raises, whatever the key and the
      task id. */
  function SetOriginsDefaultsAsWritten(b: Builder, key: string, taskId: PyVal, now: int): (r: Result<Builder>)
    ensures r == Err(ValueError("str type expected"))
  {
    SetOrigins(b, key, taskId, PStr(""), DefaultLinkAsWritten, now)
  }

  /** `set_origins(key, task_id)` with the corrected `link=None` default: a
      string or numeric task id is recorded with an empty name and no
      link. */
  function SetOriginsDefaults(b: Builder, key: string, taskId: PyVal, now: int): (r: Result<Builder>)
    ensures r.Ok? <==> StrField(taskId).Ok?
    ensures r.Ok? ==> (Get(r.value.origins, key) ==
      Some(GetOr(b.origins, key, []) + [PropertyOrigin("", StrField(taskId).value, now, None)]))
  {
    SetOrigins(b, key, taskId, PStr(""), DefaultLink, now)
  }

  // ---------------------------------------------------------- properties

  /** `update_properties(val)`: a dict is merged in, its keys overwriting;
      the strings `'DOS'` and `'Band'` read lists `__init__` never creates;
      any other string changes nothing; anything else raises. */
  function UpdateProperties(b: Builder, val: PyVal): (r: Result<Builder>)
    ensures r.Ok? <==> (val.PStr? && val.s != "DOS" && val.s != "Band") || val.PDict?
    ensures val.PStr? && val.s == "DOS" ==> r == Err(AttributeError("_doses"))
    ensures val.PStr? && val.s == "Band" ==> r == Err(AttributeError("_bands"))
    ensures !val.PStr? && !val.PDict? ==> r == Err(RuntimeError("Only support string and dict"))
    ensures r.Ok? && val.PStr? ==> r.value == b
    ensures r.Ok? && val.PDict? ==>
      && (forall k :: Get(r.value.properties, k) ==
            if LastValue(val.entries, k).Some? then LastValue(val.entries, k) else Get(b.properties, k))
      && Keys(r.value.properties) == KeysAfter(Keys(b.properties), Keys(val.entries))
    ensures r.Ok? ==> r.value.origins == b.origins && r.value.customer == b.customer
  {
    match val
    case PStr(s) =>
      if s == "DOS" then Err(AttributeError("_doses"))
      else if s == "Band" then Err(AttributeError("_bands"))
      else Ok(b)
    case PDict(es) => Ok(b.(properties := Update(b.properties, es)))
    case _ => Err(RuntimeError("Only support string and dict"))
  }

  /** Assigning keys that are all present already adds no key. */
  lemma {:induction false} KeysAfterPresent<K>(ks: seq<K>, ns: seq<K>)
    requires forall x :: x in ns ==> x in ks
    ensures KeysAfter(ks, ns) == ks
    decreases |ns|
  {
    if |ns| > 0 {
      assert ns[0] in ns;
      KeysAfterPresent(ks, ns[1..]);
    }
  }

  /** Merging the same dict twice leaves the properties as merging it once:
      the same keys in the same order, each reading the same value. */
  lemma UpdatePropertiesIdempotent(b: Builder, val: PyVal)
    requires val.PDict?
    ensures var once := UpdateProperties(b, val).value;
      var twice := UpdateProperties(once, val).value;
      Keys(twice.properties) == Keys(once.properties) &&
      forall k :: Get(twice.properties, k) == Get(once.properties, k)
  {
    var once := UpdateProperties(b, val).value;
    KeysAfterContents(Keys(b.properties), Keys(val.entries));
    KeysAfterPresent(Keys(once.properties), Keys(val.entries));
  }

  // ------------------------------------------------------------ customer

  /** `insert_customer_data(label, data)`: sets or overwrites exactly one
      label; every other label, the origins and the properties stay. */
  function InsertCustomerData(b: Builder, key: string, data: PyVal): (r: Builder)
    ensures Get(r.customer, key) == Some(data)
    ensures forall l :: l != key ==> Get(r.customer, l) == Get(b.customer, l)
    ensures Keys(r.customer) == if key in Keys(b.customer) then Keys(b.customer) else Keys(b.customer) + [key]
    ensures r.origins == b.origins && r.properties == b.properties
  {
    b.(customer := Put(b.customer, key, data))
  }

  /** A second insertion under the same label replaces the first. */
  lemma InsertCustomerOverwrites(b: Builder, key: string, d1: PyVal, d2: PyVal)
    ensures InsertCustomerData(InsertCustomerData(b, key, d1), key, d2) == InsertCustomerData(b, key, d2)
  {
    PutTwice(b.customer, key, d1, d2);
  }

  /** Assigning a key twice is assigning it once, with the second value. */
  lemma {:induction false} PutTwice<K(!new), V>(d: Dict<K, V>, k: K, v1: V, v2: V)
    ensures Put(Put(d, k, v1), k, v2) == Put(d, k, v2)
    decreases |d|
  {
    if |d| > 0 && d[0].0 != k {
      PutTwice(d[1..], k, v1, v2);
    }
  }
}
