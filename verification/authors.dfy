/** The `authors` validator of `PropertyDoc`: authors are de-duplicated by
    lower-cased name through a dict comprehension, and the validator
    returns the dict's items, that is `(name, author)` pairs rather than the
    authors themselves. */
module Authors {
  import opened Results
  import opened Strings
  import opened PyDict

  /** `Author(name=None, email=None)`; the e-mail syntax check pydantic
      applies is not part of this model. */
  datatype Author = Author(name: Option<string>, email: Option<string>)

  /** Every author has a name: `None.lower()` raises otherwise. */
  predicate AllNamed(authors: seq<Author>) {
    forall i :: 0 <= i < |authors| ==> authors[i].name.Some?
  }

  function NameKey(a: Author): string
    requires a.name.Some?
  {
    Lower(a.name.value)
  }

  /** The lower-cased names, in input order. */
  function NameKeys(authors: seq<Author>): (r: seq<string>)
    requires AllNamed(authors)
    ensures |r| == |authors| && forall i :: 0 <= i < |authors| ==> r[i] == NameKey(authors[i])
  {
    seq(|authors|, i requires 0 <= i < |authors| => NameKey(authors[i]))
  }

  /** `authors[j]` is the last author whose lower-cased name is `n`. */
  predicate LastWithName(authors: seq<Author>, n: string, j: int)
    requires AllNamed(authors)
  {
    0 <= j < |authors| && NameKey(authors[j]) == n &&
    forall k :: j < k < |authors| ==> NameKey(authors[k]) != n
  }

  /** The pairs the comprehension `{entry.name.lower(): entry for entry in
      authors}` assigns, in order. */
  function Keyed(authors: seq<Author>): (r: Result<seq<(string, Author)>>)
    ensures r.Ok? <==> AllNamed(authors)
    ensures r.Err? ==> r.error == AttributeError("lower")
    ensures r.Ok? ==> |r.value| == |authors|
    ensures r.Ok? ==> forall i :: 0 <= i < |authors| ==> r.value[i] == (NameKey(authors[i]), authors[i])
  {
    if AllNamed(authors) then
      Ok(seq(|authors|, i requires 0 <= i < |authors| => (NameKey(authors[i]), authors[i])))
    else Err(AttributeError("lower"))
  }

  /** `remove_duplicate_authors(authors)`: one `(name, author)` pair per
      distinct lower-cased name, the last author with that name winning,
      the names in order of first occurrence, and never more pairs than
      authors. An author without a name raises. */
  function RemoveDuplicateAuthors(authors: seq<Author>): (r: Result<seq<(string, Author)>>)
    ensures r.Err? <==> !AllNamed(authors)
    ensures r.Err? ==> r.error == AttributeError("lower")
    ensures r.Ok? ==> |r.value| <= |authors| && DistinctKeys(r.value)
    ensures r.Ok? ==> forall n :: n in Keys(r.value) <==> n in NameKeys(authors)
    ensures r.Ok? ==> InFirstAppearanceOrder(NameKeys(authors), Keys(r.value))
    ensures r.Ok? ==> forall n, j :: LastWithName(authors, n, j) ==> Get(r.value, n) == Some(authors[j])
    ensures r.Ok? ==> forall p :: p in r.value ==> p.1 in authors && p.1.name.Some? && p.0 == NameKey(p.1)
  {
    var ps :- Keyed(authors);
    var r := FromPairs(ps);
    KeysLength(ps);
    assert Keys(ps) == NameKeys(authors);
    FromPairsKeys(ps);
    forall n, j | LastWithName(authors, n, j) ensures Get(r, n) == Some(authors[j]) {
      LastValueLast(ps, j);
    }
    UpdatePairs([], ps);
    assert forall p :: p in r ==> p in ps;
    Ok(r)
  }

  /** The authors kept, in the order the validator returns them. */
  function Kept(pairs: seq<(string, Author)>): (r: seq<Author>)
    ensures |r| == |pairs| && forall i :: 0 <= i < |pairs| ==> r[i] == pairs[i].1
  {
    seq(|pairs|, i requires 0 <= i < |pairs| => pairs[i].1)
  }

  /** The validator is idempotent on the authors it keeps: running it again
      over them returns the same pairs. */
  lemma DeduplicatedStaysDeduplicated(authors: seq<Author>)
    requires RemoveDuplicateAuthors(authors).Ok?
    ensures RemoveDuplicateAuthors(Kept(RemoveDuplicateAuthors(authors).value)) == RemoveDuplicateAuthors(authors)
  {
    var r := RemoveDuplicateAuthors(authors).value;
    var kept := Kept(r);
    assert forall i :: 0 <= i < |r| ==> r[i] in r;
    assert AllNamed(kept);
    var ps := Keyed(kept).value;
    assert ps == r;
    FromPairsDistinct(r);
  }

  /** Names that differ only in case collapse to the later author. */
  lemma CaseInsensitiveLastWins()
    ensures var a := Author(Some("Ann"), None);
      var b := Author(Some("ANN"), Some("ann@example.org"));
      RemoveDuplicateAuthors([a, b]) == Ok([("ann", b)])
  {
    var a := Author(Some("Ann"), None);
    var b := Author(Some("ANN"), Some("ann@example.org"));
    assert Lower("Ann") == "ann";
    assert Lower("ANN") == "ann";
    var ps := Keyed([a, b]).value;
    assert ps == [("ann", a), ("ann", b)];
    assert Put([("ann", a)], "ann", b) == [("ann", b)];
  }
}
