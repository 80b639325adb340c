/**
 * Query filters over documents, with the meaning the document database gives
 * them, and the filter that the product listing builds from its optional
 * query parameters.
 */
module Query {
  import opened Wrappers
  import opened Documents

  // ------------------------------------------------------- filters and matching

  /** The bound operators of a range condition. */
  const Gte := "$gte"
  const Lte := "$lte"

  /** The condition a filter puts on one field. */
  datatype Cond =
    | Eq(v: Value)                  // the field equals v
    | Range(ops: map<string, real>) // the field is a number within the bounds given under Gte and Lte

  /** A filter maps field names to conditions; a document matches when it meets all of them. */
  type Filter = map<string, Cond>

  /** The value `x` of a field meets the condition `c`; both bounds are inclusive. */
  predicate Holds(c: Cond, x: Value)
  {
    match c
    case Eq(v) => x == v
    case Range(ops) =>
      && x.Num?
      && (Gte in ops ==> ops[Gte] <= x.r)
      && (Lte in ops ==> x.r <= ops[Lte])
  }

  /** Every field the filter names is present in `d` and meets its condition. */
  predicate Matches(d: Doc, f: Filter)
  {
    forall k :: k in f ==> k in d && Holds(f[k], d[k])
  }

  /** The documents of `docs` that match `f`, in their stored order. */
  function Select(docs: seq<Doc>, f: Filter): (r: seq<Doc>)
    ensures |r| <= |docs|
    ensures forall d :: d in r ==> d in docs && Matches(d, f)
    ensures forall d :: d in docs && Matches(d, f) ==> d in r
  {
    if docs == [] then []
    else (if Matches(docs[0], f) then [docs[0]] else []) + Select(docs[1..], f)
  }

  /** Selecting from a store that grew by one document. */
  lemma {:induction false} SelectAppend(docs: seq<Doc>, d: Doc, f: Filter)
    ensures Select(docs + [d], f) == Select(docs, f) + (if Matches(d, f) then [d] else [])
  {
    if docs == [] {
      assert docs + [d] == [d];
    } else {
      assert (docs + [d])[1..] == docs[1..] + [d];
      SelectAppend(docs[1..], d, f);
    }
  }

  /** The empty filter selects every document, in order. */
  lemma {:induction false} SelectAll(docs: seq<Doc>)
    ensures Select(docs, map[]) == docs
  {
    if docs != [] {
      SelectAll(docs[1..]);
    }
  }

  // ------------------------------------------------------------ product query

  /** The optional query parameters of the product listing. */
  datatype ProductQuery = ProductQuery(
    material: Option<string>,
    stone: Option<string>,
    minPrice: Option<real>,
    maxPrice: Option<real>,
    available: Option<bool>,
    collectionKey: Option<string>)

  /** The query with no parameter given. */
  const NoParameters := ProductQuery(None, None, None, None, None, None)

  /** The fields a product filter may constrain. */
  const ProductFilterKeys: set<string> := {"material", "stone", "collection_key", "price", "available"}

  /** A string parameter counts only when given and non-empty (Python truthiness). */
  predicate Given(s: Option<string>)
  {
    s.Some? && s.value != ""
  }

  /** The filter has `key` exactly when `arg` is given, and then asks for equality with it. */
  predicate EqualityFor(f: Filter, key: string, arg: Option<string>)
  {
    && (key in f <==> Given(arg))
    && (key in f ==> f[key] == Eq(Str(arg.value)))
  }

  /** The range `ops` has the bound `op` exactly when `arg` is given, and then with its value. */
  predicate BoundFor(ops: map<string, real>, op: string, arg: Option<real>)
  {
    && (op in ops <==> arg.Some?)
    && (op in ops ==> ops[op] == arg.value)
  }

  /** `f` is the filter the product listing builds for `q`. */
  predicate IsFilterFor(f: Filter, q: ProductQuery)
  {
    && f.Keys <= ProductFilterKeys
    && EqualityFor(f, "material", q.material)
    && EqualityFor(f, "stone", q.stone)
    && EqualityFor(f, "collection_key", q.collectionKey)
    && ("price" in f <==> q.minPrice.Some? || q.maxPrice.Some?)
    && ("price" in f ==>
          && f["price"].Range?
          && f["price"].ops.Keys <= {Gte, Lte}
          && BoundFor(f["price"].ops, Gte, q.minPrice)
          && BoundFor(f["price"].ops, Lte, q.maxPrice))
    && ("available" in f <==> q.available.Some?)
    && ("available" in f ==> f["available"] == Eq(Bool(q.available.value)))
  }

  /**
   * Builds the product filter by conditional assignments: each string
   * parameter when non-empty, the price bounds when given, and `available`
   * whenever it is given, `false` included.
   */
  method BuildProductFilter(q: ProductQuery) returns (filt: Filter)
    ensures IsFilterFor(filt, q)
  {
    filt := map[];
    if Given(q.material) {
      filt := filt["material" := Eq(Str(q.material.value))];
    }
    if Given(q.stone) {
      filt := filt["stone" := Eq(Str(q.stone.value))];
    }
    if Given(q.collectionKey) {
      filt := filt["collection_key" := Eq(Str(q.collectionKey.value))];
    }
    var priceFilter: map<string, real> := map[];
    if q.minPrice.Some? {
      priceFilter := priceFilter[Gte := q.minPrice.value];
    }
    if q.maxPrice.Some? {
      priceFilter := priceFilter[Lte := q.maxPrice.value];
    }
    if priceFilter != map[] {
      filt := filt["price" := Range(priceFilter)];
    }
    if q.available.Some? {
      filt := filt["available" := Eq(Bool(q.available.value))];
    }
  }

  /** The description `IsFilterFor` leaves no freedom: one query, one filter. */
  lemma FilterIsDetermined(f1: Filter, f2: Filter, q: ProductQuery)
    requires IsFilterFor(f1, q) && IsFilterFor(f2, q)
    ensures f1 == f2
  {
    if "price" in f1 {
      assert f1["price"].ops == f2["price"].ops;
    }
    assert f1.Keys == f2.Keys;
  }

  /** With no parameter the filter is empty, so every product is listed. */
  lemma NoParametersNoFilter(f: Filter)
    requires IsFilterFor(f, NoParameters)
    ensures f == map[]
  {
    assert f.Keys == {};
  }

  // -------------------------------------------------- what the query asks for

  /** `d` has the string `arg` under `key` whenever `arg` is given. */
  predicate HasGiven(d: Doc, key: string, arg: Option<string>)
  {
    Given(arg) ==> key in d && d[key] == Str(arg.value)
  }

  /** `d` is a product the query asks for, stated field by field. */
  predicate QueryHolds(d: Doc, q: ProductQuery)
  {
    && HasGiven(d, "material", q.material)
    && HasGiven(d, "stone", q.stone)
    && HasGiven(d, "collection_key", q.collectionKey)
    && (q.minPrice.Some? ==> "price" in d && d["price"].Num? && q.minPrice.value <= d["price"].r)
    && (q.maxPrice.Some? ==> "price" in d && d["price"].Num? && d["price"].r <= q.maxPrice.value)
    && (q.available.Some? ==> "available" in d && d["available"] == Bool(q.available.value))
  }

  /** The built filter matches exactly the documents the query asks for. */
  lemma FilterMeaning(d: Doc, f: Filter, q: ProductQuery)
    requires IsFilterFor(f, q)
    ensures Matches(d, f) <==> QueryHolds(d, q)
  {
    if QueryHolds(d, q) {
      forall k | k in f ensures k in d && Holds(f[k], d[k]) {
        assert k in ProductFilterKeys;
      }
    }
  }

  /** The documents the query asks for, in stored order: the reference the listing is checked against. */
  function Answer(docs: seq<Doc>, q: ProductQuery): (r: seq<Doc>)
    ensures forall d :: d in r ==> d in docs && QueryHolds(d, q)
    ensures forall d :: d in docs && QueryHolds(d, q) ==> d in r
  {
    if docs == [] then []
    else (if QueryHolds(docs[0], q) then [docs[0]] else []) + Answer(docs[1..], q)
  }

  /** With no parameter every stored product answers the query, in stored order. */
  lemma {:induction false} AnswerAll(docs: seq<Doc>)
    ensures Answer(docs, NoParameters) == docs
  {
    if docs != [] {
      AnswerAll(docs[1..]);
    }
  }

  /** Querying with the built filter gives exactly the answer to the query. */
  lemma {:induction false} SelectAnswer(docs: seq<Doc>, f: Filter, q: ProductQuery)
    requires IsFilterFor(f, q)
    ensures Select(docs, f) == Answer(docs, q)
  {
    if docs != [] {
      FilterMeaning(docs[0], f, q);
      SelectAnswer(docs[1..], f, q);
    }
  }

  /** Removing the storage identifier does not change whether a document answers the query. */
  lemma QueryIgnoresId(out: Doc, d: Doc, q: ProductQuery)
    requires IsStripped(out, d)
    ensures QueryHolds(out, q) <==> QueryHolds(d, q)
  {
  }
}
