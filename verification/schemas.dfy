/**
 * The four record kinds of the catalogue and how a JSON payload is validated
 * into one of them: required and optional fields, enumerated literals, the
 * lower bound on the price, and the defaults filled in for absent fields.
 *
 * A payload is a document (field name to value). Parsing a payload either
 * yields the record, or fails with the names of every field that violates its
 * constraint, in declaration order. Fields the schema does not declare are
 * ignored. Serialising a record (`...Doc`) gives the document that is stored,
 * with every declared field present and an absent optional value as `Null`.
 */
module Schemas {
  import opened Wrappers
  import opened Documents

  // ---------------------------------------------------------------- constants

  /** `Literal["acciaio", "argento", "pietre"]`: the collection keys. */
  const CollectionKeys: set<string> := {"acciaio", "argento", "pietre"}

  /** `Literal["acciaio", "argento"]`: the base materials of a product. */
  const Materials: set<string> := {"acciaio", "argento"}

  /** `Literal["it", "en"]`: the languages of a message or subscription. */
  const Languages: set<string> := {"it", "en"}

  const DefaultLanguage := "it"

  /** Field names of each record kind, as they appear in payloads and documents. */
  const CollectionFields: set<string> :=
    {"key", "name_it", "name_en", "tagline_it", "tagline_en", "description_it", "description_en", "hero_image"}
  const ProductFields: set<string> :=
    {"sku", "title_it", "title_en", "description_it", "description_en", "material", "stone",
     "price", "available", "images", "collection_key"}
  const ContactFields: set<string> := {"name", "email", "message", "language"}
  const SubscriberFields: set<string> := {"email", "language"}

  // ------------------------------------------------------------------ records

  /** A jewellery collection (product line). */
  datatype Collection = Collection(
    key: string,
    nameIt: string, nameEn: string,
    taglineIt: string, taglineEn: string,
    descriptionIt: string, descriptionEn: string,
    heroImage: Option<string>)
  {
    predicate Valid() { key in CollectionKeys }
  }

  /** An individual piece of jewellery. */
  datatype Product = Product(
    sku: string,
    titleIt: string, titleEn: string,
    descriptionIt: Option<string>, descriptionEn: Option<string>,
    material: string,
    stone: Option<string>,
    price: real,
    available: bool,
    images: seq<string>,
    collectionKey: string)
  {
    /** The material and the collection key are checked independently of each other. */
    predicate Valid() { material in Materials && 0.0 <= price && collectionKey in CollectionKeys }
  }

  /** A message sent through the contact form. */
  datatype ContactMessage = ContactMessage(name: string, email: string, message: string, language: string)
  {
    /**
     * `normalizeEmail` stands for the e-mail validator: `None` for an address it
     * rejects, otherwise the normalised address. A valid message holds an
     * address in normal form.
     */
    predicate Valid(normalizeEmail: string -> Option<string>)
    {
      normalizeEmail(email) == Some(email) && language in Languages
    }
  }

  /** A subscription to the newsletter. */
  datatype NewsletterSubscriber = NewsletterSubscriber(email: string, language: string)
  {
    predicate Valid(normalizeEmail: string -> Option<string>)
    {
      normalizeEmail(email) == Some(email) && language in Languages
    }
  }

  // ------------------------------------------------------ defaults for records

  /** A product built from its required fields, every other field at its default. */
  function NewProduct(sku: string, titleIt: string, titleEn: string, material: string, price: real,
                      collectionKey: string): (p: Product)
    ensures p.available && p.images == []
    ensures p.descriptionIt == None && p.descriptionEn == None && p.stone == None
    ensures p.sku == sku && p.titleIt == titleIt && p.titleEn == titleEn
    ensures p.material == material && p.price == price && p.collectionKey == collectionKey
  {
    Product(sku, titleIt, titleEn, None, None, material, None, price, true, [], collectionKey)
  }

  // ----------------------------------------------------------- field checkers
  // Each returns `None` when the field violates its constraint.

  /** A required `str` field. */
  function RequiredStr(p: Doc, f: string): (r: Option<string>)
    ensures r.Some? <==> f in p && p[f].Str?
    ensures r.Some? ==> p[f] == Str(r.value)
  {
    if f in p && p[f].Str? then Some(p[f].s) else None
  }

  /** An `Optional[str]` field defaulting to `None`; an explicit `null` is `None` too. */
  function OptionalStr(p: Doc, f: string): (r: Option<Option<string>>)
    ensures r.Some? <==> NullableStr(p, f)
    ensures r.Some? && f in p ==> p[f] == OptionalValue(r.value)
    ensures f !in p ==> r == Some(None)
  {
    if f !in p || p[f] == Null then Some(None)
    else if p[f].Str? then Some(Some(p[f].s))
    else None
  }

  /** A required string field restricted to the literals in `allowed`. */
  function RequiredLiteral(p: Doc, f: string, allowed: set<string>): (r: Option<string>)
    ensures r.Some? <==> f in p && p[f].Str? && p[f].s in allowed
    ensures r.Some? ==> p[f] == Str(r.value) && r.value in allowed
  {
    if f in p && p[f].Str? && p[f].s in allowed then Some(p[f].s) else None
  }

  /** A literal field with a default; an explicit `null` is not one of the literals. */
  function LiteralOrDefault(p: Doc, f: string, allowed: set<string>, default: string): (r: Option<string>)
    requires default in allowed
    ensures r.Some? <==> AbsentOrLiteral(p, f, allowed)
    ensures r.Some? ==> r.value in allowed
    ensures r.Some? && f in p ==> p[f] == Str(r.value)
    ensures f !in p ==> r == Some(default)
  {
    if f !in p then Some(default)
    else if p[f].Str? && p[f].s in allowed then Some(p[f].s)
    else None
  }

  /** A required number bounded below by zero (`Field(..., ge=0)`). */
  function NonNegativeNumber(p: Doc, f: string): (r: Option<real>)
    ensures r.Some? <==> f in p && p[f].Num? && 0.0 <= p[f].r
    ensures r.Some? ==> p[f] == Num(r.value) && 0.0 <= r.value
  {
    if f in p && p[f].Num? && 0.0 <= p[f].r then Some(p[f].r) else None
  }

  /** A `bool` field with a default. */
  function BoolOrDefault(p: Doc, f: string, default: bool): (r: Option<bool>)
    ensures r.Some? <==> AbsentOrBool(p, f)
    ensures r.Some? && f in p ==> p[f] == Bool(r.value)
    ensures f !in p ==> r == Some(default)
  {
    if f !in p then Some(default)
    else if p[f].Bool? then Some(p[f].b)
    else None
  }

  /** All the items are strings. */
  predicate AllStr(items: seq<Value>)
  {
    forall i :: 0 <= i < |items| ==> items[i].Str?
  }

  /** A `List[str]` field defaulting to the empty list. */
  function StrListOrEmpty(p: Doc, f: string): (r: Option<seq<string>>)
    ensures r.Some? <==> AbsentOrStrList(p, f)
    ensures r.Some? && f in p ==> p[f] == List(StrValues(r.value))
    ensures f !in p ==> r == Some([])
  {
    if f !in p then Some([])
    else if p[f].List? && AllStr(p[f].items) then
      var xs := seq(|p[f].items|, i requires 0 <= i < |p[f].items| => p[f].items[i].s);
      assert StrValues(xs) == p[f].items;
      Some(xs)
    else None
  }

  /** A list of strings as stored values. */
  function StrValues(xs: seq<string>): (r: seq<Value>)
    ensures |r| == |xs| && forall i :: 0 <= i < |xs| ==> r[i] == Str(xs[i])
  {
    seq(|xs|, i requires 0 <= i < |xs| => Str(xs[i]))
  }

  /** A required `EmailStr` field: the address as the validator normalises it. */
  function Email(p: Doc, f: string, normalizeEmail: string -> Option<string>): (r: Option<string>)
    ensures r.Some? <==> f in p && p[f].Str? && normalizeEmail(p[f].s).Some?
    ensures r.Some? ==> normalizeEmail(p[f].s) == r
  {
    if f in p && p[f].Str? then normalizeEmail(p[f].s) else None
  }

  /** `[f]` when the field was rejected. */
  function Violation<T>(f: string, o: Option<T>): (r: seq<string>)
    ensures forall g :: g in r <==> g == f && o.None?
  {
    if o.None? then [f] else []
  }

  /** An optional string as a stored value. */
  function OptionalValue(o: Option<string>): Value
  {
    if o.Some? then Str(o.value) else Null
  }

  /** Every declared field the payload gives is stored in `d` exactly as given. */
  predicate KeepsPayload(d: Doc, p: Doc)
  {
    forall f :: f in d && f in p ==> d[f] == p[f]
  }

  // ------------------------------------------- what each field kind accepts
  // Stated on the payload directly, one predicate per kind of field.

  /** A required string field is present as a string. */
  predicate HasStr(p: Doc, f: string) { f in p && p[f].Str? }

  /** A required literal field is present as one of the allowed strings. */
  predicate HasLiteral(p: Doc, f: string, allowed: set<string>) { HasStr(p, f) && p[f].s in allowed }

  /** An optional string field is absent, `null` or a string. */
  predicate NullableStr(p: Doc, f: string) { f !in p || p[f] == Null || p[f].Str? }

  /** A literal field with a default is absent or one of the allowed strings. */
  predicate AbsentOrLiteral(p: Doc, f: string, allowed: set<string>) { f !in p || HasLiteral(p, f, allowed) }

  /** A boolean field with a default is absent or a boolean. */
  predicate AbsentOrBool(p: Doc, f: string) { f !in p || p[f].Bool? }

  /** A list field with a default is absent or a list of strings. */
  predicate AbsentOrStrList(p: Doc, f: string) { f !in p || (p[f].List? && AllStr(p[f].items)) }

  /** A required bounded number is present and at least zero. */
  predicate HasNonNegative(p: Doc, f: string) { f in p && p[f].Num? && 0.0 <= p[f].r }

  /** A required address is present as a string the validator accepts. */
  predicate HasEmail(p: Doc, f: string, normalizeEmail: string -> Option<string>)
  {
    HasStr(p, f) && normalizeEmail(p[f].s).Some?
  }

  // ---------------------------------------------------------------- Collection

  /** The collection field `f` meets its constraint in `p`. */
  predicate CollectionFieldOk(p: Doc, f: string)
  {
    if f == "key" then HasLiteral(p, f, CollectionKeys)
    else if f == "hero_image" then NullableStr(p, f)
    else HasStr(p, f)
  }

  /** The payloads the collection schema accepts: every field but `hero_image` is required. */
  predicate CollectionAccepted(p: Doc)
  {
    && HasLiteral(p, "key", CollectionKeys)
    && (forall f :: f in CollectionTextFields ==> HasStr(p, f))
    && NullableStr(p, "hero_image")
  }

  /** The required free-text fields of a collection. */
  const CollectionTextFields: set<string> :=
    {"name_it", "name_en", "tagline_it", "tagline_en", "description_it", "description_en"}

  /** The stored document of a collection. */
  function CollectionDoc(c: Collection): (d: Doc)
    ensures d.Keys == CollectionFields
  {
    map["key" := Str(c.key), "name_it" := Str(c.nameIt), "name_en" := Str(c.nameEn),
        "tagline_it" := Str(c.taglineIt), "tagline_en" := Str(c.taglineEn),
        "description_it" := Str(c.descriptionIt), "description_en" := Str(c.descriptionEn),
        "hero_image" := OptionalValue(c.heroImage)]
  }

  /** Validates a collection payload. */
  function ParseCollection(p: Doc): (r: Result<Collection, seq<string>>)
    ensures r.Success? <==> CollectionAccepted(p)
    ensures r.Success? ==> r.value.Valid() && KeepsPayload(CollectionDoc(r.value), p)
    ensures r.Success? && "hero_image" !in p ==> r.value.heroImage == None
    ensures r.Failure? ==> r.error != [] && forall f :: f in r.error <==> f in CollectionFields && !CollectionFieldOk(p, f)
  {
    var key := RequiredLiteral(p, "key", CollectionKeys);
    var nameIt := RequiredStr(p, "name_it");
    var nameEn := RequiredStr(p, "name_en");
    var taglineIt := RequiredStr(p, "tagline_it");
    var taglineEn := RequiredStr(p, "tagline_en");
    var descriptionIt := RequiredStr(p, "description_it");
    var descriptionEn := RequiredStr(p, "description_en");
    var heroImage := OptionalStr(p, "hero_image");
    if && key.Some? && nameIt.Some? && nameEn.Some? && taglineIt.Some? && taglineEn.Some?
       && descriptionIt.Some? && descriptionEn.Some? && heroImage.Some?
    then
      Success(Collection(key.value, nameIt.value, nameEn.value, taglineIt.value, taglineEn.value,
                         descriptionIt.value, descriptionEn.value, heroImage.value))
    else
      CollectionOrderIsFields();
      CollectionSomeFieldRejected(p);
      Failure(CollectionRejected(p, CollectionOrder))
  }

  /** The collection fields in declaration order. */
  const CollectionOrder: seq<string> :=
    ["key", "name_it", "name_en", "tagline_it", "tagline_en", "description_it", "description_en", "hero_image"]

  /** The names in `names`, in order, that violate their collection constraint. */
  function CollectionRejected(p: Doc, names: seq<string>): (v: seq<string>)
    ensures forall f :: f in v <==> f in names && !CollectionFieldOk(p, f)
  {
    if names == [] then []
    else (if CollectionFieldOk(p, names[0]) then [] else [names[0]]) + CollectionRejected(p, names[1..])
  }

  /** The declaration order lists exactly the collection fields. */
  lemma CollectionOrderIsFields()
    ensures forall f :: f in CollectionOrder <==> f in CollectionFields
  {
  }

  /** A payload the schema does not accept has a field that violates its constraint. */
  lemma CollectionSomeFieldRejected(p: Doc)
    requires !CollectionAccepted(p)
    ensures exists f :: f in CollectionOrder && !CollectionFieldOk(p, f)
  {
    if !HasLiteral(p, "key", CollectionKeys) {
      assert !CollectionFieldOk(p, "key");
    } else if !NullableStr(p, "hero_image") {
      assert !CollectionFieldOk(p, "hero_image");
    } else {
      var f :| f in CollectionTextFields && !HasStr(p, f);
      assert f != "key" && f != "hero_image";
      assert !CollectionFieldOk(p, f);
    }
  }

  /** A key outside the three collection keys, or none at all, is reported. */
  lemma CollectionKeyChecked(p: Doc)
    requires !("key" in p && p["key"].Str? && p["key"].s in CollectionKeys)
    ensures ParseCollection(p).Failure? && "key" in ParseCollection(p).error
  {
  }

  /** A missing or non-string name, tagline or description is reported. */
  lemma CollectionTextRequired(p: Doc, f: string)
    requires f in CollectionTextFields
    requires !(f in p && p[f].Str?)
    ensures ParseCollection(p).Failure? && f in ParseCollection(p).error
  {
    assert f != "key" && f != "hero_image";
    assert !CollectionFieldOk(p, f);
  }

  /** `hero_image` may be left out: the collection then has none. */
  lemma CollectionHeroImageOptional(c: Collection)
    requires c.Valid()
    ensures ParseCollection(CollectionDoc(c) - {"hero_image"}) == Success(c.(heroImage := None))
  {
    var p := CollectionDoc(c) - {"hero_image"};
    assert CollectionAccepted(p);
  }

  /** Every valid collection is stored as a document that validates back to it. */
  lemma CollectionRoundTrip(c: Collection)
    requires c.Valid()
    ensures ParseCollection(CollectionDoc(c)) == Success(c)
  {
  }

  // ------------------------------------------------------------------- Product

  /** The stored document of a product. */
  function ProductDoc(x: Product): (d: Doc)
    ensures d.Keys == ProductFields
  {
    map["sku" := Str(x.sku), "title_it" := Str(x.titleIt), "title_en" := Str(x.titleEn),
        "description_it" := OptionalValue(x.descriptionIt), "description_en" := OptionalValue(x.descriptionEn),
        "material" := Str(x.material), "stone" := OptionalValue(x.stone), "price" := Num(x.price),
        "available" := Bool(x.available),
        "images" := List(StrValues(x.images)),
        "collection_key" := Str(x.collectionKey)]
  }

  /** Each field of a product's stored document holds the product's value. */
  lemma ProductDocFields(x: Product)
    ensures var d := ProductDoc(x);
      && d["sku"] == Str(x.sku) && d["title_it"] == Str(x.titleIt) && d["title_en"] == Str(x.titleEn)
      && d["description_it"] == OptionalValue(x.descriptionIt) && d["description_en"] == OptionalValue(x.descriptionEn)
      && d["material"] == Str(x.material) && d["stone"] == OptionalValue(x.stone) && d["price"] == Num(x.price)
      && d["available"] == Bool(x.available) && d["images"] == List(StrValues(x.images))
      && d["collection_key"] == Str(x.collectionKey)
  {
  }

  /** The product field `f` meets its constraint in `p`. */
  predicate ProductFieldOk(p: Doc, f: string)
  {
    if f == "material" then HasLiteral(p, f, Materials)
    else if f == "collection_key" then HasLiteral(p, f, CollectionKeys)
    else if f == "price" then HasNonNegative(p, f)
    else if f == "available" then AbsentOrBool(p, f)
    else if f == "images" then AbsentOrStrList(p, f)
    else if f == "description_it" || f == "description_en" || f == "stone" then NullableStr(p, f)
    else HasStr(p, f)
  }

  /**
   * The payloads the product schema accepts: `sku`, the titles, `material`,
   * `price` and `collection_key` are required; the rest may be left out.
   */
  predicate ProductAccepted(p: Doc)
  {
    && HasStr(p, "sku") && HasStr(p, "title_it") && HasStr(p, "title_en")
    && NullableStr(p, "description_it") && NullableStr(p, "description_en")
    && HasLiteral(p, "material", Materials)
    && NullableStr(p, "stone")
    && HasNonNegative(p, "price")
    && AbsentOrBool(p, "available")
    && AbsentOrStrList(p, "images")
    && HasLiteral(p, "collection_key", CollectionKeys)
  }

  /** Validates a product payload. */
  function ParseProduct(p: Doc): (r: Result<Product, seq<string>>)
    ensures r.Success? <==> ProductAccepted(p)
    ensures r.Success? ==> r.value.Valid()
    ensures r.Success? && "available" !in p ==> r.value.available
    ensures r.Success? && "images" !in p ==> r.value.images == []
    ensures r.Success? && "description_it" !in p ==> r.value.descriptionIt == None
    ensures r.Success? && "description_en" !in p ==> r.value.descriptionEn == None
    ensures r.Success? && "stone" !in p ==> r.value.stone == None
    ensures r.Failure? ==> r.error != [] && forall f :: f in r.error ==> f in ProductFields
  {
    var sku := RequiredStr(p, "sku");
    var titleIt := RequiredStr(p, "title_it");
    var titleEn := RequiredStr(p, "title_en");
    var descriptionIt := OptionalStr(p, "description_it");
    var descriptionEn := OptionalStr(p, "description_en");
    var material := RequiredLiteral(p, "material", Materials);
    var stone := OptionalStr(p, "stone");
    var price := NonNegativeNumber(p, "price");
    var available := BoolOrDefault(p, "available", true);
    var images := StrListOrEmpty(p, "images");
    var collectionKey := RequiredLiteral(p, "collection_key", CollectionKeys);
    if && sku.Some? && titleIt.Some? && titleEn.Some? && descriptionIt.Some? && descriptionEn.Some?
       && material.Some? && stone.Some? && price.Some? && available.Some? && images.Some?
       && collectionKey.Some?
    then
      Success(Product(sku.value, titleIt.value, titleEn.value, descriptionIt.value, descriptionEn.value,
                      material.value, stone.value, price.value, available.value, images.value,
                      collectionKey.value))
    else
      ProductOrderIsFields();
      ProductSomeFieldRejected(p);
      Failure(ProductRejected(p, ProductOrder))
  }

  /** The product fields in declaration order. */
  const ProductOrder: seq<string> :=
    ["sku", "title_it", "title_en", "description_it", "description_en", "material", "stone",
     "price", "available", "images", "collection_key"]

  /** The names in `names`, in order, that violate their product constraint. */
  function ProductRejected(p: Doc, names: seq<string>): (v: seq<string>)
    ensures forall f :: f in v <==> f in names && !ProductFieldOk(p, f)
  {
    if names == [] then []
    else (if ProductFieldOk(p, names[0]) then [] else [names[0]]) + ProductRejected(p, names[1..])
  }

  /** The declaration order lists exactly the product fields. */
  lemma ProductOrderIsFields()
    ensures forall f :: f in ProductOrder <==> f in ProductFields
  {
  }

  /** A payload the schema does not accept has a field that violates its constraint. */
  lemma ProductSomeFieldRejected(p: Doc)
    requires !ProductAccepted(p)
    ensures exists f :: f in ProductOrder && !ProductFieldOk(p, f)
  {
    if !HasStr(p, "sku") {
      assert !ProductFieldOk(p, "sku");
    } else if !HasStr(p, "title_it") {
      assert !ProductFieldOk(p, "title_it");
    } else if !HasStr(p, "title_en") {
      assert !ProductFieldOk(p, "title_en");
    } else if !NullableStr(p, "description_it") {
      assert !ProductFieldOk(p, "description_it");
    } else if !NullableStr(p, "description_en") {
      assert !ProductFieldOk(p, "description_en");
    } else {
      ProductSomeOtherFieldRejected(p);
    }
  }

  /** When the texts of a rejected payload are in order, one of the remaining fields is not. */
  lemma ProductSomeOtherFieldRejected(p: Doc)
    requires !ProductAccepted(p)
    requires HasStr(p, "sku") && HasStr(p, "title_it") && HasStr(p, "title_en")
    requires NullableStr(p, "description_it") && NullableStr(p, "description_en")
    ensures exists f :: f in ProductOrder && !ProductFieldOk(p, f)
  {
    if !HasLiteral(p, "material", Materials) {
      assert !ProductFieldOk(p, "material");
    } else if !NullableStr(p, "stone") {
      assert !ProductFieldOk(p, "stone");
    } else if !HasNonNegative(p, "price") {
      assert !ProductFieldOk(p, "price");
    } else if !AbsentOrBool(p, "available") {
      assert !ProductFieldOk(p, "available");
    } else if !AbsentOrStrList(p, "images") {
      assert !ProductFieldOk(p, "images");
    } else {
      assert !ProductFieldOk(p, "collection_key");
    }
  }

  /** Exactly the product fields that violate their constraint are reported. */
  lemma ProductRejections(p: Doc)
    requires ParseProduct(p).Failure?
    ensures forall f :: f in ParseProduct(p).error <==> f in ProductFields && !ProductFieldOk(p, f)
  {
    ProductOrderIsFields();
  }

  /** A product that validates keeps every declared field of the payload as given. */
  lemma ProductKeepsPayload(p: Doc)
    requires ParseProduct(p).Success?
    ensures KeepsPayload(ProductDoc(ParseProduct(p).value), p)
  {
    var x := ParseProduct(p).value;
    var d := ProductDoc(x);
    forall f | f in d && f in p ensures d[f] == p[f] {
      if f == "images" {
        assert d[f] == List(StrValues(x.images));
      }
    }
  }

  /** A missing or non-string `sku` or title is reported. */
  lemma ProductTextRequired(p: Doc, f: string)
    requires f in {"sku", "title_it", "title_en"}
    requires !(f in p && p[f].Str?)
    ensures ParseProduct(p).Failure? && f in ParseProduct(p).error
  {
  }

  /** A negative price is rejected, whatever the other fields hold. */
  lemma NegativePriceRejected(p: Doc)
    requires "price" in p && p["price"].Num? && p["price"].r < 0.0
    ensures ParseProduct(p).Failure? && "price" in ParseProduct(p).error
  {
  }

  /** "pietre" names a collection but is not a material. */
  lemma PietreIsNotAMaterial(p: Doc)
    requires "material" in p && p["material"] == Str("pietre")
    ensures ParseProduct(p).Failure? && "material" in ParseProduct(p).error
  {
  }

  /** A collection key outside the three keys is rejected; it is not compared with the material. */
  lemma ProductCollectionKeyChecked(p: Doc)
    requires !("collection_key" in p && p["collection_key"].Str? && p["collection_key"].s in CollectionKeys)
    ensures ParseProduct(p).Failure? && "collection_key" in ParseProduct(p).error
  {
  }

  /** A payload with only the required fields validates to the product with every default filled in. */
  lemma ProductDefaults(sku: string, titleIt: string, titleEn: string, material: string, price: real,
                        collectionKey: string)
    requires material in Materials && 0.0 <= price && collectionKey in CollectionKeys
    ensures
      var p := map["sku" := Str(sku), "title_it" := Str(titleIt), "title_en" := Str(titleEn),
                   "material" := Str(material), "price" := Num(price), "collection_key" := Str(collectionKey)];
      ParseProduct(p) == Success(NewProduct(sku, titleIt, titleEn, material, price, collectionKey))
  {
  }

  /** Every valid product is stored as a document that validates back to it. */
  lemma ProductRoundTrip(x: Product)
    requires x.Valid()
    ensures ParseProduct(ProductDoc(x)) == Success(x)
  {
    var d := ProductDoc(x);
    ProductDocFields(x);
    assert AllStr(d["images"].items);
    var images := StrListOrEmpty(d, "images").value;
    assert StrValues(images) == StrValues(x.images);
    assert forall i :: 0 <= i < |images| ==> StrValues(images)[i] == Str(images[i]);
    assert images == x.images;
  }

  // ----------------------------------------------------------- ContactMessage

  /** The stored document of a contact message. */
  function ContactDoc(m: ContactMessage): (d: Doc)
    ensures d.Keys == ContactFields
  {
    map["name" := Str(m.name), "email" := Str(m.email), "message" := Str(m.message),
        "language" := Str(m.language)]
  }

  /** The contact field `f` meets its constraint in `p`. */
  predicate ContactFieldOk(p: Doc, normalizeEmail: string -> Option<string>, f: string)
  {
    if f == "email" then HasEmail(p, f, normalizeEmail)
    else if f == "language" then AbsentOrLiteral(p, f, Languages)
    else HasStr(p, f)
  }

  /** The payloads the contact schema accepts: `language` alone may be left out. */
  predicate ContactAccepted(p: Doc, normalizeEmail: string -> Option<string>)
  {
    && HasStr(p, "name")
    && HasEmail(p, "email", normalizeEmail)
    && HasStr(p, "message")
    && AbsentOrLiteral(p, "language", Languages)
  }

  /**
   * Validates a contact-message payload; the address is kept in the form the
   * validator normalises it to, every other field as given.
   */
  function ParseContact(p: Doc, normalizeEmail: string -> Option<string>): (r: Result<ContactMessage, seq<string>>)
    ensures r.Success? <==> ContactAccepted(p, normalizeEmail)
    ensures r.Success? ==> r.value.language in Languages && normalizeEmail(p["email"].s) == Some(r.value.email)
    ensures r.Success? ==> KeepsPayload(ContactDoc(r.value) - {"email"}, p)
    ensures r.Success? && "language" !in p ==> r.value.language == DefaultLanguage
    ensures r.Failure? ==> r.error != [] && forall f :: f in r.error <==> f in ContactFields && !ContactFieldOk(p, normalizeEmail, f)
  {
    var name := RequiredStr(p, "name");
    var email := Email(p, "email", normalizeEmail);
    var message := RequiredStr(p, "message");
    var language := LiteralOrDefault(p, "language", Languages, DefaultLanguage);
    if name.Some? && email.Some? && message.Some? && language.Some? then
      Success(ContactMessage(name.value, email.value, message.value, language.value))
    else
      Failure(Violation("name", name) + Violation("email", email) + Violation("message", message)
              + Violation("language", language))
  }

  /** A missing or non-string name or message is reported. */
  lemma ContactTextRequired(p: Doc, normalizeEmail: string -> Option<string>, f: string)
    requires f in {"name", "message"}
    requires !(f in p && p[f].Str?)
    ensures ParseContact(p, normalizeEmail).Failure? && f in ParseContact(p, normalizeEmail).error
  {
  }

  /** A rejected address, or a language given but not one of the two, is reported. */
  lemma ContactChecked(p: Doc, normalizeEmail: string -> Option<string>)
    requires !HasEmail(p, "email", normalizeEmail) || !AbsentOrLiteral(p, "language", Languages)
    ensures ParseContact(p, normalizeEmail).Failure?
    ensures !HasEmail(p, "email", normalizeEmail) ==> "email" in ParseContact(p, normalizeEmail).error
    ensures !AbsentOrLiteral(p, "language", Languages) ==> "language" in ParseContact(p, normalizeEmail).error
  {
  }

  /** `language` may be left out: the message is then in Italian. */
  lemma ContactLanguageDefault(name: string, email: string, message: string, normalizeEmail: string -> Option<string>)
    requires normalizeEmail(email).Some?
    ensures
      var p := map["name" := Str(name), "email" := Str(email), "message" := Str(message)];
      ParseContact(p, normalizeEmail) == Success(ContactMessage(name, normalizeEmail(email).value, message, DefaultLanguage))
  {
  }

  /** Every valid contact message is stored as a document that validates back to it. */
  lemma ContactRoundTrip(m: ContactMessage, normalizeEmail: string -> Option<string>)
    requires m.Valid(normalizeEmail)
    ensures ParseContact(ContactDoc(m), normalizeEmail) == Success(m)
  {
  }

  // ------------------------------------------------------ NewsletterSubscriber

  /** The stored document of a newsletter subscription. */
  function SubscriberDoc(s: NewsletterSubscriber): (d: Doc)
    ensures d.Keys == SubscriberFields
  {
    map["email" := Str(s.email), "language" := Str(s.language)]
  }

  /** The subscription field `f` meets its constraint in `p`. */
  predicate SubscriberFieldOk(p: Doc, normalizeEmail: string -> Option<string>, f: string)
  {
    if f == "email" then HasEmail(p, f, normalizeEmail) else AbsentOrLiteral(p, f, Languages)
  }

  /** The payloads the subscription schema accepts: `language` may be left out. */
  predicate SubscriberAccepted(p: Doc, normalizeEmail: string -> Option<string>)
  {
    HasEmail(p, "email", normalizeEmail) && AbsentOrLiteral(p, "language", Languages)
  }

  /**
   * Validates a newsletter-subscription payload; the address is kept in the
   * form the validator normalises it to.
   */
  function ParseSubscriber(p: Doc, normalizeEmail: string -> Option<string>): (r: Result<NewsletterSubscriber, seq<string>>)
    ensures r.Success? <==> SubscriberAccepted(p, normalizeEmail)
    ensures r.Success? ==> r.value.language in Languages && normalizeEmail(p["email"].s) == Some(r.value.email)
    ensures r.Success? ==> KeepsPayload(SubscriberDoc(r.value) - {"email"}, p)
    ensures r.Success? && "language" !in p ==> r.value.language == DefaultLanguage
    ensures r.Failure? ==> r.error != [] && forall f :: f in r.error <==> f in SubscriberFields && !SubscriberFieldOk(p, normalizeEmail, f)
  {
    var email := Email(p, "email", normalizeEmail);
    var language := LiteralOrDefault(p, "language", Languages, DefaultLanguage);
    if email.Some? && language.Some? then
      Success(NewsletterSubscriber(email.value, language.value))
    else
      Failure(Violation("email", email) + Violation("language", language))
  }

  /** A rejected address, or a language given but not one of the two, is reported. */
  lemma SubscriberChecked(p: Doc, normalizeEmail: string -> Option<string>)
    requires !HasEmail(p, "email", normalizeEmail) || !AbsentOrLiteral(p, "language", Languages)
    ensures ParseSubscriber(p, normalizeEmail).Failure?
    ensures !HasEmail(p, "email", normalizeEmail) ==> "email" in ParseSubscriber(p, normalizeEmail).error
    ensures !AbsentOrLiteral(p, "language", Languages) ==> "language" in ParseSubscriber(p, normalizeEmail).error
  {
  }

  /** `language` may be left out: the subscription is then in Italian. */
  lemma SubscriberLanguageDefault(email: string, normalizeEmail: string -> Option<string>)
    requires normalizeEmail(email).Some?
    ensures ParseSubscriber(map["email" := Str(email)], normalizeEmail)
            == Success(NewsletterSubscriber(normalizeEmail(email).value, DefaultLanguage))
  {
  }

  /** Every valid subscription is stored as a document that validates back to it. */
  lemma SubscriberRoundTrip(s: NewsletterSubscriber, normalizeEmail: string -> Option<string>)
    requires s.Valid(normalizeEmail)
    ensures ParseSubscriber(SubscriberDoc(s), normalizeEmail) == Success(s)
  {
  }
}
