/**
 * Field values and documents as the document database stores them and as
 * JSON request payloads carry them. A document is a mapping from field names
 * to values; the database adds the storage identifier under `_id`.
 */
module Documents {

  /** One field value: JSON's scalars and arrays plus the database's object identifier. */
  datatype Value =
    | Null
    | Str(s: string)
    | Num(r: real)
    | Bool(b: bool)
    | List(items: seq<Value>)
    | ObjectId(id: nat)

  type Doc = map<string, Value>

  /** The field under which the database keeps a document's identifier. */
  const IdField := "_id"

  /** `out` is `d` with its storage identifier removed and every other field as it was. */
  predicate IsStripped(out: Doc, d: Doc)
  {
    && IdField !in out
    && (forall k :: k in out ==> k in d && out[k] == d[k])
    && (forall k :: k in d && k != IdField ==> k in out)
  }

  /** `d.pop("_id", None)`: drop the identifier if there is one. */
  function StripId(d: Doc): (r: Doc)
    ensures IsStripped(r, d)
    ensures IdField !in d ==> r == d
  {
    d - {IdField}
  }

  /** `d` as stored under the identifier `id`. */
  function WithId(d: Doc, id: nat): (r: Doc)
    ensures IdField in r && r[IdField] == ObjectId(id)
    ensures IdField !in d ==> IsStripped(d, r)
  {
    d[IdField := ObjectId(id)]
  }

  /** Storing a document and stripping the identifier again gives back the document. */
  lemma IdRoundTrip(d: Doc, id: nat)
    requires IdField !in d
    ensures StripId(WithId(d, id)) == d
  {
    assert StripId(WithId(d, id)).Keys == d.Keys;
  }
}
