/**
 * The document database behind the handlers, as an in-memory store: named
 * collections of documents, each stored document carrying a fresh identifier
 * under `_id`. Without a connection, reads give nothing and writes fail.
 */
module Store {
  import opened Wrappers
  import opened Documents
  import opened Query

  datatype StoreError = StorageUnavailable

  class Database {
    /** Whether a connection to the database was established at start-up. */
    var connected: bool
    /** The documents of each collection, in insertion order. */
    var collections: map<string, seq<Doc>>
    /** The identifier the next inserted document receives. */
    var nextId: nat

    /** Every stored document carries an identifier below `nextId`. */
    ghost predicate Valid()
      reads this
    {
      forall name, i :: name in collections && 0 <= i < |collections[name]| ==> HasIdBelow(collections[name][i], nextId)
    }

    /** Some stored document carries the identifier `id`. */
    ghost predicate IdInUse(id: nat)
      reads this
    {
      exists name, i :: name in collections && 0 <= i < |collections[name]| &&
        IdField in collections[name][i] && collections[name][i][IdField] == ObjectId(id)
    }

    constructor (connected: bool)
      ensures Valid()
      ensures this.connected == connected && collections == map[] && nextId == 0
    {
      this.connected := connected;
      collections := map[];
      nextId := 0;
    }

    /** The documents of the named collection; a collection never written to is empty. */
    function Docs(name: string): seq<Doc>
      reads this
    {
      if name in collections then collections[name] else []
    }

    /** `get_documents`: the documents of the collection that match the filter, in stored order. */
    function Find(name: string, f: Filter): (r: seq<Doc>)
      reads this
      ensures !connected ==> r == []
      ensures connected ==> forall d :: d in Docs(name) ==> (d in r <==> Matches(d, f))
      ensures forall d :: d in r ==> d in Docs(name)
    {
      if connected then Select(Docs(name), f) else []
    }

    /** `create_document`: appends the document under a fresh identifier and returns the identifier. */
    method CreateDocument(name: string, doc: Doc) returns (r: Result<nat, StoreError>)
      requires Valid()
      requires IdField !in doc
      modifies this
      ensures Valid() && connected == old(connected)
      ensures r.Success? <==> old(connected)
      ensures r.Failure? ==> r.error == StorageUnavailable
      ensures r.Failure? ==> collections == old(collections) && nextId == old(nextId)
      ensures r.Success? ==> r.value == old(nextId) && !old(IdInUse(r.value))
      ensures r.Success? ==> nextId == old(nextId) + 1
      ensures r.Success? ==> Docs(name) == old(Docs(name)) + [WithId(doc, r.value)]
      ensures forall n :: n != name ==> Docs(n) == old(Docs(n))
    {
      if !connected {
        return Failure(StorageUnavailable);
      }
      r := Success(nextId);
      collections := collections[name := Docs(name) + [WithId(doc, nextId)]];
      nextId := nextId + 1;
    }
  }

  /** `d` carries an identifier below `bound`. */
  predicate HasIdBelow(d: Doc, bound: nat)
  {
    IdField in d && d[IdField].ObjectId? && d[IdField].id < bound
  }
}
