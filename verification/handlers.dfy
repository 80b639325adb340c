/**
 * The request handlers of the catalogue API over the document store: listing
 * and creating collections and products, accepting contact messages and
 * newsletter subscriptions. Listings strip the storage identifier from every
 * document; creations append one document to one collection; the newsletter
 * checks for an existing subscription with the same address first.
 */
module Handlers {
  import opened Wrappers
  import opened Documents
  import opened Schemas
  import opened Query
  import opened Store

  /** Collection names in the store: the lower-case record kinds. */
  const CollectionStore := "collection"
  const ProductStore := "product"
  const ContactStore := "contactmessage"
  const SubscriberStore := "newslettersubscriber"

  /** The response body of a creating handler: the new identifier and a status, each when present. */
  datatype Reply = Reply(id: Option<nat>, status: Option<string>)

  const Received := "received"
  const Subscribed := "subscribed"
  const AlreadySubscribed := "already_subscribed"

  /** Why a request failed: a payload that does not validate, or the store refused the write. */
  datatype ApiError = Unprocessable(fields: seq<string>) | ServerError(cause: StoreError)

  // ------------------------------------------------------------------ listings

  /** Pops `_id` from every document, one after the other, keeping the order. */
  method StripIds(docs: seq<Doc>) returns (out: seq<Doc>)
    ensures |out| == |docs|
    ensures forall i :: 0 <= i < |docs| ==> IsStripped(out[i], docs[i])
  {
    out := docs;
    var i := 0;
    while i < |out|
      invariant 0 <= i <= |out| == |docs|
      invariant forall j :: 0 <= j < i ==> IsStripped(out[j], docs[j])
      invariant forall j :: i <= j < |out| ==> out[j] == docs[j]
    {
      out := out[i := StripId(out[i])];
      i := i + 1;
    }
  }

  /** `list_collections`: every stored collection, in stored order, without identifiers. */
  method ListCollections(db: Database) returns (docs: seq<Doc>)
    ensures !db.connected ==> docs == []
    ensures db.connected ==> |docs| == |db.Docs(CollectionStore)|
    ensures db.connected ==> forall i :: 0 <= i < |docs| ==> IsStripped(docs[i], db.Docs(CollectionStore)[i])
  {
    var found := db.Find(CollectionStore, map[]);
    SelectAll(db.Docs(CollectionStore));
    docs := StripIds(found);
  }

  /**
   * `list_products`: the stored products that answer the query, in stored
   * order, without identifiers.
   */
  method ListProducts(db: Database, q: ProductQuery) returns (docs: seq<Doc>)
    ensures !db.connected ==> docs == []
    ensures db.connected ==> |docs| == |Answer(db.Docs(ProductStore), q)|
    ensures db.connected ==> forall i :: 0 <= i < |docs| ==> IsStripped(docs[i], Answer(db.Docs(ProductStore), q)[i])
    ensures forall i :: 0 <= i < |docs| ==> QueryHolds(docs[i], q)
  {
    var filt := BuildProductFilter(q);
    var found := db.Find(ProductStore, filt);
    SelectAnswer(db.Docs(ProductStore), filt, q);
    docs := StripIds(found);
    forall i | 0 <= i < |docs| ensures QueryHolds(docs[i], q) {
      assert found[i] in found;
      QueryIgnoresId(docs[i], found[i], q);
    }
  }

  // ----------------------------------------------------------------- creation

  /** `create_collection`: stores the collection and replies with its identifier. */
  method CreateCollection(db: Database, c: Collection) returns (r: Result<Reply, StoreError>)
    requires db.Valid()
    modifies db
    ensures db.Valid() && db.connected == old(db.connected)
    ensures r.Success? <==> old(db.connected)
    ensures r.Failure? ==> db.collections == old(db.collections) && db.nextId == old(db.nextId)
    ensures r.Success? ==> db.nextId == old(db.nextId) + 1
    ensures r.Success? ==> r.value == Reply(Some(old(db.nextId)), None)
    ensures r.Success? ==> db.Docs(CollectionStore) == old(db.Docs(CollectionStore)) + [WithId(CollectionDoc(c), old(db.nextId))]
    ensures forall n :: n != CollectionStore ==> db.Docs(n) == old(db.Docs(n))
  {
    var inserted := db.CreateDocument(CollectionStore, CollectionDoc(c));
    if inserted.Failure? {
      return Failure(inserted.error);
    }
    r := Success(Reply(Some(inserted.value), None));
  }

  /** `create_product`: stores the product and replies with its identifier. */
  method CreateProduct(db: Database, x: Product) returns (r: Result<Reply, StoreError>)
    requires db.Valid()
    modifies db
    ensures db.Valid() && db.connected == old(db.connected)
    ensures r.Success? <==> old(db.connected)
    ensures r.Failure? ==> db.collections == old(db.collections) && db.nextId == old(db.nextId)
    ensures r.Success? ==> db.nextId == old(db.nextId) + 1
    ensures r.Success? ==> r.value == Reply(Some(old(db.nextId)), None)
    ensures r.Success? ==> db.Docs(ProductStore) == old(db.Docs(ProductStore)) + [WithId(ProductDoc(x), old(db.nextId))]
    ensures forall n :: n != ProductStore ==> db.Docs(n) == old(db.Docs(n))
  {
    var inserted := db.CreateDocument(ProductStore, ProductDoc(x));
    if inserted.Failure? {
      return Failure(inserted.error);
    }
    r := Success(Reply(Some(inserted.value), None));
  }

  /** `submit_contact`: stores the message, duplicates included, and replies "received". */
  method SubmitContact(db: Database, m: ContactMessage) returns (r: Result<Reply, StoreError>)
    requires db.Valid()
    modifies db
    ensures db.Valid() && db.connected == old(db.connected)
    ensures r.Success? <==> old(db.connected)
    ensures r.Failure? ==> db.collections == old(db.collections) && db.nextId == old(db.nextId)
    ensures r.Success? ==> db.nextId == old(db.nextId) + 1
    ensures r.Success? ==> r.value == Reply(Some(old(db.nextId)), Some(Received))
    ensures r.Success? ==> db.Docs(ContactStore) == old(db.Docs(ContactStore)) + [WithId(ContactDoc(m), old(db.nextId))]
    ensures forall n :: n != ContactStore ==> db.Docs(n) == old(db.Docs(n))
  {
    var inserted := db.CreateDocument(ContactStore, ContactDoc(m));
    if inserted.Failure? {
      return Failure(inserted.error);
    }
    r := Success(Reply(Some(inserted.value), Some(Received)));
  }

  // ---------------------------------------------------------------- newsletter

  /** The filter that looks a subscription up by its address. */
  function EmailFilter(email: string): (f: Filter)
    ensures forall d :: Matches(d, f) <==> "email" in d && d["email"] == Str(email)
  {
    map["email" := Eq(Str(email))]
  }

  /** How many stored subscriptions carry `email`, as far as a read of the store can see. */
  function Subscriptions(db: Database, email: string): nat
    reads db
  {
    |db.Find(SubscriberStore, EmailFilter(email))|
  }

  /**
   * `subscribe_newsletter`: replies "already_subscribed", with no identifier
   * and nothing stored, when a subscription with the address exists;
   * otherwise stores the subscription and replies "subscribed".
   */
  method SubscribeNewsletter(db: Database, s: NewsletterSubscriber) returns (r: Result<Reply, StoreError>)
    requires db.Valid()
    modifies db
    ensures db.Valid() && db.connected == old(db.connected)
    ensures old(Subscriptions(db, s.email)) > 0 ==>
              && r == Success(Reply(None, Some(AlreadySubscribed)))
              && db.collections == old(db.collections) && db.nextId == old(db.nextId)
    ensures old(Subscriptions(db, s.email)) == 0 ==>
              && (r.Success? <==> old(db.connected))
              && (r.Failure? ==> db.collections == old(db.collections) && db.nextId == old(db.nextId))
              && (r.Success? ==> r.value == Reply(Some(old(db.nextId)), Some(Subscribed)))
              && (r.Success? ==> db.Docs(SubscriberStore) == old(db.Docs(SubscriberStore)) + [WithId(SubscriberDoc(s), old(db.nextId))])
              && (forall n :: n != SubscriberStore ==> db.Docs(n) == old(db.Docs(n)))
    ensures db.connected ==> Subscriptions(db, s.email) == if old(Subscriptions(db, s.email)) == 0 then 1 else old(Subscriptions(db, s.email))
  {
    var existing := if db.connected then db.Find(SubscriberStore, EmailFilter(s.email)) else [];
    if existing != [] {
      return Success(Reply(None, Some(AlreadySubscribed)));
    }
    ghost var before := db.Docs(SubscriberStore);
    var inserted := db.CreateDocument(SubscriberStore, SubscriberDoc(s));
    if inserted.Failure? {
      return Failure(inserted.error);
    }
    SelectAppend(before, WithId(SubscriberDoc(s), inserted.value), EmailFilter(s.email));
    r := Success(Reply(Some(inserted.value), Some(Subscribed)));
  }

  // ------------------------------------------------------- request validation
  // Each endpoint first validates the request body against the record's
  // schema; a body that does not validate is answered with the rejected
  // fields and never reaches the store.

  /** POST of a collection. */
  method PostCollection(db: Database, payload: Doc) returns (r: Result<Reply, ApiError>)
    requires db.Valid()
    modifies db
    ensures db.Valid() && db.connected == old(db.connected)
    ensures ParseCollection(payload).Failure? ==>
              && r == Failure(Unprocessable(ParseCollection(payload).error))
              && db.collections == old(db.collections) && db.nextId == old(db.nextId)
    ensures ParseCollection(payload).Success? ==>
              && (r.Success? <==> old(db.connected))
              && (r.Failure? ==> (r.error == ServerError(StorageUnavailable)
                                    && db.collections == old(db.collections) && db.nextId == old(db.nextId)))
              && (r.Success? ==> r.value == Reply(Some(old(db.nextId)), None))
              && (r.Success? ==> db.Docs(CollectionStore) == old(db.Docs(CollectionStore)) + [WithId(CollectionDoc(ParseCollection(payload).value), old(db.nextId))])
    ensures forall n :: n != CollectionStore ==> db.Docs(n) == old(db.Docs(n))
  {
    var parsed := ParseCollection(payload);
    if parsed.Failure? {
      return Failure(Unprocessable(parsed.error));
    }
    var created := CreateCollection(db, parsed.value);
    r := if created.Success? then Success(created.value) else Failure(ServerError(created.error));
  }

  /** POST of a product; a negative price, say, never reaches the store. */
  method PostProduct(db: Database, payload: Doc) returns (r: Result<Reply, ApiError>)
    requires db.Valid()
    modifies db
    ensures db.Valid() && db.connected == old(db.connected)
    ensures ParseProduct(payload).Failure? ==>
              && r == Failure(Unprocessable(ParseProduct(payload).error))
              && db.collections == old(db.collections) && db.nextId == old(db.nextId)
    ensures ParseProduct(payload).Success? ==>
              && (r.Success? <==> old(db.connected))
              && (r.Failure? ==> (r.error == ServerError(StorageUnavailable)
                                    && db.collections == old(db.collections) && db.nextId == old(db.nextId)))
              && (r.Success? ==> r.value == Reply(Some(old(db.nextId)), None))
              && (r.Success? ==> db.Docs(ProductStore) == old(db.Docs(ProductStore)) + [WithId(ProductDoc(ParseProduct(payload).value), old(db.nextId))])
    ensures forall n :: n != ProductStore ==> db.Docs(n) == old(db.Docs(n))
  {
    var parsed := ParseProduct(payload);
    if parsed.Failure? {
      return Failure(Unprocessable(parsed.error));
    }
    var created := CreateProduct(db, parsed.value);
    r := if created.Success? then Success(created.value) else Failure(ServerError(created.error));
  }

  /** POST of a contact message; `normalizeEmail` is the e-mail validator. */
  method PostContact(db: Database, payload: Doc, normalizeEmail: string -> Option<string>) returns (r: Result<Reply, ApiError>)
    requires db.Valid()
    modifies db
    ensures db.Valid() && db.connected == old(db.connected)
    ensures ParseContact(payload, normalizeEmail).Failure? ==>
              && r == Failure(Unprocessable(ParseContact(payload, normalizeEmail).error))
              && db.collections == old(db.collections) && db.nextId == old(db.nextId)
    ensures ParseContact(payload, normalizeEmail).Success? ==>
              && (r.Success? <==> old(db.connected))
              && (r.Failure? ==> (r.error == ServerError(StorageUnavailable)
                                    && db.collections == old(db.collections) && db.nextId == old(db.nextId)))
              && (r.Success? ==> r.value == Reply(Some(old(db.nextId)), Some(Received)))
              && (r.Success? ==> db.Docs(ContactStore) == old(db.Docs(ContactStore)) + [WithId(ContactDoc(ParseContact(payload, normalizeEmail).value), old(db.nextId))])
    ensures forall n :: n != ContactStore ==> db.Docs(n) == old(db.Docs(n))
  {
    var parsed := ParseContact(payload, normalizeEmail);
    if parsed.Failure? {
      return Failure(Unprocessable(parsed.error));
    }
    var created := SubmitContact(db, parsed.value);
    r := if created.Success? then Success(created.value) else Failure(ServerError(created.error));
  }

  /**
   * POST of a newsletter subscription; `normalizeEmail` is the e-mail
   * validator, so the look-up uses the normalised address.
   */
  method PostSubscription(db: Database, payload: Doc, normalizeEmail: string -> Option<string>) returns (r: Result<Reply, ApiError>)
    requires db.Valid()
    modifies db
    ensures db.Valid() && db.connected == old(db.connected)
    ensures ParseSubscriber(payload, normalizeEmail).Failure? ==>
              && r == Failure(Unprocessable(ParseSubscriber(payload, normalizeEmail).error))
              && db.collections == old(db.collections) && db.nextId == old(db.nextId)
    ensures ParseSubscriber(payload, normalizeEmail).Success? ==>
              var s := ParseSubscriber(payload, normalizeEmail).value;
              && (old(Subscriptions(db, s.email)) > 0 ==>
                    && r == Success(Reply(None, Some(AlreadySubscribed)))
                    && db.collections == old(db.collections) && db.nextId == old(db.nextId))
              && (old(Subscriptions(db, s.email)) == 0 ==>
                    && (r.Success? <==> old(db.connected))
                    && (r.Failure? ==> (r.error == ServerError(StorageUnavailable)
                                    && db.collections == old(db.collections) && db.nextId == old(db.nextId)))
                    && (r.Success? ==> r.value == Reply(Some(old(db.nextId)), Some(Subscribed)))
                    && (r.Success? ==> db.Docs(SubscriberStore) == old(db.Docs(SubscriberStore)) + [WithId(SubscriberDoc(s), old(db.nextId))]))
              && (db.connected ==> Subscriptions(db, s.email) == if old(Subscriptions(db, s.email)) == 0 then 1 else old(Subscriptions(db, s.email)))
    ensures forall n :: n != SubscriberStore ==> db.Docs(n) == old(db.Docs(n))
  {
    var parsed := ParseSubscriber(payload, normalizeEmail);
    if parsed.Failure? {
      return Failure(Unprocessable(parsed.error));
    }
    var subscribed := SubscribeNewsletter(db, parsed.value);
    r := if subscribed.Success? then Success(subscribed.value) else Failure(ServerError(subscribed.error));
  }

  // ------------------------------------------------------ request sequences

  /**
   * Two subscriptions with one address, one after the other, on a connected
   * store without that address: "subscribed", then "already_subscribed",
   * and exactly one stored subscription with the address.
   */
  method SubscribeTwice(db: Database, s: NewsletterSubscriber) returns (first: Result<Reply, StoreError>, second: Result<Reply, StoreError>)
    requires db.Valid() && db.connected
    requires Subscriptions(db, s.email) == 0
    modifies db
    ensures first.Success? && first.value.status == Some(Subscribed) && first.value.id.Some?
    ensures second == Success(Reply(None, Some(AlreadySubscribed)))
    ensures Subscriptions(db, s.email) == 1
    ensures |db.Docs(SubscriberStore)| == |old(db.Docs(SubscriberStore))| + 1
  {
    first := SubscribeNewsletter(db, s);
    second := SubscribeNewsletter(db, s);
  }

  /**
   * Two subscription payloads whose addresses the validator normalises to
   * the same address, posted one after the other on a connected store
   * without it: the second is answered "already_subscribed" although its
   * address is spelled differently, and one subscription is stored.
   */
  method PostEquivalentAddresses(db: Database, first: Doc, second: Doc, normalizeEmail: string -> Option<string>)
    returns (r1: Result<Reply, ApiError>, r2: Result<Reply, ApiError>)
    requires db.Valid() && db.connected
    requires ParseSubscriber(first, normalizeEmail).Success? && ParseSubscriber(second, normalizeEmail).Success?
    requires normalizeEmail(first["email"].s) == normalizeEmail(second["email"].s)
    requires Subscriptions(db, ParseSubscriber(first, normalizeEmail).value.email) == 0
    modifies db
    ensures r1.Success? && r1.value.status == Some(Subscribed) && r1.value.id.Some?
    ensures r2 == Success(Reply(None, Some(AlreadySubscribed)))
    ensures Subscriptions(db, ParseSubscriber(first, normalizeEmail).value.email) == 1
    ensures |db.Docs(SubscriberStore)| == |old(db.Docs(SubscriberStore))| + 1
  {
    r1 := PostSubscription(db, first, normalizeEmail);
    r2 := PostSubscription(db, second, normalizeEmail);
  }

  /**
   * A collection created on a connected store is listed last, field for
   * field as given, without an identifier, and validates back to itself.
   */
  method CreateThenList(db: Database, c: Collection) returns (listed: seq<Doc>)
    requires db.Valid() && db.connected && c.Valid()
    modifies db
    ensures |listed| == |old(db.Docs(CollectionStore))| + 1
    ensures listed[|listed| - 1] == CollectionDoc(c)
    ensures IdField !in listed[|listed| - 1]
    ensures ParseCollection(listed[|listed| - 1]) == Success(c)
  {
    var created := CreateCollection(db, c);
    listed := ListCollections(db);
    var last := |listed| - 1;
    IdRoundTrip(CollectionDoc(c), old(db.nextId));
    assert IsStripped(listed[last], WithId(CollectionDoc(c), old(db.nextId)));
    assert listed[last].Keys == CollectionDoc(c).Keys;
    CollectionRoundTrip(c);
  }
}
