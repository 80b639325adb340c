# Catalogue API core in Dafny

A model of the request/validation/persistence core of the LONAIRE jewellery
catalogue backend: the four record schemas (collections, products, contact
messages, newsletter subscriptions) with their constraints and defaults, the
product query filter and its MongoDB-style meaning, and the request handlers
over a document store.

- `wrappers.dfy` (`Wrappers`): `Option` and `Result`.
- `documents.dfy` (`Documents`): field values and documents; removing and
  adding the storage identifier `_id`.
- `schemas.dfy` (`Schemas`): the record datatypes with `Valid` predicates,
  validation of a JSON payload into a record (all rejected fields reported,
  defaults filled in, undeclared fields ignored) and the stored document of a
  record, with round-trip lemmas in both directions.
- `query.dfy` (`Query`): filters (`Eq` and inclusive `$gte`/`$lte` ranges) and
  when a document matches one; the imperative filter builder of the product
  listing; the proof that the built filter selects exactly the documents the
  query asks for.
- `store.dfy` (`Store`): the document store as a class with one sequence of
  documents per collection name and a counter for fresh identifiers. Without
  a connection, reads give nothing and writes fail.
- `handlers.dfy` (`Handlers`): the handlers of `main.py`, the validation of
  request bodies in front of them, and two request sequences (create then
  list; subscribe twice).

Inputs the code gets from outside are parameters: the e-mail validator is a
function `normalizeEmail: string -> Option<string>` that rejects an address
(`None`) or gives its normalised form, which is what gets stored and looked
up; whether the database connection exists
is the store's `connected` field. The storage identifier is a natural number
drawn from a counter rather than a string.

The `database` module (`create_document`, `get_documents`, `db`) is not part
of this model; `Store.Database` stands for it: `get_documents` returns the matching documents in
stored order, or nothing without a connection; `create_document` appends one
document under a fresh identifier, or fails without a connection.

## Model

| member | source | states |
|---|---|---|
| `Documents.StripId` | main.py:69 | the result lacks `_id` and has every other field of the document with its value |
| `Documents.IdRoundTrip` | main.py:66-74 | a document stored under an identifier and stripped again is the document itself |
| `Schemas.ParseCollection` | schemas.py:9-18 | a payload validates exactly when `key` is one of the three keys, the six texts are strings and `hero_image` is absent, null or a string; it then gives a valid collection holding the payload's fields as given, no hero image when absent; otherwise a non-empty list naming exactly the collection fields that violate their constraint |
| `Schemas.CollectionKeyChecked` | schemas.py:11 | a missing key or one outside acciaio/argento/pietre is rejected and reported |
| `Schemas.CollectionTextRequired` | schemas.py:12-17 | each missing or non-string name, tagline or description is rejected and reported |
| `Schemas.CollectionHeroImageOptional` | schemas.py:18 | a valid collection's document without `hero_image` validates to the collection with no hero image |
| `Schemas.CollectionRoundTrip` | schemas.py:9-18 | every valid collection's stored document validates back to that collection |
| `Schemas.NewProduct` | schemas.py:25-31 | a product from the required fields has `available` true, no images, and no descriptions or stone |
| `Schemas.ParseProduct` | schemas.py:20-32 | a payload validates exactly when `sku`, the titles, a material acciaio/argento, a price at least 0 and one of the three collection keys are present, and the optional fields are absent or of their kind; it then gives a valid product, with `available`, `images`, descriptions and `stone` at their defaults when absent; otherwise a non-empty list of product field names, which ones being stated by `Schemas.ProductRejections` |
| `Schemas.ProductRejections` | schemas.py:20-32 | a rejected product payload reports exactly the declared fields that violate their constraint, each listed when and only when it is wrong (a negative price, a missing title, a non-boolean `available`, …) |
| `Schemas.ProductKeepsPayload` | schemas.py:20-32 | a validated product's stored document holds every declared field of the payload exactly as given |
| `Schemas.ProductTextRequired` | schemas.py:22-24 | a missing or non-string `sku`, `title_it` or `title_en` is rejected and reported |
| `Schemas.NegativePriceRejected` | schemas.py:29 | any negative price is rejected and reported |
| `Schemas.PietreIsNotAMaterial` | schemas.py:27 | "pietre" as material is rejected and reported |
| `Schemas.ProductCollectionKeyChecked` | schemas.py:32 | a collection key outside the three is rejected and reported, independently of the material |
| `Schemas.ProductDefaults` | schemas.py:22-32 | a payload with only the required fields, all acceptable, validates to the product with every default filled in |
| `Schemas.ProductRoundTrip` | schemas.py:20-32 | every valid product's stored document validates back to that product |
| `Schemas.ParseContact` | schemas.py:34-38 | a payload validates exactly when name and message are strings, the address is accepted by the validator and `language` is absent or it/en; it then holds the normalised address, the other fields as given and "it" when no language is given; otherwise a non-empty list naming exactly the message fields that violate their constraint |
| `Schemas.ContactTextRequired` | schemas.py:35-37 | a missing or non-string name or message is rejected and reported |
| `Schemas.ContactChecked` | schemas.py:36-38 | an address the validator rejects, or a language given but not it/en, is rejected and reported |
| `Schemas.ContactLanguageDefault` | schemas.py:38 | name, an accepted address and message alone validate to a message in "it" holding the normalised address |
| `Schemas.ContactRoundTrip` | schemas.py:34-38 | every valid message's stored document validates back to that message |
| `Schemas.ParseSubscriber` | schemas.py:40-42 | a payload validates exactly when the address is accepted by the validator and `language` is absent or it/en; it then holds the normalised address and the language, "it" when none is given; otherwise a non-empty list naming exactly the subscription fields that violate their constraint |
| `Schemas.SubscriberChecked` | schemas.py:41-42 | an address the validator rejects, or a language given but not it/en, is rejected and reported |
| `Schemas.SubscriberLanguageDefault` | schemas.py:42 | an accepted address alone validates to a subscription in "it" holding the normalised address |
| `Schemas.SubscriberRoundTrip` | schemas.py:40-42 | every valid subscription's stored document validates back to that subscription |
| `Query.Select` | main.py:97 | the selected documents are exactly the stored documents that match the filter, no more than stored |
| `Query.SelectAppend` | main.py:117-120 | after one more document is stored, a query sees the old answer plus that document if it matches |
| `Query.SelectAll` | main.py:66 | the empty filter selects every stored document, in order |
| `Query.BuildProductFilter` | main.py:80-95 | material, stone and collection_key are in the filter exactly when given non-empty, as equality with the argument; price exactly when a bound is given, `$gte` exactly when min_price is given and equal to it, `$lte` likewise for max_price; available exactly when given, false included; no other key |
| `Query.FilterIsDetermined` | main.py:80-95 | the description of the built filter admits exactly one filter per query |
| `Query.NoParametersNoFilter` | main.py:80-97 | with no parameter the filter is empty |
| `Query.FilterMeaning` | main.py:81-97 | a document matches the built filter exactly when it has each given string, a price within the given bounds inclusive and the given availability |
| `Query.Answer` | main.py:79-97 | the reference answer holds exactly the stored documents the query asks for |
| `Query.AnswerAll` | main.py:79-97 | with no parameter every stored product is listed, in order |
| `Query.SelectAnswer` | main.py:97 | querying the store with the built filter gives exactly the reference answer |
| `Query.QueryIgnoresId` | main.py:98-99 | removing `_id` does not change whether a document answers the query |
| `Store.Database.Find` | main.py:97 | without a connection nothing is read; with one, a stored document is returned exactly when it matches |
| `Store.Database.CreateDocument` | main.py:74 | with a connection, appends the document under a fresh identifier to the named collection only and returns the identifier, advancing the next identifier by one; without one, fails and changes nothing |
| `Handlers.StripIds` | main.py:68-69 | every document, in the same order, loses `_id` and keeps all its other fields |
| `Handlers.ListCollections` | main.py:64-70 | every stored collection, in stored order, without `_id`; nothing without a connection |
| `Handlers.ListProducts` | main.py:78-100 | exactly the stored products the query asks for, in stored order, without `_id`; each one answers the query |
| `Handlers.CreateCollection` | main.py:72-75 | appends exactly the collection's document to "collection", touches no other collection, replies with the new identifier, and on failure leaves documents and identifiers as they were |
| `Handlers.CreateProduct` | main.py:102-105 | appends exactly the product's document to "product", touches no other collection, replies with the new identifier, and on failure leaves documents and identifiers as they were |
| `Handlers.SubmitContact` | main.py:108-111 | appends exactly the message's document to "contactmessage", duplicates included, touches no other collection, replies with the identifier and "received", and on failure leaves documents and identifiers as they were |
| `Handlers.EmailFilter` | main.py:117 | a document matches exactly when its email equals the address |
| `Handlers.SubscribeNewsletter` | main.py:114-121 | an existing subscription with the address gives "already_subscribed", no identifier and an unchanged store; otherwise one document is appended to "newslettersubscriber" only and "subscribed" returned; with a connection, the number of subscriptions with the address becomes 1 when it was 0 and stays as it was otherwise |
| `Handlers.PostCollection` | main.py:72-75 | a body that does not validate is answered with its rejected fields and the store is unchanged; a valid one, with a connection, is appended to "collection" and answered with the new identifier, and without one fails with the store unchanged; no other collection changes |
| `Handlers.PostProduct` | main.py:102-105 | a body that does not validate (a negative price, say) is answered with its rejected fields and the store is unchanged; a valid one, with a connection, is appended to "product" and answered with the new identifier, and without one fails with the store unchanged; no other collection changes |
| `Handlers.PostContact` | main.py:108-111 | a body that does not validate is answered with its rejected fields and the store is unchanged; a valid one, with a connection, is appended to "contactmessage" and answered with the new identifier and "received", and without one fails with the store unchanged; no other collection changes |
| `Handlers.PostSubscription` | main.py:114-121 | a body that does not validate is answered with its rejected fields and the store is unchanged; for a valid one, a subscription with the normalised address already stored gives "already_subscribed" and no change, otherwise one document is appended to "newslettersubscriber" and "subscribed" returned (a failure without a connection); afterwards, with a connection, exactly one or the earlier number of subscriptions carry the address |
| `Handlers.SubscribeTwice` | main.py:117-121 | two subscriptions with one new address reply "subscribed" then "already_subscribed" and leave exactly one subscription with it |
| `Handlers.PostEquivalentAddresses` | main.py:114-121 | on a connected store without the address, a second payload whose address is spelled differently but normalises to the first one's is answered "already_subscribed", and exactly one subscription with the address is stored |
| `Handlers.CreateThenList` | main.py:64-75 | a created collection is listed last, equal to its fields without `_id`, and validates back to itself |

## Left out

- The application object, the CORS middleware and the process entry point (main.py:11-19, main.py:123-126): framework set-up with no behaviour of the core.
- The root greeting (main.py:21-23) and the `/test` diagnostics endpoint (main.py:25-53): a constant message, and probing of a live database connection with message formatting.
- The unused `Filters` request model (main.py:56-61): nothing refers to it.
- The `database` module is not part of this model; `Store.Database` stands for it as described above.
- Store.Database.CreateDocument: does not model a driver or network fault on a connected store; every write with a connection succeeds, so the handlers' server error arises only without a connection.
- Handlers.SubscribeNewsletter: `if db` at main.py:117 is read as "a connection exists". If `db` is a PyMongo 4 `Database`, as its uses at main.py:37, :43 and :117 suggest, testing its truth raises an error, and a subscription on a connected store would then be answered with a server error instead of either status; the database module is not part of this model, so this is unconfirmed, and the model follows the evident intent.
- What the e-mail validator (`EmailStr`) accepts and how it normalises an address: it is the parameter `normalizeEmail`; the round-trip lemmas are stated for records whose address the validator leaves unchanged (their `Valid`).
- Floating point: prices are `real`; `float()` at main.py:89-91 is the identity.
- The validation library's lax coercions (numeric strings to numbers, integers to floats and the like): a field must carry a value of its declared kind.
- Response-model serialisation of the listings (`response_model=List[...]`): the handlers' results are the stored documents without `_id`.
- MongoDB's matching of an equality condition against an array field that contains the value: no filter key of the product listing names an array field.
- The store's natural order: the model keeps insertion order.
- Identifiers are natural numbers from a counter, not strings of object ids.
- The race between two concurrent subscriptions with one address: the model is sequential, so each request runs to completion before the next starts.
- Handlers.SubscribeNewsletter: when the lookup and the insert are interleaved with another request, the source can store two subscriptions with one address; the model states the sequential outcome only.
