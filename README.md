# Jewelry store backend: validation, query filter and document mapping

This project models the request-validation and document-mapping layer of a
small jewelry-store HTTP backend and proves properties of it. The backend
lists products from a schemaless document store and creates products and
orders in it.

- **Record schemas** (`schemas.dfy`, module `Schemas`). These are the
  User, Product, OrderItem and Order records. Each field has a kind:
  required text, optional text, list of texts, number with an optional
  lower bound, integer with a default and a bound, or boolean with a
  default. Validating a document yields the typed record, with defaults
  for absent keys, or one error per offending field. `Dump*` is the
  stored form of a record (`model_dump`). Validation and dump are proved
  to be inverses on valid records.
- **Query filter** (`query.dfy`, module `Query`). `QueryFilter` builds
  the dictionary that the listing sends to the store. `Matches` says
  which documents that dictionary selects. `QueryFilterSemantics` proves
  the result equals an independent definition: the category equality,
  and case-insensitive substring search in title or description.
- **Handlers** (`handlers.dfy`, module `Handlers`), covering:
  - the create-product and create-order payloads;
  - the per-document mapper `MapDoc`;
  - the `ListProducts` method, which builds the filter in place, calls
    the store, and hands the documents to `MapDocuments`, which maps
    them one by one in a loop;
  - the two create endpoints.
- Support modules. `documents.dfy` holds loosely-typed values, `d.get`,
  `bool(...)` and `float(...)`. `text.dfy` holds ASCII lowercasing and
  substring containment. `wrappers.dfy` holds Option and Result.

The store is passed to the handlers as functions:
`find(collection, filter, limit)` and `insert(collection, document)`.
Each returns its answer or a failure message. The model does not assume
what the store contains or returns. Number parsing inside `float(text)`
is the parameter `parse`.

Facts about the code that the model keeps:
- `Product.title` may be empty. No minimum length is declared.
- `Order.items` may be empty. No length constraint is declared
  (`Schemas.OrderWithoutItemsIsValid`).
- The create-product payload accepts a negative `price`, and the
  create-order payload a negative `total_amount`. Neither declares a bound
  (`Handlers.NegativePriceAccepted`, `Handlers.NegativeTotalAccepted`).
- The listing's mapper raises when an optional stored field has the wrong
  type, such as a numeric `description`. The values go to `Product(...)`
  unchanged, and that validation fails.

One consequence is proved: a product created with a negative price is
stored, but its stored document cannot be mapped back, whatever keys the
store adds to it (`Handlers.NegativePriceBreaksListing`). By the contract
of `Handlers.ListProducts`, a listing whose store answer contains that
document fails with status 500.

## Model

| member | source | states |
|---|---|---|
| `Documents.Get` | main.py:40-47 | `d.get(key, default)` is the stored value whenever the key is present, null included, and the default only when it is absent |
| `Documents.Truthy` | main.py:44 | `bool(v)` is false for null, false, zero, empty text, empty lists and empty records, and true otherwise |
| `Documents.ToFloat` | main.py:42 | `float(v)` keeps numbers, turns booleans into 1.0/0.0, turns text into the parser's number or fails with `NotANumber` of that text when the parser finds none, and fails on null, lists and objects |
| `Text.LoweredOccurrence` | main.py:32-33 | at any one position, the lowered query occurs in the lowered text exactly when the query occurs there up to ASCII case |
| `Text.LoweredSearchIsCaseInsensitive` | main.py:31-34 | searching the ASCII-lowered text for the lowered query finds a match exactly when the query is a case-insensitive substring of the text |
| `Schemas.RequiredText` | schemas.py:33 | a required text field fails with `Missing` when absent and `WrongType` when not text (null included); otherwise it is the stored text |
| `Schemas.OptionalText` | schemas.py:34 | an optional text field accepts absent, null or text; absent and null both give None, text passes through unchanged |
| `Schemas.OptionalTextList` | schemas.py:40 | an optional list-of-text field accepts absent, null or a list of texts only, and stores back as the same value |
| `Schemas.Number` | schemas.py:35 | a required number: `Missing` when absent, `WrongType` when not a number, `TooSmall` below the `ge` bound, otherwise the number itself |
| `Schemas.Integer` | schemas.py:44 | an integer field takes its default when absent (unchecked), refuses non-integral values and values below the bound, otherwise the value |
| `Schemas.Flag` | schemas.py:37 | a boolean field takes its default when absent and refuses non-booleans (null included) |
| `Schemas.ValidateUser` | schemas.py:17-26 | accepted iff `name` and `email` are texts, `address` and `phone` are absent, null or text, and `is_active` is absent or a boolean; missing `name`/`email` fail naming the field; fields agree with the document, `is_active` true when absent |
| `Schemas.UserDefaults` | schemas.py:24-26 | a user given only a name and an email has no address or phone and is active |
| `Schemas.DumpUser` | schemas.py:17-26 | the stored form of a User holds exactly the five declared fields |
| `Schemas.UserRoundTrip` | schemas.py:17-26 | every User validates back from its stored form unchanged |
| `Schemas.ProductRecord` | schemas.py:28-40 | missing `title`/`price`/`category` fail naming the field; a price below the bound fails; success iff every field decodes; fields agree with the document, defaults when absent |
| `Schemas.ValidateProduct` | schemas.py:35 | a validated Product has `price >= 0`; a negative price is refused with `TooSmall(0)` |
| `Schemas.ProductRecordRoundTrip` | schemas.py:28-40 | a stored product validates back to itself exactly when its price respects the bound; otherwise the only error is the price bound |
| `Schemas.DumpProduct` | main.py:66 | the stored form of a product holds exactly the eight declared fields, unset optionals included |
| `Schemas.ProductRoundTrip` | schemas.py:35 | a stored product validates back to itself iff it is valid (`price >= 0`) |
| `Schemas.ValidateOrderItem` | schemas.py:42-46 | accepted iff `product_id` and `title` are texts, `quantity` is absent or an integral number `>= 1`, and `unit_price` is a number `>= 0`; missing required fields fail naming the field; `quantity < 1` and `unit_price < 0` are refused; `quantity` is 1 when absent; result is valid |
| `Schemas.DumpOrderItem` | main.py:83 | the stored form of an order item holds exactly its four declared fields |
| `Schemas.OrderItemRoundTrip` | schemas.py:42-46 | a stored item validates back to itself iff it is valid |
| `Schemas.QuantityBoundary` | schemas.py:44 | an item without quantity gets 1; quantity 0 is refused; quantity 1 is accepted |
| `Schemas.DecodeItem` | schemas.py:57 | one list element is accepted iff it is a record passing the OrderItem schema |
| `Schemas.DecodeItems` | schemas.py:57 | a list of items is accepted iff every element, decoded at its own position, is accepted; it then yields those items in order, and otherwise reports at least one error |
| `Schemas.Items` | schemas.py:57 | `items` absent fails with `Missing`, a non-list with `WrongType`; it is accepted iff it is a list whose every element is a record passing the OrderItem schema; the decoded items correspond one to one with its elements |
| `Schemas.OrderRecord` | schemas.py:48-59 | missing required fields each fail naming the field; a total below the bound fails; success iff every field decodes; items all valid; fields agree with the document |
| `Schemas.ValidateOrder` | schemas.py:58 | a validated Order is valid (total `>= 0`, all items valid); a negative total is refused |
| `Schemas.DumpOrder` | main.py:83 | the stored form of an order holds exactly its seven declared fields |
| `Schemas.DecodeStoredItems` | schemas.py:57 | stored items decode back iff all are valid, and then to the same list |
| `Schemas.StoredOrderAccepted` | schemas.py:48-59 | a stored order within the total bound and with valid items passes validation |
| `Schemas.StoredOrderRejected` | schemas.py:48-59 | a stored order below the total bound or with an invalid item fails validation |
| `Schemas.StoredOrderRecovered` | schemas.py:48-59 | whatever validation accepts of a stored order is that order |
| `Schemas.OrderRecordRoundTrip` | schemas.py:48-59 | a stored order validates back to itself exactly when it respects the total bound and all items are valid |
| `Schemas.OrderRoundTrip` | schemas.py:57-58 | a stored order validates back to itself iff it is valid |
| `Schemas.OrderWithoutItemsIsValid` | schemas.py:57 | an order with no items and a non-negative total is valid and validates |
| `Query.Present` | main.py:27-29 | a query parameter counts iff it is given and its text is truthy (not empty) |
| `Query.Matches` | main.py:35 | the empty filter matches every document; a matching document equals every equality clause and satisfies one alternative of `$or` |
| `Query.QueryFilter` | main.py:26-34 | the filter has a `category` key iff a non-empty category is given and a `$or` key iff a non-empty `q` is given, nothing else; empty when neither |
| `Query.RegexOnField` | main.py:32-33 | a case-insensitive literal `$regex` on a field holds iff the field is a text containing the query up to case |
| `Query.QueryFilterIsLiteral` | main.py:31-34 | a literal `q` yields only literal patterns |
| `Query.QueryFilterSemantics` | main.py:26-34 | a document matches the filter iff it has the asked category (if any) and its title or description contains `q` ignoring case (if any) |
| `Query.EmptyQueryMatchesAll` | main.py:26-29 | with category and `q` absent or empty the filter is empty and matches every document |
| `Query.GoldSearchFindsTitle` | main.py:31-34 | `q=gold` selects a product titled "Gold Ring" |
| `Query.GoldSearchFindsDescription` | main.py:31-34 | `q=gold` selects a product described "made of gold" |
| `Query.GoldSearchSkipsOthers` | main.py:31-34 | `q=gold` does not select "Silver Band" without description |
| `Handlers.ValidateCreateProduct` | main.py:53-61 | a payload with only text title and category and any numeric price, negative included, is accepted and in stock |
| `Handlers.ValidateCreateOrder` | main.py:71-78 | an accepted order payload has only valid items and keeps the submitted total exactly |
| `Handlers.CreateProductVersusProduct` | main.py:56 | the payload and the Product schema agree except that the payload also accepts a negative price, which the schema refuses with only the price error |
| `Handlers.CreateOrderVersusOrder` | main.py:77 | the payload and the Order schema agree except that the payload also accepts a negative total, which the schema refuses with only the total error |
| `Handlers.NegativePriceAccepted` | main.py:56 | a payload with price -1 is accepted by the create-product payload and refused by the Product schema |
| `Handlers.NegativeTotalAccepted` | main.py:76-77 | an order payload with total -5 and no items is accepted by the create-order payload and refused by the Order schema |
| `Handlers.MapDoc` | main.py:38-48 | succeeds iff the document is mappable field by field; defaults only for absent keys (`""`, 0, `"Other"`, true); optionals copied unchanged or null; `in_stock` is the truth of the stored value; result valid; price-conversion failures propagate |
| `Handlers.StoredArguments` | main.py:39-48 | for a stored product, the mapper's arguments are exactly the stored document |
| `Handlers.StoredProductReadsBack` | main.py:38-48 | the mapper reads the stored form of every valid product back unchanged |
| `Handlers.MapDocReadsProductFields` | main.py:39-48 | the mapper reads only the eight Product keys: a document and its restriction to those keys map alike |
| `Handlers.StoredDocumentReadsBack` | main.py:38-48 | a stored document whose Product keys hold a valid product's stored form maps back to that product, whatever other keys it has |
| `Handlers.NegativePriceUnmappable` | main.py:42 | a stored product with a negative price cannot be mapped |
| `Handlers.EmptyDocumentDefaults` | main.py:40-47 | a document without any product key maps to title "", price 0, category "Other", in stock, all optionals null |
| `Handlers.MapDocuments` | main.py:37-49 | succeeds iff every document maps; then returns one valid product per document, in order; otherwise fails with the error of the first document that does not map |
| `Handlers.ListProducts` | main.py:24-51 | asks the store with `QueryFilter(category, q)` and `limit`; a store failure gives 500; otherwise succeeds iff every document maps, returning one product per document in order; else 500 carrying the first failing document's error, with no partial list |
| `Handlers.CreateProduct` | main.py:63-69 | invalid payload gives 422 before the store is called; valid payload is stored as its dump in "product"; success gives `{"id": id}`; a store failure gives 500 with its message |
| `Handlers.CreateOrder` | main.py:80-86 | invalid payload gives 422; valid payload is stored in "order" with the submitted total unchanged; success gives `{"id": id, "status": "received"}`; a store failure gives 500 |
| `Handlers.NegativePriceBreaksListing` | main.py:56 | a product created with a negative price is stored in a form the listing's mapper cannot map, whatever keys the store adds |
| `Handlers.CreatedProductListsBack` | main.py:63-67 | a product created with a non-negative price is mapped back unchanged by the listing, whatever keys the store adds |
| `Handlers.GoldRingEndToEnd` | main.py:63-67 | creating "Gold Ring", 199.99, "Rings" yields an in-stock product with null optionals; the listing maps it back unchanged; the filter for category "Rings" selects it |

## Left out

- HTTP routing, the CORS middleware, the root greeting endpoint, the
  `/test` diagnostic endpoint and the server start-up (main.py:9-21,
  88-129). These are framework plumbing, configuration and environment
  reads. The conversion of failures into responses is modelled only as
  the status and cause carried by `HttpError`. The `str(e)` rendering of
  the cause as text is not modelled.
- The `database` module (`db`, `create_document`, `get_documents`) is not
  part of this model. The store is the parameters `find` and `insert`.
  The model does not capture the following:
  - whether `find` honours `limit` or returns only matching documents;
  - the store's order;
  - what `create_document` adds to a stored document. The mapping lemmas
    allow any added keys, as long as the product's own keys are stored
    as given;
  - the form of ids.
- `Handlers.ListProducts`: the bound "at most `limit` products" holds only
  when the store honours `limit`. The model proves one product per
  returned document and assumes nothing about the store.
- Full regular-expression semantics of `$regex`. `Query.Matches` reads a
  pattern only when it has no metacharacters (`Query.IsLiteral`), and the
  filter properties require a literal `q`.
- The document store's matching of array-valued fields: an equality or
  `$regex` against a list that matches an element.
- Unicode case folding. Case-insensitivity is ASCII only.
- Floating point. Prices and totals are exact reals, so rounding, NaN and
  infinities are not modelled.
- Number parsing inside `float(text)`, which is the parameter `parse`.
- Pydantic's lax coercions are not modelled. For number fields these are
  numeric text and booleans; the model refuses them as `WrongType`. An
  integral number is accepted for an integer field. Numbers are not
  coerced to text by Pydantic either, and the model refuses them too.
- `Schemas.Flag`: refuses every non-boolean, while Pydantic's lax mode
  also accepts 0 and 1 and texts such as "true", "false", "yes", "no",
  "on" and "off" for a boolean field. A payload with `"in_stock": "false"`
  is accepted by the source and refused by the model.
- The default of 50 for the `limit` parameter (main.py:24) is applied by
  the web framework before the handler runs. `Handlers.ListProducts`
  takes `limit` as given and passes it to the store unchanged.
- Pydantic's error messages and locations. Errors are one `FieldError`
  per failing field in declaration order, with nested item errors.
- The `total_amount` versus item-sum check, stock changes and id
  uniqueness. The source does none of these.
- Concurrency. Each request is independent and holds no state.
