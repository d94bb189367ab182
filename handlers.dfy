/**
 * The request handlers of the service: listing products (building the
 * query filter, reading the store and mapping every stored document to a
 * Product) and creating products and orders from validated payloads.
 *
 * The document store is passed in as functions: `find` answers a query on
 * a collection with the documents found or a failure message, and `insert`
 * stores a document and answers with its id or a failure message. Parsing
 * of numeric text by `float(...)` is the parameter `parse`.
 */
module Handlers {
  import opened Wrappers
  import opened Documents
  import opened Schemas
  import opened Query

  const ServerError := 500
  const Unprocessable := 422
  const ProductCollection := "product"
  const OrderCollection := "order"
  const ReceivedStatus := "received"

  /** Why mapping a stored document to a Product raised. */
  datatype MapFailure =
    | PriceConversion(cause: ConversionError)     // `float(...)` of the price raised
    | InvalidProduct(errors: seq<FieldError>)     // the Product schema rejected the arguments

  /** What a failed request carries. */
  datatype Cause =
    | Rejected(errors: seq<FieldError>)   // the payload failed its schema before the handler ran
    | StoreFailed(message: string)        // the store raised
    | Unmappable(failure: MapFailure)     // a stored document could not be mapped to a Product

  datatype HttpError = HttpError(status: int, cause: Cause)

  // ---------------------------------------------------------------------
  // Payloads of the two create endpoints
  // ---------------------------------------------------------------------

  /**
   * Validates a create-product payload: the Product fields, defaults and
   * types, but with no lower bound on `price`.
   */
  function ValidateCreateProduct(d: Document): (r: Result<Product, seq<FieldError>>)
    ensures r.Success? ==> "price" in d && d["price"] == Num(r.value.price)
    ensures d.Keys == {"title", "price", "category"} && d["title"].Str? && d["category"].Str? && d["price"].Num? ==>
      r.Success? && r.value.inStock
  {
    ProductRecord(d, None)
  }

  /**
   * Validates a create-order payload: the Order fields, with every item
   * checked against the OrderItem schema, but with no lower bound on
   * `total_amount`.
   */
  function ValidateCreateOrder(d: Document): (r: Result<Order, seq<FieldError>>)
    ensures r.Success? ==> forall k :: 0 <= k < |r.value.items| ==> r.value.items[k].Valid()
    ensures r.Success? ==> "total_amount" in d && d["total_amount"] == Num(r.value.totalAmount)
  {
    OrderRecord(d, None)
  }

  /**
   * The create-product payload and the Product schema accept the same
   * documents, except that the payload also accepts a negative price.
   */
  lemma CreateProductVersusProduct(d: Document)
    ensures ValidateProduct(d).Success? ==> ValidateCreateProduct(d) == ValidateProduct(d)
    ensures ValidateCreateProduct(d).Success? && ValidateCreateProduct(d).value.price >= 0.0 ==>
      ValidateProduct(d) == ValidateCreateProduct(d)
    ensures ValidateCreateProduct(d).Success? && ValidateCreateProduct(d).value.price < 0.0 ==>
      ValidateProduct(d) == Failure([FieldError("price", TooSmall(0.0))])
  {
    var open := ValidateCreateProduct(d);
    if open.Success? && open.value.price < 0.0 {
      var title := RequiredText(d, "title");
      var price := Number(d, "price", Some(0.0));
      assert price == Failure(FieldError("price", TooSmall(0.0)));
      var none: seq<FieldError> := [];
      assert ErrorsOf(title) == none && ErrorsOf(OptionalText(d, "description")) == none;
      assert ErrorsOf(RequiredText(d, "category")) == none && ErrorsOf(Flag(d, "in_stock", true)) == none;
      assert ErrorsOf(OptionalText(d, "image_url")) == none && ErrorsOf(OptionalText(d, "material")) == none;
      assert ErrorsOf(OptionalTextList(d, "gemstones")) == none;
      assert none + none + ErrorsOf(price) + none + none + none + none + none == [price.error];
    }
  }

  /**
   * The create-order payload and the Order schema accept the same
   * documents, except that the payload also accepts a negative total.
   */
  lemma CreateOrderVersusOrder(d: Document)
    ensures ValidateOrder(d).Success? ==> ValidateCreateOrder(d) == ValidateOrder(d)
    ensures ValidateCreateOrder(d).Success? && ValidateCreateOrder(d).value.totalAmount >= 0.0 ==>
      ValidateOrder(d) == ValidateCreateOrder(d)
    ensures ValidateCreateOrder(d).Success? && ValidateCreateOrder(d).value.totalAmount < 0.0 ==>
      ValidateOrder(d) == Failure([FieldError("total_amount", TooSmall(0.0))])
  {
    var open := ValidateCreateOrder(d);
    if open.Success? && open.value.totalAmount < 0.0 {
      var total := Number(d, "total_amount", Some(0.0));
      assert total == Failure(FieldError("total_amount", TooSmall(0.0)));
      var none: seq<FieldError> := [];
      assert ErrorsOf(RequiredText(d, "customer_name")) == none && ErrorsOf(RequiredText(d, "customer_email")) == none;
      assert ErrorsOf(OptionalText(d, "customer_phone")) == none && ErrorsOf(RequiredText(d, "shipping_address")) == none;
      assert Items(d).Success? && ErrorsOf(OptionalText(d, "notes")) == none;
      assert none + none + none + none + none + ErrorsOf(total) + none == [total.error];
    }
  }

  /** A product with a negative price is accepted by the create-product payload and refused by the Product schema. */
  lemma NegativePriceAccepted()
    ensures var d := map["title" := Str("Ring"), "price" := Num(-1.0), "category" := Str("Rings")];
      ValidateCreateProduct(d).Success? && ValidateProduct(d).Failure?
  {
    var d := map["title" := Str("Ring"), "price" := Num(-1.0), "category" := Str("Rings")];
    assert RequiredText(d, "title").Success? && RequiredText(d, "category").Success?;
    assert Number(d, "price", None).Success?;
  }

  /** An order with a negative total and no items is accepted by the create-order payload and refused by the Order schema. */
  lemma NegativeTotalAccepted()
    ensures var d := map["customer_name" := Str("Ada"), "customer_email" := Str("ada@example.com"),
                         "shipping_address" := Str("1 Main St"), "items" := List([]), "total_amount" := Num(-5.0)];
      ValidateCreateOrder(d).Success? && ValidateOrder(d).Failure?
  {
    var d := map["customer_name" := Str("Ada"), "customer_email" := Str("ada@example.com"),
                 "shipping_address" := Str("1 Main St"), "items" := List([]), "total_amount" := Num(-5.0)];
    assert RequiredText(d, "customer_name").Success? && RequiredText(d, "customer_email").Success?;
    assert RequiredText(d, "shipping_address").Success?;
    assert Items(d) == Success([]);
    assert Number(d, "total_amount", None).Success?;
  }

  // ---------------------------------------------------------------------
  // Mapping stored documents to Products
  // ---------------------------------------------------------------------

  /**
   * The keyword arguments list_products passes to `Product(...)` for a
   * stored document, once `float(...)` has produced the price: each field
   * is the stored value when the key is present (even if null), else its
   * default.
   */
  function ProductArguments(d: Document, price: real): Document
  {
    map[
      "title" := Get(d, "title", Str("")),
      "description" := Get(d, "description", Null),
      "price" := Num(price),
      "category" := Get(d, "category", Str("Other")),
      "in_stock" := Bool(Truthy(Get(d, "in_stock", Bool(true)))),
      "image_url" := Get(d, "image_url", Null),
      "material" := Get(d, "material", Null),
      "gemstones" := Get(d, "gemstones", Null)]
  }

  /** A value an optional text field accepts. */
  predicate OptionalTextOk(v: Value)
  {
    v.Null? || v.Str?
  }

  /** The stored documents the mapper turns into a Product, stated field by field. */
  predicate Mappable(d: Document, parse: string -> Option<real>)
  {
    && Get(d, "title", Str("")).Str?
    && OptionalTextOk(Get(d, "description", Null))
    && ToFloat(Get(d, "price", Num(0.0)), parse).Success?
    && ToFloat(Get(d, "price", Num(0.0)), parse).value >= 0.0
    && Get(d, "category", Str("Other")).Str?
    && OptionalTextOk(Get(d, "image_url", Null))
    && OptionalTextOk(Get(d, "material", Null))
    && (Get(d, "gemstones", Null).Null? ||
        (Get(d, "gemstones", Null).List? && forall k :: 0 <= k < |Get(d, "gemstones", Null).elems| ==> Get(d, "gemstones", Null).elems[k].Str?))
  }

  /**
   * Maps one stored document to a Product. Defaults apply only to absent
   * keys; the optional fields are copied unchanged; the result is a valid
   * Product, or the mapping fails.
   */
  function MapDoc(d: Document, parse: string -> Option<real>): (r: Result<Product, MapFailure>)
    ensures r.Success? <==> Mappable(d, parse)
    ensures r.Success? ==> r.value.Valid()
    ensures r.Success? ==> Get(d, "title", Str("")) == Str(r.value.title)
    ensures r.Success? ==> Get(d, "description", Null) == OptionalTextValue(r.value.description)
    ensures r.Success? ==> ToFloat(Get(d, "price", Num(0.0)), parse) == Success(r.value.price)
    ensures r.Success? ==> Get(d, "category", Str("Other")) == Str(r.value.category)
    ensures r.Success? ==> r.value.inStock == Truthy(Get(d, "in_stock", Bool(true)))
    ensures r.Success? ==> Get(d, "image_url", Null) == OptionalTextValue(r.value.imageUrl)
    ensures r.Success? ==> Get(d, "material", Null) == OptionalTextValue(r.value.material)
    ensures r.Success? ==> Get(d, "gemstones", Null) == OptionalTextListValue(r.value.gemstones)
    ensures ToFloat(Get(d, "price", Num(0.0)), parse).Failure? ==>
      r == Failure(PriceConversion(ToFloat(Get(d, "price", Num(0.0)), parse).error))
  {
    match ToFloat(Get(d, "price", Num(0.0)), parse)
    case Failure(e) => Failure(PriceConversion(e))
    case Success(price) =>
      var args := ProductArguments(d, price);
      assert Flag(args, "in_stock", true).Success?;
      assert Number(args, "price", Some(0.0)).Success? <==> price >= 0.0;
      assert ValidateProduct(args).Success? <==> Mappable(d, parse) by {
        assert RequiredText(args, "title").Success? <==> Get(d, "title", Str("")).Str?;
        assert RequiredText(args, "category").Success? <==> Get(d, "category", Str("Other")).Str?;
        assert OptionalText(args, "description").Success? <==> OptionalTextOk(Get(d, "description", Null));
        assert OptionalText(args, "image_url").Success? <==> OptionalTextOk(Get(d, "image_url", Null));
        assert OptionalText(args, "material").Success? <==> OptionalTextOk(Get(d, "material", Null));
      }
      match ValidateProduct(args)
      case Success(p) => Success(p)
      case Failure(errors) => Failure(InvalidProduct(errors))
  }

  /** For a stored product, the mapper passes exactly the stored fields. */
  lemma StoredArguments(p: Product)
    ensures ProductArguments(DumpProduct(p), p.price) == DumpProduct(p)
  {
    var d := DumpProduct(p);
    var args := ProductArguments(d, p.price);
    assert args.Keys == d.Keys;
    assert args["in_stock"] == d["in_stock"] by { assert Truthy(Bool(p.inStock)) == p.inStock; }
  }

  /** Mapping reads every fully-stored valid product back unchanged. */
  lemma StoredProductReadsBack(p: Product, parse: string -> Option<real>)
    requires p.Valid()
    ensures MapDoc(DumpProduct(p), parse) == Success(p)
  {
    var d := DumpProduct(p);
    assert ToFloat(Get(d, "price", Num(0.0)), parse) == Success(p.price) by { assert d["price"] == Num(p.price); }
    StoredArguments(p);
    ProductRoundTrip(p);
  }

  /** The part of a stored document the mapper reads: the keys of the Product schema. */
  function ProductView(d: Document): (v: Document)
    ensures v.Keys == d.Keys * ProductFields
    ensures forall key :: key in v ==> v[key] == d[key]
  {
    map key | key in d && key in ProductFields :: d[key]
  }

  /**
   * The mapper reads only the Product's own keys: whatever else the store
   * keeps in a document (its id, timestamps) makes no difference.
   */
  lemma MapDocReadsProductFields(d: Document, parse: string -> Option<real>)
    ensures MapDoc(d, parse) == MapDoc(ProductView(d), parse)
  {
    var v := ProductView(d);
    assert Get(v, "title", Str("")) == Get(d, "title", Str(""));
    assert Get(v, "description", Null) == Get(d, "description", Null);
    assert Get(v, "price", Num(0.0)) == Get(d, "price", Num(0.0));
    assert Get(v, "category", Str("Other")) == Get(d, "category", Str("Other"));
    assert Get(v, "in_stock", Bool(true)) == Get(d, "in_stock", Bool(true));
    assert Get(v, "image_url", Null) == Get(d, "image_url", Null);
    assert Get(v, "material", Null) == Get(d, "material", Null);
    assert Get(v, "gemstones", Null) == Get(d, "gemstones", Null);
    var price := ToFloat(Get(d, "price", Num(0.0)), parse);
    if price.Success? {
      assert ProductArguments(v, price.value) == ProductArguments(d, price.value);
    }
  }

  /**
   * A stored document whose Product keys hold a valid product's dump, with
   * any other keys besides, maps back to that product.
   */
  lemma StoredDocumentReadsBack(p: Product, stored: Document, parse: string -> Option<real>)
    requires p.Valid()
    requires ProductView(stored) == DumpProduct(p)
    ensures MapDoc(stored, parse) == Success(p)
  {
    MapDocReadsProductFields(stored, parse);
    StoredProductReadsBack(p, parse);
  }

  /** A stored product with a negative price cannot be mapped. */
  lemma NegativePriceUnmappable(p: Product, parse: string -> Option<real>)
    requires p.price < 0.0
    ensures MapDoc(DumpProduct(p), parse).Failure?
  {
    var d := DumpProduct(p);
    assert ToFloat(Get(d, "price", Num(0.0)), parse) == Success(p.price);
  }

  /** A document holding none of the product's keys maps to the defaults. */
  lemma EmptyDocumentDefaults(parse: string -> Option<real>)
    ensures MapDoc(map[], parse) == Success(Product("", None, 0.0, "Other", true, None, None, None))
  {
    var d: Document := map[];
    assert Mappable(d, parse);
    var p := MapDoc(d, parse).value;
    OptionalTextValueInjective(p.description, None);
    OptionalTextValueInjective(p.imageUrl, None);
    OptionalTextValueInjective(p.material, None);
    assert p.gemstones == None;
  }

  /** `products` are the mappings of the first documents of `docs`, in order. */
  predicate MappedPrefix(docs: seq<Document>, products: seq<Product>, parse: string -> Option<real>)
  {
    |products| <= |docs| && forall k :: 0 <= k < |products| ==> MapDoc(docs[k], parse) == Success(products[k])
  }

  /** Mapping one more document extends the mapped prefix by its product. */
  lemma MappedPrefixGrows(docs: seq<Document>, products: seq<Product>, p: Product, parse: string -> Option<real>)
    requires MappedPrefix(docs, products, parse) && |products| < |docs|
    requires MapDoc(docs[|products|], parse) == Success(p)
    ensures MappedPrefix(docs, products + [p], parse)
  {
    var next := products + [p];
    forall k | 0 <= k < |next| ensures MapDoc(docs[k], parse) == Success(next[k]) {
      if k < |products| {
        assert next[k] == products[k];
      } else {
        assert k == |products| && next[k] == p;
      }
    }
  }

  // ---------------------------------------------------------------------
  // GET /api/products
  // ---------------------------------------------------------------------

  /**
   * Maps the documents the store returned, in order, stopping at the first
   * one that cannot be mapped: its failure is the result, and no partial
   * list is returned.
   */
  method MapDocuments(docs: seq<Document>, parse: string -> Option<real>) returns (r: Result<seq<Product>, MapFailure>)
    ensures r.Success? <==> forall k :: 0 <= k < |docs| ==> MapDoc(docs[k], parse).Success?
    ensures r.Success? ==> |r.value| == |docs| && MappedPrefix(docs, r.value, parse)
    ensures r.Success? ==> forall k :: 0 <= k < |r.value| ==> r.value[k].Valid()
    ensures r.Failure? ==>
      exists k :: 0 <= k < |docs| && MapDoc(docs[k], parse) == Failure(r.error) &&
        forall j :: 0 <= j < k ==> MapDoc(docs[j], parse).Success?
  {
    var products: seq<Product> := [];
    for i := 0 to |docs|
      invariant |products| == i
      invariant MappedPrefix(docs, products, parse)
    {
      var mapped := MapDoc(docs[i], parse);
      if mapped.Failure? {
        return Failure(mapped.error);
      }
      MappedPrefixGrows(docs, products, mapped.value, parse);
      products := products + [mapped.value];
    }
    return Success(products);
  }

  /**
   * Lists products: builds the query filter, asks the store for at most
   * `limit` documents of the product collection matching it, and maps
   * each document in order. A store failure, or the first document that
   * cannot be mapped, fails the whole request with status 500: no partial
   * list is returned.
   */
  method ListProducts(
    category: Option<string>,
    q: Option<string>,
    limit: int,
    find: (string, Filter, int) -> Result<seq<Document>, string>,
    parse: string -> Option<real>)
    returns (r: Result<seq<Product>, HttpError>)
    ensures var found := find(ProductCollection, QueryFilter(category, q), limit);
      found.Failure? ==> r == Failure(HttpError(ServerError, StoreFailed(found.error)))
    ensures var found := find(ProductCollection, QueryFilter(category, q), limit);
      found.Success? ==> (r.Success? <==> forall k :: 0 <= k < |found.value| ==> MapDoc(found.value[k], parse).Success?)
    ensures var found := find(ProductCollection, QueryFilter(category, q), limit);
      r.Success? ==> found.Success? && |r.value| == |found.value| && MappedPrefix(found.value, r.value, parse)
    ensures var found := find(ProductCollection, QueryFilter(category, q), limit);
      found.Success? && r.Failure? ==>
        exists k :: 0 <= k < |found.value| && MapDoc(found.value[k], parse).Failure? &&
          (forall j :: 0 <= j < k ==> MapDoc(found.value[j], parse).Success?) &&
          r.error == HttpError(ServerError, Unmappable(MapDoc(found.value[k], parse).error))
    ensures r.Success? ==> forall k :: 0 <= k < |r.value| ==> r.value[k].Valid()
  {
    var filt: Filter := map[];
    if Present(category) {
      filt := filt[CategoryKey := Equals(category.value)];
    }
    if Present(q) {
      filt := filt[OrKey := AnyOf([RegexCondition("title", q.value, "i"), RegexCondition("description", q.value, "i")])];
    }
    assert filt == QueryFilter(category, q);
    var found := find(ProductCollection, filt, limit);
    if found.Failure? {
      return Failure(HttpError(ServerError, StoreFailed(found.error)));
    }
    var mapped := MapDocuments(found.value, parse);
    if mapped.Failure? {
      return Failure(HttpError(ServerError, Unmappable(mapped.error)));
    }
    return Success(mapped.value);
  }

  // ---------------------------------------------------------------------
  // POST /api/products and POST /api/orders
  // ---------------------------------------------------------------------

  /**
   * Creates a product: an invalid payload is refused with status 422
   * before the store is touched; a valid one is stored in the product
   * collection as its dump, and the response is `{"id": <id>}`, or status
   * 500 with the store's message.
   */
  function CreateProduct(payload: Document, insert: (string, Document) -> Result<string, string>): (r: Result<Value, HttpError>)
    ensures ValidateCreateProduct(payload).Failure? ==>
      r == Failure(HttpError(Unprocessable, Rejected(ValidateCreateProduct(payload).error)))
    ensures r.Success? <==> (ValidateCreateProduct(payload).Success? &&
      insert(ProductCollection, DumpProduct(ValidateCreateProduct(payload).value)).Success?)
    ensures r.Success? ==>
      r.value == Obj(map["id" := Str(insert(ProductCollection, DumpProduct(ValidateCreateProduct(payload).value)).value)])
    ensures ValidateCreateProduct(payload).Success? && r.Failure? ==>
      r.error == HttpError(ServerError, StoreFailed(insert(ProductCollection, DumpProduct(ValidateCreateProduct(payload).value)).error))
  {
    match ValidateCreateProduct(payload)
    case Failure(errors) => Failure(HttpError(Unprocessable, Rejected(errors)))
    case Success(product) =>
      match insert(ProductCollection, DumpProduct(product))
      case Success(id) => Success(Obj(map["id" := Str(id)]))
      case Failure(message) => Failure(HttpError(ServerError, StoreFailed(message)))
  }

  /**
   * Creates an order: an invalid payload is refused with status 422 before
   * the store is touched; a valid one is stored in the order collection as
   * its dump, whose total is the submitted one, unchecked against the
   * items, and the response is `{"id": <id>, "status": "received"}`, or
   * status 500 with the store's message.
   */
  function CreateOrder(payload: Document, insert: (string, Document) -> Result<string, string>): (r: Result<Value, HttpError>)
    ensures ValidateCreateOrder(payload).Failure? ==>
      r == Failure(HttpError(Unprocessable, Rejected(ValidateCreateOrder(payload).error)))
    ensures r.Success? <==> (ValidateCreateOrder(payload).Success? &&
      insert(OrderCollection, DumpOrder(ValidateCreateOrder(payload).value)).Success?)
    ensures r.Success? ==>
      r.value == Obj(map["id" := Str(insert(OrderCollection, DumpOrder(ValidateCreateOrder(payload).value)).value),
                         "status" := Str(ReceivedStatus)])
    ensures ValidateCreateOrder(payload).Success? ==>
      "total_amount" in payload && DumpOrder(ValidateCreateOrder(payload).value)["total_amount"] == payload["total_amount"]
    ensures ValidateCreateOrder(payload).Success? && r.Failure? ==>
      r.error == HttpError(ServerError, StoreFailed(insert(OrderCollection, DumpOrder(ValidateCreateOrder(payload).value)).error))
  {
    match ValidateCreateOrder(payload)
    case Failure(errors) => Failure(HttpError(Unprocessable, Rejected(errors)))
    case Success(order) =>
      match insert(OrderCollection, DumpOrder(order))
      case Success(id) => Success(Obj(map["id" := Str(id), "status" := Str(ReceivedStatus)]))
      case Failure(message) => Failure(HttpError(ServerError, StoreFailed(message)))
  }

  /**
   * A product created with a negative price is stored, but the stored
   * document, whatever keys the store adds to it, cannot be mapped back:
   * a listing whose store answer contains it fails with status 500.
   */
  lemma NegativePriceBreaksListing(payload: Document, stored: Document, parse: string -> Option<real>)
    requires ValidateCreateProduct(payload).Success?
    requires ValidateCreateProduct(payload).value.price < 0.0
    requires ProductView(stored) == DumpProduct(ValidateCreateProduct(payload).value)
    ensures MapDoc(stored, parse).Failure?
  {
    MapDocReadsProductFields(stored, parse);
    NegativePriceUnmappable(ValidateCreateProduct(payload).value, parse);
  }

  /**
   * A product created with a non-negative price is read back unchanged by
   * the listing's mapper, whatever keys the store adds to it.
   */
  lemma CreatedProductListsBack(payload: Document, stored: Document, parse: string -> Option<real>)
    requires ValidateCreateProduct(payload).Success?
    requires ValidateCreateProduct(payload).value.price >= 0.0
    requires ProductView(stored) == DumpProduct(ValidateCreateProduct(payload).value)
    ensures MapDoc(stored, parse) == Success(ValidateCreateProduct(payload).value)
  {
    StoredDocumentReadsBack(ValidateCreateProduct(payload).value, stored, parse);
  }

  /**
   * Creating `{title: "Gold Ring", price: 199.99, category: "Rings"}` stores
   * a product that is in stock, that the listing maps back unchanged, and
   * that the filter for category "Rings" selects.
   */
  lemma GoldRingEndToEnd(parse: string -> Option<real>)
    ensures var payload := map["title" := Str("Gold Ring"), "price" := Num(199.99), "category" := Str("Rings")];
      var created := ValidateCreateProduct(payload);
      && created == Success(Product("Gold Ring", None, 199.99, "Rings", true, None, None, None))
      && MapDoc(DumpProduct(created.value), parse) == Success(created.value)
      && Matches(QueryFilter(Some("Rings"), None), DumpProduct(created.value))
  {
    var payload := map["title" := Str("Gold Ring"), "price" := Num(199.99), "category" := Str("Rings")];
    assert RequiredText(payload, "title").Success? && RequiredText(payload, "category").Success?;
    assert Number(payload, "price", None).Success?;
    var p := ValidateCreateProduct(payload).value;
    OptionalTextValueInjective(p.description, None);
    OptionalTextValueInjective(p.imageUrl, None);
    OptionalTextValueInjective(p.material, None);
    assert p.gemstones == None;
    assert p == Product("Gold Ring", None, 199.99, "Rings", true, None, None, None);
    StoredProductReadsBack(p, parse);
    QueryFilterSemantics(Some("Rings"), None, DumpProduct(p));
  }
}
