/**
 * The record schemas of the store: User, Product, OrderItem and Order.
 *
 * Each schema is a list of fields, each with a type, a required or
 * optional status, a default and possibly a lower bound. Validating a
 * document against a schema either yields the typed record, with the
 * defaults filled in for absent fields, or fails with one error per
 * offending field. `Dump*` is the inverse direction: the document a record
 * is stored as, with every field present and absent optionals as null.
 * Keys a schema does not declare are ignored.
 */
module Schemas {
  import opened Wrappers
  import opened Documents

  /** What is wrong with one field. */
  datatype Problem =
    | Missing                                          // required, no default, and absent
    | WrongType                                        // present (possibly null) with a value of the wrong type
    | TooSmall(bound: real)                            // a number below the field's lower bound
    | ItemNotObject(index: nat)                        // a list element that should be a record is not one
    | InvalidItem(index: nat, errors: seq<FieldError>) // a list element fails its own schema

  datatype FieldError = FieldError(field: string, problem: Problem)

  /** The field names each schema declares, as they appear in documents. */
  const UserFields: set<string> := {"name", "email", "address", "phone", "is_active"}
  const ProductFields: set<string> :=
    {"title", "description", "price", "category", "in_stock", "image_url", "material", "gemstones"}
  const OrderItemFields: set<string> := {"product_id", "quantity", "unit_price", "title"}
  const OrderFields: set<string> :=
    {"customer_name", "customer_email", "customer_phone", "shipping_address", "items", "total_amount", "notes"}

  datatype User = User(
    name: string,
    email: string,
    address: Option<string>,
    phone: Option<string>,
    isActive: bool)

  datatype Product = Product(
    title: string,
    description: Option<string>,
    price: real,
    category: string,
    inStock: bool,
    imageUrl: Option<string>,
    material: Option<string>,
    gemstones: Option<seq<string>>)
  {
    /** The only constraint of the schema beyond the field types. */
    predicate Valid() { price >= 0.0 }
  }

  datatype OrderItem = OrderItem(
    productId: string,
    quantity: int,
    unitPrice: real,
    title: string)
  {
    predicate Valid() { quantity >= 1 && unitPrice >= 0.0 }
  }

  datatype Order = Order(
    customerName: string,
    customerEmail: string,
    customerPhone: Option<string>,
    shippingAddress: string,
    items: seq<OrderItem>,
    totalAmount: real,
    notes: Option<string>)
  {
    /** Note that nothing requires `items` to be non-empty. */
    predicate Valid()
    {
      totalAmount >= 0.0 && forall k :: 0 <= k < |items| ==> items[k].Valid()
    }
  }

  // ---------------------------------------------------------------------
  // Field decoders: one per kind of field declaration.
  // ---------------------------------------------------------------------

  /** A required text field without default. */
  function RequiredText(d: Document, key: string): (r: Result<string, FieldError>)
    ensures key !in d ==> r == Failure(FieldError(key, Missing))
    ensures key in d ==> (r.Success? <==> d[key].Str?)
    ensures r.Success? ==> key in d && d[key] == Str(r.value)
    ensures key in d && r.Failure? ==> r.error == FieldError(key, WrongType)
  {
    if key !in d then Failure(FieldError(key, Missing))
    else if d[key].Str? then Success(d[key].s)
    else Failure(FieldError(key, WrongType))
  }

  /** How an optional text is stored: the text, or null. */
  function OptionalTextValue(o: Option<string>): Value
  {
    if o.Some? then Str(o.value) else Null
  }

  /** An optional text field with default null: absent and null both give None. */
  function OptionalText(d: Document, key: string): (r: Result<Option<string>, FieldError>)
    ensures r.Success? <==> Get(d, key, Null).Null? || Get(d, key, Null).Str?
    ensures r.Success? ==> OptionalTextValue(r.value) == Get(d, key, Null)
    ensures r.Failure? ==> r.error == FieldError(key, WrongType)
  {
    var v := Get(d, key, Null);
    if v.Null? then Success(None)
    else if v.Str? then Success(Some(v.s))
    else Failure(FieldError(key, WrongType))
  }

  /** The texts of a list whose every element is a text; None if some element is not. */
  function Texts(vs: seq<Value>): (r: Option<seq<string>>)
    ensures r.Some? <==> forall k :: 0 <= k < |vs| ==> vs[k].Str?
    ensures r.Some? ==> |r.value| == |vs| && forall k :: 0 <= k < |vs| ==> vs[k] == Str(r.value[k])
  {
    if vs == [] then Some([])
    else if vs[0].Str? && Texts(vs[1..]).Some? then Some([vs[0].s] + Texts(vs[1..]).value)
    else None
  }

  /** Distinct optional texts are stored differently. */
  lemma OptionalTextValueInjective(a: Option<string>, b: Option<string>)
    requires OptionalTextValue(a) == OptionalTextValue(b)
    ensures a == b
  {
  }

  /** How a list of texts is stored. */
  function TextValues(ss: seq<string>): (vs: seq<Value>)
    ensures |vs| == |ss| && forall k :: 0 <= k < |ss| ==> vs[k] == Str(ss[k])
  {
    seq(|ss|, k requires 0 <= k < |ss| => Str(ss[k]))
  }

  /** Reading back a stored list of texts gives the texts. */
  lemma TextsOfTextValues(ss: seq<string>)
    ensures Texts(TextValues(ss)) == Some(ss)
  {
    var r := Texts(TextValues(ss));
    assert r.Some?;
    assert |r.value| == |ss|;
    forall k | 0 <= k < |ss| ensures r.value[k] == ss[k] {
      assert Str(r.value[k]) == TextValues(ss)[k] == Str(ss[k]);
    }
    assert r.value == ss;
  }

  /** How an optional list of texts is stored: the list, or null. */
  function OptionalTextListValue(o: Option<seq<string>>): Value
  {
    if o.Some? then List(TextValues(o.value)) else Null
  }

  /** An optional list-of-text field with default null. */
  function OptionalTextList(d: Document, key: string): (r: Result<Option<seq<string>>, FieldError>)
    ensures r.Success? <==> Get(d, key, Null).Null? || (Get(d, key, Null).List? && Texts(Get(d, key, Null).elems).Some?)
    ensures r.Success? ==> OptionalTextListValue(r.value) == Get(d, key, Null)
    ensures r.Failure? ==> r.error == FieldError(key, WrongType)
  {
    var v := Get(d, key, Null);
    if v.Null? then Success(None)
    else if v.List? && Texts(v.elems).Some? then
      var ss := Texts(v.elems).value;
      assert TextValues(ss) == v.elems;
      Success(Some(ss))
    else Failure(FieldError(key, WrongType))
  }

  /** A required number field without default, with an optional lower bound (`ge`). */
  function Number(d: Document, key: string, bound: Option<real>): (r: Result<real, FieldError>)
    ensures key !in d ==> r == Failure(FieldError(key, Missing))
    ensures r.Success? ==> key in d && d[key] == Num(r.value)
    ensures r.Success? && bound.Some? ==> r.value >= bound.value
    ensures key in d && d[key].Num? && (bound.None? || d[key].n >= bound.value) ==> r.Success?
    ensures key in d && d[key].Num? && bound.Some? && d[key].n < bound.value ==>
      r == Failure(FieldError(key, TooSmall(bound.value)))
    ensures key in d && !d[key].Num? ==> r == Failure(FieldError(key, WrongType))
  {
    if key !in d then Failure(FieldError(key, Missing))
    else if !d[key].Num? then Failure(FieldError(key, WrongType))
    else if bound.Some? && d[key].n < bound.value then Failure(FieldError(key, TooSmall(bound.value)))
    else Success(d[key].n)
  }

  /** A number with no fractional part, as an integer field accepts it. */
  predicate IsIntegral(n: real)
  {
    n.Floor as real == n
  }

  /**
   * An integer field with a default and a lower bound. The default is used
   * as it is when the key is absent: it is not checked against the bound.
   */
  function Integer(d: Document, key: string, default: int, bound: int): (r: Result<int, FieldError>)
    ensures key !in d ==> r == Success(default)
    ensures key in d && r.Success? ==> d[key] == Num(r.value as real) && r.value >= bound
    ensures key in d && d[key].Num? && IsIntegral(d[key].n) && d[key].n >= bound as real ==> r.Success?
    ensures key in d && d[key].Num? && IsIntegral(d[key].n) && d[key].n < bound as real ==>
      r == Failure(FieldError(key, TooSmall(bound as real)))
    ensures key in d && !(d[key].Num? && IsIntegral(d[key].n)) ==> r == Failure(FieldError(key, WrongType))
  {
    if key !in d then Success(default)
    else if !(d[key].Num? && IsIntegral(d[key].n)) then Failure(FieldError(key, WrongType))
    else if d[key].n < bound as real then Failure(FieldError(key, TooSmall(bound as real)))
    else Success(d[key].n.Floor)
  }

  /** A boolean field with a default. */
  function Flag(d: Document, key: string, default: bool): (r: Result<bool, FieldError>)
    ensures r.Success? <==> Get(d, key, Bool(default)).Bool?
    ensures r.Success? ==> Get(d, key, Bool(default)) == Bool(r.value)
    ensures r.Failure? ==> r.error == FieldError(key, WrongType)
  {
    var v := Get(d, key, Bool(default));
    if v.Bool? then Success(v.b) else Failure(FieldError(key, WrongType))
  }

  // ---------------------------------------------------------------------
  // User
  // ---------------------------------------------------------------------

  /** Validates a document against the User schema. */
  function ValidateUser(d: Document): (r: Result<User, seq<FieldError>>)
    ensures r.Success? <==>
      RequiredText(d, "name").Success? && RequiredText(d, "email").Success? &&
      OptionalText(d, "address").Success? && OptionalText(d, "phone").Success? &&
      Flag(d, "is_active", true).Success?
    ensures r.Failure? ==> r.error != []
    ensures "name" !in d ==> r.Failure? && FieldError("name", Missing) in r.error
    ensures "email" !in d ==> r.Failure? && FieldError("email", Missing) in r.error
    ensures r.Success? ==> "name" in d && d["name"] == Str(r.value.name)
    ensures r.Success? ==> "email" in d && d["email"] == Str(r.value.email)
    ensures r.Success? ==> Get(d, "address", Null) == OptionalTextValue(r.value.address)
    ensures r.Success? ==> Get(d, "phone", Null) == OptionalTextValue(r.value.phone)
    ensures r.Success? ==> Get(d, "is_active", Bool(true)) == Bool(r.value.isActive)
  {
    var name := RequiredText(d, "name");
    var email := RequiredText(d, "email");
    var address := OptionalText(d, "address");
    var phone := OptionalText(d, "phone");
    var isActive := Flag(d, "is_active", true);
    var errors := ErrorsOf(name) + ErrorsOf(email) + ErrorsOf(address) + ErrorsOf(phone) + ErrorsOf(isActive);
    if errors == [] then
      Success(User(name.value, email.value, address.value, phone.value, isActive.value))
    else
      Failure(errors)
  }

  /** The document a User is stored as. */
  function DumpUser(u: User): (d: Document)
    ensures d.Keys == UserFields
  {
    map[
      "name" := Str(u.name),
      "email" := Str(u.email),
      "address" := OptionalTextValue(u.address),
      "phone" := OptionalTextValue(u.phone),
      "is_active" := Bool(u.isActive)]
  }

  /** Every User survives being stored and validated again. */
  lemma UserRoundTrip(u: User)
    ensures ValidateUser(DumpUser(u)) == Success(u)
  {
    var r := ValidateUser(DumpUser(u));
    assert r.Success?;
    assert OptionalTextValue(r.value.address) == OptionalTextValue(u.address);
    assert OptionalTextValue(r.value.phone) == OptionalTextValue(u.phone);
  }

  /** A user given only a name and an email is active and has no address or phone. */
  lemma UserDefaults()
    ensures ValidateUser(map["name" := Str("Ada"), "email" := Str("ada@example.com")]) ==
      Success(User("Ada", "ada@example.com", None, None, true))
  {
    var d := map["name" := Str("Ada"), "email" := Str("ada@example.com")];
    assert RequiredText(d, "name").Success? && RequiredText(d, "email").Success?;
    var u := ValidateUser(d).value;
    OptionalTextValueInjective(u.address, None);
    OptionalTextValueInjective(u.phone, None);
  }

  // ---------------------------------------------------------------------
  // Product
  // ---------------------------------------------------------------------

  /**
   * The Product field list with `price` bounded below by `priceBound`:
   * `Some(0.0)` for the Product schema, `None` for the create-product
   * payload, whose price has no bound.
   */
  function ProductRecord(d: Document, priceBound: Option<real>): (r: Result<Product, seq<FieldError>>)
    ensures r.Success? <==>
      RequiredText(d, "title").Success? && OptionalText(d, "description").Success? &&
      Number(d, "price", priceBound).Success? && RequiredText(d, "category").Success? &&
      Flag(d, "in_stock", true).Success? && OptionalText(d, "image_url").Success? &&
      OptionalText(d, "material").Success? && OptionalTextList(d, "gemstones").Success?
    ensures r.Failure? ==> r.error != []
    ensures "title" !in d ==> r.Failure? && FieldError("title", Missing) in r.error
    ensures "price" !in d ==> r.Failure? && FieldError("price", Missing) in r.error
    ensures "category" !in d ==> r.Failure? && FieldError("category", Missing) in r.error
    ensures priceBound.Some? && "price" in d && d["price"].Num? && d["price"].n < priceBound.value ==>
      r.Failure? && FieldError("price", TooSmall(priceBound.value)) in r.error
    ensures r.Success? ==> "title" in d && d["title"] == Str(r.value.title)
    ensures r.Success? ==> Get(d, "description", Null) == OptionalTextValue(r.value.description)
    ensures r.Success? ==> "price" in d && d["price"] == Num(r.value.price)
    ensures r.Success? && priceBound.Some? ==> r.value.price >= priceBound.value
    ensures r.Success? ==> "category" in d && d["category"] == Str(r.value.category)
    ensures r.Success? ==> Get(d, "in_stock", Bool(true)) == Bool(r.value.inStock)
    ensures r.Success? ==> Get(d, "image_url", Null) == OptionalTextValue(r.value.imageUrl)
    ensures r.Success? ==> Get(d, "material", Null) == OptionalTextValue(r.value.material)
    ensures r.Success? ==> Get(d, "gemstones", Null) == OptionalTextListValue(r.value.gemstones)
  {
    var title := RequiredText(d, "title");
    var description := OptionalText(d, "description");
    var price := Number(d, "price", priceBound);
    var category := RequiredText(d, "category");
    var inStock := Flag(d, "in_stock", true);
    var imageUrl := OptionalText(d, "image_url");
    var material := OptionalText(d, "material");
    var gemstones := OptionalTextList(d, "gemstones");
    var errors :=
      ErrorsOf(title) + ErrorsOf(description) + ErrorsOf(price) + ErrorsOf(category) +
      ErrorsOf(inStock) + ErrorsOf(imageUrl) + ErrorsOf(material) + ErrorsOf(gemstones);
    if errors == [] then
      Success(Product(title.value, description.value, price.value, category.value,
                      inStock.value, imageUrl.value, material.value, gemstones.value))
    else
      Failure(errors)
  }

  /** Validates a document against the Product schema; a validated product is valid. */
  function ValidateProduct(d: Document): (r: Result<Product, seq<FieldError>>)
    ensures r.Success? ==> r.value.Valid()
    ensures "price" in d && d["price"].Num? && d["price"].n < 0.0 ==>
      r.Failure? && FieldError("price", TooSmall(0.0)) in r.error
  {
    ProductRecord(d, Some(0.0))
  }

  /** The document a Product is stored as. */
  function DumpProduct(p: Product): (d: Document)
    ensures d.Keys == ProductFields
  {
    map[
      "title" := Str(p.title),
      "description" := OptionalTextValue(p.description),
      "price" := Num(p.price),
      "category" := Str(p.category),
      "in_stock" := Bool(p.inStock),
      "image_url" := OptionalTextValue(p.imageUrl),
      "material" := OptionalTextValue(p.material),
      "gemstones" := OptionalTextListValue(p.gemstones)]
  }

  /**
   * Storing a product and validating the stored document against a price
   * bound gives the product back exactly when its price respects the bound.
   */
  lemma {:induction false} ProductRecordRoundTrip(p: Product, priceBound: Option<real>)
    ensures ProductRecord(DumpProduct(p), priceBound) ==
      if priceBound.None? || p.price >= priceBound.value then Success(p)
      else Failure([FieldError("price", TooSmall(priceBound.value))])
  {
    var d := DumpProduct(p);
    assert RequiredText(d, "title") == Success(p.title);
    assert OptionalText(d, "description") == Success(p.description);
    assert RequiredText(d, "category") == Success(p.category);
    assert Flag(d, "in_stock", true) == Success(p.inStock);
    assert OptionalText(d, "image_url") == Success(p.imageUrl);
    assert OptionalText(d, "material") == Success(p.material);
    if p.gemstones.Some? {
      TextsOfTextValues(p.gemstones.value);
    }
    assert OptionalTextList(d, "gemstones") == Success(p.gemstones);
    var price := Number(d, "price", priceBound);
    if priceBound.None? || p.price >= priceBound.value {
      assert price == Success(p.price);
      assert ProductRecord(d, priceBound) == Success(p);
    } else {
      assert price == Failure(FieldError("price", TooSmall(priceBound.value)));
      var none: seq<FieldError> := [];
      assert ErrorsOf(RequiredText(d, "title")) == none && ErrorsOf(OptionalText(d, "description")) == none;
      assert ErrorsOf(RequiredText(d, "category")) == none && ErrorsOf(Flag(d, "in_stock", true)) == none;
      assert ErrorsOf(OptionalText(d, "image_url")) == none && ErrorsOf(OptionalText(d, "material")) == none;
      assert ErrorsOf(OptionalTextList(d, "gemstones")) == none;
      assert none + none + ErrorsOf(price) + none + none + none + none + none == [price.error];
      assert ProductRecord(d, priceBound) == Failure([FieldError("price", TooSmall(priceBound.value))]);
    }
  }

  /** A product survives being stored and validated again exactly when it is valid. */
  lemma ProductRoundTrip(p: Product)
    ensures ValidateProduct(DumpProduct(p)) ==
      if p.Valid() then Success(p) else Failure([FieldError("price", TooSmall(0.0))])
  {
    ProductRecordRoundTrip(p, Some(0.0));
  }

  // ---------------------------------------------------------------------
  // OrderItem
  // ---------------------------------------------------------------------

  /** Validates a document against the OrderItem schema; `quantity` defaults to 1. */
  function ValidateOrderItem(d: Document): (r: Result<OrderItem, seq<FieldError>>)
    ensures r.Success? <==>
      RequiredText(d, "product_id").Success? && Integer(d, "quantity", 1, 1).Success? &&
      Number(d, "unit_price", Some(0.0)).Success? && RequiredText(d, "title").Success?
    ensures r.Success? ==> r.value.Valid()
    ensures r.Failure? ==> r.error != []
    ensures "product_id" !in d ==> r.Failure? && FieldError("product_id", Missing) in r.error
    ensures "unit_price" !in d ==> r.Failure? && FieldError("unit_price", Missing) in r.error
    ensures "title" !in d ==> r.Failure? && FieldError("title", Missing) in r.error
    ensures "quantity" in d && d["quantity"].Num? && IsIntegral(d["quantity"].n) && d["quantity"].n < 1.0 ==>
      r.Failure? && FieldError("quantity", TooSmall(1.0)) in r.error
    ensures "unit_price" in d && d["unit_price"].Num? && d["unit_price"].n < 0.0 ==>
      r.Failure? && FieldError("unit_price", TooSmall(0.0)) in r.error
    ensures r.Success? ==> "product_id" in d && d["product_id"] == Str(r.value.productId)
    ensures r.Success? ==> Get(d, "quantity", Num(1.0)) == Num(r.value.quantity as real)
    ensures r.Success? ==> "unit_price" in d && d["unit_price"] == Num(r.value.unitPrice)
    ensures r.Success? ==> "title" in d && d["title"] == Str(r.value.title)
  {
    var productId := RequiredText(d, "product_id");
    var quantity := Integer(d, "quantity", 1, 1);
    var unitPrice := Number(d, "unit_price", Some(0.0));
    var title := RequiredText(d, "title");
    var errors := ErrorsOf(productId) + ErrorsOf(quantity) + ErrorsOf(unitPrice) + ErrorsOf(title);
    if errors == [] then
      Success(OrderItem(productId.value, quantity.value, unitPrice.value, title.value))
    else
      Failure(errors)
  }

  /** The document an OrderItem is stored as. */
  function DumpOrderItem(i: OrderItem): (d: Document)
    ensures d.Keys == OrderItemFields
  {
    map[
      "product_id" := Str(i.productId),
      "quantity" := Num(i.quantity as real),
      "unit_price" := Num(i.unitPrice),
      "title" := Str(i.title)]
  }

  /** An order item survives being stored and validated again exactly when it is valid. */
  lemma OrderItemRoundTrip(i: OrderItem)
    ensures ValidateOrderItem(DumpOrderItem(i)).Success? <==> i.Valid()
    ensures i.Valid() ==> ValidateOrderItem(DumpOrderItem(i)) == Success(i)
  {
    var d := DumpOrderItem(i);
    assert IsIntegral(i.quantity as real);
    if i.Valid() {
      var r := ValidateOrderItem(d);
      assert r.Success?;
      assert r.value.quantity as real == i.quantity as real;
    }
  }

  /**
   * An item without a quantity gets quantity 1; a quantity of 0 is refused
   * and a quantity of 1 accepted.
   */
  lemma QuantityBoundary()
    ensures var item := map["product_id" := Str("p1"), "unit_price" := Num(10.0), "title" := Str("Ring")];
      && ValidateOrderItem(item) == Success(OrderItem("p1", 1, 10.0, "Ring"))
      && ValidateOrderItem(item["quantity" := Num(0.0)]).Failure?
      && ValidateOrderItem(item["quantity" := Num(1.0)]) == Success(OrderItem("p1", 1, 10.0, "Ring"))
  {
    var item := map["product_id" := Str("p1"), "unit_price" := Num(10.0), "title" := Str("Ring")];
    assert RequiredText(item, "product_id").Success? && RequiredText(item, "title").Success?;
    assert Number(item, "unit_price", Some(0.0)).Success?;
    var zero := item["quantity" := Num(0.0)];
    assert IsIntegral(0.0);
    assert Integer(zero, "quantity", 1, 1).Failure?;
    var one := item["quantity" := Num(1.0)];
    assert IsIntegral(1.0);
    assert RequiredText(one, "product_id").Success? && RequiredText(one, "title").Success?;
    assert Number(one, "unit_price", Some(0.0)).Success?;
    assert Integer(one, "quantity", 1, 1) == Success(1);
  }

  /** One element of an order's item list: it must be a record that is a valid OrderItem. */
  function DecodeItem(v: Value, index: nat): (r: Result<OrderItem, FieldError>)
    ensures r.Success? <==> v.Obj? && ValidateOrderItem(v.fields).Success?
    ensures r.Success? ==> ValidateOrderItem(v.fields) == Success(r.value)
  {
    if !v.Obj? then Failure(FieldError("items", ItemNotObject(index)))
    else
      match ValidateOrderItem(v.fields)
      case Success(item) => Success(item)
      case Failure(errors) => Failure(FieldError("items", InvalidItem(index, errors)))
  }

  /** The errors of the failing decodings, in order. */
  function FailedItems(results: seq<Result<OrderItem, FieldError>>): (es: seq<FieldError>)
    ensures (exists k :: 0 <= k < |results| && results[k].Failure?) ==> es != []
  {
    if results == [] then []
    else
      assert forall k :: 1 <= k < |results| ==> results[1..][k - 1] == results[k];
      ErrorsOf(results[0]) + FailedItems(results[1..])
  }

  /**
   * The elements of an item list, each decoded at its position: all of
   * them, or the errors of every failing element, in order.
   */
  function DecodeItems(vs: seq<Value>): (r: Result<seq<OrderItem>, seq<FieldError>>)
    ensures r.Success? <==> forall k :: 0 <= k < |vs| ==> DecodeItem(vs[k], k).Success?
    ensures r.Success? ==> |r.value| == |vs|
    ensures r.Success? ==> forall k :: 0 <= k < |vs| ==> DecodeItem(vs[k], k) == Success(r.value[k])
    ensures r.Failure? ==> r.error != []
  {
    if forall k :: 0 <= k < |vs| ==> DecodeItem(vs[k], k).Success? then
      Success(seq(|vs|, k requires 0 <= k < |vs| => DecodeItem(vs[k], k).value))
    else
      var results := seq(|vs|, k requires 0 <= k < |vs| => DecodeItem(vs[k], k));
      assert exists j :: 0 <= j < |results| && results[j].Failure? by {
        var k :| 0 <= k < |vs| && DecodeItem(vs[k], k).Failure?;
        assert results[k].Failure?;
      }
      Failure(FailedItems(results))
  }

  /** The required `items` field: a list of OrderItem records, possibly empty. */
  function Items(d: Document): (r: Result<seq<OrderItem>, seq<FieldError>>)
    ensures "items" !in d ==> r == Failure([FieldError("items", Missing)])
    ensures "items" in d && !d["items"].List? ==> r == Failure([FieldError("items", WrongType)])
    ensures r.Success? <==>
      "items" in d && d["items"].List? &&
      forall k :: 0 <= k < |d["items"].elems| ==> d["items"].elems[k].Obj? && ValidateOrderItem(d["items"].elems[k].fields).Success?
    ensures r.Success? ==> "items" in d && d["items"].List? && |r.value| == |d["items"].elems|
    ensures r.Success? ==> forall k :: 0 <= k < |r.value| ==>
      d["items"].elems[k].Obj? && ValidateOrderItem(d["items"].elems[k].fields) == Success(r.value[k])
    ensures r.Failure? ==> r.error != []
  {
    if "items" !in d then Failure([FieldError("items", Missing)])
    else if !d["items"].List? then Failure([FieldError("items", WrongType)])
    else DecodeItems(d["items"].elems)
  }

  // ---------------------------------------------------------------------
  // Order
  // ---------------------------------------------------------------------

  /**
   * The Order field list with `total_amount` bounded below by `totalBound`:
   * `Some(0.0)` for the Order schema, `None` for the create-order payload.
   * Every item must pass the OrderItem schema; the total is not compared
   * with the items.
   */
  function OrderRecord(d: Document, totalBound: Option<real>): (r: Result<Order, seq<FieldError>>)
    ensures r.Success? <==>
      RequiredText(d, "customer_name").Success? && RequiredText(d, "customer_email").Success? &&
      OptionalText(d, "customer_phone").Success? && RequiredText(d, "shipping_address").Success? &&
      Items(d).Success? && Number(d, "total_amount", totalBound).Success? && OptionalText(d, "notes").Success?
    ensures r.Failure? ==> r.error != []
    ensures "customer_name" !in d ==> r.Failure? && FieldError("customer_name", Missing) in r.error
    ensures "customer_email" !in d ==> r.Failure? && FieldError("customer_email", Missing) in r.error
    ensures "shipping_address" !in d ==> r.Failure? && FieldError("shipping_address", Missing) in r.error
    ensures "items" !in d ==> r.Failure? && FieldError("items", Missing) in r.error
    ensures "total_amount" !in d ==> r.Failure? && FieldError("total_amount", Missing) in r.error
    ensures totalBound.Some? && "total_amount" in d && d["total_amount"].Num? && d["total_amount"].n < totalBound.value ==>
      r.Failure? && FieldError("total_amount", TooSmall(totalBound.value)) in r.error
    ensures r.Success? ==> "customer_name" in d && d["customer_name"] == Str(r.value.customerName)
    ensures r.Success? ==> "customer_email" in d && d["customer_email"] == Str(r.value.customerEmail)
    ensures r.Success? ==> Get(d, "customer_phone", Null) == OptionalTextValue(r.value.customerPhone)
    ensures r.Success? ==> "shipping_address" in d && d["shipping_address"] == Str(r.value.shippingAddress)
    ensures r.Success? ==> Items(d) == Success(r.value.items)
    ensures r.Success? ==> forall k :: 0 <= k < |r.value.items| ==> r.value.items[k].Valid()
    ensures r.Success? ==> "total_amount" in d && d["total_amount"] == Num(r.value.totalAmount)
    ensures r.Success? && totalBound.Some? ==> r.value.totalAmount >= totalBound.value
    ensures r.Success? ==> Get(d, "notes", Null) == OptionalTextValue(r.value.notes)
  {
    var customerName := RequiredText(d, "customer_name");
    var customerEmail := RequiredText(d, "customer_email");
    var customerPhone := OptionalText(d, "customer_phone");
    var shippingAddress := RequiredText(d, "shipping_address");
    var items := Items(d);
    var totalAmount := Number(d, "total_amount", totalBound);
    var notes := OptionalText(d, "notes");
    var errors :=
      ErrorsOf(customerName) + ErrorsOf(customerEmail) + ErrorsOf(customerPhone) +
      ErrorsOf(shippingAddress) + (if items.Failure? then items.error else []) +
      ErrorsOf(totalAmount) + ErrorsOf(notes);
    assert errors == [] <==>
      customerName.Success? && customerEmail.Success? && customerPhone.Success? &&
      shippingAddress.Success? && items.Success? && totalAmount.Success? && notes.Success?;
    if errors == [] then
      Success(Order(customerName.value, customerEmail.value, customerPhone.value,
                    shippingAddress.value, items.value, totalAmount.value, notes.value))
    else
      Failure(errors)
  }

  /** Validates a document against the Order schema; a validated order is valid. */
  function ValidateOrder(d: Document): (r: Result<Order, seq<FieldError>>)
    ensures r.Success? ==> r.value.Valid()
    ensures "total_amount" in d && d["total_amount"].Num? && d["total_amount"].n < 0.0 ==>
      r.Failure? && FieldError("total_amount", TooSmall(0.0)) in r.error
  {
    OrderRecord(d, Some(0.0))
  }

  /** How a list of order items is stored. */
  function ItemValues(items: seq<OrderItem>): (vs: seq<Value>)
    ensures |vs| == |items| && forall k :: 0 <= k < |items| ==> vs[k] == Obj(DumpOrderItem(items[k]))
  {
    seq(|items|, k requires 0 <= k < |items| => Obj(DumpOrderItem(items[k])))
  }

  /** The document an Order is stored as. */
  function DumpOrder(o: Order): (d: Document)
    ensures d.Keys == OrderFields
  {
    map[
      "customer_name" := Str(o.customerName),
      "customer_email" := Str(o.customerEmail),
      "customer_phone" := OptionalTextValue(o.customerPhone),
      "shipping_address" := Str(o.shippingAddress),
      "items" := List(ItemValues(o.items)),
      "total_amount" := Num(o.totalAmount),
      "notes" := OptionalTextValue(o.notes)]
  }

  /** A stored item list decodes to the items exactly when every item is valid. */
  lemma {:induction false} DecodeStoredItems(items: seq<OrderItem>)
    ensures DecodeItems(ItemValues(items)).Success? <==> forall k :: 0 <= k < |items| ==> items[k].Valid()
    ensures (forall k :: 0 <= k < |items| ==> items[k].Valid()) ==> DecodeItems(ItemValues(items)) == Success(items)
  {
    var vs := ItemValues(items);
    forall k | 0 <= k < |items|
      ensures ValidateOrderItem(vs[k].fields).Success? <==> items[k].Valid()
      ensures items[k].Valid() ==> ValidateOrderItem(vs[k].fields) == Success(items[k])
    {
      OrderItemRoundTrip(items[k]);
    }
    var r := DecodeItems(vs);
    if r.Success? {
      assert |r.value| == |items|;
      forall k | 0 <= k < |items| ensures r.value[k] == items[k] {
        assert ValidateOrderItem(vs[k].fields) == Success(r.value[k]);
      }
      assert r.value == items;
    }
  }

  /** A stored order whose total respects the bound and whose items are all valid passes validation. */
  lemma StoredOrderAccepted(o: Order, totalBound: Option<real>)
    requires totalBound.None? || o.totalAmount >= totalBound.value
    requires forall k :: 0 <= k < |o.items| ==> o.items[k].Valid()
    ensures OrderRecord(DumpOrder(o), totalBound).Success?
  {
    var d := DumpOrder(o);
    assert RequiredText(d, "customer_name").Success? by { assert d["customer_name"] == Str(o.customerName); }
    assert RequiredText(d, "customer_email").Success? by { assert d["customer_email"] == Str(o.customerEmail); }
    assert OptionalText(d, "customer_phone").Success? by { assert d["customer_phone"] == OptionalTextValue(o.customerPhone); }
    assert RequiredText(d, "shipping_address").Success? by { assert d["shipping_address"] == Str(o.shippingAddress); }
    assert Items(d).Success? by {
      assert d["items"] == List(ItemValues(o.items));
      DecodeStoredItems(o.items);
    }
    assert Number(d, "total_amount", totalBound).Success? by { assert d["total_amount"] == Num(o.totalAmount); }
    assert OptionalText(d, "notes").Success? by { assert d["notes"] == OptionalTextValue(o.notes); }
  }

  /** A stored order whose total is below the bound, or with an invalid item, fails validation. */
  lemma StoredOrderRejected(o: Order, totalBound: Option<real>)
    requires !((totalBound.None? || o.totalAmount >= totalBound.value) && forall k :: 0 <= k < |o.items| ==> o.items[k].Valid())
    ensures OrderRecord(DumpOrder(o), totalBound).Failure?
  {
    var d := DumpOrder(o);
    assert Items(d).Failure? || Number(d, "total_amount", totalBound).Failure? by {
      assert d["items"] == List(ItemValues(o.items));
      assert d["total_amount"] == Num(o.totalAmount);
      DecodeStoredItems(o.items);
    }
  }

  /** What validation accepts of a stored order is the order itself. */
  lemma StoredOrderRecovered(o: Order, totalBound: Option<real>)
    requires OrderRecord(DumpOrder(o), totalBound).Success?
    ensures OrderRecord(DumpOrder(o), totalBound) == Success(o)
  {
    var d := DumpOrder(o);
    var p := OrderRecord(d, totalBound).value;
    assert p.customerName == o.customerName by { assert d["customer_name"] == Str(o.customerName); }
    assert p.customerEmail == o.customerEmail by { assert d["customer_email"] == Str(o.customerEmail); }
    assert p.customerPhone == o.customerPhone by {
      assert d["customer_phone"] == OptionalTextValue(o.customerPhone);
      OptionalTextValueInjective(p.customerPhone, o.customerPhone);
    }
    assert p.shippingAddress == o.shippingAddress by { assert d["shipping_address"] == Str(o.shippingAddress); }
    assert p.items == o.items by {
      assert d["items"] == List(ItemValues(o.items));
      assert Items(d) == Success(p.items);
      DecodeStoredItems(o.items);
    }
    assert p.totalAmount == o.totalAmount by { assert d["total_amount"] == Num(o.totalAmount); }
    assert p.notes == o.notes by {
      assert d["notes"] == OptionalTextValue(o.notes);
      OptionalTextValueInjective(p.notes, o.notes);
    }
  }

  /** An order survives being stored and validated against a total bound exactly when it respects the bound and every item is valid. */
  lemma OrderRecordRoundTrip(o: Order, totalBound: Option<real>)
    ensures OrderRecord(DumpOrder(o), totalBound).Success? <==>
      (totalBound.None? || o.totalAmount >= totalBound.value) && forall k :: 0 <= k < |o.items| ==> o.items[k].Valid()
    ensures OrderRecord(DumpOrder(o), totalBound).Success? ==> OrderRecord(DumpOrder(o), totalBound) == Success(o)
  {
    if (totalBound.None? || o.totalAmount >= totalBound.value) && forall k :: 0 <= k < |o.items| ==> o.items[k].Valid() {
      StoredOrderAccepted(o, totalBound);
      StoredOrderRecovered(o, totalBound);
    } else {
      StoredOrderRejected(o, totalBound);
    }
  }

  /** An order survives being stored and validated again exactly when it is valid. */
  lemma OrderRoundTrip(o: Order)
    ensures ValidateOrder(DumpOrder(o)).Success? <==> o.Valid()
    ensures o.Valid() ==> ValidateOrder(DumpOrder(o)) == Success(o)
  {
    OrderRecordRoundTrip(o, Some(0.0));
  }

  /** An order with an empty item list is valid: nothing requires an item. */
  lemma OrderWithoutItemsIsValid(o: Order)
    requires o.items == [] && o.totalAmount >= 0.0
    ensures o.Valid()
    ensures ValidateOrder(DumpOrder(o)) == Success(o)
  {
    OrderRoundTrip(o);
  }
}
