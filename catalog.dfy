/**
 * Normalisation of the upstream `GetProducts` payload into canonical product
 * records (`_normalize_products_response`, `_normalize_pricing`) and the
 * inventory snapshot built from one product (`get_product_inventory`).
 */
module Catalog {
  import opened Wrappers
  import opened Text
  import opened Json
  import opened Whmcs
  import opened Seqs

  /** One period's price and setup fee, as `float()` read them. */
  datatype PriceEntry = PriceEntry(price: Decimal, setup: Decimal)

  type Periods = seq<(string, PriceEntry)>
  type Pricing = seq<(string, Periods)>

  datatype Product = Product(
    id: int,
    name: Json,
    description: Json,
    groupId: int,
    moduleName: Json,
    stockControl: bool,
    quantity: int,
    available: bool,
    pricing: Pricing,
    order: int)

  /** What `get_product_inventory` returns (its `last_updated` timestamp is not modelled). */
  datatype Inventory = Inventory(
    productId: int,
    name: Json,
    stockControl: bool,
    quantity: int,
    available: bool)

  /** Python's `int(v)` on a decoded JSON value. */
  function ToInt(j: Json): Result<int, ClientError> {
    match j
    case JInt(i) => Success(i)
    case JBool(b) => Success(if b then 1 else 0)
    case JStr(s) =>
      (match ParseInt(s)
       case Some(n) => Success(n)
       case None => Failure(BuiltinError("ValueError")))
    case _ => Failure(BuiltinError("TypeError"))
  }

  /** A decimal string written by `str(n)` is read back by `int(...)` as `n`. */
  lemma ToIntReadsDecimal(n: int)
    ensures ToInt(JStr(ShowInt(n))) == Success(n)
  {
    ParseShowRoundTrip(n);
  }

  predicate IsObject(j: Json) {
    j.JObj?
  }

  predicate HasObjectValue(entry: (string, Json)) {
    entry.1.JObj?
  }

  /** The dictionaries among `items`, in order (`if not isinstance(product, dict): continue`). */
  function Dicts(items: seq<Json>): (r: seq<Dict>)
    ensures |r| == |Filter(IsObject, items)|
    ensures forall i | 0 <= i < |r| :: JObj(r[i]) == Filter(IsObject, items)[i]
    ensures forall i | 0 <= i < |r| :: JObj(r[i]) in items
    ensures forall x | x in items && x.JObj? :: x.fields in r
  {
    var objects := Filter(IsObject, items);
    assert forall i | 0 <= i < |objects| :: IsObject(objects[i]) by {
      forall i | 0 <= i < |objects|
        ensures IsObject(objects[i])
      {
        assert objects[i] in objects;
      }
    }
    var r := seq(|objects|, i requires 0 <= i < |objects| => objects[i].fields);
    assert forall x | x in items && x.JObj? :: x.fields in r by {
      forall x | x in items && x.JObj?
        ensures x.fields in r
      {
        assert IsObject(x);
        var i :| 0 <= i < |objects| && objects[i] == x;
        assert r[i] == x.fields;
      }
    }
    r
  }

  /** The dictionary-valued entries of `d`, in order. */
  function ObjectEntries(d: Dict): (r: seq<(string, Dict)>)
    ensures |r| == |Filter(HasObjectValue, d)|
    ensures forall i | 0 <= i < |r| :: (r[i].0, JObj(r[i].1)) == Filter(HasObjectValue, d)[i]
    ensures forall i | 0 <= i < |r| :: (r[i].0, JObj(r[i].1)) in d
    ensures forall i | 0 <= i < |d| && d[i].1.JObj? :: (d[i].0, d[i].1.fields) in r
  {
    var entries := Filter(HasObjectValue, d);
    assert forall i | 0 <= i < |entries| :: HasObjectValue(entries[i]) by {
      forall i | 0 <= i < |entries|
        ensures HasObjectValue(entries[i])
      {
        assert entries[i] in entries;
      }
    }
    var r := seq(|entries|, i requires 0 <= i < |entries| => (entries[i].0, entries[i].1.fields));
    assert forall i | 0 <= i < |d| && d[i].1.JObj? :: (d[i].0, d[i].1.fields) in r by {
      forall i | 0 <= i < |d| && d[i].1.JObj?
        ensures (d[i].0, d[i].1.fields) in r
      {
        assert d[i] in d && HasObjectValue(d[i]);
        var k :| 0 <= k < |entries| && entries[k] == d[i];
        assert r[k] == (d[i].0, d[i].1.fields);
      }
    }
    r
  }

  /** Python's `float(v)` on a decoded JSON value. */
  function ToFloat(j: Json): Result<Decimal, ClientError> {
    match j
    case JInt(i) => Success(Decimal(i, 0))
    case JBool(b) => Success(Decimal(if b then 1 else 0, 0))
    case JStr(s) =>
      (match ParseDecimal(s)
       case Some(d) => Success(d)
       case None => Failure(BuiltinError("ValueError")))
    case _ => Failure(BuiltinError("TypeError"))
  }

  /**
   * `float()` accepts every value `int()` accepts, with the same value; where
   * `float()` raises, `int()` raises the same exception.
   */
  lemma ToFloatExtendsToInt(j: Json)
    ensures ToInt(j).Success? ==> ToFloat(j) == Success(Decimal(ToInt(j).value, 0))
    ensures ToFloat(j).Failure? ==> ToInt(j) == Failure(ToFloat(j).error)
  {
  }

  /** A price written with a decimal point is read exactly. */
  lemma ToFloatReadsDecimalPoint()
    ensures ToFloat(JStr("12.50")) == Success(Decimal(1250, 2))
  {
    ParseDecimalPoint("12", "50");
    assert "12" + "." + "50" == "12.50";
    var digits := "12" + "50";
    assert digits[..3] == "125" && digits[..2] == "12" && digits[..1] == "1";
    assert DigitsValue(digits) == 1250 by {
      assert DigitsValue("1") == 1 by {
        assert "1"[..0] == [];
      }
      assert "12"[..1] == "1";
      assert "125"[..2] == "12";
    }
  }

  /** A word and a missing value are not numbers: `float()` raises ValueError and TypeError. */
  lemma ToFloatRejects()
    ensures ToFloat(JStr("abc")) == Failure(BuiltinError("ValueError"))
    ensures ToFloat(JNull) == Failure(BuiltinError("TypeError"))
  {
    assert !IsDigit("abc"[0]);
  }

  /** One period's `{'price': float(...), 'setup': float(...)}`; the price is read first. */
  function PriceOf(info: Dict): (r: Result<PriceEntry, ClientError>)
    ensures r.Success? <==> ToFloat(Get(info, "price", JInt(0))).Success? && ToFloat(Get(info, "setup", JInt(0))).Success?
    ensures r.Success? ==> r.value == PriceEntry(ToFloat(Get(info, "price", JInt(0))).value, ToFloat(Get(info, "setup", JInt(0))).value)
    ensures ToFloat(Get(info, "price", JInt(0))).Failure? ==> r == Failure(ToFloat(Get(info, "price", JInt(0))).error)
    ensures ToFloat(Get(info, "price", JInt(0))).Success? && ToFloat(Get(info, "setup", JInt(0))).Failure? ==>
      r == Failure(ToFloat(Get(info, "setup", JInt(0))).error)
  {
    match ToFloat(Get(info, "price", JInt(0)))
    case Failure(e) => Failure(e)
    case Success(price) =>
      match ToFloat(Get(info, "setup", JInt(0)))
      case Failure(e) => Failure(e)
      case Success(setup) => Success(PriceEntry(price, setup))
  }

  function PeriodEntry(entry: (string, Dict)): Result<(string, PriceEntry), ClientError> {
    match PriceOf(entry.1)
    case Success(p) => Success((entry.0, p))
    case Failure(e) => Failure(e)
  }

  /**
   * The inner loop of `_normalize_pricing`: every dictionary-valued period, in
   * order, with its prices; the first `float()` that raises aborts the loop.
   */
  function PricingPeriods(periods: Dict): (r: Result<Periods, ClientError>)
    ensures r.Success? <==> forall i | 0 <= i < |ObjectEntries(periods)| :: PriceOf(ObjectEntries(periods)[i].1).Success?
    ensures r.Success? ==>
      && |r.value| == |ObjectEntries(periods)|
      && forall i | 0 <= i < |r.value| ::
           r.value[i] == (ObjectEntries(periods)[i].0, PriceOf(ObjectEntries(periods)[i].1).value)
    ensures r.Failure? ==>
      exists i | 0 <= i < |ObjectEntries(periods)| ::
        && PriceOf(ObjectEntries(periods)[i].1) == Failure(r.error)
        && forall j | 0 <= j < i :: PriceOf(ObjectEntries(periods)[j].1).Success?
  {
    var entries := ObjectEntries(periods);
    var r := MapAll(PeriodEntry, entries);
    assert forall i | 0 <= i < |entries| :: PeriodEntry(entries[i]).Success? == PriceOf(entries[i].1).Success?;
    r
  }

  /** A period whose price `float()` rejects makes the whole pricing fail with that exception. */
  lemma BadPriceFailsPeriods(period: string, info: Dict)
    requires ToFloat(Get(info, "price", JInt(0))).Failure?
    ensures PricingPeriods([(period, JObj(info))]) == Failure(ToFloat(Get(info, "price", JInt(0))).error)
  {
    var periods := [(period, JObj(info))];
    assert HasObjectValue(periods[0]);
    assert Filter(HasObjectValue, periods) == periods by {
      FilterSingle(HasObjectValue, periods[0]);
    }
    assert ObjectEntries(periods) == [(period, info)];
  }

  function CurrencyEntry(entry: (string, Dict)): Result<(string, Periods), ClientError> {
    match PricingPeriods(entry.1)
    case Success(ps) => Success((entry.0, ps))
    case Failure(e) => Failure(e)
  }

  /**
   * The outer loop of `_normalize_pricing` over the dictionary-valued currencies:
   * each with its periods, in order; the first failure aborts the loop.
   */
  function Currencies(entries: seq<(string, Dict)>): (r: Result<Pricing, ClientError>)
    ensures r.Success? <==> forall i | 0 <= i < |entries| :: PricingPeriods(entries[i].1).Success?
    ensures r.Success? ==>
      && |r.value| == |entries|
      && forall i | 0 <= i < |r.value| :: r.value[i] == (entries[i].0, PricingPeriods(entries[i].1).value)
    ensures r.Failure? ==>
      exists i | 0 <= i < |entries| ::
        && PricingPeriods(entries[i].1) == Failure(r.error)
        && forall j | 0 <= j < i :: PricingPeriods(entries[j].1).Success?
  {
    assert forall i | 0 <= i < |entries| :: CurrencyEntry(entries[i]).Success? == PricingPeriods(entries[i].1).Success?;
    MapAll(CurrencyEntry, entries)
  }

  /** `_normalize_pricing`: empty for a falsy value, the dictionary-valued currencies of a dictionary. */
  function NormalizePricing(pricing: Json): (r: Result<Pricing, ClientError>)
    ensures !Truthy(pricing) ==> r == Success([])
    ensures Truthy(pricing) && !pricing.JObj? ==> r == Failure(BuiltinError("AttributeError"))
    ensures pricing.JObj? ==> r == Currencies(ObjectEntries(pricing.fields))
  {
    if !Truthy(pricing) then
      assert pricing.JObj? ==> ObjectEntries(pricing.fields) == [];
      Success([])
    else if !pricing.JObj? then Failure(BuiltinError("AttributeError"))
    else Currencies(ObjectEntries(pricing.fields))
  }

  /** The normalised record of one raw product dictionary, or the exception a coercion raises. */
  function NormalizeProduct(d: Dict): (r: Result<Product, ClientError>)
    ensures r.Success? ==>
      && ToInt(Get(d, "pid", JInt(0))) == Success(r.value.id)
      && ToInt(Get(d, "gid", JInt(0))) == Success(r.value.groupId)
      && ToInt(Get(d, "qty", JInt(0))) == Success(r.value.quantity)
      && ToInt(Get(d, "order", JInt(0))) == Success(r.value.order)
      && r.value.name == Get(d, "name", JStr(""))
      && (r.value.stockControl <==> Lookup(d, "stockcontrol") == Some(JStr("1")))
      && (r.value.available <==> !HasKey(d, "retired") || Lookup(d, "retired") == Some(JStr("0")))
      && r.value.description == Get(d, "description", JStr(""))
      && r.value.moduleName == Get(d, "module", JStr(""))
      && NormalizePricing(Get(d, "pricing", JObj([]))) == Success(r.value.pricing)
    ensures r.Failure? <==>
      || ToInt(Get(d, "pid", JInt(0))).Failure?
      || ToInt(Get(d, "gid", JInt(0))).Failure?
      || ToInt(Get(d, "qty", JInt(0))).Failure?
      || NormalizePricing(Get(d, "pricing", JObj([]))).Failure?
      || ToInt(Get(d, "order", JInt(0))).Failure?
    // the dictionary literal is evaluated key by key: the first coercion that raises decides the error
    ensures ToInt(Get(d, "pid", JInt(0))).Failure? ==> r == Failure(ToInt(Get(d, "pid", JInt(0))).error)
    ensures ToInt(Get(d, "pid", JInt(0))).Success? && ToInt(Get(d, "gid", JInt(0))).Failure? ==>
      r == Failure(ToInt(Get(d, "gid", JInt(0))).error)
    ensures ToInt(Get(d, "pid", JInt(0))).Success? && ToInt(Get(d, "gid", JInt(0))).Success? &&
            ToInt(Get(d, "qty", JInt(0))).Failure? ==>
      r == Failure(ToInt(Get(d, "qty", JInt(0))).error)
    ensures ToInt(Get(d, "pid", JInt(0))).Success? && ToInt(Get(d, "gid", JInt(0))).Success? &&
            ToInt(Get(d, "qty", JInt(0))).Success? && NormalizePricing(Get(d, "pricing", JObj([]))).Failure? ==>
      r == Failure(NormalizePricing(Get(d, "pricing", JObj([]))).error)
    ensures ToInt(Get(d, "pid", JInt(0))).Success? && ToInt(Get(d, "gid", JInt(0))).Success? &&
            ToInt(Get(d, "qty", JInt(0))).Success? && NormalizePricing(Get(d, "pricing", JObj([]))).Success? &&
            ToInt(Get(d, "order", JInt(0))).Failure? ==>
      r == Failure(ToInt(Get(d, "order", JInt(0))).error)
  {
    match ToInt(Get(d, "pid", JInt(0)))
    case Failure(e) => Failure(e)
    case Success(id) =>
      match ToInt(Get(d, "gid", JInt(0)))
      case Failure(e) => Failure(e)
      case Success(groupId) =>
        match ToInt(Get(d, "qty", JInt(0)))
        case Failure(e) => Failure(e)
        case Success(quantity) =>
          match NormalizePricing(Get(d, "pricing", JObj([])))
          case Failure(e) => Failure(e)
          case Success(pricing) =>
            match ToInt(Get(d, "order", JInt(0)))
            case Failure(e) => Failure(e)
            case Success(order) =>
              Success(Product(
                id := id,
                name := Get(d, "name", JStr("")),
                description := Get(d, "description", JStr("")),
                groupId := groupId,
                moduleName := Get(d, "module", JStr("")),
                stockControl := Get(d, "stockcontrol", JStr("0")) == JStr("1"),
                quantity := quantity,
                available := Get(d, "retired", JStr("0")) == JStr("0"),
                pricing := pricing,
                order := order))
  }

  /**
   * The loop of `_normalize_products_response` over the candidate entries:
   * non-dictionaries are skipped, every dictionary is normalised in order, and
   * the first coercion failure aborts the whole batch.
   */
  function NormalizeAll(items: seq<Json>): (r: Result<seq<Product>, ClientError>)
    ensures r.Success? <==> forall d | d in Dicts(items) :: NormalizeProduct(d).Success?
    ensures r.Success? ==>
      |r.value| == |Dicts(items)| &&
      forall i | 0 <= i < |r.value| :: NormalizeProduct(Dicts(items)[i]) == Success(r.value[i])
    ensures r.Failure? ==>
      exists i | 0 <= i < |Dicts(items)| ::
        && NormalizeProduct(Dicts(items)[i]) == Failure(r.error)
        && forall j | 0 <= j < i :: NormalizeProduct(Dicts(items)[j]).Success?
  {
    var ds := Dicts(items);
    var r := MapAll(NormalizeProduct, ds);
    assert r.Success? <==> forall d | d in ds :: NormalizeProduct(d).Success? by {
      if !r.Success? {
        var i :| 0 <= i < |ds| && !NormalizeProduct(ds[i]).Success?;
        assert ds[i] in ds;
      }
    }
    r
  }

  /** What `for product in value` iterates over when `value` came from under the `'product'` key. */
  function Iterated(value: Json): Result<seq<Json>, ClientError> {
    match value
    case JList(items) => Success(items)
    case JStr(s) => Success(seq(|s|, i requires 0 <= i < |s| => JStr([s[i]])))
    case JObj(fields) => Success(seq(|fields|, i requires 0 <= i < |fields| => JStr(fields[i].0)))
    case _ => Failure(BuiltinError("TypeError"))
  }

  /** The entries the products payload holds, whatever shape the upstream used for them. */
  function ProductCandidates(response: Dict): (r: Result<seq<Json>, ClientError>)
    ensures Lookup(response, "products").None? ==> r == Success([])
    ensures var data := Get(response, "products", JObj([]));
      && (data.JObj? && Lookup(data.fields, "product").Some? && Lookup(data.fields, "product").value.JObj? ==>
            r == Success([Lookup(data.fields, "product").value]))
      && (data.JObj? && Lookup(data.fields, "product").Some? && Lookup(data.fields, "product").value.JList? ==>
            r == Success(Lookup(data.fields, "product").value.items))
      && (data.JObj? && Lookup(data.fields, "product").Some? && Lookup(data.fields, "product").value.JStr? ==>
            && r.Success?
            && |r.value| == |Lookup(data.fields, "product").value.s|
            && forall x | x in r.value :: x.JStr? && |x.s| == 1)
      && (data.JObj? && Lookup(data.fields, "product").Some? &&
          (Lookup(data.fields, "product").value.JNull? || Lookup(data.fields, "product").value.JBool? ||
           Lookup(data.fields, "product").value.JInt?) ==>
            r == Failure(BuiltinError("TypeError")))
      && (data.JObj? && Lookup(data.fields, "product").None? ==> r == Success(Values(data.fields)))
      && (data.JList? ==> r == Success(data.items))
      && (!data.JObj? && !data.JList? ==> r == Success([]))
  {
    match Get(response, "products", JObj([]))
    case JObj(fields) =>
      (match Lookup(fields, "product")
       case Some(JObj(p)) => Success([JObj(p)])
       case Some(other) => Iterated(other)
       case None => Success(Values(fields)))
    case JList(items) => Success(items)
    case _ => Success([])
  }

  /** `_normalize_products_response`. */
  function NormalizeProductsResponse(response: Dict): (r: Result<seq<Product>, ClientError>)
    ensures ProductCandidates(response).Failure? ==> r == Failure(ProductCandidates(response).error)
    ensures ProductCandidates(response).Success? ==> r == NormalizeAll(ProductCandidates(response).value)
  {
    match ProductCandidates(response)
    case Failure(e) => Failure(e)
    case Success(items) => NormalizeAll(items)
  }

  /** A single product object under `products.product` normalises to a one-element list. */
  lemma SingleProductIsOneElementList(p: Dict)
    requires NormalizeProduct(p).Success?
    ensures NormalizeProductsResponse([("products", JObj([("product", JObj(p))]))]) ==
      Success([NormalizeProduct(p).value])
  {
    var payload := [("product", JObj(p))];
    var response := [("products", JObj(payload))];
    assert Lookup(response, "products") == Some(JObj(payload));
    assert Lookup(payload, "product") == Some(JObj(p));
    assert ProductCandidates(response) == Success([JObj(p)]);
    var items := [JObj(p)];
    assert Dicts(items) == [p] by {
      assert items[1..] == [];
    }
    var all := NormalizeAll(items);
    assert all.Success?;
    assert |all.value| == 1;
    assert all.value == [NormalizeProduct(p).value];
  }

  /** A list of products keeps one record per dictionary entry; other entries are dropped. */
  lemma ListOutputCountsDictionaries(items: seq<Json>)
    requires forall d | d in Dicts(items) :: NormalizeProduct(d).Success?
    ensures NormalizeProductsResponse([("products", JList(items))]).Success?
    ensures |NormalizeProductsResponse([("products", JList(items))]).value| == |set i | 0 <= i < |items| && items[i].JObj?|
  {
    DictsCount(items);
  }

  /** The number of dictionaries kept is the number of positions holding a dictionary. */
  lemma DictsCount(items: seq<Json>)
    ensures |Dicts(items)| == |set i | 0 <= i < |items| && items[i].JObj?|
  {
    FilterCount(IsObject, items);
    assert Positions(IsObject, items) == set i | 0 <= i < |items| && items[i].JObj?;
  }

  /** A string under `products.product` is iterated character by character, and no character is a product. */
  lemma StringProductGivesNoProducts(text: string)
    ensures NormalizeProductsResponse([("products", JObj([("product", JStr(text))]))]) == Success([])
  {
    var payload := [("product", JStr(text))];
    var response := [("products", JObj(payload))];
    assert Lookup(response, "products") == Some(JObj(payload));
    assert Lookup(payload, "product") == Some(JStr(text));
    var items := ProductCandidates(response).value;
    assert forall i | 0 <= i < |items| :: items[i] == JStr([text[i]]);
    assert Positions(IsObject, items) == {};
    FilterCount(IsObject, items);
  }

  /** A number, boolean or null under `products.product` is not iterable: the call raises TypeError. */
  lemma ScalarProductRaises(v: Json)
    requires v.JNull? || v.JBool? || v.JInt?
    ensures NormalizeProductsResponse([("products", JObj([("product", v)]))]) == Failure(BuiltinError("TypeError"))
  {
    var payload := [("product", v)];
    var response := [("products", JObj(payload))];
    assert Lookup(response, "products") == Some(JObj(payload));
    assert Lookup(payload, "product") == Some(v);
  }

  /** A payload whose products entry is neither an object nor a list normalises to no products. */
  lemma OtherShapesAreEmpty(v: Json)
    requires !v.JObj? && !v.JList?
    ensures NormalizeProductsResponse([("products", v)]) == Success([])
  {
  }

  /** `get_product_inventory`'s record for a found product; the id is the one requested. */
  function InventoryOf(productId: int, p: Product): (r: Inventory)
    ensures r.productId == productId
    ensures r.quantity == p.quantity && r.stockControl == p.stockControl && r.available == p.available
    ensures r.name == p.name
  {
    Inventory(productId, p.name, p.stockControl, p.quantity, p.available)
  }
}
