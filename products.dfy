/** The product records of the processing store, the position filter that
    deletes one of them, and the shape of the mocked analysis result. */
module Products {
  import opened Strings

  datatype Product = Product(id: string, name: string)

  /** A product with the matched price, provider, origin and type. */
  datatype AnalyzedProduct = AnalyzedProduct(
    id: string, name: string,
    price: string, provider: string, origin: string, productType: string)

  /** `list.filter((_, i) => i !== index)`: every position but `index`, in order. */
  function DropIndex<T>(s: seq<T>, index: int): (r: seq<T>)
    ensures |r| == if 0 <= index < |s| then |s| - 1 else |s|
    decreases |s|
  {
    if s == [] then []
    else DropIndex(s[..|s| - 1], index) + (if |s| - 1 != index then [s[|s| - 1]] else [])
  }

  /** Deleting removes exactly position `index` and keeps the rest in order;
      an index outside the list changes nothing. */
  lemma {:induction false} DropIndexRemovesOne<T>(s: seq<T>, index: int)
    ensures DropIndex(s, index) == if 0 <= index < |s| then s[..index] + s[index + 1..] else s
    decreases |s|
  {
    if s != [] {
      var s', x := s[..|s| - 1], s[|s| - 1];
      DropIndexRemovesOne(s', index);
      assert s == s' + [x];
      if 0 <= index < |s'| {
        assert s[..index] == s'[..index];
        assert s[index + 1..] == s'[index + 1..] + [x];
      }
    }
  }

  /** Editing a row and then deleting the same row is the same as deleting it. */
  lemma EditThenDelete<T>(s: seq<T>, index: int, x: T)
    requires 0 <= index < |s|
    ensures DropIndex(s[index := x], index) == DropIndex(s, index)
  {
    DropIndexRemovesOne(s[index := x], index);
    DropIndexRemovesOne(s, index);
    assert s[index := x][..index] == s[..index];
    assert s[index := x][index + 1..] == s[index + 1..];
  }

  // ---------------------------------------------------------------------
  // the mocked analysis

  /** `Math.floor(Math.random() * 1000)`, and the three list picks. */
  type PriceDraw = n: nat | n < 1000
  type FiveWay = n: nat | n < 5
  type FourWay = n: nat | n < 4

  /** The random draws made for one product. */
  datatype Draw = Draw(price: PriceDraw, provider: FiveWay, origin: FiveWay, productType: FourWay)

  const Providers: seq<string> := ["Apple", "Samsung", "Dell", "HP", "Sony"]
  const Origins: seq<string> := ["USA", "China", "Japan", "South Korea", "Vietnam"]
  const ProductTypes: seq<string> := ["Electronics", "Accessories", "Components", "Peripherals"]

  /** One product with its draws: the product's own fields, a price of
      `$` followed by the draw plus 100, and the picked strings. */
  function AnalyzeOne(p: Product, d: Draw): (r: AnalyzedProduct)
    ensures r.id == p.id && r.name == p.name
    ensures r.provider in Providers && r.origin in Origins && r.productType in ProductTypes
    ensures |r.price| >= 2 && r.price[0] == '$' && IsDigits(r.price[1..])
  {
    AnalyzedProduct(p.id, p.name, "$" + DecimalString(d.price + 100),
                    Providers[d.provider], Origins[d.origin], ProductTypes[d.productType])
  }

  /** The mocked analysis: `products.map(...)`, the k-th product using the
      k-th draws. */
  function AnalyzeMock(products: seq<Product>, draws: nat -> Draw): (r: seq<AnalyzedProduct>)
    ensures |r| == |products|
    ensures forall k :: 0 <= k < |r| ==> r[k].id == products[k].id && r[k].name == products[k].name
    ensures forall k :: 0 <= k < |r| ==>
      r[k].provider in Providers && r[k].origin in Origins && r[k].productType in ProductTypes
  {
    var r := seq(|products|, k requires 0 <= k < |products| => AnalyzeOne(products[k], draws(k)));
    assert forall k :: 0 <= k < |r| ==> r[k] == AnalyzeOne(products[k], draws(k));
    r
  }

  /** Every mocked price is a dollar sign followed by a number from 100 to 1099. */
  lemma MockPriceRange(products: seq<Product>, draws: nat -> Draw, k: nat)
    requires k < |products|
    ensures var price := AnalyzeMock(products, draws)[k].price;
      |price| >= 2 && price[0] == '$' && IsDigits(price[1..]) &&
      100 <= DecimalValue(price[1..]) <= 1099
  {
    var n := draws(k).price + 100;
    var price := AnalyzeMock(products, draws)[k].price;
    assert price == "$" + DecimalString(n);
    assert price[1..] == DecimalString(n);
    DecimalRoundTrip(n);
  }
}
