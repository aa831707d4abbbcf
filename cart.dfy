/** The cart operations of the User model, as functions from the cart before the call to
    the outcome of the call. A cart is a list of lines, each a quantity and a copy of a
    product. */
module Cart {
  import opened Catalog
  import opened Errors

  /** One cart line: how many of the product, and the product as it was when added. */
  datatype Line = Line(qty: int, product: Product)

  /** The identifiers of the cart's products, line by line. */
  function Ids(c: seq<Line>): (ids: seq<ProductId>)
    ensures |ids| == |c|
    ensures forall i :: 0 <= i < |c| ==> ids[i] == c[i].product.id
  {
    seq(|c|, i requires 0 <= i < |c| => c[i].product.id)
  }

  /** At most one line per product. */
  predicate Unique(c: seq<Line>)
  {
    Distinct(Ids(c))
  }

  /** No line has a negative quantity (the schema's lower bound of 0). */
  predicate NonNegative(c: seq<Line>)
  {
    forall i :: 0 <= i < |c| ==> c[i].qty >= 0
  }

  /** Every line holds at least one item. */
  predicate Positive(c: seq<Line>)
  {
    forall i :: 0 <= i < |c| ==> c[i].qty >= 1
  }

  /** The line at `k` with `delta` added to its quantity. */
  function Bump(c: seq<Line>, k: int, delta: int): (c': seq<Line>)
    requires 0 <= k < |c|
    ensures |c'| == |c| && Ids(c') == Ids(c)
    ensures c'[k] == Line(c[k].qty + delta, c[k].product)
    ensures forall i :: 0 <= i < |c| && i != k ==> c'[i] == c[i]
  {
    c[k := c[k].(qty := c[k].qty + delta)]
  }

  /** The cart without the line at `k`: one line per product is kept, and the product of
      that line is gone. */
  lemma DropKeepsUnique(c: seq<Line>, k: int)
    requires 0 <= k < |c| && Unique(c)
    ensures Unique(RemoveAt(c, k)) && c[k].product.id !in Ids(RemoveAt(c, k))
  {
  }

  /** addProductToCart: refuse a negative quantity, look the product up, then add the
      quantity to the line of that product (the LAST such line: the scan visits every line)
      or append a new line holding the quantity and the product found. */
  function Add(c: seq<Line>, productId: ProductId, qty: int, find: ProductId -> Lookup): (r: Result<seq<Line>>)
    ensures qty < 0 ==> r == Err(NegativeQuantity)
    ensures qty >= 0 && find(productId).Malformed? ==> r == Err(InvalidId)
    ensures qty >= 0 && find(productId).NotFound? ==> r == Err(CartProductNotFound)
    ensures r.Ok? <==> qty >= 0 && find(productId).Found?
    ensures r.Ok? && productId in Ids(c) ==>
      var k := LastIndex(Ids(c), productId);
      && |r.value| == |c|
      && r.value[k] == Line(c[k].qty + qty, c[k].product)
      && (forall i :: 0 <= i < |c| && i != k ==> r.value[i] == c[i])
    ensures r.Ok? && productId !in Ids(c) ==> r.value == c + [Line(qty, find(productId).product)]
    ensures r.Ok? && Unique(c) && AnswersWithId(find, productId) ==> Unique(r.value)
    ensures r.Ok? && NonNegative(c) ==> NonNegative(r.value)
    ensures r.Ok? && Positive(c) && qty >= 1 ==> Positive(r.value)
  {
    if qty < 0 then Err(NegativeQuantity)
    else match find(productId)
      case Malformed => Err(InvalidId)
      case NotFound => Err(CartProductNotFound)
      case Found(product) =>
        var k := LastIndex(Ids(c), productId);
        if k >= 0 then Ok(Bump(c, k, qty))
        else
          assert Ids(c + [Line(qty, product)]) == Ids(c) + [product.id];
          Ok(c + [Line(qty, product)])
  }

  /** removeProductFromCart: on the FIRST line of the product, take one item off when not
      asked to remove all and more than one is there, otherwise drop the line; a product
      not in the cart leaves the cart as it is, without an error. */
  function Remove(c: seq<Line>, productId: ProductId, all: bool): (c': seq<Line>)
    ensures productId !in Ids(c) ==> c' == c
    ensures productId in Ids(c) ==>
      var k := FirstIndex(Ids(c), productId);
      if !all && c[k].qty > 1 then
        |c'| == |c| && c'[k] == Line(c[k].qty - 1, c[k].product) && forall i :: 0 <= i < |c| && i != k ==> c'[i] == c[i]
      else
        |c'| == |c| - 1 && (forall i :: 0 <= i < k ==> c'[i] == c[i]) && (forall i :: k <= i < |c'| ==> c'[i] == c[i + 1])
    ensures Unique(c) ==> Unique(c')
    ensures NonNegative(c) ==> NonNegative(c')
    ensures Positive(c) ==> Positive(c')
  {
    var k := FirstIndex(Ids(c), productId);
    if k < 0 then c
    else if !all && c[k].qty > 1 then Bump(c, k, -1)
    else
      assert Unique(c) ==> Unique(RemoveAt(c, k)) by {
        if Unique(c) {
          DropKeepsUnique(c, k);
        }
      }
      RemoveAt(c, k)
  }

  /** How many items of the product the cart holds: the quantity on its first line, or 0
      when it has none. */
  function QtyOf(c: seq<Line>, productId: ProductId): (n: int)
  {
    var k := FirstIndex(Ids(c), productId);
    if k < 0 then 0 else c[k].qty
  }

  /** In a cart with one line per product, the quantity of a product is that of its line. */
  lemma QtyOfLine(c: seq<Line>, k: int)
    requires Unique(c) && 0 <= k < |c|
    ensures QtyOf(c, c[k].product.id) == c[k].qty
  {
  }

  /** Adding to the cart adds `qty` items of that product and changes no other product's
      quantity. */
  lemma AddChangesOnlyItsProduct(c: seq<Line>, productId: ProductId, qty: int, find: ProductId -> Lookup, other: ProductId)
    requires Unique(c) && AnswersWithId(find, productId) && Add(c, productId, qty, find).Ok?
    ensures QtyOf(Add(c, productId, qty, find).value, productId) == QtyOf(c, productId) + qty
    ensures other != productId ==> QtyOf(Add(c, productId, qty, find).value, other) == QtyOf(c, other)
  {
    var c' := Add(c, productId, qty, find).value;
    if productId in Ids(c) {
      var k := FirstIndex(Ids(c), productId);
      LastIndexIsFirstIndex(Ids(c), productId);
      QtyOfLine(c', k);
      if other in Ids(c) {
        var j := FirstIndex(Ids(c), other);
        QtyOfLine(c, j);
        QtyOfLine(c', j);
      }
    } else {
      QtyOfLine(c', |c|);
      if other in Ids(c) {
        var j := FirstIndex(Ids(c), other);
        QtyOfLine(c, j);
        QtyOfLine(c', j);
      } else if other != productId {
        assert other !in Ids(c');
      }
    }
  }

  /** Removing from a cart with one line per product takes one item of that product off,
      or the whole line when `all` is set or it holds at most one item. */
  lemma RemoveLowersItsProduct(c: seq<Line>, productId: ProductId, all: bool)
    requires Unique(c) && NonNegative(c)
    ensures QtyOf(Remove(c, productId, all), productId) ==
      if all || QtyOf(c, productId) <= 1 then 0 else QtyOf(c, productId) - 1
  {
  }

  /** Changing the quantity on one line keeps every other product's quantity. */
  lemma BumpKeepsOtherProducts(c: seq<Line>, k: int, delta: int, other: ProductId)
    requires Unique(c) && 0 <= k < |c| && other != c[k].product.id
    ensures QtyOf(Bump(c, k, delta), other) == QtyOf(c, other)
  {
  }

  /** Dropping one line keeps every other product's quantity. */
  lemma DropKeepsOtherProducts(c: seq<Line>, k: int, other: ProductId)
    requires Unique(c) && 0 <= k < |c| && other != c[k].product.id
    ensures QtyOf(RemoveAt(c, k), other) == QtyOf(c, other)
  {
    var c' := RemoveAt(c, k);
    DropKeepsUnique(c, k);
    if other in Ids(c) {
      var j := FirstIndex(Ids(c), other);
      QtyOfLine(c, j);
      var j' := if j < k then j else j - 1;
      assert c'[j'] == c[j];
      QtyOfLine(c', j');
    } else {
      assert Ids(c') == RemoveAt(Ids(c), k);
    }
  }

  /** Removing a product from a cart with one line per product leaves every other
      product's quantity as it was. */
  lemma RemoveKeepsOtherProducts(c: seq<Line>, productId: ProductId, all: bool, other: ProductId)
    requires Unique(c) && other != productId
    ensures QtyOf(Remove(c, productId, all), other) == QtyOf(c, other)
  {
    var k := FirstIndex(Ids(c), productId);
    if k >= 0 {
      if !all && c[k].qty > 1 {
        BumpKeepsOtherProducts(c, k, -1, other);
      } else {
        DropKeepsOtherProducts(c, k, other);
      }
    }
  }

  /** A call of one of the two mutating cart operations. */
  datatype Op = AddOp(productId: ProductId, qty: int) | RemoveOp(productId: ProductId, all: bool)

  /** The cart after a sequence of calls, each failed call leaving it as it was. */
  function Run(c: seq<Line>, ops: seq<Op>, find: ProductId -> Lookup): (c': seq<Line>)
    decreases |ops|
  {
    if ops == [] then c
    else
      var c' := match ops[0]
        case AddOp(id, qty) => (var r := Add(c, id, qty, find); if r.Ok? then r.value else c)
        case RemoveOp(id, all) => Remove(c, id, all);
      Run(c', ops[1..], find)
  }

  /** When the catalog resolves an identifier to a product whose identifier is spelled
      differently, the scan finds no line and a second line for the same product is added. */
  lemma OtherSpellingAddsSecondLine(p: Product, find: ProductId -> Lookup)
    requires p.id == "a" && find("A") == Found(p)
    ensures Add([Line(1, p)], "A", 1, find) == Ok([Line(1, p), Line(1, p)])
    ensures !Unique([Line(1, p), Line(1, p)])
  {
    assert Ids([Line(1, p)]) == ["a"] && "A" != "a";
    assert "A" !in Ids([Line(1, p)]);
    assert [Line(1, p)] + [Line(1, p)] == [Line(1, p), Line(1, p)];
    assert Ids([Line(1, p), Line(1, p)])[0] == Ids([Line(1, p), Line(1, p)])[1];
  }

  /** Every add in `ops` asks for at least one item. */
  predicate AddsArePositive(ops: seq<Op>)
  {
    forall i :: 0 <= i < |ops| && ops[i].AddOp? ==> ops[i].qty >= 1
  }

  /** Whatever the calls, the cart keeps one line per product and no negative quantity;
      and when every add asks for at least one item, every line keeps at least one. */
  lemma {:induction false} RunKeepsInvariants(c: seq<Line>, ops: seq<Op>, find: ProductId -> Lookup)
    requires Unique(c) && NonNegative(c) && Consistent(find)
    ensures Unique(Run(c, ops, find)) && NonNegative(Run(c, ops, find))
    ensures Positive(c) && AddsArePositive(ops) ==> Positive(Run(c, ops, find))
    decreases |ops|
  {
    if ops != [] {
      var c' := match ops[0]
        case AddOp(id, qty) => (var r := Add(c, id, qty, find); if r.Ok? then r.value else c)
        case RemoveOp(id, all) => Remove(c, id, all);
      assert AnswersWithId(find, ops[0].productId);
      assert AddsArePositive(ops) ==> AddsArePositive(ops[1..]) && (ops[0].AddOp? ==> ops[0].qty >= 1);
      RunKeepsInvariants(c', ops[1..], find);
    }
  }

  /** Adding zero items of a product not yet in the cart creates a line of quantity 0:
      only positive additions keep every line at one item or more. */
  lemma ZeroQuantityMakesEmptyLine(c: seq<Line>, productId: ProductId, find: ProductId -> Lookup)
    requires productId !in Ids(c) && find(productId).Found?
    ensures Add(c, productId, 0, find) == Ok(c + [Line(0, find(productId).product)])
    ensures !Positive(Add(c, productId, 0, find).value)
  {
    assert Add(c, productId, 0, find).value[|c|].qty == 0;
  }

  /** With two lines for one product, an add bumps the second line while a remove acts on
      the first: without the one-line-per-product invariant the two scans disagree. */
  lemma DuplicateLinesDisagree(p: Product)
    ensures Add([Line(1, p), Line(1, p)], p.id, 1, _ => Found(p)) == Ok([Line(1, p), Line(2, p)])
    ensures Remove([Line(2, p), Line(2, p)], p.id, false) == [Line(1, p), Line(2, p)]
  {
    var c := [Line(1, p), Line(1, p)];
    assert Ids(c) == [p.id, p.id];
    assert LastIndex(Ids(c), p.id) == 1;
    assert Bump(c, 1, 1) == [Line(1, p), Line(2, p)];
    var d := [Line(2, p), Line(2, p)];
    assert Ids(d) == [p.id, p.id];
    assert FirstIndex(Ids(d), p.id) == 0;
    assert Bump(d, 0, -1) == [Line(1, p), Line(2, p)];
  }

  /** Add 2 of P to an empty cart, then 3 more, take one off, then remove all of it. */
  lemma AddThenRemoveScenario(p: Product, find: ProductId -> Lookup)
    requires find(p.id) == Found(p)
    ensures Add([], p.id, 2, find) == Ok([Line(2, p)])
    ensures Add([Line(2, p)], p.id, 3, find) == Ok([Line(5, p)])
    ensures Remove([Line(5, p)], p.id, false) == [Line(4, p)]
    ensures Remove([Line(4, p)], p.id, true) == []
  {
    assert p.id !in Ids([]);
    assert [] + [Line(2, p)] == [Line(2, p)];
    assert Ids([Line(2, p)]) == [p.id];
    assert LastIndex([p.id], p.id) == 0;
    assert Bump([Line(2, p)], 0, 3) == [Line(5, p)];
    assert Ids([Line(5, p)]) == [p.id];
    assert FirstIndex([p.id], p.id) == 0;
    assert Bump([Line(5, p)], 0, -1) == [Line(4, p)];
    assert Ids([Line(4, p)]) == [p.id];
  }
}
