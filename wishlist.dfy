/** The wishlist operations of the User model, as functions from the wishlist before the
    call to the outcome of the call: the new wishlist on success, the error otherwise.
    A failed call leaves the wishlist as it was, so the error carries no list. */
module Wishlist {
  import opened Catalog
  import opened Errors

  /** The identifiers of the wishlist's products, in order. */
  function Ids(w: seq<Product>): (ids: seq<ProductId>)
    ensures |ids| == |w|
    ensures forall i :: 0 <= i < |w| ==> ids[i] == w[i].id
  {
    seq(|w|, i requires 0 <= i < |w| => w[i].id)
  }

  /** The invariant of a wishlist: no product occurs twice. */
  predicate Unique(w: seq<Product>)
  {
    Distinct(Ids(w))
  }

  /** addProductToWhishlist: refuse a product already present (without consulting the
      catalog), then look the product up and append the copy the catalog returns. */
  function Add(w: seq<Product>, productId: ProductId, find: ProductId -> Lookup): (r: Result<seq<Product>>)
    ensures productId in Ids(w) ==> r == Err(AlreadyInWishlist)
    ensures productId !in Ids(w) && find(productId).Malformed? ==> r == Err(InvalidId)
    ensures productId !in Ids(w) && find(productId).NotFound? ==> r == Err(WishlistProductNotFound)
    ensures r.Ok? <==> productId !in Ids(w) && find(productId).Found?
    ensures r.Ok? ==> |r.value| == |w| + 1 && r.value[..|w|] == w && find(productId) == Found(r.value[|w|])
    ensures r.Ok? && Unique(w) && AnswersWithId(find, productId) ==> Unique(r.value)
  {
    if productId in Ids(w) then Err(AlreadyInWishlist)
    else match find(productId)
      case Malformed => Err(InvalidId)
      case NotFound => Err(WishlistProductNotFound)
      case Found(p) =>
        assert Ids(w + [p]) == Ids(w) + [p.id];
        Ok(w + [p])
  }

  /** removeProductFromWhishlist: remove the first entry with the identifier, or fail with
      400 when there is none. */
  function Remove(w: seq<Product>, productId: ProductId): (r: Result<seq<Product>>)
    ensures r.Err? <==> productId !in Ids(w)
    ensures r.Err? ==> r.error == NotInWishlist
    ensures r.Ok? ==> r.value == RemoveAt(w, FirstIndex(Ids(w), productId))
    ensures r.Ok? && Unique(w) ==> Unique(r.value) && productId !in Ids(r.value)
  {
    var k := FirstIndex(Ids(w), productId);
    if k < 0 then Err(NotInWishlist)
    else
      var rest := RemoveAt(w, k);
      assert Unique(w) ==> Unique(rest) && productId !in Ids(rest) by {
        if Unique(w) {
          assert Ids(rest) == RemoveAt(Ids(w), k);
          DistinctWithout(Ids(w), k);
        }
      }
      Ok(rest)
  }

  /** Removing what was just added gives back the wishlist as it was. */
  lemma RemoveUndoesAdd(w: seq<Product>, productId: ProductId, find: ProductId -> Lookup)
    requires Add(w, productId, find).Ok? && AnswersWithId(find, productId)
    ensures Remove(Add(w, productId, find).value, productId) == Ok(w)
  {
    var w' := Add(w, productId, find).value;
    assert Ids(w') == Ids(w) + [productId];
    assert Ids(w')[..|w|] == Ids(w);
    FirstIndexAt(Ids(w'), productId, |w|);
    assert RemoveAt(w', |w|) == w;
  }

  /** Without repeated products, removing the same product twice fails the second time. */
  lemma RemoveTwiceFails(w: seq<Product>, productId: ProductId)
    requires Unique(w) && Remove(w, productId).Ok?
    ensures Remove(Remove(w, productId).value, productId) == Err(NotInWishlist)
  {
  }

  /** When the catalog resolves an identifier to a product whose identifier is spelled
      differently, the string comparison misses the entry already there and the same
      product is appended a second time. */
  lemma OtherSpellingAddsRepeat(p: Product, find: ProductId -> Lookup)
    requires p.id == "a" && find("A") == Found(p)
    ensures Add([p], "A", find) == Ok([p, p])
    ensures !Unique([p, p])
  {
    assert Ids([p]) == ["a"] && "A" != "a";
    assert "A" !in Ids([p]);
    assert [p] + [p] == [p, p];
    assert Ids([p, p])[0] == Ids([p, p])[1];
  }

  /** A call of one of the two mutating wishlist operations. */
  datatype Op = AddOp(productId: ProductId) | RemoveOp(productId: ProductId)

  /** The outcome of one call. */
  function Apply(w: seq<Product>, op: Op, find: ProductId -> Lookup): (r: Result<seq<Product>>)
  {
    match op
    case AddOp(id) => Add(w, id, find)
    case RemoveOp(id) => Remove(w, id)
  }

  /** The wishlist after a sequence of calls, each failed call leaving it as it was. */
  function Run(w: seq<Product>, ops: seq<Op>, find: ProductId -> Lookup): (w': seq<Product>)
    decreases |ops|
  {
    if ops == [] then w
    else
      var r := Apply(w, ops[0], find);
      Run(if r.Ok? then r.value else w, ops[1..], find)
  }

  /** Whatever the calls, a wishlist without repeated products keeps none. */
  lemma {:induction false} RunKeepsUnique(w: seq<Product>, ops: seq<Op>, find: ProductId -> Lookup)
    requires Unique(w) && Consistent(find)
    ensures Unique(Run(w, ops, find))
    decreases |ops|
  {
    if ops != [] {
      var r := Apply(w, ops[0], find);
      assert AnswersWithId(find, ops[0].productId);
      RunKeepsUnique(if r.Ok? then r.value else w, ops[1..], find);
    }
  }
}
