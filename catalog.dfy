/** Products, the catalog lookup the User model consults, and the searches over the
    product identifiers held in a wishlist or a cart. */
module Catalog {

  /** A product identifier, compared as its string form. */
  type ProductId = string

  /** A product as stored in the catalog. A copy of it is what a wishlist entry or a cart
      line holds: a snapshot, unaffected by later changes to the catalog. */
  datatype Product = Product(id: ProductId, name: string, price: real, oldPrice: real, pictureUrl: string)

  /** What a catalog lookup by identifier answers: the product, nothing, or a failure
      because the identifier is not a well-formed identifier. */
  datatype Lookup = Found(product: Product) | NotFound | Malformed

  /** The catalog answers a lookup of `id` with a product whose identifier is `id`. */
  predicate AnswersWithId(find: ProductId -> Lookup, id: ProductId)
  {
    find(id).Found? ==> find(id).product.id == id
  }

  /** The catalog answers every lookup with a product of the identifier asked for. */
  ghost predicate Consistent(find: ProductId -> Lookup)
  {
    forall id :: AnswersWithId(find, id)
  }

  /** No identifier occurs twice. */
  predicate Distinct(ids: seq<ProductId>)
  {
    forall i, j :: 0 <= i < j < |ids| ==> ids[i] != ids[j]
  }

  /** The index of the first occurrence of `id` in `ids`, or -1 when there is none. */
  function FirstIndex(ids: seq<ProductId>, id: ProductId): (k: int)
    ensures -1 <= k < |ids|
    ensures k == -1 <==> id !in ids
    ensures 0 <= k ==> ids[k] == id && forall j :: 0 <= j < k ==> ids[j] != id
  {
    if |ids| == 0 then -1
    else if ids[0] == id then 0
    else
      var k := FirstIndex(ids[1..], id);
      if k < 0 then -1 else k + 1
  }

  /** The index of the last occurrence of `id` in `ids`, or -1 when there is none. */
  function LastIndex(ids: seq<ProductId>, id: ProductId): (k: int)
    ensures -1 <= k < |ids|
    ensures k == -1 <==> id !in ids
    ensures 0 <= k ==> ids[k] == id && forall j :: k < j < |ids| ==> ids[j] != id
  {
    if |ids| == 0 then -1
    else if ids[|ids| - 1] == id then |ids| - 1
    else LastIndex(ids[..|ids| - 1], id)
  }

  /** An occurrence of `id` with none before it is the first occurrence. */
  lemma FirstIndexAt(ids: seq<ProductId>, id: ProductId, k: int)
    requires 0 <= k < |ids| && ids[k] == id && forall j :: 0 <= j < k ==> ids[j] != id
    ensures FirstIndex(ids, id) == k
  {
  }

  /** `s` without its element at `k`, the others kept in order (an in-place `splice(k, 1)`). */
  function RemoveAt<T>(s: seq<T>, k: int): (r: seq<T>)
    requires 0 <= k < |s|
    ensures |r| == |s| - 1
    ensures forall i :: 0 <= i < k ==> r[i] == s[i]
    ensures forall i :: k <= i < |r| ==> r[i] == s[i + 1]
    ensures multiset(r) + multiset{s[k]} == multiset(s)
  {
    assert s == s[..k] + [s[k]] + s[k + 1..];
    s[..k] + s[k + 1..]
  }

  /** Taking one identifier out of a list without repeats leaves a list without repeats
      that no longer holds it. */
  lemma DistinctWithout(ids: seq<ProductId>, k: int)
    requires Distinct(ids) && 0 <= k < |ids|
    ensures Distinct(RemoveAt(ids, k)) && ids[k] !in RemoveAt(ids, k)
  {
  }

  /** In a list without repeated identifiers the last and the first occurrence are one. */
  lemma LastIndexIsFirstIndex(ids: seq<ProductId>, id: ProductId)
    requires Distinct(ids)
    ensures LastIndex(ids, id) == FirstIndex(ids, id)
  {
  }
}
