/** The User document: account fields, the embedded wishlist and cart, and the methods
    that read and change them in place. Saving is modelled by copying the in-memory lists
    to the persisted ones; a failed call raises before it changes or saves anything. */
module Users {
  import opened Catalog
  import opened Errors
  import Wishlist
  import Cart

  /** The public view of a user: the identity fields, never the password. */
  datatype PublicUser = PublicUser(id: string, email: string, firstname: string, lastname: string)

  class User {
    const id: string
    var email: string
    var password: string
    var firstname: string
    var lastname: string
    var createdAt: int
    var wishlist: seq<Product>
    var cart: seq<Cart.Line>

    // What the last save persisted, and how many saves there have been.
    var savedWishlist: seq<Product>
    var savedCart: seq<Cart.Line>
    ghost var saves: nat

    /** The invariants the wishlist and cart operations keep. */
    ghost predicate Valid()
      reads this
    {
      Wishlist.Unique(wishlist) && Cart.Unique(cart) && Cart.NonNegative(cart)
    }

    /** A user as registered: empty wishlist and cart. */
    constructor (id: string, email: string, password: string, firstname: string, lastname: string, createdAt: int)
      ensures this.id == id && this.email == email && this.password == password
      ensures this.firstname == firstname && this.lastname == lastname && this.createdAt == createdAt
      ensures wishlist == [] && cart == [] && savedWishlist == [] && savedCart == [] && saves == 0
      ensures Valid()
    {
      this.id, this.email, this.password := id, email, password;
      this.firstname, this.lastname, this.createdAt := firstname, lastname, createdAt;
      wishlist, cart := [], [];
      savedWishlist, savedCart := [], [];
      saves := 0;
    }

    /** asJson: the identity fields only. */
    function AsJson(): (v: PublicUser)
      reads this
      ensures v.id == id && v.email == email && v.firstname == firstname && v.lastname == lastname
    {
      PublicUser(id, email, firstname, lastname)
    }

    /** getWhishlist: the wishlist as stored; it has no repeated product when the user is valid. */
    function GetWishlist(): (r: seq<Product>)
      reads this
      ensures r == wishlist
      ensures Valid() ==> Wishlist.Unique(r)
    {
      wishlist
    }

    /** getCart: the cart as stored; one line per product when the user is valid. */
    function GetCart(): (r: seq<Cart.Line>)
      reads this
      ensures r == cart
      ensures Valid() ==> Cart.Unique(r) && Cart.NonNegative(r)
    {
      cart
    }

    /** save: persist the wishlist and the cart as they are now. */
    method Save()
      modifies this`savedWishlist, this`savedCart, this`saves
      ensures savedWishlist == wishlist && savedCart == cart && saves == old(saves) + 1
    {
      savedWishlist, savedCart := wishlist, cart;
      saves := saves + 1;
    }

    /** The wishlist's `find` for an entry with the identifier: it stops at the first one. */
    method FindInWishlist(productId: ProductId) returns (existent: bool)
      ensures existent <==> productId in Wishlist.Ids(wishlist)
    {
      existent := false;
      var i := 0;
      while i < |wishlist| && !existent
        invariant 0 <= i <= |wishlist|
        invariant existent <==> productId in Wishlist.Ids(wishlist)[..i]
      {
        existent := wishlist[i].id == productId;
        i := i + 1;
      }
      assert !existent ==> Wishlist.Ids(wishlist)[..i] == Wishlist.Ids(wishlist);
    }

    /** The cart's `find` whose callback never returns true: it visits every line and
        keeps the index of the last line of the product, -1 when there is none. */
    method ScanCart(productId: ProductId) returns (matchedIndex: int)
      ensures matchedIndex == LastIndex(Cart.Ids(cart), productId)
    {
      matchedIndex := -1;
      for index := 0 to |cart|
        invariant matchedIndex == LastIndex(Cart.Ids(cart)[..index], productId)
      {
        assert Cart.Ids(cart)[..index + 1][..index] == Cart.Ids(cart)[..index];
        if cart[index].product.id == productId {
          matchedIndex := index;
        }
      }
      assert Cart.Ids(cart)[..|cart|] == Cart.Ids(cart);
    }

    /** addProductToWhishlist. */
    method AddProductToWishlist(productId: ProductId, find: ProductId -> Lookup) returns (r: Result<seq<Product>>)
      modifies this`wishlist, this`savedWishlist, this`savedCart, this`saves
      ensures r == Wishlist.Add(old(wishlist), productId, find)
      ensures r.Ok? ==> wishlist == r.value && savedWishlist == wishlist && savedCart == cart && saves == old(saves) + 1
      ensures r.Err? ==> unchanged(this)
      ensures old(Valid()) && AnswersWithId(find, productId) ==> Valid()
    {
      var existent := FindInWishlist(productId);
      if existent {
        return Err(AlreadyInWishlist);
      }
      var product: Product;
      match find(productId) {
        case Malformed => return Err(InvalidId);
        case NotFound => return Err(WishlistProductNotFound);
        case Found(p) => product := p;
      }
      wishlist := wishlist + [product];
      Save();
      return Ok(wishlist);
    }

    /** removeProductFromWhishlist. */
    method RemoveProductFromWishlist(productId: ProductId) returns (r: Result<seq<Product>>)
      modifies this`wishlist, this`savedWishlist, this`savedCart, this`saves
      ensures r == Wishlist.Remove(old(wishlist), productId)
      ensures r.Ok? ==> wishlist == r.value && savedWishlist == wishlist && savedCart == cart && saves == old(saves) + 1
      ensures r.Err? ==> unchanged(this)
      ensures old(Valid()) ==> Valid()
    {
      var productFound := false;
      for i := 0 to |wishlist|
        invariant wishlist == old(wishlist) && !productFound
        invariant forall j :: 0 <= j < i ==> wishlist[j].id != productId
      {
        if wishlist[i].id == productId {
          FirstIndexAt(Wishlist.Ids(wishlist), productId, i);
          productFound := true;
          wishlist := RemoveAt(wishlist, i);
          assert Ok(wishlist) == Wishlist.Remove(old(wishlist), productId);
          break;
        }
      }
      if !productFound {
        assert productId !in Wishlist.Ids(wishlist);
        return Err(NotInWishlist);
      }
      Save();
      return Ok(wishlist);
    }

    /** addProductToCart. */
    method AddProductToCart(productId: ProductId, qty: int, find: ProductId -> Lookup) returns (r: Result<seq<Cart.Line>>)
      modifies this`cart, this`savedWishlist, this`savedCart, this`saves
      ensures r == Cart.Add(old(cart), productId, qty, find)
      ensures r.Ok? ==> cart == r.value && savedCart == cart && savedWishlist == wishlist && saves == old(saves) + 1
      ensures r.Err? ==> unchanged(this)
      ensures old(Valid()) && AnswersWithId(find, productId) ==> Valid()
      ensures old(Cart.Positive(cart)) && qty >= 1 ==> Cart.Positive(cart)
    {
      if qty < 0 {
        return Err(NegativeQuantity);
      }
      var product: Product;
      match find(productId) {
        case Malformed => return Err(InvalidId);
        case NotFound => return Err(CartProductNotFound);
        case Found(p) => product := p;
      }
      assert find(productId) == Found(product);
      var matchedIndex := ScanCart(productId);
      ghost var before := cart;
      if matchedIndex >= 0 {
        cart := cart[matchedIndex := cart[matchedIndex].(qty := cart[matchedIndex].qty + qty)];
        assert cart == Cart.Bump(before, matchedIndex, qty);
      } else {
        cart := cart + [Cart.Line(qty, product)];
        assert productId !in Cart.Ids(before);
      }
      assert Ok(cart) == Cart.Add(before, productId, qty, find);
      Save();
      return Ok(cart);
    }

    /** removeProductFromCart: never fails; a product not in the cart changes nothing but
        the cart is still saved. */
    method RemoveProductFromCart(productId: ProductId, all: bool) returns (r: seq<Cart.Line>)
      modifies this`cart, this`savedWishlist, this`savedCart, this`saves
      ensures r == cart == Cart.Remove(old(cart), productId, all)
      ensures savedCart == cart && savedWishlist == wishlist && saves == old(saves) + 1
      ensures old(Valid()) ==> Valid()
      ensures old(Cart.Positive(cart)) ==> Cart.Positive(cart)
    {
      for i := 0 to |cart|
        invariant cart == old(cart)
        invariant forall j :: 0 <= j < i ==> cart[j].product.id != productId
      {
        if cart[i].product.id == productId {
          FirstIndexAt(Cart.Ids(cart), productId, i);
          if !all && cart[i].qty > 1 {
            cart := cart[i := cart[i].(qty := cart[i].qty - 1)];
            assert cart == Cart.Bump(old(cart), i, -1);
          } else {
            cart := RemoveAt(cart, i);
          }
          assert cart == Cart.Remove(old(cart), productId, all);
          break;
        }
      }
      assert cart == Cart.Remove(old(cart), productId, all);
      Save();
      r := cart;
    }
  }

  /** The public view does not depend on the password, the wishlist or the cart. */
  lemma AsJsonHidesPassword(a: User, b: User)
    requires a.id == b.id && a.email == b.email && a.firstname == b.firstname && a.lastname == b.lastname
    ensures a.AsJson() == b.AsJson()
  {
  }

  /** A client of the cart methods: add 2 of a product, add 3 more, take one off, remove it. */
  method CartScenario(p: Product)
  {
    var find := (id: ProductId) => if id == p.id then Found(p) else NotFound;
    var u := new User("u1", "a@b.co", "hash", "Ada", "Byron", 0);
    Cart.AddThenRemoveScenario(p, find);
    var r := u.AddProductToCart(p.id, 2, find);
    assert r == Ok([Cart.Line(2, p)]);
    r := u.AddProductToCart(p.id, 3, find);
    assert r == Ok([Cart.Line(5, p)]);
    var c := u.RemoveProductFromCart(p.id, false);
    assert c == [Cart.Line(4, p)];
    c := u.RemoveProductFromCart(p.id, true);
    assert c == [];
  }
}
