/**
 * The records the handlers read from and write to the store, and the store
 * itself.  Each table is a map from primary key to record.  The associations
 * the queries ask for (a product's seller and bids, a user's products and
 * bids) are carried in the stored rows as the store supplies them; how they
 * are joined is not part of this model.
 */
module Orm {
  import opened Wrappers
  import opened JsNumber

  type Id = string

  /** A product's own columns. `endDate` is a timestamp in milliseconds. */
  datatype Product = Product(
    id: Id,
    name: string,
    description: Option<string>,
    category: Option<string>,
    originalPrice: Number,
    pictureUrl: Option<string>,
    endDate: int,
    sellerId: Id)

  /** A bid's columns. `date` is the creation time in milliseconds. */
  datatype Bid = Bid(id: Id, productId: Id, bidderId: Id, price: Number, date: int)

  /** The seller as included with a product: attributes `id` and `username`. */
  datatype SellerSummary = SellerSummary(id: Id, username: string)

  /** A bid as included with a product: attributes `id`, `price` and `date`. */
  datatype BidSummary = BidSummary(id: Id, price: Number, date: int)

  /** A product row as fetched with its `seller` and `bids` associations. */
  datatype ProductRow = ProductRow(product: Product, seller: Option<SellerSummary>, bids: seq<BidSummary>)

  /** A user row as fetched with its `products` and `bids` associations. */
  datatype UserRow = UserRow(
    id: Id,
    username: string,
    email: string,
    admin: bool,
    products: seq<Product>,
    bids: seq<Bid>)

  /** `findOne({ where: { id } })` on a table keyed by primary key. */
  function Find<T>(table: map<Id, T>, id: Id): (r: Option<T>)
    ensures r.Some? <==> id in table
    ensures r.Some? ==> r.value == table[id]
  {
    if id in table then Some(table[id]) else None
  }

  /** The bid table is consistent with the product table: every bid is stored
      under its own id, has a price greater than zero and names a product
      that exists. */
  ghost predicate BidsConsistent(bids: map<Id, Bid>, products: map<Id, ProductRow>)
  {
    forall k :: k in bids ==>
      bids[k].id == k && GreaterThanZero(bids[k].price) && bids[k].productId in products
  }

  ghost predicate ProductsKeyed(products: map<Id, ProductRow>)
  {
    forall k :: k in products ==> products[k].product.id == k
  }

  ghost predicate UsersKeyed(users: map<Id, UserRow>)
  {
    forall k :: k in users ==> users[k].id == k
  }

  /** The persistent store shared by all handlers. */
  class Store {
    var products: map<Id, ProductRow>
    var bids: map<Id, Bid>
    var users: map<Id, UserRow>

    ghost predicate Valid()
      reads this
    {
      ProductsKeyed(products) && UsersKeyed(users) && BidsConsistent(bids, products)
    }

    constructor (products: map<Id, ProductRow>, bids: map<Id, Bid>, users: map<Id, UserRow>)
      requires ProductsKeyed(products) && UsersKeyed(users) && BidsConsistent(bids, products)
      ensures Valid()
      ensures this.products == products && this.bids == bids && this.users == users
    {
      this.products := products;
      this.bids := bids;
      this.users := users;
    }

    /** `Bid.create(...)`: stores the record under its id and touches nothing else. */
    method CreateBid(b: Bid)
      requires b.id !in bids
      modifies this
      ensures bids == old(bids)[b.id := b]
      ensures |bids| == |old(bids)| + 1
      ensures products == old(products) && users == old(users)
    {
      bids := bids[b.id := b];
    }
  }
}
