/**
 * The bid handlers: `POST /api/products/:productId/bids`, which validates
 * the price, looks the product up and records a bid owned by the caller,
 * and `DELETE /api/bids/:bidId`, which is not implemented.
 */
module BidRoutes {
  import opened Wrappers
  import opened JsNumber
  import opened Orm
  import opened Http

  /** The guard `Number.isNaN(price) || !(price > 0)`: the prices it lets
      through are exactly +Infinity and the finite values above zero. */
  function RejectsPrice(price: Number): (rejected: bool)
    ensures !rejected <==> price == PositiveInfinity || (price.Finite? && price.value > 0.0)
  {
    IsNaN(price) || !GreaterThanZero(price)
  }

  const InvalidPrice: Response :=
    Response(400, InvalidFields("Invalid or missing fields", ["price"]))

  /** The 201 body: the created bid's id, productId, price, date and bidderId. */
  function Echo(b: Bid): (v: BidView)
    ensures v.id == b.id && v.productId == b.productId && v.price == b.price
    ensures v.date == b.date && v.bidderId == b.bidderId
  {
    BidView(b.id, b.productId, b.price, b.date, b.bidderId)
  }

  /** The outcome of one bid request: the answer and the bid to store, if any. */
  datatype BidStep = BidStep(response: Response, created: Option<Bid>)

  /**
   * The bid-creation handler as a function of the product table and the
   * request: `caller` is the authenticated user's id, `now` the value of
   * `Date.now()` and `newId` the id the store gives the new record.
   */
  function HandleBid(products: map<Id, ProductRow>, productId: Id, price: Number,
                     caller: Id, now: int, newId: Id): (s: BidStep)
    // an invalid price answers 400 naming `price`, whatever the store holds
    ensures s.response.status == 400 <==> RejectsPrice(price)
    ensures RejectsPrice(price) ==> s.response == InvalidPrice
    // a valid price for a missing product answers 404
    ensures s.response.status == 404 <==> !RejectsPrice(price) && productId !in products
    ensures s.response.status == 404 ==> s.response == ProductNotFound
    // otherwise exactly one bid is created and echoed with 201
    ensures s.response.status == 201 <==> s.created.Some?
    ensures s.response.status == 400 || s.response.status == 404 || s.response.status == 201
    ensures s.created.Some? ==>
      s.created.value == Bid(newId, productId, caller, price, now)
      && GreaterThanZero(s.created.value.price)
      && productId in products
      && s.response.body == CreatedBid(Echo(s.created.value))
  {
    if RejectsPrice(price) then
      BidStep(InvalidPrice, None)
    else if Find(products, productId).None? then
      BidStep(ProductNotFound, None)
    else
      var bid := Bid(newId, productId, caller, price, now);
      BidStep(Response(201, CreatedBid(Echo(bid))), Some(bid))
  }

  /** The bid table after a step: the created bid, if any, is added under its id. */
  function Record(bids: map<Id, Bid>, s: BidStep): (after: map<Id, Bid>)
    ensures s.created.None? ==> after == bids
    ensures s.created.Some? ==>
      && after.Keys == bids.Keys + {s.created.value.id}
      && after[s.created.value.id] == s.created.value
      && (forall k :: k in bids && k != s.created.value.id ==> after[k] == bids[k])
  {
    match s.created
    case None => bids
    case Some(b) => bids[b.id := b]
  }

  /** A rejected request leaves the bid table as it was, and a successful one
      adds exactly the new bid under the fresh id. */
  lemma RecordAddsOnlyTheCreatedBid(products: map<Id, ProductRow>, bids: map<Id, Bid>,
                                    productId: Id, price: Number, caller: Id, now: int, newId: Id)
    requires newId !in bids
    ensures var s := HandleBid(products, productId, price, caller, now, newId);
      && (s.response.status != 201 ==> Record(bids, s) == bids)
      && (s.response.status == 201 ==>
            Record(bids, s).Keys == bids.Keys + {newId}
            && |Record(bids, s)| == |bids| + 1
            && (forall k :: k in bids ==> Record(bids, s)[k] == bids[k]))
  {
  }

  /** The handler keeps the bid table consistent: stored bids keep a price
      greater than zero and refer to existing products. */
  lemma HandleBidPreservesConsistency(products: map<Id, ProductRow>, bids: map<Id, Bid>,
                                      productId: Id, price: Number, caller: Id, now: int, newId: Id)
    requires BidsConsistent(bids, products)
    ensures BidsConsistent(Record(bids, HandleBid(products, productId, price, caller, now, newId)), products)
  {
  }

  /** Validation comes before the lookup: a rejected price gets the same
      answer from any two stores, including one without the product. */
  lemma ValidationPrecedesLookup(p1: map<Id, ProductRow>, p2: map<Id, ProductRow>,
                                 productId: Id, price: Number, caller: Id, now: int, id1: Id, id2: Id)
    requires RejectsPrice(price)
    ensures HandleBid(p1, productId, price, caller, now, id1)
         == HandleBid(p2, productId, price, caller, now, id2)
         == BidStep(InvalidPrice, None)
  {
  }

  /** The guard does not exclude +Infinity: such a bid is created. */
  lemma InfinityIsAccepted(products: map<Id, ProductRow>, productId: Id, caller: Id, now: int, newId: Id)
    requires productId in products
    ensures HandleBid(products, productId, PositiveInfinity, caller, now, newId).response.status == 201
  {
  }

  /** `POST /api/products/:productId/bids` run against the store. */
  method PostBid(db: Store, productId: Id, price: Number, caller: Id, now: int, newId: Id)
    returns (res: Response)
    requires db.Valid()
    requires newId !in db.bids
    modifies db
    ensures db.Valid()
    ensures res == HandleBid(old(db.products), productId, price, caller, now, newId).response
    ensures db.bids == Record(old(db.bids), HandleBid(old(db.products), productId, price, caller, now, newId))
    ensures res.status == 201 ==> |db.bids| == |old(db.bids)| + 1
    ensures db.products == old(db.products) && db.users == old(db.users)
  {
    if IsNaN(price) || !GreaterThanZero(price) {
      return InvalidPrice;
    }
    var product := Find(db.products, productId);
    if product.None? {
      return ProductNotFound;
    }
    var bid := Bid(newId, productId, caller, price, now);
    db.CreateBid(bid);
    res := Response(201, CreatedBid(Echo(bid)));
  }

  /** `DELETE /api/bids/:bidId` answers 600; having no `modifies` clause it
      cannot change the store. */
  method DeleteBid(db: Store, bidId: Id) returns (res: Response)
    ensures res.status == 600 && res.body == NoBody
  {
    res := NotImplemented;
  }
}
