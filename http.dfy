/**
 * What a handler sends back: a status code and a JSON body.  Each body shape
 * is one constructor; the field names of the views are the JSON keys.
 */
module Http {
  import opened Wrappers
  import opened JsNumber
  import opened Orm

  /** The body of a created bid's 201 answer. */
  datatype BidView = BidView(id: Id, productId: Id, price: Number, date: int, bidderId: Id)

  /** The product projection shared by the list and get handlers. */
  datatype ProductView = ProductView(
    id: Id,
    name: string,
    description: Option<string>,
    category: Option<string>,
    originalPrice: Number,
    pictureUrl: Option<string>,
    endDate: int,
    seller: Option<SellerSummary>,
    bids: seq<BidSummary>)

  /** The user projection of the user get handler. */
  datatype UserView = UserView(
    id: Id,
    username: string,
    email: string,
    admin: bool,
    products: seq<Product>,
    bids: seq<Bid>)

  datatype Body =
    | NoBody                                            // `send()` with nothing
    | Error(error: string)                              // `{ error }`
    | InvalidFields(error: string, details: seq<string>) // `{ error, details }`
    | CreatedBid(bid: BidView)
    | ProductArray(items: seq<ProductView>)
    | ProductObject(view: ProductView)
    | UserObject(user: UserView)

  datatype Response = Response(status: int, body: Body)

  /** The 404 of both handlers that look a product up by id. */
  const ProductNotFound: Response := Response(404, Error("Product not found"))

  /** `res.status(600).send()`, the answer of every unimplemented handler. */
  const NotImplemented: Response := Response(600, NoBody)
}
