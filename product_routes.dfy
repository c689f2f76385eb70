/**
 * The product handlers: `GET /api/products` and `GET /api/products/:productId`
 * answer with the same field projection of the fetched rows; `PUT` and
 * `DELETE` on a product are not implemented.
 */
module ProductRoutes {
  import opened Wrappers
  import opened Orm
  import opened Http

  const NoProducts: Response := Response(404, Error("No products found"))

  /** The object literal built from each fetched product. */
  function Project(row: ProductRow): (v: ProductView)
    ensures v.id == row.product.id && v.name == row.product.name
    ensures v.description == row.product.description && v.category == row.product.category
    ensures v.originalPrice == row.product.originalPrice && v.pictureUrl == row.product.pictureUrl
    ensures v.endDate == row.product.endDate
    ensures v.seller == row.seller && v.bids == row.bids
  {
    var p := row.product;
    ProductView(p.id, p.name, p.description, p.category, p.originalPrice,
                p.pictureUrl, p.endDate, row.seller, row.bids)
  }

  /** The projection keeps everything but the `sellerId` column: two rows
      project alike exactly when they differ at most in `sellerId`. */
  lemma ProjectKeepsAllButSellerId(a: ProductRow, b: ProductRow)
    ensures Project(a) == Project(b)
        <==> a.product.(sellerId := b.product.sellerId) == b.product
             && a.seller == b.seller && a.bids == b.bids
  {
  }

  /** `products.map(...)`: one projection per row, in the rows' order. */
  function ProjectAll(rows: seq<ProductRow>): (views: seq<ProductView>)
    ensures |views| == |rows|
    ensures forall i :: 0 <= i < |rows| ==> views[i] == Project(rows[i])
  {
    if rows == [] then [] else [Project(rows[0])] + ProjectAll(rows[1..])
  }

  /** `GET /api/products`; `fetched` is what `Product.findAll` yields, `None` for null. */
  function ListProducts(fetched: Option<seq<ProductRow>>): (r: Response)
    ensures r.status == 404 <==> fetched.None?
    ensures fetched.None? ==> r == NoProducts
    ensures fetched.Some? ==>
      r.status == 200 && r.body.ProductArray?
      && |r.body.items| == |fetched.value|
      && (forall i :: 0 <= i < |fetched.value| ==> r.body.items[i] == Project(fetched.value[i]))
    ensures fetched == Some([]) ==> r == Response(200, ProductArray([]))
  {
    match fetched
    case None => NoProducts
    case Some(rows) => Response(200, ProductArray(ProjectAll(rows)))
  }

  /** `GET /api/products/:productId` on the product table. */
  function GetProduct(products: map<Id, ProductRow>, productId: Id): (r: Response)
    ensures r.status == 404 <==> productId !in products
    ensures productId !in products ==> r == ProductNotFound
    ensures productId in products ==>
      r == Response(200, ProductObject(Project(products[productId])))
  {
    match Find(products, productId)
    case None => ProductNotFound
    case Some(row) => Response(200, ProductObject(Project(row)))
  }

  /** `rows` is a listing of the whole table: every row is the table's row
      for its id, and every id of the table has a row. */
  ghost predicate ListingOf(rows: seq<ProductRow>, products: map<Id, ProductRow>)
  {
    && (forall i :: 0 <= i < |rows| ==>
          rows[i].product.id in products && products[rows[i].product.id] == rows[i])
    && (forall id :: id in products ==> exists i :: 0 <= i < |rows| && rows[i].product.id == id)
  }

  /** The two read handlers agree: what the get handler answers for an
      existing product is an element of the list handler's answer, and every
      element of the list is what the get handler answers for its id. */
  lemma GetAgreesWithList(rows: seq<ProductRow>, products: map<Id, ProductRow>)
    requires ListingOf(rows, products)
    ensures forall id :: id in products ==>
      GetProduct(products, id).body.view in ListProducts(Some(rows)).body.items
    ensures forall v :: v in ListProducts(Some(rows)).body.items ==>
      v.id in products && GetProduct(products, v.id) == Response(200, ProductObject(v))
  {
  }

  /** `PUT /api/products/:productId` is not implemented. */
  function UpdateProduct(productId: Id): (r: Response)
    ensures r.status == 600 && r.body == NoBody
  {
    NotImplemented
  }

  /** `DELETE /api/products/:productId` is not implemented. */
  function DeleteProduct(productId: Id): (r: Response)
    ensures r.status == 600 && r.body == NoBody
  {
    NotImplemented
  }
}
