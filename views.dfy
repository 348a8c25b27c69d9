/**
 * ProductReviewsView: the public listing of a product's reviews, addressed
 * by the product's slug.
 */
module ReviewViews {
  import opened Wrappers
  import opened QuerySets
  import opened ReviewModels
  import opened ReviewSerializers

  const HTTP_200_OK := 200
  const HTTP_404_NOT_FOUND := 404
  const PRODUCT_NOT_FOUND := "Product does not exist!"

  /** No two rows of the product table share a slug. */
  predicate UniqueSlugs(catalogue: seq<Product>)
  {
    forall i, j :: 0 <= i < j < |catalogue| ==> catalogue[i].slug != catalogue[j].slug
  }

  /** No two rows of the product table share a primary key. */
  predicate UniqueIds(catalogue: seq<Product>)
  {
    forall i, j :: 0 <= i < j < |catalogue| ==> catalogue[i].id != catalogue[j].id
  }

  /**
   * `Product.objects.get_or_none(slug=...)`: a product with exactly that
   * slug, or None when the table has none.
   */
  function GetBySlug(catalogue: seq<Product>, slug: string): (r: Option<Product>)
    ensures r.None? <==> forall p :: p in catalogue ==> p.slug != slug
    ensures r.Some? ==> r.value in catalogue && r.value.slug == slug
  {
    if catalogue == [] then None
    else if catalogue[0].slug == slug then Some(catalogue[0])
    else GetBySlug(catalogue[1..], slug)
  }

  /** With unique slugs the lookup finds the one product that has the slug. */
  lemma GetBySlugFindsTheProduct(catalogue: seq<Product>, p: Product)
    requires UniqueSlugs(catalogue)
    requires p in catalogue
    ensures GetBySlug(catalogue, p.slug) == Some(p)
  {
  }

  /**
   * `Review.objects.filter(product=product)`: exactly the reviews of one
   * product, each with all its copies, in table order.
   */
  function ReviewsOf(store: seq<Review>, product: Product): (r: seq<Review>)
    ensures forall x :: x in r <==> x in store && ReviewsProduct(x, product)
    ensures forall x :: multiset(r)[x] == if ReviewsProduct(x, product) then multiset(store)[x] else 0
    ensures IsSubsequence(r, store)
  {
    Filter(store, x => ReviewsProduct(x, product))
  }

  /** The query behind the view: the product is unknown, or it is found with its reviews. */
  datatype Listing = ProductNotFound | Listed(product: Product, reviews: seq<Review>)

  /**
   * Resolve the slug, then select every review of the resolved product: no
   * other review, each of its reviews as often as it is stored, in table
   * order.
   */
  function ListByProduct(catalogue: seq<Product>, store: seq<Review>, slug: string): (r: Listing)
    ensures r.ProductNotFound? <==> forall p :: p in catalogue ==> p.slug != slug
    ensures r.Listed? ==> r.product in catalogue && r.product.slug == slug
    ensures r.Listed? ==> forall x :: x in r.reviews ==> ReviewsProduct(x, r.product)
    ensures r.Listed? ==> forall x :: ReviewsProduct(x, r.product) ==> multiset(r.reviews)[x] == multiset(store)[x]
    ensures r.Listed? ==> IsSubsequence(r.reviews, store)
  {
    match GetBySlug(catalogue, slug)
    case None => ProductNotFound
    case Some(product) => Listed(product, ReviewsOf(store, product))
  }

  /** The response payload: an error message, or the serialized reviews. */
  datatype Body<U, P> = Message(message: string) | Reviews(items: seq<ReviewData<U, P>>)

  /** An HTTP response: its status code and its payload. */
  datatype Response<U, P> = Response(status: int, data: Body<U, P>)

  /**
   * ProductReviewsView.get: 404 with the fixed message when no product has
   * the slug; otherwise 200 with one serialized item per listed review.
   */
  function Get<U, P>(catalogue: seq<Product>, store: seq<Review>, slug: string,
                     profile: User -> U, productView: Product -> P): (resp: Response<U, P>)
    ensures resp.status == HTTP_404_NOT_FOUND <==> forall p :: p in catalogue ==> p.slug != slug
    ensures resp.status == HTTP_404_NOT_FOUND ==> resp.data == Message(PRODUCT_NOT_FOUND)
    ensures resp.status != HTTP_404_NOT_FOUND ==> resp.status == HTTP_200_OK && resp.data.Reviews?
  {
    match ListByProduct(catalogue, store, slug)
    case ProductNotFound =>
      Response(HTTP_404_NOT_FOUND, Message(PRODUCT_NOT_FOUND))
    case Listed(_, reviews) =>
      Response(HTTP_200_OK, Reviews(SerializeMany(reviews, profile, productView)))
  }

  /**
   * When a product has the slug, the response is 200 and lists, in table
   * order, exactly the serialized reviews of that product.
   */
  lemma GetListsReviewsOfProduct<U, P>(catalogue: seq<Product>, store: seq<Review>, p: Product,
                                       profile: User -> U, productView: Product -> P)
    requires UniqueSlugs(catalogue)
    requires p in catalogue
    ensures Get(catalogue, store, p.slug, profile, productView)
         == Response(HTTP_200_OK, Reviews(SerializeMany(ReviewsOf(store, p), profile, productView)))
  {
    GetBySlugFindsTheProduct(catalogue, p);
  }

  /**
   * Every review the table holds refers to a product row of the catalogue,
   * and primary keys and slugs are unique there.
   */
  predicate WellFormed(catalogue: seq<Product>, store: seq<Review>)
  {
    && UniqueIds(catalogue)
    && UniqueSlugs(catalogue)
    && forall x :: x in store ==> x.product in catalogue
  }

  /** In a well-formed database every listed review's product is the resolved product itself. */
  lemma ListedProductIsResolved(catalogue: seq<Product>, store: seq<Review>, slug: string)
    requires WellFormed(catalogue, store)
    ensures var r := ListByProduct(catalogue, store, slug);
            r.Listed? ==> forall x :: x in r.reviews ==> x.product == r.product
  {
  }

  /** A 200 response over a table of model-valid reviews shows only ratings 1 to 5. */
  lemma ListedRatingsInRange<U, P>(catalogue: seq<Product>, store: seq<Review>, slug: string,
                                  profile: User -> U, productView: Product -> P)
    requires forall x :: x in store ==> IsValid(x)
    ensures var resp := Get(catalogue, store, slug, profile, productView);
            resp.data.Reviews? ==>
              forall i :: 0 <= i < |resp.data.items| ==> RatingValidator(resp.data.items[i].rating).Success?
  {
    var l := ListByProduct(catalogue, store, slug);
    if l.Listed? {
      forall i | 0 <= i < |l.reviews| ensures 1 <= l.reviews[i].rating <= 5 {
        assert l.reviews[i] in l.reviews;
      }
    }
  }

  /**
   * Deleting a product cascades to exactly the reviews its listing shows:
   * the listing and the remaining table split the old table, and no review
   * of the product is left to list.
   */
  lemma DeleteProductRemovesListing(store: seq<Review>, product: Product)
    ensures multiset(ReviewsOf(store, product)) + multiset(DeleteProduct(store, product)) == multiset(store)
    ensures ReviewsOf(DeleteProduct(store, product), product) == []
  {
    FilterPartition(store, x => ReviewsProduct(x, product), x => !ReviewsProduct(x, product));
  }
}
