# Product reviews: a Dafny model

This project models the reviews app of a Django REST Framework shop
(`apps/reviews`). It covers three parts:

- The `Review` table and its rating choices. The two foreign keys of the
  table cascade on delete.
- The serializers. They fix the shape of a review in a response and
  validate the add-review input. The rating validator is part of them.
- `ProductReviewsView.get`. It resolves a product by its slug, answers 404
  with a fixed message when there is none, and otherwise answers 200 with
  that product's reviews.

All three source files are declarative or pure, so the model is made of
datatypes, functions and lemmas. The database is a value:

- The product table is a `seq<Product>`.
- The review table is a `seq<Review>` in the store's default order.
- A queryset `filter` is `QuerySets.Filter` over that sequence.

A foreign key is compared by primary key, as Django compares it. The view
is a function of (product table, review table, slug), so it is read-only by
construction: it returns a response and changes neither table.

Modules: `Wrappers` (Option, Result), `QuerySets` (filter over a table),
`ReviewModels` (models.py), `ReviewSerializers` (serializers.py) and
`ReviewViews` (views.py).

## Model

| member | source | states |
|---|---|---|
| `QuerySets.Filter` | apps/reviews/views.py:18 | the filtered rows are exactly the rows that satisfy the condition, each with its full number of copies and none other, as a subsequence of the table (order kept) |
| `ReviewModels.RatingDomainExact` | apps/reviews/models.py:8 | the stored values of `RATING_CHOICES` are exactly {1, 2, 3, 4, 5} |
| `ReviewModels.RatingLabelsAreValues` | apps/reviews/models.py:8 | every rating choice's display label equals its stored value |
| `ReviewModels.IsValid` | apps/reviews/models.py:22-23 | a review passes model validation of its own fields iff its rating is one of the choices 1..5 and its text is not empty (a `TextField` refuses blank values); the text has no length bound |
| `ReviewModels.DeleteProduct` | apps/reviews/models.py:21 | deleting a product leaves no review of it, keeps every other review with all its copies, and keeps the table order |
| `ReviewModels.DeleteUser` | apps/reviews/models.py:20 | deleting a user leaves no review by that user, keeps every other review with all its copies, and keeps the table order |
| `ReviewModels.DeletePreservesValidity` | apps/reviews/models.py:20-22 | both cascades keep a table of model-valid reviews model-valid |
| `ReviewSerializers.SerializeReview` | apps/reviews/serializers.py:8-12 | a serialized review has the four fields `user`, `product`, `rating`, `text`, with rating and text copied unchanged and user and product projected |
| `ReviewSerializers.SerializeMany` | apps/reviews/serializers.py:8-12 | one output item per review, in order; each has the four fields `user`, `product`, `rating`, `text`, with rating and text copied unchanged and user and product projected |
| `ReviewSerializers.RatingValidator` | apps/reviews/serializers.py:15-18 | accepts iff 1 <= value <= 5; on acceptance returns its input unchanged; otherwise raises with "Rating must be in the range from 1 to 5!" |
| `ReviewSerializers.RatingValidatorIdempotent` | apps/reviews/serializers.py:18 | validating an accepted value again gives the same result |
| `ReviewSerializers.RatingValidatorBoundaries` | apps/reviews/serializers.py:16-17 | 1 and 5 are accepted; 0 and 6 are rejected with the range message |
| `ReviewSerializers.RatingValidatorMatchesChoices` | apps/reviews/serializers.py:15-18 | the validator accepts a value iff it is a stored value of `RATING_CHOICES` (models.py line 8) |
| `ReviewSerializers.StripCutsOnlyWhitespace` | apps/reviews/serializers.py:24 | the stripped text is the input with only a blank prefix and a blank suffix removed |
| `ReviewSerializers.Strip` | apps/reviews/serializers.py:22-24 | the stripped text is never longer than the input and, when not empty, neither starts nor ends with whitespace |
| `ReviewSerializers.StripEmptyIffBlank` | apps/reviews/serializers.py:24 | stripping leaves nothing iff the text is blank (empty or whitespace only) |
| `ReviewSerializers.CharField` | apps/reviews/serializers.py:24 | a missing text is refused as required, a blank text as blank, a text whose stripped value holds U+0000 with the null-character error; any other text is accepted stripped and non-empty |
| `ReviewSerializers.SlugField` | apps/reviews/serializers.py:22 | `product_slug` is accepted iff present and its stripped value is a non-empty run of letters, digits, `_` and `-`; the accepted value is the stripped one; a missing or blank value gets one error, and a non-slug gets the slug error, preceded by the null-character error when it holds U+0000 |
| `ReviewSerializers.RatingField` | apps/reviews/serializers.py:23 | a missing rating is refused as required; a present one is accepted unchanged iff in 1..5, else refused with the validator's error |
| `ReviewSerializers.ValidateAddReview` | apps/reviews/serializers.py:21-24 | the input is valid iff `product_slug`, `rating` and `text` are all present and each passes its field (the rating through `rating_validator`, the text without U+0000); on success the validated record holds the stripped and checked values; on failure the error map names exactly the refused fields, the rating with the range message and a text holding U+0000 with the null-character error |
| `ReviewSerializers.ValidatedInputIsModelValid` | apps/reviews/serializers.py:23-24 | a validated add-review rating is one of `RATING_CHOICES`, and a review holding the validated rating and text passes model validation (`IsValid`) |
| `ReviewViews.GetBySlug` | apps/reviews/views.py:15 | the lookup is None iff no product has that slug; otherwise it is a product of the table with exactly that slug |
| `ReviewViews.GetBySlugFindsTheProduct` | apps/reviews/views.py:15 | with unique slugs, the lookup by a product's slug finds that product, so resolution uses slug equality only |
| `ReviewViews.ReviewsOf` | apps/reviews/views.py:18 | the reviews of a product are exactly the stored reviews whose product key is that product's, each with all its copies, as a subsequence of the table |
| `ReviewViews.ListByProduct` | apps/reviews/views.py:14-18 | not found iff no product has the slug; otherwise the resolved product has the slug, every listed review is of it, every stored review of it is listed with all its copies, and the listing is a subsequence of the table |
| `ReviewViews.Get` | apps/reviews/views.py:14-20 | status 404 iff no product has the slug, and then the body is the message "Product does not exist!" with no review data; otherwise status 200 with a list of reviews |
| `ReviewViews.GetListsReviewsOfProduct` | apps/reviews/views.py:18-20 | for an existing product the response is 200 with exactly the serialized reviews of that product, one item per review, in table order |
| `ReviewViews.ListedProductIsResolved` | apps/reviews/views.py:18 | in a database with unique keys whose reviews all refer to catalogue rows, every listed review's product is the resolved product |
| `ReviewViews.ListedRatingsInRange` | apps/reviews/views.py:19-20 | over a table of model-valid reviews, every rating in a response passes `rating_validator` |
| `ReviewViews.DeleteProductRemovesListing` | apps/reviews/models.py:21 | the reviews a product's listing shows and the table left after deleting the product together make up the old table; after the delete no review of the product is left to list |

## Left out

- `apps/reviews/schema_examples.py` declares OpenAPI documentation parameters and reads a setting. It has no behaviour. The view does not paginate.
- `apps/reviews/urls.py` routes `products/<slug:slug>` to the view. The path converter only passes slugs. The modelled view accepts any string, since it does not rely on that.
- `get_or_none` and the soft-delete manager of `IsDeletedModel` live in `apps/common`, which is not part of this model. The review table and the product table both hold only the rows their default managers return, so soft-deleted products and reviews are never in them; soft deletion itself is not modelled.
- ReviewViews.GetBySlug: returns the first product with the slug. The slug is assumed unique (the shop app's model is not part of this model); Django would raise on duplicates. `GetBySlugFindsTheProduct` states the result under unique slugs.
- `select_related` only changes how the related rows are fetched. The order of a listing is the table order, since the view asks for no ordering.
- `ProfileSerializer` and `ProductSerializer` are not part of this model. Their projections are function parameters of `SerializeMany` and `Get`.
- ReviewModels.IsValid: covers the checks of the review's own fields only. The existence of the referenced user and product rows is a database question and is not modelled. Django does not enforce `choices` in the database. The 32-bit range of an `IntegerField` column is not modelled.
- ReviewSerializers.RatingField: the input is already an integer. Coercion from strings, null inputs and the maximum string length of `IntegerField` are not modelled.
- ReviewSerializers.Strip: only ASCII whitespace is trimmed (space, tab through carriage return, and U+001C to U+001F). Python also strips other Unicode whitespace.
- ReviewSerializers.CharField: non-string inputs (numbers, booleans) are not modelled. The surrogate-character validator of Django REST Framework's `CharField` needs no model: a Dafny `char` cannot be a surrogate code point.
- Validation is not fail-fast: `AddReviewSerializer` reports every refused field together, keyed by field name. Each refused field reports the list of its errors. The error messages of Django REST Framework's own fields are modelled as the constructors `Required`, `Blank`, `NullCharacter` and `InvalidSlug`, not as text.
- Creating, updating and deleting a review, ownership checks and a one-review-per-(user, product) rule do not appear in the modelled code. `models.py` declares no uniqueness constraint, so the review table may hold several reviews of one user for one product.
- HTTP response details beyond status code and payload, authentication, and the concurrency of the database layer are left out.
