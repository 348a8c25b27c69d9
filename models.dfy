/**
 * The reviews app's data: the rating choices and the Review table, with the
 * cascading deletes its two foreign keys declare.
 */
module ReviewModels {
  import opened QuerySets

  /** A row of the accounts app's User table, known here by its primary key. */
  datatype User = User(id: nat)

  /** A row of the shop app's Product table: its primary key and its slug. */
  datatype Product = Product(id: nat, slug: string)

  /** The rating choices as (stored value, display label) pairs. */
  const RATING_CHOICES: seq<(int, int)> := [(1, 1), (2, 2), (3, 3), (4, 4), (5, 5)]

  /** The stored values a `choices` declaration admits. */
  function ChoiceValues(choices: seq<(int, int)>): set<int>
  {
    set i | 0 <= i < |choices| :: choices[i].0
  }

  /** The rating choices admit exactly the values 1 to 5. */
  lemma RatingDomainExact()
    ensures ChoiceValues(RATING_CHOICES) == {1, 2, 3, 4, 5}
  {
    var vs := ChoiceValues(RATING_CHOICES);
    assert RATING_CHOICES[0].0 == 1 && RATING_CHOICES[1].0 == 2 && RATING_CHOICES[2].0 == 3;
    assert RATING_CHOICES[3].0 == 4 && RATING_CHOICES[4].0 == 5;
    assert {1, 2, 3, 4, 5} <= vs;
  }

  /** Every rating choice is displayed as its own stored value. */
  lemma RatingLabelsAreValues()
    ensures forall i :: 0 <= i < |RATING_CHOICES| ==> RATING_CHOICES[i].1 == RATING_CHOICES[i].0
  {
  }

  /**
   * A review: exactly one author, exactly one reviewed product, a rating and
   * a text of any length. The foreign keys hold the related rows as the
   * store joins them in.
   */
  datatype Review = Review(user: User, product: Product, rating: int, text: string)

  /**
   * A review that passes model validation of its own fields: the rating is
   * one of the declared choices, and the text is not empty (a TextField
   * refuses blank values by default). Neither field has a length bound.
   */
  predicate IsValid(r: Review): (b: bool)
    ensures b <==> 1 <= r.rating <= 5 && r.text != ""
  {
    RatingDomainExact();
    r.rating in ChoiceValues(RATING_CHOICES) && r.text != ""
  }

  /** The review refers to the product row with that primary key. */
  predicate ReviewsProduct(r: Review, product: Product)
  {
    r.product.id == product.id
  }

  /** The review was written by the user row with that primary key. */
  predicate WrittenBy(r: Review, user: User)
  {
    r.user.id == user.id
  }

  /**
   * The review table after a product row is deleted (on_delete=CASCADE):
   * no review of that product is left, every other review keeps all its
   * copies, and the table order is kept.
   */
  function DeleteProduct(store: seq<Review>, product: Product): (r: seq<Review>)
    ensures forall x :: x in r ==> !ReviewsProduct(x, product)
    ensures forall x :: !ReviewsProduct(x, product) ==> multiset(r)[x] == multiset(store)[x]
    ensures IsSubsequence(r, store)
  {
    Filter(store, x => !ReviewsProduct(x, product))
  }

  /**
   * The review table after a user row is deleted (on_delete=CASCADE): no
   * review by that user is left, every other review keeps all its copies,
   * and the table order is kept.
   */
  function DeleteUser(store: seq<Review>, user: User): (r: seq<Review>)
    ensures forall x :: x in r ==> !WrittenBy(x, user)
    ensures forall x :: !WrittenBy(x, user) ==> multiset(r)[x] == multiset(store)[x]
    ensures IsSubsequence(r, store)
  {
    Filter(store, x => !WrittenBy(x, user))
  }

  /** Deleting valid rows only leaves a table of valid rows. */
  lemma DeletePreservesValidity(store: seq<Review>, product: Product, user: User)
    requires forall x :: x in store ==> IsValid(x)
    ensures forall x :: x in DeleteProduct(store, product) ==> IsValid(x)
    ensures forall x :: x in DeleteUser(store, user) ==> IsValid(x)
  {
  }
}
