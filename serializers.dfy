/**
 * The reviews app's serializers: the output shape of a review, the rating
 * validator, and validation of the add-review input.
 */
module ReviewSerializers {
  import opened Wrappers
  import opened ReviewModels

  /**
   * ReviewSerializer's output: exactly the fields `user`, `product`,
   * `rating` and `text`. `user` and `product` hold whatever the profile and
   * product serializers make of the related rows.
   */
  datatype ReviewData<U, P> = ReviewData(user: U, product: P, rating: int, text: string)

  /**
   * One review through ReviewSerializer: the four declared fields, with the
   * rating and the text as stored and the related rows projected.
   */
  function SerializeReview<U, P>(r: Review, profile: User -> U, productView: Product -> P): (d: ReviewData<U, P>)
    ensures d.rating == r.rating && d.text == r.text
    ensures d.user == profile(r.user) && d.product == productView(r.product)
  {
    ReviewData(profile(r.user), productView(r.product), r.rating, r.text)
  }

  /**
   * ReviewSerializer with many=True: one item per review, in order, each
   * copying the review's rating and text unchanged and projecting its
   * user and product.
   */
  function SerializeMany<U, P>(rs: seq<Review>, profile: User -> U, productView: Product -> P): (d: seq<ReviewData<U, P>>)
    ensures |d| == |rs|
    ensures forall i :: 0 <= i < |rs| ==>
      d[i].rating == rs[i].rating && d[i].text == rs[i].text &&
      d[i].user == profile(rs[i].user) && d[i].product == productView(rs[i].product)
  {
    seq(|rs|, i requires 0 <= i < |rs| => SerializeReview(rs[i], profile, productView))
  }

  /** The error a validator raises, with its message. */
  datatype ValidationError = ValidationError(message: string)

  const RATING_RANGE_MESSAGE := "Rating must be in the range from 1 to 5!"

  /** rating_validator: returns the value when it lies in 1..5, raises otherwise. */
  function RatingValidator(value: int): (r: Result<int, ValidationError>)
    ensures r.Success? <==> 1 <= value <= 5
    ensures r.Success? ==> r.value == value
    ensures r.Failure? ==> r.error == ValidationError(RATING_RANGE_MESSAGE)
  {
    if !(1 <= value <= 5) then Failure(ValidationError(RATING_RANGE_MESSAGE))
    else Success(value)
  }

  /** Validating an accepted rating again gives the same result. */
  lemma RatingValidatorIdempotent(value: int)
    requires RatingValidator(value).Success?
    ensures RatingValidator(RatingValidator(value).value) == RatingValidator(value)
  {
  }

  /** The boundaries: 1 and 5 pass, 0 and 6 are rejected with the range message. */
  lemma RatingValidatorBoundaries()
    ensures RatingValidator(1) == Success(1) && RatingValidator(5) == Success(5)
    ensures RatingValidator(0) == Failure(ValidationError(RATING_RANGE_MESSAGE))
    ensures RatingValidator(6) == Failure(ValidationError(RATING_RANGE_MESSAGE))
  {
  }

  /** The validator accepts exactly the stored values of the rating choices. */
  lemma RatingValidatorMatchesChoices(value: int)
    ensures RatingValidator(value).Success? <==> value in ChoiceValues(RATING_CHOICES)
  {
    RatingDomainExact();
  }

  // ---- Field validation of the add-review input ----

  /** Why one input field was refused; a field reports a list of these. */
  datatype FieldError =
    | Required                           // the field is missing
    | Blank                              // a character field holds only whitespace
    | NullCharacter                      // a character field holds U+0000
    | InvalidSlug                        // a slug field holds other characters
    | Invalid(error: ValidationError)    // a field validator raised

  /** Whitespace as Python's str.strip sees it, in the ASCII range. */
  predicate IsWhitespace(c: char)
  {
    c == ' ' || '\t' <= c <= '\r' || '\U{1C}' <= c <= '\U{1F}'
  }

  /** Empty or whitespace only: what a CharField without allow_blank refuses. */
  predicate IsBlank(s: string)
  {
    forall i :: 0 <= i < |s| ==> IsWhitespace(s[i])
  }

  /**
   * `s` without leading and trailing whitespace (Python's str.strip): never
   * longer than `s`, and neither starting nor ending with whitespace.
   */
  function Strip(s: string): (r: string)
    ensures |r| <= |s|
    ensures r != [] ==> !IsWhitespace(r[0]) && !IsWhitespace(r[|r| - 1])
  {
    if s == [] then []
    else if IsWhitespace(s[0]) then Strip(s[1..])
    else if IsWhitespace(s[|s| - 1]) then Strip(s[..|s| - 1])
    else s
  }

  /** Joining blank texts gives a blank text. */
  lemma BlankConcat(a: string, b: string)
    requires IsBlank(a) && IsBlank(b)
    ensures IsBlank(a + b)
  {
    forall k | 0 <= k < |a + b| ensures IsWhitespace((a + b)[k]) {
      if k >= |a| { assert (a + b)[k] == b[k - |a|]; }
    }
  }

  /** `s` is `r` with a blank prefix of length `i` before it and a blank suffix after it. */
  ghost predicate IsPaddedAt(s: string, r: string, i: nat)
  {
    i + |r| <= |s| && s == s[..i] + r + s[i + |r|..] && IsBlank(s[..i]) && IsBlank(s[i + |r|..])
  }

  /** A leading whitespace character extends the blank prefix. */
  lemma PaddedAfterLeadingWhitespace(s: string, r: string, i: nat)
    requires s != [] && IsWhitespace(s[0]) && IsPaddedAt(s[1..], r, i)
    ensures IsPaddedAt(s, r, i + 1)
  {
    var u := s[1..];
    assert s[..i + 1] == [s[0]] + u[..i];
    BlankConcat([s[0]], u[..i]);
    assert s[i + 1 + |r|..] == u[i + |r|..];
    assert s == [s[0]] + u;
  }

  /** A trailing whitespace character extends the blank suffix. */
  lemma PaddedBeforeTrailingWhitespace(s: string, r: string, i: nat)
    requires s != [] && IsWhitespace(s[|s| - 1]) && IsPaddedAt(s[..|s| - 1], r, i)
    ensures IsPaddedAt(s, r, i)
  {
    var u := s[..|s| - 1];
    assert s[..i] == u[..i];
    assert s[i + |r|..] == u[i + |r|..] + [s[|s| - 1]];
    BlankConcat(u[i + |r|..], [s[|s| - 1]]);
    assert s == u + [s[|s| - 1]];
  }

  /**
   * Stripping cuts only whitespace: `s` is the result with a blank prefix
   * before it and a blank suffix after it.
   */
  lemma {:induction false} StripCutsOnlyWhitespace(s: string)
    ensures exists i: nat :: IsPaddedAt(s, Strip(s), i)
  {
    var r := Strip(s);
    if s == [] {
      assert IsPaddedAt(s, r, 0);
    } else if IsWhitespace(s[0]) {
      StripCutsOnlyWhitespace(s[1..]);
      var i: nat :| IsPaddedAt(s[1..], r, i);
      PaddedAfterLeadingWhitespace(s, r, i);
    } else if IsWhitespace(s[|s| - 1]) {
      StripCutsOnlyWhitespace(s[..|s| - 1]);
      var i: nat :| IsPaddedAt(s[..|s| - 1], r, i);
      PaddedBeforeTrailingWhitespace(s, r, i);
    } else {
      assert s[..0] == [] && s[|s|..] == [];
      assert IsPaddedAt(s, r, 0);
    }
  }

  /** Stripping leaves nothing exactly when the text is blank. */
  lemma {:induction false} StripEmptyIffBlank(s: string)
    ensures Strip(s) == [] <==> IsBlank(s)
  {
    if s != [] && IsWhitespace(s[0]) {
      StripEmptyIffBlank(s[1..]);
      assert IsBlank(s) <==> IsBlank(s[1..]) by {
        assert forall k :: 1 <= k < |s| ==> s[k] == s[1..][k - 1];
      }
    } else if s != [] && IsWhitespace(s[|s| - 1]) {
      StripEmptyIffBlank(s[..|s| - 1]);
      assert IsBlank(s) <==> IsBlank(s[..|s| - 1]) by {
        assert forall k :: 0 <= k < |s| - 1 ==> s[k] == s[..|s| - 1][k];
      }
    }
  }

  /**
   * What a required CharField (blank not allowed, whitespace trimmed) makes
   * of its input before its validators run: a missing value is refused as
   * required, a blank one as blank, and any other is stripped.
   */
  function CharFieldValue(data: Option<string>): (r: Result<string, seq<FieldError>>)
    ensures data.None? ==> r == Failure([Required])
    ensures data.Some? && IsBlank(data.value) ==> r == Failure([Blank])
    ensures data.Some? && !IsBlank(data.value) ==> r == Success(Strip(data.value)) && r.value != []
  {
    match data
    case None => Failure([Required])
    case Some(s) =>
      StripEmptyIffBlank(s);
      if Strip(s) == [] then Failure([Blank]) else Success(Strip(s))
  }

  /** The null-character validator every CharField carries. */
  function NullCharacterErrors(v: string): (e: seq<FieldError>)
  {
    if '\0' in v then [NullCharacter] else []
  }

  /**
   * A required CharField: refuses a missing value, a blank value, and a
   * value holding U+0000; accepts any other value stripped and non-empty.
   */
  function CharField(data: Option<string>): (r: Result<string, seq<FieldError>>)
    ensures data.None? ==> r == Failure([Required])
    ensures data.Some? && IsBlank(data.value) ==> r == Failure([Blank])
    ensures data.Some? && !IsBlank(data.value) && '\0' in Strip(data.value) ==> r == Failure([NullCharacter])
    ensures data.Some? && !IsBlank(data.value) && '\0' !in Strip(data.value) ==>
      r == Success(Strip(data.value)) && r.value != []
  {
    match CharFieldValue(data)
    case Failure(e) => Failure(e)
    case Success(v) =>
      var errors := NullCharacterErrors(v);
      if errors == [] then Success(v) else Failure(errors)
  }

  /** Letters, digits, underscores and hyphens, and at least one of them. */
  predicate IsSlug(s: string)
  {
    |s| > 0 &&
    forall i :: 0 <= i < |s| ==>
      'a' <= s[i] <= 'z' || 'A' <= s[i] <= 'Z' || '0' <= s[i] <= '9' || s[i] == '_' || s[i] == '-'
  }

  /**
   * A required SlugField: a CharField whose stripped value must also be a
   * slug. Both validators run, so a value holding U+0000 gets both errors.
   */
  function SlugField(data: Option<string>): (r: Result<string, seq<FieldError>>)
    ensures r.Success? <==> data.Some? && IsSlug(Strip(data.value))
    ensures r.Success? ==> r.value == Strip(data.value)
    ensures data.None? ==> r == Failure([Required])
    ensures data.Some? && IsBlank(data.value) ==> r == Failure([Blank])
    ensures data.Some? && !IsBlank(data.value) && !IsSlug(Strip(data.value)) ==>
      r == Failure(if '\0' in Strip(data.value) then [NullCharacter, InvalidSlug] else [InvalidSlug])
  {
    match CharFieldValue(data)
    case Failure(e) => Failure(e)
    case Success(v) =>
      var errors := NullCharacterErrors(v) + (if IsSlug(v) then [] else [InvalidSlug]);
      assert !IsSlug(v) ==> errors == if '\0' in v then [NullCharacter, InvalidSlug] else [InvalidSlug];
      if errors == [] then Success(v) else Failure(errors)
  }

  /** The add-review rating field: a required IntegerField run through rating_validator. */
  function RatingField(data: Option<int>): (r: Result<int, seq<FieldError>>)
    ensures data.None? ==> r == Failure([Required])
    ensures data.Some? ==> r == if 1 <= data.value <= 5 then Success(data.value)
                                else Failure([Invalid(ValidationError(RATING_RANGE_MESSAGE))])
  {
    match data
    case None => Failure([Required])
    case Some(v) =>
      match RatingValidator(v)
      case Success(x) => Success(x)
      case Failure(e) => Failure([Invalid(e)])
  }

  /** The fields AddReviewSerializer declares. */
  datatype AddReviewField = ProductSlug | Rating | Text

  /** The add-review input as submitted: any field may be missing. */
  datatype AddReviewInput = AddReviewInput(productSlug: Option<string>, rating: Option<int>, text: Option<string>)

  /** The add-review input once validated. */
  datatype AddReview = AddReview(productSlug: string, rating: int, text: string)

  /** The error entry of one field, if the field was refused. */
  function FieldErrors<T>(field: AddReviewField, r: Result<T, seq<FieldError>>): (m: map<AddReviewField, seq<FieldError>>)
    ensures m.Keys == if r.Failure? then {field} else {}
    ensures r.Failure? ==> m[field] == r.error
  {
    if r.Failure? then map[field := r.error] else map[]
  }

  /**
   * AddReviewSerializer.is_valid: every field is validated and the errors of
   * all refused fields are reported together, keyed by field.
   */
  function ValidateAddReview(data: AddReviewInput): (r: Result<AddReview, map<AddReviewField, seq<FieldError>>>)
    ensures r.Success? <==>
      && data.productSlug.Some? && IsSlug(Strip(data.productSlug.value))
      && data.rating.Some? && 1 <= data.rating.value <= 5
      && data.text.Some? && !IsBlank(data.text.value) && '\0' !in Strip(data.text.value)
    ensures r.Success? ==>
      && r.value.productSlug == Strip(data.productSlug.value)
      && r.value.rating == data.rating.value
      && r.value.text == Strip(data.text.value) && r.value.text != []
    ensures r.Failure? ==>
      && (ProductSlug in r.error <==> !(data.productSlug.Some? && IsSlug(Strip(data.productSlug.value))))
      && (Rating in r.error <==> !(data.rating.Some? && 1 <= data.rating.value <= 5))
      && (Text in r.error <==> !(data.text.Some? && !IsBlank(data.text.value) && '\0' !in Strip(data.text.value)))
    ensures r.Failure? && data.rating.Some? && !(1 <= data.rating.value <= 5) ==>
      r.error[Rating] == [Invalid(ValidationError(RATING_RANGE_MESSAGE))]
    ensures r.Failure? && data.text.Some? && !IsBlank(data.text.value) && '\0' in Strip(data.text.value) ==>
      r.error[Text] == [NullCharacter]
  {
    var slug := SlugField(data.productSlug);
    var rating := RatingField(data.rating);
    var text := CharField(data.text);
    if slug.Success? && rating.Success? && text.Success? then
      Success(AddReview(slug.value, rating.value, text.value))
    else
      var errors := FieldErrors(ProductSlug, slug) + FieldErrors(Rating, rating) + FieldErrors(Text, text);
      assert errors.Keys == FieldErrors(ProductSlug, slug).Keys + FieldErrors(Rating, rating).Keys + FieldErrors(Text, text).Keys;
      assert rating.Failure? ==> errors[Rating] == rating.error;
      assert text.Failure? ==> errors[Text] == text.error;
      Failure(errors)
  }

  /**
   * A validated add-review input passes the Review model's own field rules:
   * its rating is one of the choices, and any review holding its rating
   * and text is model-valid.
   */
  lemma ValidatedInputIsModelValid(data: AddReviewInput, user: User, product: Product)
    requires ValidateAddReview(data).Success?
    ensures var v := ValidateAddReview(data).value;
      v.rating in ChoiceValues(RATING_CHOICES) && IsValid(Review(user, product, v.rating, v.text))
  {
    var v := ValidateAddReview(data).value;
    assert RatingValidator(v.rating).Success?;
    RatingValidatorMatchesChoices(v.rating);
  }
}
