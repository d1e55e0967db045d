/**
 * The body of an update request: every field optional, with looser rules
 * than the create body.
 */
module UpdateBookDto {
  import opened Wrappers
  import opened BookEntity
  import opened CreateBookDto

  /** `None` is a field that is absent, `null` or `undefined`. */
  datatype UpdateBook = UpdateBook(
    title: Option<string>,
    author: Option<string>,
    editorial: Option<string>,
    genre: Option<string>,
    price: Option<Decimal>,
    availability: Option<int>,
    imageUrl: Option<string>)

  /** The update with no field given. */
  const NoChange := UpdateBook(None, None, None, None, None, None, None)

  /** `@IsOptional() @IsNumber() @Min(0)`: no limit on decimal places. */
  predicate UpdatePriceValid(p: Option<Decimal>) {
    p.Some? ==> WellFormedDecimal(p.value) && NonNegative(p.value)
  }

  /**
   * Every decorator of the update body. Strings are only checked to be
   * strings, so an empty title passes; `imageUrl` must match the pattern but
   * is not checked by `IsUrl`.
   */
  predicate UpdateDtoValid(v: Validators, d: UpdateBook) {
    && UpdatePriceValid(d.price)
    && AvailabilityValid(d.availability)
    && OptionalSatisfies(d.imageUrl, s => ImageUrlPattern(v, s))
  }

  /** The same fields read as an update body, to compare the two rule sets. */
  function UpdateOf(d: CreateBook): UpdateBook {
    UpdateBook(d.title, d.author, d.editorial, d.genre, d.price, d.availability, d.imageUrl)
  }

  /** Whatever a create body may carry, an update body may carry too. */
  lemma CreateRulesStricter(v: Validators, d: CreateBook)
    requires CreateDtoValid(v, d)
    ensures UpdateDtoValid(v, UpdateOf(d))
  {
  }

  /** An empty body is a valid update. */
  lemma NoChangeValid(v: Validators)
    ensures UpdateDtoValid(v, NoChange)
  {
  }

  /**
   * Where the two bodies differ: an empty title and a three-digit fraction
   * pass the update rules, though the create rules reject both.
   */
  lemma UpdateLooserThanCreate(v: Validators)
    ensures UpdateDtoValid(v, NoChange.(title := Some(""), price := Some(Decimal(false, "1", "999"))))
    ensures forall d: CreateBook :: d.title == Some("") ==> !CreateDtoValid(v, d)
    ensures forall d: CreateBook :: d.price == Some(Decimal(false, "1", "999")) ==> !CreateDtoValid(v, d)
  {
    assert WellFormedDecimal(Decimal(false, "1", "999"));
  }
}
