/**
 * The body of a create request and the constraint decorators that the
 * validation pipe checks before the controller runs, including the shared
 * `imageUrl` pattern.
 */
module CreateBookDto {
  import opened Wrappers
  import opened Text
  import opened BookEntity

  /**
   * The library validators the decorators call. `generalUrl` is the first
   * alternative of the `imageUrl` pattern: an optional scheme, a host with a
   * top-level domain and an optional path.
   */
  datatype Validators = Validators(
    isUrl: string -> bool,
    generalUrl: string -> bool,
    isIsbn: string -> bool,
    isDateString: string -> bool)

  /** `[\w.-]`. */
  predicate NameChar(c: char) {
    || 'a' <= c <= 'z' || 'A' <= c <= 'Z' || '0' <= c <= '9'
    || c == '_' || c == '.' || c == '-'
  }

  /** `[\w.-]+`: a non-empty upload file name. */
  predicate UploadName(s: string) {
    |s| >= 1 && forall j :: 0 <= j < |s| ==> NameChar(s[j])
  }

  const UPLOADS_PATH := "/uploads/books/"
  const LOCALHOST_PREFIX := "http://localhost:"

  /** `^\/uploads\/books\/[\w.-]+$`. */
  predicate RelativeUploadUrl(s: string) {
    StartsWith(s, UPLOADS_PATH) && UploadName(s[|UPLOADS_PATH|..])
  }

  /** `^http:\/\/localhost:\d+\/uploads\/books\/[\w.-]+$`. */
  predicate LocalhostUploadUrl(s: string) {
    && StartsWith(s, LOCALHOST_PREFIX)
    && exists k :: |LOCALHOST_PREFIX| < k <= |s| && AllDigits(s[|LOCALHOST_PREFIX|..k]) && RelativeUploadUrl(s[k..])
  }

  /** The whole `@Matches` pattern: any of its three alternatives. */
  predicate ImageUrlPattern(v: Validators, s: string) {
    v.generalUrl(s) || LocalhostUploadUrl(s) || RelativeUploadUrl(s)
  }

  /** `None` is a field that is absent, `null` or `undefined`. */
  datatype CreateBook = CreateBook(
    title: Option<string>,
    author: Option<string>,
    editorial: Option<string>,
    price: Option<Decimal>,
    availability: Option<int>,
    genre: Option<string>,
    imageUrl: Option<string>,
    description: Option<string>,
    isbn: Option<string>,
    publicationDate: Option<string>)

  /** `@IsNotEmpty() @IsString()`. */
  predicate NonEmptyString(v: Option<string>) {
    v.Some? && v.value != ""
  }

  /** `@IsNotEmpty() @IsNumber({ maxDecimalPlaces: 2 }) @Min(0)` on the converted number. */
  predicate CreatePriceValid(p: Option<Decimal>) {
    p.Some? && WellFormedDecimal(p.value) && |p.value.fraction| <= 2 && NonNegative(p.value)
  }

  /** `@IsOptional() @IsIn([0, 1])`. */
  predicate AvailabilityValid(a: Option<int>) {
    a.Some? ==> a.value in {0, 1}
  }

  /** `@IsOptional()` followed by a check that runs only on a present value. */
  predicate OptionalSatisfies(v: Option<string>, p: string -> bool) {
    v.Some? ==> p(v.value)
  }

  /**
   * Every decorator of the create body. The title's length is not checked
   * here (only documented); the entity checks it on save.
   */
  predicate CreateDtoValid(v: Validators, d: CreateBook) {
    && NonEmptyString(d.title)
    && NonEmptyString(d.author)
    && CreatePriceValid(d.price)
    && AvailabilityValid(d.availability)
    && (d.imageUrl.Some? ==> ImageUrlPattern(v, d.imageUrl.value) && v.isUrl(d.imageUrl.value))
    && OptionalSatisfies(d.isbn, v.isIsbn)
    && OptionalSatisfies(d.publicationDate, v.isDateString)
  }

  /** A URL the server builds for a stored upload, on a numeric port, matches the localhost alternative. */
  lemma LocalhostUploadUrlOf(port: string, name: string)
    requires |port| >= 1 && AllDigits(port) && UploadName(name)
    ensures LocalhostUploadUrl(LOCALHOST_PREFIX + port + UPLOADS_PATH + name)
  {
    var s := LOCALHOST_PREFIX + port + UPLOADS_PATH + name;
    var k := |LOCALHOST_PREFIX| + |port|;
    assert s[..|LOCALHOST_PREFIX|] == LOCALHOST_PREFIX;
    assert s[|LOCALHOST_PREFIX|..k] == port;
    assert s[k..] == UPLOADS_PATH + name;
    RelativeUploadUrlOf(name);
  }

  /** A relative upload path matches its alternative exactly when the name is an upload name. */
  lemma RelativeUploadUrlOf(name: string)
    ensures RelativeUploadUrl(UPLOADS_PATH + name) <==> UploadName(name)
  {
    assert (UPLOADS_PATH + name)[|UPLOADS_PATH|..] == name;
    assert (UPLOADS_PATH + name)[..|UPLOADS_PATH|] == UPLOADS_PATH;
  }

  /**
   * A price with three fraction digits is rejected by the body's own number
   * check. A `Decimal` stands for the text a JavaScript number prints, so
   * its fraction never ends in `0`; one that does (`12.500`) is not
   * canonical, and the number it would stand for prints shorter.
   */
  lemma ThreeDecimalsRejected(v: Validators, d: CreateBook)
    requires d.price.Some? && |d.price.value.fraction| == 3
    ensures !CreateDtoValid(v, d)
  {
  }
}
