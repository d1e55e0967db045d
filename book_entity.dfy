/**
 * The `Book` entity: its columns, the validation rules Sequelize applies to
 * them, the availability hooks that run before create and update, and the
 * `toJSON` serialisation.
 */
module BookEntity {
  import opened Wrappers
  import opened Json
  import opened Text

  /** Timestamps are opaque instants supplied by the storage clock. */
  type Timestamp = nat

  /** A price as JavaScript prints it: a sign, the whole digits and the fraction digits. */
  datatype Decimal = Decimal(negative: bool, whole: string, fraction: string)

  /** What `isDecimal` accepts: at least one whole digit and digits only. */
  predicate WellFormedDecimal(d: Decimal) {
    |d.whole| >= 1 && AllDigits(d.whole) && AllDigits(d.fraction)
  }

  predicate AllZeros(s: string) {
    forall j :: 0 <= j < |s| ==> s[j] == '0'
  }

  /** `min: 0`: a negative sign is allowed only on zero. */
  predicate NonNegative(d: Decimal) {
    !d.negative || (AllZeros(d.whole) && AllZeros(d.fraction))
  }

  /** `value.toString()`: the fraction and its point appear only when there is a fraction. */
  function DecimalText(d: Decimal): string {
    (if d.negative then "-" else "") + d.whole + (if d.fraction == "" then "" else "." + d.fraction)
  }

  /** `value.toString().split('.')[1]?.length || 0`. */
  function DecimalPlaces(text: string): nat {
    var parts := Split(text, '.');
    if |parts| > 1 then |parts[1]| else 0
  }

  /** Counting the characters after the '.' of the printed text counts the fraction digits. */
  lemma DecimalPlacesOfText(d: Decimal)
    requires WellFormedDecimal(d)
    ensures DecimalPlaces(DecimalText(d)) == |d.fraction|
  {
    var head := (if d.negative then "-" else "") + d.whole;
    assert Free(head, '.') by {
      forall j | 0 <= j < |head| ensures head[j] != '.' {
        if d.negative && j == 0 {
        } else {
          var k := if d.negative then j - 1 else j;
          assert head[j] == d.whole[k];
        }
      }
    }
    if d.fraction == "" {
      assert DecimalText(d) == head;
      SplitFree(head, '.');
    } else {
      assert DecimalText(d) == head + ['.'] + d.fraction;
      SplitCons(head, '.', d.fraction);
      assert Free(d.fraction, '.');
      SplitFree(d.fraction, '.');
    }
  }

  const PRICE_REQUIRED := "Price is required"
  const PRICE_TOO_PRECISE := "Price must have at most 2 decimal places"

  /** The price column's `customValidator`: `None` is the message it throws. */
  function PriceCustomValidator(value: Option<Decimal>): (r: Option<string>)
    ensures value.None? ==> r == Some(PRICE_REQUIRED)
    ensures r.Some? ==> r.value in {PRICE_REQUIRED, PRICE_TOO_PRECISE}
  {
    match value
    case None => Some(PRICE_REQUIRED)
    case Some(p) => if DecimalPlaces(DecimalText(p)) > 2 then Some(PRICE_TOO_PRECISE) else None
  }

  /** On a well-formed price the custom validator rejects exactly the prices with more than 2 fraction digits. */
  lemma PriceCheckByFraction(d: Decimal)
    requires WellFormedDecimal(d)
    ensures PriceCustomValidator(Some(d)) == if |d.fraction| > 2 then Some(PRICE_TOO_PRECISE) else None
  {
    DecimalPlacesOfText(d);
  }

  /** The attribute values an instance is saved with, before the storage assigns id and timestamps. */
  datatype BookAttributes = BookAttributes(
    title: Option<string>,
    author: Option<string>,
    editorial: Option<string>,
    genre: Option<string>,
    price: Option<Decimal>,
    availability: Option<int>,
    imageUrl: Option<string>)

  /**
   * JavaScript's `\s` class: the ASCII spaces and line breaks, no-break
   * space, the Unicode space separators, the line and paragraph separators
   * and the byte-order mark.
   */
  predicate Whitespace(c: char) {
    || c == ' ' || c == '\t' || c == '\n' || c == '\r' || c == '\U{000B}' || c == '\U{000C}'
    || c == '\U{00A0}' || c == '\U{1680}' || ('\U{2000}' <= c <= '\U{200A}')
    || c == '\U{2028}' || c == '\U{2029}' || c == '\U{202F}' || c == '\U{205F}'
    || c == '\U{3000}' || c == '\U{FEFF}'
  }

  /** What `notEmpty` rejects: `/^[\s\t\r\n]*$/` matches, so the empty string too. */
  predicate Blank(s: string) {
    forall j :: 0 <= j < |s| ==> Whitespace(s[j])
  }

  /** One failed column rule, named after the validator that reports it. */
  datatype Violation =
    | TitleNull | TitleEmpty | TitleLength
    | AuthorNull | AuthorEmpty
    | PriceNull | PriceBelowMin | PriceNotDecimal | PriceCustom(message: string)
    | AvailabilityNotIn

  /**
   * The schema check of the `allowNull: false` columns. It runs while the
   * attributes are walked, before any validator settles, so these come first.
   */
  function NullViolations(a: BookAttributes): seq<Violation> {
    (if a.title.None? then [TitleNull] else [])
    + (if a.author.None? then [AuthorNull] else [])
    + (if a.price.None? then [PriceNull] else [])
  }

  /** `notEmpty` then `len: [1, 255]`; a null title runs neither. */
  function TitleViolations(title: Option<string>): seq<Violation> {
    match title
    case None => []
    case Some(t) => (if Blank(t) then [TitleEmpty] else []) + (if 1 <= |t| <= 255 then [] else [TitleLength])
  }

  function AuthorViolations(author: Option<string>): seq<Violation> {
    match author
    case None => []
    case Some(a) => if Blank(a) then [AuthorEmpty] else []
  }

  /** `min: 0`, `isDecimal` and the custom validator, in declaration order; a null price runs none. */
  function PriceViolations(price: Option<Decimal>): seq<Violation> {
    match price
    case None => []
    case Some(p) =>
      (if NonNegative(p) then [] else [PriceBelowMin])
      + (if WellFormedDecimal(p) then [] else [PriceNotDecimal])
      + (match PriceCustomValidator(price) case Some(m) => [PriceCustom(m)] case None => [])
  }

  /** `isIn: [[0, 1]]`; a null or undefined availability is not validated. */
  function AvailabilityViolations(availability: Option<int>): seq<Violation> {
    match availability
    case None => []
    case Some(v) => if v == 0 || v == 1 then [] else [AvailabilityNotIn]
  }

  /**
   * Every rule the attributes break, in the order the validation error lists
   * them: the null columns, then the validators column by column.
   * `imageUrl`, `editorial` and `genre` have no rules.
   */
  function Violations(a: BookAttributes): seq<Violation> {
    NullViolations(a) + TitleViolations(a.title) + AuthorViolations(a.author) + PriceViolations(a.price)
    + AvailabilityViolations(a.availability)
  }

  /**
   * The column rules, stated directly: a title of 1 to 255 characters that
   * is not all whitespace, an author that is not all whitespace, a present
   * non-negative decimal price with at most two fraction digits, and an
   * availability of 0 or 1 when there is one.
   */
  predicate ValidAttributes(a: BookAttributes) {
    && a.title.Some? && 1 <= |a.title.value| <= 255 && !Blank(a.title.value)
    && a.author.Some? && !Blank(a.author.value)
    && a.price.Some? && WellFormedDecimal(a.price.value) && NonNegative(a.price.value)
    && |a.price.value.fraction| <= 2
    && (a.availability.Some? ==> a.availability.value in {0, 1})
  }

  /** Validation reports no violation exactly when the attributes satisfy the rules. */
  lemma NoViolationsIff(a: BookAttributes)
    ensures Violations(a) == [] <==> ValidAttributes(a)
  {
    if a.price.Some? && WellFormedDecimal(a.price.value) {
      PriceCheckByFraction(a.price.value);
    }
  }

  /** A missing required column is reported as a null violation and by none of its validators. */
  lemma NullColumnsOnlyNull(a: BookAttributes)
    requires a.title.None? && a.author.None? && a.price.None?
    ensures Violations(a) == [TitleNull, AuthorNull, PriceNull] + AvailabilityViolations(a.availability)
  {
  }

  /** `${this.constructor.name}.${field} cannot be null`, under the item type `notNull Violation`. */
  function NotNullItem(field: string): string {
    "notNull Violation: Book." + field + " cannot be null"
  }

  /** A built-in validator's default message, under the item type `Validation error`. */
  function ValidatorItem(validator: string, field: string): string {
    "Validation error: Validation " + validator + " on " + field + " failed"
  }

  /** One line of the error message: the item's type, a colon and the item's message. */
  function ItemMessage(v: Violation): string {
    match v
    case TitleNull => NotNullItem("title")
    case TitleEmpty => ValidatorItem("notEmpty", "title")
    case TitleLength => ValidatorItem("len", "title")
    case AuthorNull => NotNullItem("author")
    case AuthorEmpty => ValidatorItem("notEmpty", "author")
    case PriceNull => NotNullItem("price")
    case PriceBelowMin => ValidatorItem("min", "price")
    case PriceNotDecimal => ValidatorItem("isDecimal", "price")
    case PriceCustom(m) => "Validation error: " + m
    case AvailabilityNotIn => ValidatorItem("isIn", "availability")
  }

  function ItemMessages(vs: seq<Violation>): (ms: seq<string>)
    ensures |ms| == |vs| && forall i :: 0 <= i < |vs| ==> ms[i] == ItemMessage(vs[i])
  {
    seq(|vs|, i requires 0 <= i < |vs| => ItemMessage(vs[i]))
  }

  /** The `SequelizeValidationError` message: one line per item, joined with ",\n". */
  function ValidationMessage(vs: seq<Violation>): string
    requires vs != []
  {
    JoinWith(ItemMessages(vs), ",\n")
  }

  /** The message names every violation, the first one at its head. */
  lemma ValidationMessageLists(vs: seq<Violation>)
    requires vs != []
    ensures StartsWith(ValidationMessage(vs), ItemMessage(vs[0]))
    ensures forall i :: 0 <= i < |vs| ==> IsInfix(ItemMessage(vs[i]), ValidationMessage(vs))
  {
    JoinWithContains(ItemMessages(vs), ",\n");
  }

  /** A title of spaces passes `len` but not `notEmpty`, and the message says so. */
  lemma BlankTitleMessage(a: BookAttributes)
    requires a.title == Some("   ") && a.author.Some? && !Blank(a.author.value)
    requires a.price == Some(Decimal(false, "5", "")) && a.availability.None?
    ensures Violations(a) == [TitleEmpty]
    ensures ValidationMessage(Violations(a)) == "Validation error: Validation notEmpty on title failed"
  {
    assert Blank("   ") by {
      forall j | 0 <= j < |"   "| ensures Whitespace("   "[j]) {
      }
    }
    PriceCheckByFraction(Decimal(false, "5", ""));
  }

  /** A stored row. `deletedAt` marks a soft-deleted book. */
  datatype Book = Book(
    id: int,
    title: string,
    author: string,
    editorial: Option<string>,
    genre: Option<string>,
    price: Decimal,
    availability: Option<int>,
    imageUrl: Option<string>,
    createdAt: Timestamp,
    updatedAt: Timestamp,
    deletedAt: Option<Timestamp>)

  function AttributesOf(b: Book): (a: BookAttributes)
    ensures a.title == Some(b.title) && a.author == Some(b.author) && a.price == Some(b.price)
  {
    BookAttributes(Some(b.title), Some(b.author), b.editorial, b.genre, Some(b.price), b.availability, b.imageUrl)
  }

  predicate BookValid(b: Book) {
    ValidAttributes(AttributesOf(b))
  }

  predicate Live(b: Book) {
    b.deletedAt.None?
  }

  /** What both hooks do: an undefined availability becomes 1; a defined one is left as it is. */
  function WithDefaultAvailability(b: Book): (r: Book)
    ensures r.availability.Some?
    ensures b.availability.Some? ==> r == b
    ensures b.availability.None? ==> r == b.(availability := Some(1))
  {
    if b.availability.None? then b.(availability := Some(1)) else b
  }

  /** The hooks keep a valid book valid, and applying them twice is applying them once. */
  lemma DefaultAvailabilityKeepsValid(b: Book)
    requires BookValid(b)
    ensures BookValid(WithDefaultAvailability(b))
    ensures WithDefaultAvailability(WithDefaultAvailability(b)) == WithDefaultAvailability(b)
  {
  }

  function OptStr(v: Option<string>): Json {
    match v
    case None => JNull
    case Some(s) => JStr(s)
  }

  /** An instance's `availability` before the hook runs may be `undefined`. */
  function OptAvailability(v: Option<int>): Json {
    match v
    case None => JUndefined
    case Some(n) => JNum(n)
  }

  function OptTime(v: Option<Timestamp>): Json {
    match v
    case None => JNull
    case Some(t) => JNum(t)
  }

  /** The attribute names an instance's values and its JSON can carry. */
  datatype Column =
    | Id | Title | Author | Editorial | Genre | Price | Availability | ImageUrl
    | CreatedAt | UpdatedAt | DeletedAt | Description | Isbn | PublicationDate

  /**
   * A price as the DECIMAL(10, 2) column gives it back: the fraction padded
   * with zeros to two digits (a longer one, which validation never lets
   * through, cut to two), and no sign on zero.
   */
  function Scaled(d: Decimal): (s: Decimal)
    ensures s.whole == d.whole && |s.fraction| == 2
    ensures |d.fraction| <= 2 ==> s.fraction[..|d.fraction|] == d.fraction && AllZeros(s.fraction[|d.fraction|..])
    ensures |d.fraction| > 2 ==> s.fraction == d.fraction[..2]
    ensures s.negative ==> d.negative
    ensures NonNegative(d) ==> !s.negative
  {
    var f := if |d.fraction| >= 2 then d.fraction[..2] else if |d.fraction| == 1 then d.fraction + "0" else "00";
    assert |d.fraction| == 0 ==> f[|d.fraction|..] == "00";
    Decimal(d.negative && !(AllZeros(d.whole) && AllZeros(f)), d.whole, f)
  }

  /** A DECIMAL column reads back as the text of its scaled value. */
  function PriceJson(d: Decimal): (v: Json)
    ensures v.JStr?
  {
    JStr(DecimalText(Scaled(d)))
  }

  /** A stored price always reads back with two fraction digits, and the price validator accepts it again. */
  lemma StoredPriceScale(d: Decimal)
    requires WellFormedDecimal(d)
    ensures DecimalPlaces(PriceJson(d).s) == 2
    ensures PriceCustomValidator(Some(Scaled(d))) == None
  {
    DecimalPlacesOfText(Scaled(d));
    PriceCheckByFraction(Scaled(d));
  }

  /** `12.5` and `12` are stored and read back as "12.50" and "12.00". */
  lemma StoredPriceExamples()
    ensures PriceJson(Decimal(false, "12", "5")) == JStr("12.50")
    ensures PriceJson(Decimal(false, "12", "")) == JStr("12.00")
    ensures PriceJson(Decimal(true, "0", "")) == JStr("0.00")
  {
    assert "12"[0] != '0';
    assert Scaled(Decimal(false, "12", "5")) == Decimal(false, "12", "50");
    assert Scaled(Decimal(false, "12", "")) == Decimal(false, "12", "00");
    assert AllZeros("0") && AllZeros("00");
    assert Scaled(Decimal(true, "0", "")) == Decimal(false, "0", "00");
  }

  /** `this.get()`: the column values of an instance. The entity declares no description, isbn or publicationDate column. */
  function Values(b: Book): (m: map<Column, Json>)
    ensures m.Keys == {Id, Title, Author, Editorial, Genre, Price, Availability, ImageUrl, CreatedAt, UpdatedAt, DeletedAt}
  {
    map[Id := JNum(b.id), Title := JStr(b.title), Author := JStr(b.author),
        Editorial := OptStr(b.editorial), Genre := OptStr(b.genre),
        Price := PriceJson(b.price), Availability := OptAvailability(b.availability),
        ImageUrl := OptStr(b.imageUrl), CreatedAt := JNum(b.createdAt),
        UpdatedAt := JNum(b.updatedAt), DeletedAt := OptTime(b.deletedAt)]
  }

  /** The instance as a JavaScript object, keyed by property name (what interceptors and CSV columns see). */
  function AsObject(b: Book): Json {
    JObj(map["id" := JNum(b.id), "title" := JStr(b.title), "author" := JStr(b.author),
        "editorial" := OptStr(b.editorial), "genre" := OptStr(b.genre),
        "price" := PriceJson(b.price), "availability" := OptAvailability(b.availability),
        "imageUrl" := OptStr(b.imageUrl), "createdAt" := JNum(b.createdAt),
        "updatedAt" := JNum(b.updatedAt), "deletedAt" := OptTime(b.deletedAt)])
  }

  /** A present, non-empty string, or `null` for an absent or empty one. */
  function NonEmptyOrNull(v: Option<string>): (r: Json)
    ensures r == JNull || (v.Some? && v.value != "" && r == JStr(v.value))
  {
    if v.Some? && v.value != "" then JStr(v.value) else JNull
  }

  /** `values[key]`, `undefined` when missing. */
  function Lookup(m: map<Column, Json>, key: Column): Json {
    if key in m then m[key] else JUndefined
  }

  /**
   * The serialised form of a book: every column but `deletedAt`, with the
   * optional ones `null` when absent or empty, and the three metadata keys
   * the entity has no column for always `null`.
   */
  function JsonView(b: Book): (json: map<Column, Json>)
    ensures && Id in json && Title in json && Author in json && Editorial in json && Genre in json
            && Price in json && Availability in json && ImageUrl in json && CreatedAt in json
            && UpdatedAt in json && Description in json && Isbn in json && PublicationDate in json
    ensures DeletedAt !in json
    ensures json[Id] == JNum(b.id) && json[Title] == JStr(b.title) && json[Author] == JStr(b.author)
    ensures json[Price] == PriceJson(b.price) && json[Availability] == OptAvailability(b.availability)
    ensures json[CreatedAt] == JNum(b.createdAt) && json[UpdatedAt] == JNum(b.updatedAt)
    ensures json[Editorial] == NonEmptyOrNull(b.editorial) && json[Genre] == NonEmptyOrNull(b.genre)
    ensures json[ImageUrl] == NonEmptyOrNull(b.imageUrl)
    ensures json[Description] == JNull && json[Isbn] == JNull && json[PublicationDate] == JNull
  {
    map[Id := JNum(b.id), Title := JStr(b.title), Author := JStr(b.author),
        Price := PriceJson(b.price), Availability := OptAvailability(b.availability),
        CreatedAt := JNum(b.createdAt), UpdatedAt := JNum(b.updatedAt),
        Editorial := NonEmptyOrNull(b.editorial), Genre := NonEmptyOrNull(b.genre),
        ImageUrl := NonEmptyOrNull(b.imageUrl),
        Description := JNull, Isbn := JNull, PublicationDate := JNull]
  }

  /** The serialised form has every column but `deletedAt`, including the three the entity lacks. */
  lemma JsonViewKeys(b: Book)
    ensures forall c :: c in JsonView(b) <==> c != DeletedAt
  {
    forall c ensures c in JsonView(b) <==> c != DeletedAt {
      match c
      case DeletedAt =>
      case _ =>
    }
  }

  /**
   * For the optional string columns, the serialised value is the stored one
   * when that is truthy and `null` otherwise, so `''` and `null` both become `null`.
   */
  lemma NonEmptyOrNullNullsFalsy(v: Option<string>)
    ensures NonEmptyOrNull(v) == if Truthy(OptStr(v)) then OptStr(v) else JNull
  {
  }

  /** The columns `toJSON` copies unchanged. */
  ghost function Common(b: Book): map<Column, Json> {
    map[Id := JNum(b.id), Title := JStr(b.title), Author := JStr(b.author),
        Price := PriceJson(b.price), Availability := OptAvailability(b.availability),
        CreatedAt := JNum(b.createdAt), UpdatedAt := JNum(b.updatedAt)]
  }

  lemma ValuesWithoutDeletedAt(b: Book)
    ensures Values(b) - {DeletedAt} ==
      Common(b)[Editorial := OptStr(b.editorial)][Genre := OptStr(b.genre)][ImageUrl := OptStr(b.imageUrl)]
  {
  }

  lemma JsonViewOfCommon(b: Book)
    ensures JsonView(b) ==
      Common(b)[Editorial := NonEmptyOrNull(b.editorial)][Genre := NonEmptyOrNull(b.genre)]
        [ImageUrl := NonEmptyOrNull(b.imageUrl)][Description := JNull][Isbn := JNull][PublicationDate := JNull]
  {
  }

  /** `if (!values[c]) values[c] = null`. */
  function NullIfFalsy(m: map<Column, Json>, c: Column): (r: map<Column, Json>)
    ensures Truthy(Lookup(m, c)) ==> r == m
    ensures !Truthy(Lookup(m, c)) ==> r == m[c := JNull]
  {
    if Truthy(Lookup(m, c)) then m else m[c := JNull]
  }

  /** On an optional string column, nulling a falsy value leaves what `NonEmptyOrNull` gives. */
  lemma NullOptStr(m: map<Column, Json>, c: Column, v: Option<string>)
    requires c in m && m[c] == OptStr(v)
    ensures NullIfFalsy(m, c) == m[c := NonEmptyOrNull(v)]
  {
    if Truthy(OptStr(v)) {
      assert m[c := NonEmptyOrNull(v)] == m;
    }
  }

  /** Later updates of the same three keys replace the earlier ones. */
  lemma OverwriteThree(m: map<Column, Json>, c1: Column, c2: Column, c3: Column, a1: Json, a2: Json, a3: Json, b1: Json, b2: Json, b3: Json)
    requires c1 != c2 && c1 != c3 && c2 != c3
    ensures m[c1 := a1][c2 := a2][c3 := a3][c1 := b1][c2 := b2][c3 := b3] == m[c1 := b1][c2 := b2][c3 := b3]
  {
  }

  /** Nulling keys a map lacks adds them as `null`. */
  lemma NullAbsentThree(m: map<Column, Json>, c1: Column, c2: Column, c3: Column)
    requires c1 !in m && c2 !in m && c3 !in m && c1 != c2 && c1 != c3 && c2 != c3
    ensures NullIfFalsy(NullIfFalsy(NullIfFalsy(m, c1), c2), c3) == m[c1 := JNull][c2 := JNull][c3 := JNull]
  {
    assert Lookup(m, c1) == JUndefined;
    assert Lookup(m[c1 := JNull], c2) == JUndefined;
    assert Lookup(m[c1 := JNull][c2 := JNull], c3) == JUndefined;
  }

  /** The first three statements of `toJSON` null the optional string columns as `NonEmptyOrNull` does. */
  lemma NullOptionalStrings(b: Book)
    ensures NullIfFalsy(NullIfFalsy(NullIfFalsy(Values(b) - {DeletedAt}, Editorial), Genre), ImageUrl) ==
      Common(b)[Editorial := NonEmptyOrNull(b.editorial)][Genre := NonEmptyOrNull(b.genre)][ImageUrl := NonEmptyOrNull(b.imageUrl)]
  {
    var c := Common(b);
    var m0 := Values(b) - {DeletedAt};
    ValuesWithoutDeletedAt(b);
    NullOptStr(m0, Editorial, b.editorial);
    var m1 := m0[Editorial := NonEmptyOrNull(b.editorial)];
    NullOptStr(m1, Genre, b.genre);
    var m2 := m1[Genre := NonEmptyOrNull(b.genre)];
    NullOptStr(m2, ImageUrl, b.imageUrl);
    OverwriteThree(c, Editorial, Genre, ImageUrl, OptStr(b.editorial), OptStr(b.genre), OptStr(b.imageUrl),
      NonEmptyOrNull(b.editorial), NonEmptyOrNull(b.genre), NonEmptyOrNull(b.imageUrl));
  }

  /** The six statements of `toJSON`, applied to the values without `deletedAt`, give the serialised form. */
  lemma ToJsonSteps(b: Book)
    ensures NullIfFalsy(NullIfFalsy(NullIfFalsy(NullIfFalsy(NullIfFalsy(NullIfFalsy(
      Values(b) - {DeletedAt}, Editorial), Genre), ImageUrl), Description), Isbn), PublicationDate) == JsonView(b)
  {
    NullOptionalStrings(b);
    var n := Common(b)[Editorial := NonEmptyOrNull(b.editorial)][Genre := NonEmptyOrNull(b.genre)][ImageUrl := NonEmptyOrNull(b.imageUrl)];
    NullAbsentThree(n, Description, Isbn, PublicationDate);
    JsonViewOfCommon(b);
  }

  /** A model instance: the ORM object the hooks and `toJSON` act on. */
  class BookInstance {
    var values: Book

    constructor (b: Book)
      ensures values == b
    {
      values := b;
    }

    /** The `BeforeCreate` hook. */
    static method SetDefaults(instance: BookInstance)
      modifies instance
      ensures instance.values == WithDefaultAvailability(old(instance.values))
    {
      if instance.values.availability.None? {
        instance.values := instance.values.(availability := Some(1));
      }
    }

    /** The `BeforeUpdate` hook. */
    static method SetDefaultsOnUpdate(instance: BookInstance)
      modifies instance
      ensures instance.values == WithDefaultAvailability(old(instance.values))
    {
      if instance.values.availability.None? {
        instance.values := instance.values.(availability := Some(1));
      }
    }

    /**
     * `toJSON()`: copy the values, drop `deletedAt`, and set each of the six
     * optional keys to `null` when it is falsy (missing or `''` included).
     */
    method ToJson() returns (json: map<Column, Json>)
      ensures json == JsonView(values)
    {
      var b := values;
      json := Values(b);
      json := json - {DeletedAt};
      json := NullIfFalsy(json, Editorial);
      json := NullIfFalsy(json, Genre);
      json := NullIfFalsy(json, ImageUrl);
      json := NullIfFalsy(json, Description);
      json := NullIfFalsy(json, Isbn);
      json := NullIfFalsy(json, PublicationDate);
      ToJsonSteps(b);
    }
  }
}
