/**
 * The books service: the where clause and order list it compiles from a
 * list or export query, the pagination offset, and the store operations
 * `findOne`, `create`, `update` and `remove` over a soft-deleting table.
 */
module BooksService {
  import opened Wrappers
  import opened Text
  import opened Errors
  import opened BookEntity
  import opened BookQueryDto
  import opened CreateBookDto
  import opened UpdateBookDto

  // ---------------------------------------------------------------------
  // Where clause
  // ---------------------------------------------------------------------

  /** `{ column: { [Op.iLike]: `%needle%` } }`. */
  datatype Like = Like(column: Column, needle: string)

  /**
   * The `where` object: `deletedAt: null`, the optional `[Op.or]` group and
   * the optional `author`, `editorial`, `genre` and `availability` keys.
   */
  datatype Where = Where(
    deletedAtNull: bool,
    anyOf: Option<seq<Like>>,
    author: Option<Like>,
    editorial: Option<Like>,
    genre: Option<Like>,
    availability: Option<int>)

  /** `if (s)` on an optional string. */
  predicate Given(s: Option<string>) {
    s.Some? && s.value != ""
  }

  /** The `[Op.or]` group a search term adds: the four text columns. */
  function SearchGroup(search: string): (g: seq<Like>)
    ensures |g| == 4
    ensures forall k :: 0 <= k < 4 ==> g[k].needle == search
    ensures g[0].column == Title && g[1].column == Author && g[2].column == Editorial && g[3].column == Genre
  {
    [Like(Title, search), Like(Author, search), Like(Editorial, search), Like(Genre, search)]
  }

  /** A substring constraint on a present filter, none on an absent or empty one. */
  function FilterLike(column: Column, v: Option<string>): (l: Option<Like>)
    ensures l.Some? <==> Given(v)
    ensures l.Some? ==> l.value == Like(column, v.value)
  {
    if Given(v) then Some(Like(column, v.value)) else None
  }

  /** The where clause of a query, shared by the list and the export. */
  function WhereFor(q: FindAllQuery): (w: Where)
    ensures w.deletedAtNull
    ensures w.anyOf.Some? <==> Given(q.search)
    ensures w.anyOf.Some? ==> w.anyOf.value == SearchGroup(q.search.value)
    ensures w.author == FilterLike(Author, q.author)
    ensures w.editorial == FilterLike(Editorial, q.editorial)
    ensures w.genre == FilterLike(Genre, q.genre)
    ensures w.availability == q.availability
  {
    Where(true,
      if Given(q.search) then Some(SearchGroup(q.search.value)) else None,
      FilterLike(Author, q.author), FilterLike(Editorial, q.editorial), FilterLike(Genre, q.genre),
      q.availability)
  }

  /** The `where` object as both methods build it: start from `deletedAt: null`, then add each key whose filter is given. */
  method BuildWhere(q: FindAllQuery) returns (w: Where)
    ensures w == WhereFor(q)
  {
    w := Where(true, None, None, None, None, None);
    if Given(q.search) {
      var s := q.search.value;
      w := w.(anyOf := Some([Like(Title, s), Like(Author, s), Like(Editorial, s), Like(Genre, s)]));
    }
    if Given(q.author) {
      w := w.(author := Some(Like(Author, q.author.value)));
    }
    if Given(q.editorial) {
      w := w.(editorial := Some(Like(Editorial, q.editorial.value)));
    }
    if Given(q.genre) {
      w := w.(genre := Some(Like(Genre, q.genre.value)));
    }
    if q.availability.Some? {
      w := w.(availability := Some(q.availability.value));
    }
  }

  /** Characters mapped one by one through the database's case fold. */
  function FoldText(fold: char -> char, s: string): (r: string)
    ensures |r| == |s|
    ensures forall k :: 0 <= k < |s| ==> r[k] == fold(s[k])
  {
    seq(|s|, k requires 0 <= k < |s| => fold(s[k]))
  }

  /** `text ILIKE '%needle%'`, with the wildcard characters of `needle` read literally. */
  predicate ContainsFolded(fold: char -> char, text: string, needle: string) {
    IsInfix(FoldText(fold, needle), FoldText(fold, text))
  }

  /** The text a column holds; `NULL` for an absent editorial or genre, matching nothing. */
  function ColumnText(b: Book, c: Column): (t: Option<string>)
    ensures c == Title ==> t == Some(b.title)
    ensures c == Author ==> t == Some(b.author)
    ensures c == Editorial ==> t == b.editorial
    ensures c == Genre ==> t == b.genre
  {
    match c
    case Title => Some(b.title)
    case Author => Some(b.author)
    case Editorial => b.editorial
    case Genre => b.genre
    case _ => None
  }

  predicate LikeHolds(fold: char -> char, b: Book, l: Like) {
    var t := ColumnText(b, l.column);
    t.Some? && ContainsFolded(fold, t.value, l.needle)
  }

  /** Whether a row satisfies a where clause. */
  predicate Satisfies(fold: char -> char, b: Book, w: Where) {
    && (w.deletedAtNull ==> Live(b))
    && (w.anyOf.Some? ==> exists l :: l in w.anyOf.value && LikeHolds(fold, b, l))
    && (w.author.Some? ==> LikeHolds(fold, b, w.author.value))
    && (w.editorial.Some? ==> LikeHolds(fold, b, w.editorial.value))
    && (w.genre.Some? ==> LikeHolds(fold, b, w.genre.value))
    && (w.availability.Some? ==> b.availability == Some(w.availability.value))
  }

  /** A text filter, stated on the book: absent or empty places no constraint. */
  predicate TextFilterHolds(fold: char -> char, text: Option<string>, filter: Option<string>) {
    Given(filter) ==> text.Some? && ContainsFolded(fold, text.value, filter.value)
  }

  /**
   * What a query selects, stated on the row: it is not soft-deleted; a
   * search term occurs in one of the four text columns; each of author,
   * editorial and genre, when given, occurs in its own column; and a given
   * availability matches exactly.
   */
  lemma SatisfiesWhereFor(fold: char -> char, b: Book, q: FindAllQuery)
    ensures Satisfies(fold, b, WhereFor(q)) <==>
      && Live(b)
      && (Given(q.search) ==>
            || ContainsFolded(fold, b.title, q.search.value)
            || ContainsFolded(fold, b.author, q.search.value)
            || TextFilterHolds(fold, b.editorial, q.search)
            || TextFilterHolds(fold, b.genre, q.search))
      && TextFilterHolds(fold, Some(b.author), q.author)
      && TextFilterHolds(fold, b.editorial, q.editorial)
      && TextFilterHolds(fold, b.genre, q.genre)
      && (q.availability.Some? ==> b.availability == q.availability)
  {
    var w := WhereFor(q);
    if Given(q.search) {
      SearchGroupHolds(fold, b, q.search.value);
    }
    FilterLikeHolds(fold, b, Author, q.author);
    FilterLikeHolds(fold, b, Editorial, q.editorial);
    FilterLikeHolds(fold, b, Genre, q.genre);
  }

  /** The search group holds when the term occurs in one of the four columns. */
  lemma SearchGroupHolds(fold: char -> char, b: Book, search: string)
    ensures (exists l :: l in SearchGroup(search) && LikeHolds(fold, b, l)) <==>
      || ContainsFolded(fold, b.title, search)
      || ContainsFolded(fold, b.author, search)
      || (b.editorial.Some? && ContainsFolded(fold, b.editorial.value, search))
      || (b.genre.Some? && ContainsFolded(fold, b.genre.value, search))
  {
    var g := SearchGroup(search);
    assert g[0] in g && g[1] in g && g[2] in g && g[3] in g;
    assert forall l :: l in g ==> l == g[0] || l == g[1] || l == g[2] || l == g[3];
  }

  /** A filter key holds exactly when its text filter holds on the column. */
  lemma FilterLikeHolds(fold: char -> char, b: Book, c: Column, v: Option<string>)
    ensures (FilterLike(c, v).Some? ==> LikeHolds(fold, b, FilterLike(c, v).value)) <==>
      TextFilterHolds(fold, ColumnText(b, c), v)
  {
  }

  /** Every read excludes soft-deleted rows, whatever filters the query has. */
  lemma WhereExcludesDeleted(fold: char -> char, b: Book, q: FindAllQuery)
    requires b.deletedAt.Some?
    ensures !Satisfies(fold, b, WhereFor(q))
  {
  }

  /** A query with no filter selects exactly the live rows. */
  lemma UnfilteredSelectsLive(fold: char -> char, b: Book)
    ensures Satisfies(fold, b, WhereFor(EmptyQuery)) <==> Live(b)
  {
  }

  // ---------------------------------------------------------------------
  // Order
  // ---------------------------------------------------------------------

  /** One `[field, direction]` pair of the order list. */
  datatype SortKey = SortKey(field: string, direction: string)

  const LIST_FALLBACK_ORDER := SortKey("createdAt", "DESC")
  const EXPORT_FALLBACK_ORDER := SortKey("id", "ASC")
  /** The service's destructuring default for `sortOrder`. */
  const SERVICE_SORT_ORDER := "ASC"

  /** `const [fieldName, direction] = field.split(':')` and `[fieldName, direction || sortOrder]`. */
  function SortKeyOf(segment: string, sortOrder: string): (k: SortKey)
    ensures k.field == Split(segment, ':')[0]
  {
    var parts := Split(segment, ':');
    SortKey(parts[0], if |parts| > 1 && parts[1] != "" then parts[1] else sortOrder)
  }

  /** The order list: one key per `,`-separated segment, in order, or the fallback when `sortBy` is absent or empty. */
  function OrderFor(sortBy: Option<string>, sortOrder: string, fallback: SortKey): (order: seq<SortKey>)
    ensures !Given(sortBy) ==> order == [fallback]
    ensures Given(sortBy) ==> |order| == |Split(sortBy.value, ',')|
    ensures Given(sortBy) ==> forall k :: 0 <= k < |order| ==>
      order[k] == SortKeyOf(Split(sortBy.value, ',')[k], sortOrder)
  {
    if Given(sortBy) then
      var segments := Split(sortBy.value, ',');
      seq(|segments|, k requires 0 <= k < |segments| => SortKeyOf(segments[k], sortOrder))
    else [fallback]
  }

  /** The `forEach`/`push` loop that fills the order list. */
  method BuildOrder(sortBy: Option<string>, sortOrder: string, fallback: SortKey) returns (order: seq<SortKey>)
    ensures order == OrderFor(sortBy, sortOrder, fallback)
  {
    order := [];
    if Given(sortBy) {
      var segments := Split(sortBy.value, ',');
      var k := 0;
      while k < |segments|
        invariant 0 <= k <= |segments|
        invariant |order| == k
        invariant forall j :: 0 <= j < k ==> order[j] == SortKeyOf(segments[j], sortOrder)
      {
        var parts := Split(segments[k], ':');
        var direction := if |parts| > 1 then parts[1] else "";
        order := order + [SortKey(parts[0], if direction != "" then direction else sortOrder)];
        k := k + 1;
      }
    } else {
      order := [fallback];
    }
  }

  /** A segment `field:direction` or a bare `field`, where neither holds a `:`. */
  lemma {:induction false} SortKeyOfText(field: string, direction: string, sortOrder: string)
    requires Free(field, ':') && Free(direction, ':')
    ensures SortKeyOf(field + ":" + direction, sortOrder) ==
      SortKey(field, if direction == "" then sortOrder else direction)
    ensures SortKeyOf(field, sortOrder) == SortKey(field, sortOrder)
  {
    SplitCons(field, ':', direction);
    assert field + ":" + direction == field + [':'] + direction;
    SplitFree(direction, ':');
    SplitFree(field, ':');
  }

  /** The text of an order list, `f1:d1,f2:d2,…`. */
  function SortText(keys: seq<SortKey>): (segments: seq<string>)
    ensures |segments| == |keys|
  {
    seq(|keys|, k requires 0 <= k < |keys| => keys[k].field + ":" + keys[k].direction)
  }

  /** Keys whose texts hold neither separator and whose directions are non-empty. */
  predicate PlainKeys(keys: seq<SortKey>) {
    forall k :: 0 <= k < |keys| ==>
      && Free(keys[k].field, ':') && Free(keys[k].field, ',')
      && Free(keys[k].direction, ':') && Free(keys[k].direction, ',')
      && keys[k].direction != ""
  }

  /** Printing an order list as `sortBy` and compiling it gives the list back, whatever `sortOrder` is. */
  lemma {:induction false} OrderRoundTrip(keys: seq<SortKey>, sortOrder: string, fallback: SortKey)
    requires |keys| >= 1 && PlainKeys(keys)
    ensures OrderFor(Some(Join(SortText(keys), ',')), sortOrder, fallback) == keys
  {
    var segments := SortText(keys);
    forall k | 0 <= k < |segments| ensures Free(segments[k], ',') {
      var s := segments[k];
      assert s == keys[k].field + [':'] + keys[k].direction;
      forall j | 0 <= j < |s| ensures s[j] != ',' {
        if j < |keys[k].field| {
          assert s[j] == keys[k].field[j];
        } else if j > |keys[k].field| {
          assert s[j] == keys[k].direction[j - |keys[k].field| - 1];
        }
      }
    }
    SplitJoin(segments, ',');
    assert Join(segments, ',') != "" by {
      SortTextNonEmpty(keys);
      JoinNonEmpty(segments, ',');
    }
    var order := OrderFor(Some(Join(segments, ',')), sortOrder, fallback);
    forall k | 0 <= k < |keys| ensures order[k] == keys[k] {
      SortKeyOfText(keys[k].field, keys[k].direction, sortOrder);
    }
  }

  /** A join whose first piece is non-empty is non-empty. */
  lemma JoinNonEmpty(parts: seq<string>, sep: char)
    requires |parts| >= 1 && |parts[0]| >= 1
    ensures Join(parts, sep) != ""
  {
  }

  /** A segment rendered by `SortText` starts with its field and so is non-empty. */
  lemma SortTextNonEmpty(keys: seq<SortKey>)
    requires |keys| >= 1
    ensures |SortText(keys)[0]| >= 1
  {
  }

  // ---------------------------------------------------------------------
  // Pagination
  // ---------------------------------------------------------------------

  /** `(page - 1) * limit`, not clamped. */
  function Offset(page: int, limit: int): (offset: int)
    ensures page >= 1 && limit >= 0 ==> offset >= 0
    ensures page < 1 && limit > 0 ==> offset < 0
    ensures offset + limit == page * limit
  {
    (page - 1) * limit
  }

  /** The service's destructuring defaults for an absent `page` and `limit`. */
  const SERVICE_PAGE := 1
  const SERVICE_LIMIT := 10

  /** The offset the list issues for a query after the transform. */
  function QueryOffset(q: FindAllQuery): (offset: int)
    ensures q.page.None? && q.limit.None? ==> offset == 0
  {
    Offset(q.page.GetOr(SERVICE_PAGE), q.limit.GetOr(SERVICE_LIMIT))
  }

  /**
   * The service's own default page is 1, but the query object's initialiser
   * gives 0 first, so a list request with no `page` asks for offset `-limit`.
   */
  lemma DefaultPageGivesNegativeOffset(q: FindAllQuery)
    requires q.page.None?
    ensures q.limit.None? ==> QueryOffset(WithDefaults(q)) == -10
    ensures q.limit.Some? ==> QueryOffset(WithDefaults(q)) == -q.limit.value
  {
  }

  /** Page -1 of 10 starts 20 rows before the first. */
  lemma NegativePageOffset()
    ensures Offset(-1, 10) == -20
  {
  }

  /**
   * Once the query's defaults are applied, `sortBy` is always present, so
   * both fallbacks are unreachable for an absent `sortBy`: list and export
   * order by createdAt in the query's direction, newest first when that is
   * absent too.
   */
  lemma DefaultsBypassFallback(q: FindAllQuery, fallback: SortKey)
    requires q.sortBy.None?
    ensures OrderFor(WithDefaults(q).sortBy, WithDefaults(q).sortOrder.GetOr(SERVICE_SORT_ORDER), fallback)
      == [SortKey("createdAt", WithDefaults(q).sortOrder.value)]
    ensures q.sortOrder.None? ==>
      OrderFor(WithDefaults(q).sortBy, WithDefaults(q).sortOrder.GetOr(SERVICE_SORT_ORDER), fallback)
        == [SortKey("createdAt", "DESC")]
  {
    var r := WithDefaults(q);
    var sortOrder := r.sortOrder.value;
    assert r.sortBy == Some(DEFAULT_SORT_BY);
    assert Free(DEFAULT_SORT_BY, ',') && Free(DEFAULT_SORT_BY, ':');
    SplitFree(DEFAULT_SORT_BY, ',');
    SortKeyOfText(DEFAULT_SORT_BY, "", sortOrder);
    var order := OrderFor(r.sortBy, sortOrder, fallback);
    assert |order| == 1 && order[0] == SortKeyOf(DEFAULT_SORT_BY, sortOrder);
  }

  // ---------------------------------------------------------------------
  // Reading the table
  // ---------------------------------------------------------------------

  /** The rows a where clause selects, in table order. */
  function Selected(fold: char -> char, rows: seq<Book>, w: Where): (r: seq<Book>)
    ensures |r| <= |rows|
    ensures forall b :: b in r <==> b in rows && Satisfies(fold, b, w)
  {
    if rows == [] then []
    else (if Satisfies(fold, rows[0], w) then [rows[0]] else []) + Selected(fold, rows[1..], w)
  }

  function Max(a: int, b: int): int { if a < b then b else a }
  function Min(a: int, b: int): int { if a < b then a else b }

  /**
   * `LIMIT limit OFFSET offset` over the selected rows. A negative offset or
   * limit is read as 0 here.
   */
  function Window(s: seq<Book>, offset: int, limit: int): (w: seq<Book>)
    ensures |w| == Min(Max(limit, 0), |s| - Min(Max(offset, 0), |s|))
    ensures forall k :: 0 <= k < |w| ==> w[k] == s[Max(offset, 0) + k]
    ensures forall b :: b in w ==> b in s
  {
    var start := Min(Max(offset, 0), |s|);
    s[start..start + Min(Max(limit, 0), |s| - start)]
  }

  /** The options the service passes to the table. */
  datatype FindOptions = FindOptions(where: Where, order: seq<SortKey>, limit: Option<int>, offset: Option<int>)

  /** The list response: the requested window, the number of rows selected, and `page`/`limit` as given. */
  datatype Page = Page(items: seq<Book>, total: int, page: int, limit: int)

  /** The first live row with an id. */
  function LiveIndex(rows: seq<Book>, id: int): (k: Option<nat>)
    ensures k.Some? ==> k.value < |rows| && rows[k.value].id == id && Live(rows[k.value])
    ensures k.Some? ==> forall j :: 0 <= j < k.value ==> !(rows[j].id == id && Live(rows[j]))
    ensures k.None? ==> forall j :: 0 <= j < |rows| && rows[j].id == id ==> !Live(rows[j])
  {
    if rows == [] then None
    else if rows[0].id == id && Live(rows[0]) then Some(0)
    else match LiveIndex(rows[1..], id)
      case None => None
      case Some(j) => Some(j + 1)
  }

  function NotFoundMessage(id: int): (m: string)
    ensures StartsWith(m, "Libro con ID ")
  {
    "Libro con ID " + IntToString(id) + " no encontrado"
  }

  /** Distinct ids give distinct not-found messages. */
  lemma NotFoundMessageNamesId(i: int, j: int)
    requires NotFoundMessage(i) == NotFoundMessage(j)
    ensures i == j
  {
    var p := "Libro con ID ";
    var si, sj := IntToString(i), IntToString(j);
    assert NotFoundMessage(i) == (p + si) + " no encontrado";
    assert NotFoundMessage(j) == (p + sj) + " no encontrado";
    assert |si| == |sj|;
    assert si == NotFoundMessage(i)[|p|..|p| + |si|];
    assert sj == NotFoundMessage(j)[|p|..|p| + |sj|];
    IntToStringInjective(i, j);
  }

  // ---------------------------------------------------------------------
  // Writing the table
  // ---------------------------------------------------------------------

  const DEFAULT_SERVER_URL := "http://localhost:3001"
  const TRANSACTION_FAILED := "Transaction failed"
  const SEQUELIZE_VALIDATION_ERROR := "SequelizeValidationError"

  /** `${SERVER_URL}/uploads/books/${file.filename}`, with the configured server URL or its default. */
  function GetImageUrl(serverUrl: Option<string>, filename: string): (url: string)
    ensures StartsWith(url, serverUrl.GetOr(DEFAULT_SERVER_URL))
    ensures |url| >= |filename| && url[|url| - |filename|..] == filename
    ensures url != ""
  {
    var base := serverUrl.GetOr(DEFAULT_SERVER_URL);
    var url := base + UPLOADS_PATH + filename;
    assert url[..|base|] == base;
    url
  }

  /** With the default server URL, the address of an upload passes the `imageUrl` pattern of both bodies. */
  lemma DefaultImageUrlMatches(v: Validators, filename: string)
    requires UploadName(filename)
    ensures LocalhostUploadUrl(GetImageUrl(None, filename))
    ensures UpdateDtoValid(v, NoChange.(imageUrl := Some(GetImageUrl(None, filename))))
  {
    assert DEFAULT_SERVER_URL == LOCALHOST_PREFIX + "3001";
    assert AllDigits("3001");
    LocalhostUploadUrlOf("3001", filename);
  }

  /** The stored `imageUrl`: the uploaded file's address when there is a file, else what the body carries. */
  function ImageUrlFor(dtoUrl: Option<string>, file: Option<string>, serverUrl: Option<string>): (url: Option<string>)
    ensures file.Some? ==> url == Some(GetImageUrl(serverUrl, file.value))
    ensures file.None? ==> url == dtoUrl
  {
    if file.Some? then Some(GetImageUrl(serverUrl, file.value)) else dtoUrl
  }

  /** The attributes `create` passes to the table: the body's columns, with the image rule applied. */
  function CreateAttributes(d: CreateBook, file: Option<string>, serverUrl: Option<string>): (a: BookAttributes)
    ensures a.imageUrl == ImageUrlFor(d.imageUrl, file, serverUrl)
    ensures a.title == d.title && a.author == d.author && a.price == d.price && a.availability == d.availability
  {
    BookAttributes(d.title, d.author, d.editorial, d.genre, d.price, d.availability,
      ImageUrlFor(d.imageUrl, file, serverUrl))
  }

  /**
   * A body the validation pipe accepted is saved unless its title is longer
   * than the 255 characters the entity allows, or its title or author is
   * made only of whitespace: the body checks neither, the entity both.
   */
  lemma CreateBodyPassesEntity(v: Validators, d: CreateBook, file: Option<string>, serverUrl: Option<string>)
    requires CreateDtoValid(v, d)
    ensures ValidAttributes(CreateAttributes(d, file, serverUrl)) <==>
      |d.title.value| <= 255 && !Blank(d.title.value) && !Blank(d.author.value)
  {
  }

  /**
   * `Number(createBookDto.price)` leaves a body the pipe accepted as it is:
   * its price is a non-negative number with at most two decimals, so the
   * entity never reports the price as null, and reports nothing about the
   * price at all.
   */
  lemma PipeBodyKeepsPrice(v: Validators, d: CreateBook, file: Option<string>, serverUrl: Option<string>)
    requires CreateDtoValid(v, d)
    ensures CreateAttributes(d, file, serverUrl).price == d.price && d.price.Some?
    ensures PriceNull !in Violations(CreateAttributes(d, file, serverUrl))
    ensures PriceViolations(CreateAttributes(d, file, serverUrl).price) == []
  {
    PriceCheckByFraction(d.price.value);
  }

  /** The row a valid create inserts, before the hook. */
  function NewBook(id: int, a: BookAttributes, now: Timestamp): (b: Book)
    requires ValidAttributes(a)
    ensures AttributesOf(b) == a && BookValid(b)
    ensures b.id == id && Live(b) && b.createdAt == now && b.updatedAt == now
  {
    Book(id, a.title.value, a.author.value, a.editorial, a.genre, a.price.value, a.availability, a.imageUrl,
      now, now, None)
  }

  /**
   * Whether `set` marks any column changed: a given field that differs from
   * the stored value. A given price always counts, because the row holds
   * the DECIMAL column's text and the body a number, which are never equal.
   */
  predicate Changes(b: Book, u: UpdateBook, imageUrl: Option<string>) {
    || (u.title.Some? && u.title.value != b.title)
    || (u.author.Some? && u.author.value != b.author)
    || (u.editorial.Some? && u.editorial != b.editorial)
    || (u.genre.Some? && u.genre != b.genre)
    || u.price.Some?
    || (u.availability.Some? && u.availability != b.availability)
    || (imageUrl.Some? && imageUrl != b.imageUrl)
  }

  /**
   * `book.update(updateData)`: the given fields replace the stored ones, and
   * `updatedAt` moves to now only when some column changed; otherwise
   * `save` writes nothing and the row stays as it was.
   */
  function Applied(b: Book, u: UpdateBook, imageUrl: Option<string>, now: Timestamp): (r: Book)
    ensures r.id == b.id && r.createdAt == b.createdAt && r.deletedAt == b.deletedAt
    ensures r.updatedAt == if Changes(b, u, imageUrl) then now else b.updatedAt
    ensures r.title == u.title.GetOr(b.title) && r.author == u.author.GetOr(b.author)
    ensures r.price == u.price.GetOr(b.price)
    ensures r.editorial == (if u.editorial.Some? then u.editorial else b.editorial)
    ensures r.genre == (if u.genre.Some? then u.genre else b.genre)
    ensures r.availability == (if u.availability.Some? then u.availability else b.availability)
    ensures r.imageUrl == (if imageUrl.Some? then imageUrl else b.imageUrl)
    ensures !Changes(b, u, imageUrl) ==> r == b
  {
    b.(title := u.title.GetOr(b.title), author := u.author.GetOr(b.author),
       editorial := if u.editorial.Some? then u.editorial else b.editorial,
       genre := if u.genre.Some? then u.genre else b.genre,
       price := u.price.GetOr(b.price),
       availability := if u.availability.Some? then u.availability else b.availability,
       imageUrl := if imageUrl.Some? then imageUrl else b.imageUrl,
       updatedAt := if Changes(b, u, imageUrl) then now else b.updatedAt)
  }

  /** An empty update leaves the row exactly as it was, `updatedAt` included. */
  lemma EmptyUpdateLeavesRow(b: Book, now: Timestamp)
    ensures !Changes(b, NoChange, None)
    ensures Applied(b, NoChange, None, now) == b
  {
  }

  /** Sending the same update again, without a price, writes nothing the second time. */
  lemma RepeatedUpdateLeavesRow(b: Book, u: UpdateBook, imageUrl: Option<string>, now: Timestamp, later: Timestamp)
    requires u.price.None?
    ensures !Changes(Applied(b, u, imageUrl, now), u, imageUrl)
    ensures Applied(Applied(b, u, imageUrl, now), u, imageUrl, later) == Applied(b, u, imageUrl, now)
  {
  }

  /** An update body with a blank title passes the pipe but not the entity, so it can never be saved. */
  lemma BlankTitleUpdateRejected(b: Book, u: UpdateBook, imageUrl: Option<string>, now: Timestamp)
    requires u.title.Some? && Blank(u.title.value)
    ensures !BookValid(WithDefaultAvailability(Applied(b, u, imageUrl, now)))
  {
  }

  /**
   * The books table, soft-deleting: `remove` stamps `deletedAt` and reads
   * skip stamped rows. Ids are assigned in increasing order.
   */
  class BookStore {
    var rows: seq<Book>
    var nextId: int

    /** Ids increase along the table, all lie below `nextId`, and every row passed validation. */
    ghost predicate Valid()
      reads this
    {
      TableValid(rows, nextId)
    }

    constructor ()
      ensures Valid() && rows == [] && nextId == 1
    {
      rows := [];
      nextId := 1;
    }

    /** The position of the live row `findOne` fetches. */
    method Locate(id: int) returns (r: Result<nat, Exception>)
      ensures r.Ok? <==> LiveIndex(rows, id).Some?
      ensures r.Ok? ==> r.value == LiveIndex(rows, id).value
      ensures r.Err? ==> r.error == NotFoundException(NotFoundMessage(id))
    {
      var k := 0;
      while k < |rows|
        invariant 0 <= k <= |rows|
        invariant forall j :: 0 <= j < k ==> !(rows[j].id == id && Live(rows[j]))
      {
        if rows[k].id == id && Live(rows[k]) {
          return Ok(k);
        }
        k := k + 1;
      }
      return Err(NotFoundException(NotFoundMessage(id)));
    }

    /** `findOne`: the live row with the id, or NotFound naming the id. */
    method FindOne(id: int) returns (r: Result<Book, Exception>)
      ensures r.Ok? ==> r.value in rows && r.value.id == id && Live(r.value)
      ensures r.Err? ==> r.error == NotFoundException(NotFoundMessage(id))
      ensures r.Err? <==> forall b :: b in rows && b.id == id ==> !Live(b)
    {
      var loc := Locate(id);
      match loc
      case Ok(k) => r := Ok(rows[k]);
      case Err(e) => r := Err(e);
    }

    /** `findAll`: the compiled options and the requested page of the selected rows. */
    method FindAll(q: FindAllQuery, fold: char -> char) returns (options: FindOptions, p: Page)
      ensures options.where == WhereFor(q)
      ensures options.order == OrderFor(q.sortBy, q.sortOrder.GetOr(SERVICE_SORT_ORDER), LIST_FALLBACK_ORDER)
      ensures options.limit == Some(q.limit.GetOr(SERVICE_LIMIT))
      ensures options.offset == Some(QueryOffset(q))
      ensures p.total == |Selected(fold, rows, WhereFor(q))|
      ensures p.items == Window(Selected(fold, rows, WhereFor(q)), QueryOffset(q), q.limit.GetOr(SERVICE_LIMIT))
      ensures p.page == q.page.GetOr(SERVICE_PAGE) && p.limit == q.limit.GetOr(SERVICE_LIMIT)
      ensures forall b :: b in p.items ==> b in rows && Satisfies(fold, b, WhereFor(q))
    {
      var page := q.page.GetOr(SERVICE_PAGE);
      var limit := q.limit.GetOr(SERVICE_LIMIT);
      var offset := Offset(page, limit);
      var where := BuildWhere(q);
      var order := BuildOrder(q.sortBy, q.sortOrder.GetOr(SERVICE_SORT_ORDER), LIST_FALLBACK_ORDER);
      options := FindOptions(where, order, Some(limit), Some(offset));
      var selected := Selected(fold, rows, where);
      var items := Window(selected, offset, limit);
      p := Page(items, |selected|, page, limit);
    }

    /** `findAllForExport`: every selected row, with the export's own fallback order. */
    method FindAllForExport(q: FindAllQuery, fold: char -> char) returns (options: FindOptions, books: seq<Book>)
      ensures options.where == WhereFor(q)
      ensures options.order == OrderFor(q.sortBy, q.sortOrder.GetOr(SERVICE_SORT_ORDER), EXPORT_FALLBACK_ORDER)
      ensures options.limit.None? && options.offset.None?
      ensures books == Selected(fold, rows, WhereFor(q))
    {
      var where := BuildWhere(q);
      var order := BuildOrder(q.sortBy, q.sortOrder.GetOr(SERVICE_SORT_ORDER), EXPORT_FALLBACK_ORDER);
      options := FindOptions(where, order, None, None);
      books := Selected(fold, rows, where);
    }

    /**
     * `create`: validation, then the `BeforeCreate` hook, then the insert.
     * A failed validation throws the validation error, whose message lists
     * every violation; a failed insert
     * (`fault`) throws its own error; neither writes anything.
     */
    method Create(d: CreateBook, file: Option<string>, serverUrl: Option<string>, now: Timestamp,
                  fault: Option<Exception>) returns (r: Result<Book, Exception>)
      requires Valid()
      modifies this
      ensures Valid()
      ensures !ValidAttributes(CreateAttributes(d, file, serverUrl)) ==>
        r.Err? && r.error.JsError? && r.error.name == SEQUELIZE_VALIDATION_ERROR
      ensures Violations(CreateAttributes(d, file, serverUrl)) != [] ==>
        r == Err(JsError(SEQUELIZE_VALIDATION_ERROR, ValidationMessage(Violations(CreateAttributes(d, file, serverUrl)))))
      ensures ValidAttributes(CreateAttributes(d, file, serverUrl)) && fault.Some? ==> r == Err(fault.value)
      ensures r.Err? ==> rows == old(rows) && nextId == old(nextId)
      ensures r.Ok? <==> ValidAttributes(CreateAttributes(d, file, serverUrl)) && fault.None?
      ensures r.Ok? ==>
        && r.value == WithDefaultAvailability(NewBook(old(nextId), CreateAttributes(d, file, serverUrl), now))
        && rows == old(rows) + [r.value] && nextId == old(nextId) + 1
        && LiveIndex(rows, r.value.id) == Some(|rows| - 1)
    {
      var a := CreateAttributes(d, file, serverUrl);
      NoViolationsIff(a);
      if Violations(a) != [] {
        return Err(JsError(SEQUELIZE_VALIDATION_ERROR, ValidationMessage(Violations(a))));
      }
      var created := NewBook(nextId, a, now);
      var instance := new BookInstance(created);
      BookInstance.SetDefaults(instance);
      var book := instance.values;
      assert book == WithDefaultAvailability(created);
      if fault.Some? {
        return Err(fault.value);
      }
      DefaultAvailabilityKeepsValid(created);
      Insert(book);
      r := Ok(book);
    }

    /** The insert itself: the row goes at the end and takes the next id. */
    method Insert(book: Book)
      requires Valid() && book.id == nextId && BookValid(book) && Live(book)
      modifies this
      ensures Valid() && rows == old(rows) + [book] && nextId == old(nextId) + 1
      ensures LiveIndex(rows, book.id) == Some(|rows| - 1)
    {
      AppendKeepsValid(rows, nextId, book);
      rows := rows + [book];
      nextId := nextId + 1;
    }

    /**
     * `update`: `findOne` first, so a missing or removed id throws NotFound
     * and writes nothing. A file replaces the body's `imageUrl`. A rejected
     * save surfaces only as `Error('Transaction failed')` and writes nothing.
     * An update that changes no column sends no query, so it cannot fail.
     */
    method Update(id: int, u: UpdateBook, file: Option<string>, serverUrl: Option<string>, now: Timestamp,
                  fault: Option<Exception>) returns (r: Result<Book, Exception>)
      requires Valid()
      modifies this
      ensures Valid() && nextId == old(nextId)
      ensures LiveIndex(old(rows), id).None? ==> r == Err(NotFoundException(NotFoundMessage(id)))
      ensures r.Err? ==> rows == old(rows)
      ensures r.Err? && LiveIndex(old(rows), id).Some? ==> r == Err(PlainError(TRANSACTION_FAILED))
      ensures LiveIndex(old(rows), id).Some? ==>
        var k := LiveIndex(old(rows), id).value;
        var imageUrl := ImageUrlFor(u.imageUrl, file, serverUrl);
        var updated := WithDefaultAvailability(Applied(old(rows)[k], u, imageUrl, now));
        && (r.Ok? <==> BookValid(updated) && (fault.None? || !Changes(old(rows)[k], u, imageUrl)))
        && (r.Ok? ==> r.value == updated && rows == old(rows)[k := updated])
    {
      var loc := Locate(id);
      if loc.Err? {
        return Err(loc.error);
      }
      var k := loc.value;
      var imageUrl := u.imageUrl;
      if file.Some? {
        var url := GetImageUrl(serverUrl, file.value);
        if url != "" {
          imageUrl := Some(url);
        }
      }
      var instance := new BookInstance(Applied(rows[k], u, imageUrl, now));
      BookInstance.SetDefaultsOnUpdate(instance);
      var updated := instance.values;
      if !BookValid(updated) || (fault.Some? && Changes(rows[k], u, imageUrl)) {
        return Err(PlainError(TRANSACTION_FAILED));
      }
      Replace(k, updated);
      r := Ok(updated);
    }

    /**
     * `remove`: `findOne` first, then the soft delete, which stamps
     * `deletedAt` and, through `save`, `updatedAt`. A failed delete surfaces as `Error('Transaction failed')`.
     * After a removal the id is no longer found.
     */
    method Remove(id: int, now: Timestamp, fault: Option<Exception>) returns (r: Result<(), Exception>)
      requires Valid()
      modifies this
      ensures Valid() && nextId == old(nextId)
      ensures LiveIndex(old(rows), id).None? ==> r == Err(NotFoundException(NotFoundMessage(id)))
      ensures LiveIndex(old(rows), id).Some? && fault.Some? ==> r == Err(PlainError(TRANSACTION_FAILED))
      ensures r.Err? ==> rows == old(rows)
      ensures r.Ok? <==> LiveIndex(old(rows), id).Some? && fault.None?
      ensures r.Ok? ==>
        var k := LiveIndex(old(rows), id).value;
        && rows == old(rows)[k := old(rows)[k].(deletedAt := Some(now), updatedAt := now)]
        && LiveIndex(rows, id).None?
    {
      var loc := Locate(id);
      if loc.Err? {
        return Err(loc.error);
      }
      var k := loc.value;
      if fault.Some? {
        return Err(PlainError(TRANSACTION_FAILED));
      }
      var removed := rows[k].(deletedAt := Some(now), updatedAt := now);
      assert AttributesOf(removed) == AttributesOf(rows[k]);
      Replace(k, removed);
      r := Ok(());
    }

    /** The save of a changed row: it keeps its place and its id. */
    method Replace(k: nat, b: Book)
      requires Valid() && k < |rows| && b.id == rows[k].id && BookValid(b)
      modifies this
      ensures Valid() && rows == old(rows)[k := b] && nextId == old(nextId)
    {
      ReplaceKeepsValid(rows, nextId, k, b);
      rows := rows[k := b];
    }
  }

  /** Ids increase along the table, all lie below `nextId`, and every row passed validation. */
  ghost predicate TableValid(rows: seq<Book>, nextId: int) {
    && (forall i, j :: 0 <= i < j < |rows| ==> rows[i].id < rows[j].id)
    && (forall i :: 0 <= i < |rows| ==> rows[i].id < nextId && BookValid(rows[i]))
  }

  /** Appending a valid live row with the next id keeps the table valid, and the id is found at the end. */
  lemma AppendKeepsValid(rows: seq<Book>, nextId: int, b: Book)
    requires TableValid(rows, nextId)
    requires b.id == nextId && BookValid(b) && Live(b)
    ensures TableValid(rows + [b], nextId + 1)
    ensures LiveIndex(rows + [b], b.id) == Some(|rows|)
  {
    var t := rows + [b];
    assert forall i :: 0 <= i < |rows| ==> t[i] == rows[i];
    LiveIndexOfLast(t, b.id);
  }

  /** Replacing a row by a valid one with the same id keeps the table valid. */
  lemma ReplaceKeepsValid(rows: seq<Book>, nextId: int, k: nat, b: Book)
    requires TableValid(rows, nextId)
    requires k < |rows| && b.id == rows[k].id && BookValid(b)
    ensures TableValid(rows[k := b], nextId)
  {
  }

  /** The last row of a table with increasing ids is where its id is found, when it is live. */
  lemma LiveIndexOfLast(rows: seq<Book>, id: int)
    requires |rows| >= 1 && rows[|rows| - 1].id == id && Live(rows[|rows| - 1])
    requires forall i, j :: 0 <= i < j < |rows| ==> rows[i].id < rows[j].id
    ensures LiveIndex(rows, id) == Some(|rows| - 1)
  {
  }
}
