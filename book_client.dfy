/**
 * The web client's book calls: the query object of the list request, the
 * export URL, the multipart body of a create or an update, and the
 * normalisation of the books the server returns.
 *
 * A filters object or a book object is given as its entries, in the order
 * `Object.entries` lists them.
 */
module BookClient {
  import opened Wrappers
  import opened Json
  import opened Text
  import opened Errors

  type Entries = seq<(string, Json)>

  /** The entries of one object: no key twice. */
  predicate DistinctKeys(es: Entries) {
    forall i, j :: 0 <= i < j < |es| ==> es[i].0 != es[j].0
  }

  /** `obj[key]`: the value of the first entry with that key, `undefined` when there is none. */
  function FieldOf(es: Entries, key: string): (v: Json)
    ensures v != JUndefined ==> exists i :: 0 <= i < |es| && es[i] == (key, v)
    ensures (forall i :: 0 <= i < |es| ==> es[i].0 != key) ==> v == JUndefined
    ensures forall i :: 0 <= i < |es| && es[i].0 == key && (forall j :: 0 <= j < i ==> es[j].0 != key) ==> v == es[i].1
  {
    if |es| == 0 then JUndefined
    else if es[0].0 == key then es[0].1
    else FieldOf(es[1..], key)
  }

  /** In one object's entries, a key present reads back its own value. */
  lemma FieldOfDistinct(es: Entries, i: int)
    requires DistinctKeys(es) && 0 <= i < |es|
    ensures FieldOf(es, es[i].0) == es[i].1
  {
    assert forall j :: 0 <= j < i ==> es[j].0 != es[i].0;
  }

  /** `String(v)`, which template literals and `toString` use. */
  function Stringify(v: Json): string
    decreases v, 1
  {
    match v
    case JUndefined => "undefined"
    case JNull => "null"
    case JBool(b) => if b then "true" else "false"
    case JNum(n) => IntToString(n)
    case JStr(s) => s
    case JArr(items) =>
      if |items| == 0 then ""
      else Join(seq(|items|, k requires 0 <= k < |items| => ElementText(items[k], v)), ',')
    case JObj(_) => "[object Object]"
  }

  /** An array element in `Array.prototype.toString`: `null` and `undefined` print as nothing. */
  function ElementText(item: Json, arr: Json): string
    requires arr.JArr? && item in arr.items
    decreases arr, 0
  {
    if item == JNull || item == JUndefined then "" else Stringify(item)
  }

  // ---------------------------------------------------------------------
  // The list request's query object
  // ---------------------------------------------------------------------

  /** A filter is sent unless it is `undefined` or the empty string; 0 is sent. */
  predicate Kept(v: Json) {
    v != JUndefined && v != JStr("")
  }

  /**
   * What one filter contributes, given the filters' `sortOrder`: `sortBy`
   * carries the order after a colon when one is set, and `sortOrder` itself
   * is never sent.
   */
  function ParamValue(key: string, value: Json, sortOrder: Json): (r: Option<Json>)
    ensures r.Some? <==> Kept(value) && key != "sortOrder"
    ensures r.Some? && key == "sortBy" && Truthy(sortOrder) ==> r.value == JStr(Stringify(value) + ":" + Stringify(sortOrder))
    ensures r.Some? && !(key == "sortBy" && Truthy(sortOrder)) ==> r.value == value
  {
    if !Kept(value) then None
    else if key == "sortBy" && Truthy(sortOrder) then Some(JStr(Stringify(value) + ":" + Stringify(sortOrder)))
    else if key != "sortOrder" then Some(value)
    else None
  }

  /** The accumulator of the `reduce` after the given entries. */
  function QueryParamsOf(es: Entries, sortOrder: Json): map<string, Json> {
    if |es| == 0 then map[]
    else
      var acc := QueryParamsOf(es[..|es| - 1], sortOrder);
      var (key, value) := es[|es| - 1];
      match ParamValue(key, value, sortOrder)
      case None => acc
      case Some(p) => acc[key := p]
  }

  /** The `reduce` of `getBooks`. */
  method BuildQueryParams(filters: Entries) returns (acc: map<string, Json>)
    ensures acc == QueryParamsOf(filters, FieldOf(filters, "sortOrder"))
  {
    var sortOrder := FieldOf(filters, "sortOrder");
    acc := map[];
    for i := 0 to |filters|
      invariant acc == QueryParamsOf(filters[..i], sortOrder)
    {
      assert filters[..i + 1][..i] == filters[..i];
      var (key, value) := filters[i];
      if value != JUndefined && value != JStr("") {
        if key == "sortBy" && Truthy(sortOrder) {
          acc := acc[key := JStr(Stringify(value) + ":" + Stringify(sortOrder))];
        } else if key != "sortOrder" {
          acc := acc[key := value];
        }
      }
    }
    assert filters[..|filters|] == filters;
  }

  /** A key is sent exactly when some filter with that key contributes a value. */
  lemma {:induction false} QueryParamsKeys(es: Entries, sortOrder: Json, key: string)
    ensures key in QueryParamsOf(es, sortOrder) <==>
      exists i :: 0 <= i < |es| && es[i].0 == key && ParamValue(es[i].0, es[i].1, sortOrder).Some?
  {
    if |es| > 0 {
      var init := es[..|es| - 1];
      QueryParamsKeys(init, sortOrder, key);
      if key in QueryParamsOf(init, sortOrder) {
        var i :| 0 <= i < |init| && init[i].0 == key && ParamValue(init[i].0, init[i].1, sortOrder).Some?;
        assert es[i] == init[i];
      }
      if exists i :: 0 <= i < |es| && es[i].0 == key && ParamValue(es[i].0, es[i].1, sortOrder).Some? {
        var i :| 0 <= i < |es| && es[i].0 == key && ParamValue(es[i].0, es[i].1, sortOrder).Some?;
        if i < |es| - 1 {
          assert init[i] == es[i];
        }
      }
    }
  }

  /** The `sortOrder` key is never sent. */
  lemma SortOrderNeverSent(es: Entries, sortOrder: Json)
    ensures "sortOrder" !in QueryParamsOf(es, sortOrder)
  {
    QueryParamsKeys(es, sortOrder, "sortOrder");
  }

  /** For one filters object, each contributing filter is sent with its own value. */
  lemma {:induction false} QueryParamsValues(es: Entries, sortOrder: Json, i: int)
    requires DistinctKeys(es) && 0 <= i < |es|
    requires ParamValue(es[i].0, es[i].1, sortOrder).Some?
    ensures es[i].0 in QueryParamsOf(es, sortOrder)
    ensures QueryParamsOf(es, sortOrder)[es[i].0] == ParamValue(es[i].0, es[i].1, sortOrder).value
  {
    var init := es[..|es| - 1];
    if i < |es| - 1 {
      assert init[i] == es[i];
      assert DistinctKeys(init);
      QueryParamsValues(init, sortOrder, i);
      assert es[|es| - 1].0 != es[i].0;
    }
  }

  /** The documented cases: availability 0 is sent, and a sort order is folded into `sortBy`. */
  lemma QueryParamExamples(field: string, order: string)
    requires field != "" && order != ""
    ensures ParamValue("availability", JNum(0), JUndefined) == Some(JNum(0))
    ensures ParamValue("search", JStr(""), JUndefined).None?
    ensures ParamValue("sortBy", JStr(field), JStr(order)) == Some(JStr(field + ":" + order))
    ensures ParamValue("sortBy", JStr(field), JUndefined) == Some(JStr(field))
    ensures ParamValue("sortBy", JStr(""), JStr(order)).None?
  {
  }

  // ---------------------------------------------------------------------
  // The export URL
  // ---------------------------------------------------------------------

  const EXPORT_PATH := "/books/export/csv?"

  /** The pairs appended to the `URLSearchParams`, in entry order. */
  function ExportPairsOf(es: Entries, sortOrder: Json): seq<(string, string)> {
    if |es| == 0 then []
    else
      var pairs := ExportPairsOf(es[..|es| - 1], sortOrder);
      var (key, value) := es[|es| - 1];
      match ParamValue(key, value, sortOrder)
      case None => pairs
      case Some(p) => pairs + [(key, Stringify(p))]
  }

  /** `URLSearchParams.toString()`: `key=value` pairs joined by `&`, each side form-encoded by `encode`. */
  function Serialize(pairs: seq<(string, string)>, encode: string -> string): string {
    if |pairs| == 0 then ""
    else
      var last := encode(pairs[|pairs| - 1].0) + "=" + encode(pairs[|pairs| - 1].1);
      if |pairs| == 1 then last else Serialize(pairs[..|pairs| - 1], encode) + "&" + last
  }

  /** One more entry appends its printed pair exactly when it contributes. */
  lemma ExportPairsStep(es: Entries, i: nat, sortOrder: Json)
    requires i < |es|
    ensures var p := ParamValue(es[i].0, es[i].1, sortOrder);
      ExportPairsOf(es[..i + 1], sortOrder) ==
        ExportPairsOf(es[..i], sortOrder) + (if p.Some? then [(es[i].0, Stringify(p.value))] else [])
  {
    assert es[..i + 1][..i] == es[..i];
  }

  const NULL_TO_STRING := "Cannot read properties of null (reading 'toString')"

  /**
   * A filter whose value is `null` passes the guard, and unless it is a
   * `sortBy` printed through the template literal, `value.toString()` throws.
   */
  predicate ThrowsOnToString(key: string, value: Json, sortOrder: Json) {
    value == JNull && !(key == "sortBy" && Truthy(sortOrder)) && key != "sortOrder"
  }

  /** `getBookExportUrl`: the URL, or the TypeError of the first `null` filter that reaches `toString`. */
  method ExportUrl(filters: Entries, encode: string -> string) returns (r: Result<string, Exception>)
    ensures r.Err? <==>
      exists i :: 0 <= i < |filters| && ThrowsOnToString(filters[i].0, filters[i].1, FieldOf(filters, "sortOrder"))
    ensures r.Err? ==> r.error == JsError("TypeError", NULL_TO_STRING)
    ensures r.Ok? ==> r.value == EXPORT_PATH + Serialize(ExportPairsOf(filters, FieldOf(filters, "sortOrder")), encode)
  {
    var sortOrder := FieldOf(filters, "sortOrder");
    var pairs: seq<(string, string)> := [];
    for i := 0 to |filters|
      invariant pairs == ExportPairsOf(filters[..i], sortOrder)
      invariant forall j :: 0 <= j < i ==> !ThrowsOnToString(filters[j].0, filters[j].1, sortOrder)
    {
      ExportPairsStep(filters, i, sortOrder);
      var (key, value) := filters[i];
      if value != JUndefined && value != JStr("") {
        if key == "sortBy" && Truthy(sortOrder) {
          var text := Stringify(value) + ":" + Stringify(sortOrder);
          assert ParamValue(key, value, sortOrder) == Some(JStr(text));
          assert Stringify(JStr(text)) == text;
          pairs := pairs + [(key, text)];
        } else if key != "sortOrder" {
          if value == JNull {
            assert ThrowsOnToString(filters[i].0, filters[i].1, sortOrder);
            return Err(JsError("TypeError", NULL_TO_STRING));
          }
          assert ParamValue(key, value, sortOrder) == Some(value);
          pairs := pairs + [(key, Stringify(value))];
        } else {
          assert ParamValue(key, value, sortOrder) == None;
        }
      } else {
        assert ParamValue(key, value, sortOrder) == None;
      }
    }
    assert filters[..|filters|] == filters;
    r := Ok(EXPORT_PATH + Serialize(pairs, encode));
  }

  /**
   * The export URL carries the same parameters as the list request: the
   * same keys, each once and in entry order, with the list value printed.
   */
  lemma {:induction false} ExportMatchesQuery(es: Entries, sortOrder: Json)
    requires DistinctKeys(es)
    ensures forall j :: 0 <= j < |ExportPairsOf(es, sortOrder)| ==>
      ExportPairsOf(es, sortOrder)[j].0 in QueryParamsOf(es, sortOrder) &&
      ExportPairsOf(es, sortOrder)[j].1 == Stringify(QueryParamsOf(es, sortOrder)[ExportPairsOf(es, sortOrder)[j].0])
    ensures forall key :: key in QueryParamsOf(es, sortOrder) ==>
      exists j :: 0 <= j < |ExportPairsOf(es, sortOrder)| && ExportPairsOf(es, sortOrder)[j].0 == key
  {
    if |es| > 0 {
      var init := es[..|es| - 1];
      var last := es[|es| - 1];
      assert DistinctKeys(init);
      ExportMatchesQuery(init, sortOrder);
      var pairs0 := ExportPairsOf(init, sortOrder);
      var q0 := QueryParamsOf(init, sortOrder);
      ExportKeysFrom(init, sortOrder);
      forall j | 0 <= j < |pairs0|
        ensures pairs0[j].0 != last.0
      {
        var i :| 0 <= i < |init| && init[i].0 == pairs0[j].0;
        assert es[i] == init[i];
      }
      match ParamValue(last.0, last.1, sortOrder)
      case None =>
        assert ExportPairsOf(es, sortOrder) == pairs0;
        assert QueryParamsOf(es, sortOrder) == q0;
      case Some(p) =>
        var pairs := ExportPairsOf(es, sortOrder);
        var q := QueryParamsOf(es, sortOrder);
        assert pairs == pairs0 + [(last.0, Stringify(p))];
        assert q == q0[last.0 := p];
        forall key | key in q
          ensures exists j :: 0 <= j < |pairs| && pairs[j].0 == key
        {
          if key == last.0 {
            assert pairs[|pairs0|].0 == key;
          } else {
            var j :| 0 <= j < |pairs0| && pairs0[j].0 == key;
            assert pairs[j] == pairs0[j];
          }
        }
    }
  }

  /** Every exported key is the key of some entry. */
  lemma {:induction false} ExportKeysFrom(es: Entries, sortOrder: Json)
    ensures forall j :: 0 <= j < |ExportPairsOf(es, sortOrder)| ==>
      exists i :: 0 <= i < |es| && es[i].0 == ExportPairsOf(es, sortOrder)[j].0
  {
    if |es| == 0 {
      assert ExportPairsOf(es, sortOrder) == [];
    } else {
      var init := es[..|es| - 1];
      ExportKeysFrom(init, sortOrder);
      var pairs0 := ExportPairsOf(init, sortOrder);
      var pairs := ExportPairsOf(es, sortOrder);
      var last := es[|es| - 1];
      assert pairs == pairs0 || pairs == pairs0 + [(last.0, Stringify(ParamValue(last.0, last.1, sortOrder).value))];
      forall j | 0 <= j < |pairs|
        ensures exists i :: 0 <= i < |es| && es[i].0 == pairs[j].0
      {
        if j < |pairs0| {
          assert pairs[j] == pairs0[j];
          var i :| 0 <= i < |init| && init[i].0 == pairs0[j].0;
          assert es[i] == init[i];
        } else {
          assert es[|es| - 1].0 == pairs[j].0;
        }
      }
    }
  }

  // ---------------------------------------------------------------------
  // The multipart body
  // ---------------------------------------------------------------------

  /** A multipart field: text, or the image file (named by its file name). */
  datatype Part = TextPart(text: string) | FilePart(file: string)

  /** The keys the field loop skips: the image goes in separately. */
  predicate ImageKey(key: string) {
    key == "image" || key == "imageFile" || key == "imageUrl"
  }

  /** The fields the loop appends: every present value except the image keys, as text, in entry order. */
  function FieldPartsOf(es: Entries): seq<(string, Part)> {
    if |es| == 0 then []
    else
      var parts := FieldPartsOf(es[..|es| - 1]);
      var (key, value) := es[|es| - 1];
      if value != JUndefined && value != JNull && !ImageKey(key) then parts + [(key, TextPart(Stringify(value)))]
      else parts
  }

  /** The whole body: the fields, then the file under `image`, then a truthy `imageUrl`. */
  function FormLayout(book: Entries, imageFile: Option<string>): seq<(string, Part)> {
    FieldPartsOf(book)
      + (if imageFile.Some? then [("image", FilePart(imageFile.value))] else [])
      + (if Truthy(FieldOf(book, "imageUrl")) then [("imageUrl", TextPart(Stringify(FieldOf(book, "imageUrl"))))] else [])
  }

  /** `createBookFormData`. */
  method CreateBookFormData(book: Entries, imageFile: Option<string>) returns (form: seq<(string, Part)>)
    ensures form == FormLayout(book, imageFile)
  {
    form := [];
    for i := 0 to |book|
      invariant form == FieldPartsOf(book[..i])
    {
      assert book[..i + 1][..i] == book[..i];
      var (key, value) := book[i];
      if value != JUndefined && value != JNull && key != "image" && key != "imageFile" && key != "imageUrl" {
        form := form + [(key, TextPart(Stringify(value)))];
      }
    }
    assert book[..|book|] == book;
    if imageFile.Some? {
      form := form + [("image", FilePart(imageFile.value))];
    }
    var imageUrl := FieldOf(book, "imageUrl");
    if Truthy(imageUrl) {
      form := form + [("imageUrl", TextPart(Stringify(imageUrl)))];
    }
  }

  /** The field loop never emits one of the image keys, and every part it emits comes from an entry. */
  lemma {:induction false} FieldPartsSkipImage(es: Entries)
    ensures forall j :: 0 <= j < |FieldPartsOf(es)| ==> !ImageKey(FieldPartsOf(es)[j].0)
    ensures forall j :: 0 <= j < |FieldPartsOf(es)| ==> FieldPartsOf(es)[j].1.TextPart?
    ensures forall j :: 0 <= j < |FieldPartsOf(es)| ==>
      exists i :: 0 <= i < |es| && FieldPartsOf(es)[j] == (es[i].0, TextPart(Stringify(es[i].1)))
  {
    if |es| > 0 {
      var init := es[..|es| - 1];
      FieldPartsSkipImage(init);
      var parts := FieldPartsOf(es);
      forall j | 0 <= j < |parts|
        ensures exists i :: 0 <= i < |es| && parts[j] == (es[i].0, TextPart(Stringify(es[i].1)))
      {
        if j < |FieldPartsOf(init)| {
          var i :| 0 <= i < |init| && FieldPartsOf(init)[j] == (init[i].0, TextPart(Stringify(init[i].1)));
          assert parts[j] == FieldPartsOf(init)[j];
          assert init[i] == es[i];
        } else {
          assert parts[j] == (es[|es| - 1].0, TextPart(Stringify(es[|es| - 1].1)));
        }
      }
    } else {
      assert FieldPartsOf(es) == [];
    }
  }

  /** A present value with an ordinary key is appended, as its text. */
  lemma {:induction false} FieldPartsKeep(es: Entries, i: int)
    requires 0 <= i < |es| && es[i].1 != JUndefined && es[i].1 != JNull && !ImageKey(es[i].0)
    ensures (es[i].0, TextPart(Stringify(es[i].1))) in FieldPartsOf(es)
  {
    if i < |es| - 1 {
      assert es[..|es| - 1][i] == es[i];
      FieldPartsKeep(es[..|es| - 1], i);
    }
  }

  /** `imageUrl` appears at most once, as text, and `image` at most once, as the file. */
  lemma FormImageKeysOnce(book: Entries, imageFile: Option<string>)
    ensures forall i, j ::
      (0 <= i < |FormLayout(book, imageFile)| && 0 <= j < |FormLayout(book, imageFile)| &&
       FormLayout(book, imageFile)[i].0 == "imageUrl" && FormLayout(book, imageFile)[j].0 == "imageUrl") ==> i == j
    ensures forall i :: 0 <= i < |FormLayout(book, imageFile)| && FormLayout(book, imageFile)[i].0 == "image" ==>
      imageFile.Some? && FormLayout(book, imageFile)[i].1 == FilePart(imageFile.value)
  {
    FieldPartsSkipImage(book);
  }

  // ---------------------------------------------------------------------
  // The books the server returns
  // ---------------------------------------------------------------------

  /**
   * `Number(v)` where it is exact: a number is itself and `null` is 0; for
   * other values the conversion is `number`.
   */
  function NumberOf(v: Json, number: Json -> Json): (r: Json)
    ensures v.JNum? ==> r == v
  {
    match v
    case JNum(_) => v
    case JNull => JNum(0)
    case _ => number(v)
  }

  /** `availability`: `true` is 1, `false` is 0, anything else is converted to a number. */
  function AvailabilityOf(v: Json, number: Json -> Json): (r: Json)
    ensures v == JBool(true) ==> r == JNum(1)
    ensures v == JBool(false) ==> r == JNum(0)
    ensures v.JNum? ==> r == v
  {
    if v == JBool(true) then JNum(1) else if v == JBool(false) then JNum(0) else NumberOf(v, number)
  }

  /** `v || ''`: a falsy value becomes the empty string. */
  function TextOrEmpty(v: Json): (r: Json)
    ensures Truthy(v) ==> r == v
    ensures !Truthy(v) ==> r == JStr("")
    ensures v.JStr? || !Truthy(v) ==> r.JStr?
  {
    OrElse(v, JStr(""))
  }

  /** The client's `Book`: every field as the normaliser leaves it. */
  datatype ClientBook = ClientBook(
    id: Json, title: Json, author: Json, editorial: Json, genre: Json, price: Json,
    availability: Json, imageUrl: Json, createdAt: Json, updatedAt: Json, deletedAt: Json)

  /**
   * `transformBookData`. `parseFloat` stands for `parseFloat(book.price)`;
   * its `|| 0` is kept.
   */
  function TransformBookData(book: map<string, Json>, parseFloat: Json -> Json, number: Json -> Json): (r: ClientBook)
    ensures r.id == Get(book, "id") && r.title == Get(book, "title")
    ensures r.createdAt == Get(book, "createdAt") && r.updatedAt == Get(book, "updatedAt")
    ensures r.deletedAt == Get(book, "deletedAt")
    ensures r.author == TextOrEmpty(Get(book, "author")) && r.editorial == TextOrEmpty(Get(book, "editorial"))
    ensures r.genre == TextOrEmpty(Get(book, "genre")) && r.imageUrl == TextOrEmpty(Get(book, "imageUrl"))
    ensures r.price == OrElse(parseFloat(Get(book, "price")), JNum(0))
    ensures r.availability == AvailabilityOf(Get(book, "availability"), number)
  {
    ClientBook(
      Get(book, "id"),
      Get(book, "title"),
      TextOrEmpty(Get(book, "author")),
      TextOrEmpty(Get(book, "editorial")),
      TextOrEmpty(Get(book, "genre")),
      OrElse(parseFloat(Get(book, "price")), JNum(0)),
      AvailabilityOf(Get(book, "availability"), number),
      TextOrEmpty(Get(book, "imageUrl")),
      Get(book, "createdAt"),
      Get(book, "updatedAt"),
      Get(book, "deletedAt"))
  }

  /** A boolean or a 0/1 availability comes out as 0 or 1. */
  lemma AvailabilityIsFlag(book: map<string, Json>, parseFloat: Json -> Json, number: Json -> Json)
    requires Get(book, "availability") in {JBool(true), JBool(false), JNum(0), JNum(1)}
    ensures TransformBookData(book, parseFloat, number).availability in {JNum(0), JNum(1)}
  {
  }

  /** String fields that are strings or missing come out as strings. */
  lemma OptionalTextIsString(book: map<string, Json>, parseFloat: Json -> Json, number: Json -> Json)
    requires forall k :: k in {"author", "editorial", "genre", "imageUrl"} ==>
      Get(book, k).JStr? || Get(book, k) == JNull || Get(book, k) == JUndefined
    ensures var b := TransformBookData(book, parseFloat, number);
      b.author.JStr? && b.editorial.JStr? && b.genre.JStr? && b.imageUrl.JStr?
  {
  }

  /** A list response: defaults apply where the server's fields are falsy. */
  datatype BookList = BookList(items: seq<ClientBook>, total: Json, page: Json, limit: Json)

  /** The `items` of a list response, when it is an array of objects or missing. */
  predicate ItemsShape(v: Json) {
    !Truthy(v) || (v.JArr? && forall k :: 0 <= k < |v.items| ==> v.items[k].JObj?)
  }

  /** The result of `getBooks` for the response's `data` object. */
  function ListResult(data: map<string, Json>, parseFloat: Json -> Json, number: Json -> Json): (r: BookList)
    requires ItemsShape(Get(data, "items"))
    ensures !Truthy(Get(data, "items")) ==> r.items == []
    ensures Truthy(Get(data, "items")) ==> |r.items| == |Get(data, "items").items|
    ensures Truthy(Get(data, "items")) ==>
      forall k :: 0 <= k < |r.items| ==> r.items[k] == TransformBookData(Get(data, "items").items[k].fields, parseFloat, number)
    ensures r.total == OrElse(Get(data, "total"), JNum(0))
    ensures r.page == OrElse(Get(data, "page"), JNum(1))
    ensures r.limit == OrElse(Get(data, "limit"), JNum(10))
  {
    var items := Get(data, "items");
    var books := if !Truthy(items) then []
      else seq(|items.items|, k requires 0 <= k < |items.items| => TransformBookData(items.items[k].fields, parseFloat, number));
    BookList(books, OrElse(Get(data, "total"), JNum(0)), OrElse(Get(data, "page"), JNum(1)), OrElse(Get(data, "limit"), JNum(10)))
  }

  /** An empty response body lists nothing, on page 1 of 10. */
  lemma EmptyListDefaults(parseFloat: Json -> Json, number: Json -> Json)
    ensures ListResult(map[], parseFloat, number) == BookList([], JNum(0), JNum(1), JNum(10))
  {
  }
}
