/**
 * The books controller: how each endpoint turns the service's outcome into
 * a response envelope or an HTTP error, and the layout of the CSV export.
 */
module BooksController {
  import opened Wrappers
  import opened Json
  import opened Errors
  import opened BookEntity
  import opened BooksService

  const CREATED := 201
  const OK := 200

  const CREATED_MESSAGE := "Libro creado exitosamente."
  const DETAILS_MESSAGE := "Detalles del libro obtenidos exitosamente."
  const UPDATED_MESSAGE := "Libro actualizado exitosamente."
  const REMOVED_MESSAGE := "Libro eliminado exitosamente."
  const EXPORT_FAILED_MESSAGE := "Error interno del servidor"

  /** The list result as the interceptors see it, `{ items, total, page, limit }`. */
  function PageObject(p: Page): (v: Json)
    ensures v.JObj? && v.fields.Keys == {"items", "total", "page", "limit"}
    ensures v.fields["items"] == JArr(seq(|p.items|, k requires 0 <= k < |p.items| => AsObject(p.items[k])))
  {
    JObj(map[
      "items" := JArr(seq(|p.items|, k requires 0 <= k < |p.items| => AsObject(p.items[k]))),
      "total" := JNum(p.total), "page" := JNum(p.page), "limit" := JNum(p.limit)])
  }

  /**
   * The catch of `findOne`, `update` and `remove`: NotFound and
   * InternalServerError are rethrown as they are, anything else becomes a
   * BadRequest with the same message.
   */
  function RethrowOrBadRequest(e: Exception): (r: Exception)
    ensures r.HttpError? && r.cls in {NotFound, InternalServerError, BadRequest}
    ensures r.Message() == e.Message()
    ensures e.HttpError? && e.cls in {NotFound, InternalServerError} ==> r == e
    ensures !(e.HttpError? && e.cls in {NotFound, InternalServerError}) ==> r == BadRequestException(e.Message())
  {
    if e.HttpError? && (e.cls == NotFound || e.cls == InternalServerError) then e
    else BadRequestException(e.Message())
  }

  /** `create`: 201 with the new book, or any error as a BadRequest carrying its message. */
  function CreateResponse(outcome: Result<Book, Exception>): (r: Result<Json, Exception>)
    ensures outcome.Ok? ==> r == Ok(Envelope(CREATED, CREATED_MESSAGE, AsObject(outcome.value)))
    ensures outcome.Err? ==> r.Err? && r.error == BadRequestException(outcome.error.Message())
  {
    match outcome
    case Ok(b) => Ok(Envelope(CREATED, CREATED_MESSAGE, AsObject(b)))
    case Err(e) => Err(BadRequestException(e.Message()))
  }

  /** `findAll`: the service's result as it is, with no envelope; an error becomes a BadRequest. */
  function FindAllResponse(outcome: Result<Page, Exception>): (r: Result<Json, Exception>)
    ensures outcome.Ok? ==> r == Ok(PageObject(outcome.value))
    ensures outcome.Err? ==> r == Err(BadRequestException(outcome.error.Message()))
  {
    match outcome
    case Ok(p) => Ok(PageObject(p))
    case Err(e) => Err(BadRequestException(e.Message()))
  }

  /** `findOne`: 200 with the book. */
  function FindOneResponse(outcome: Result<Book, Exception>): (r: Result<Json, Exception>)
    ensures outcome.Ok? ==> r == Ok(Envelope(OK, DETAILS_MESSAGE, AsObject(outcome.value)))
    ensures outcome.Err? ==> r == Err(RethrowOrBadRequest(outcome.error))
  {
    match outcome
    case Ok(b) => Ok(Envelope(OK, DETAILS_MESSAGE, AsObject(b)))
    case Err(e) => Err(RethrowOrBadRequest(e))
  }

  /** `update`: 200 with the updated book. */
  function UpdateResponse(outcome: Result<Book, Exception>): (r: Result<Json, Exception>)
    ensures outcome.Ok? ==> r == Ok(Envelope(OK, UPDATED_MESSAGE, AsObject(outcome.value)))
    ensures outcome.Err? ==> r == Err(RethrowOrBadRequest(outcome.error))
  {
    match outcome
    case Ok(b) => Ok(Envelope(OK, UPDATED_MESSAGE, AsObject(b)))
    case Err(e) => Err(RethrowOrBadRequest(e))
  }

  /** `remove`: 200 with `data: null`. */
  function RemoveResponse(outcome: Result<(), Exception>): (r: Result<Json, Exception>)
    ensures outcome.Ok? ==> r == Ok(Envelope(OK, REMOVED_MESSAGE, JNull))
    ensures outcome.Err? ==> r == Err(RethrowOrBadRequest(outcome.error))
  {
    match outcome
    case Ok(_) => Ok(Envelope(OK, REMOVED_MESSAGE, JNull))
    case Err(e) => Err(RethrowOrBadRequest(e))
  }

  /**
   * What the store's failures look like to a client of `findOne`, `update`
   * and `remove`: a missing id stays a 404 naming the id, and a rejected
   * write becomes a 400 saying only that the transaction failed.
   */
  lemma StoreFailuresAsHttp(id: int)
    ensures RethrowOrBadRequest(NotFoundException(NotFoundMessage(id))) == NotFoundException(NotFoundMessage(id))
    ensures RethrowOrBadRequest(PlainError(TRANSACTION_FAILED)) == BadRequestException(TRANSACTION_FAILED)
  {
  }

  /** A create rejected by the entity's validation reaches the client as a 400. */
  lemma CreateValidationFailureIs400(e: Exception)
    requires e.JsError? && e.name == SEQUELIZE_VALIDATION_ERROR
    ensures CreateResponse(Err(e)).error.status == BAD_REQUEST
  {
  }

  // ---------------------------------------------------------------------
  // CSV export
  // ---------------------------------------------------------------------

  /** What reaches the response body: the byte-order mark or one CSV record. */
  datatype Chunk = Bom | Record(cells: seq<Json>)

  const CSV_HEADERS: seq<(string, string)> :=
    [("Content-Type", "text/csv"), ("Content-Disposition", "attachment; filename=books.csv")]

  /** The exported columns, in order. */
  const EXPORT_COLUMNS: seq<Column> :=
    [Id, Title, Author, Editorial, Genre, Price, Availability, ImageUrl, CreatedAt, UpdatedAt]

  /** The header labels, one per exported column. */
  const EXPORT_LABELS: seq<string> :=
    ["ID", "Título", "Autor", "Editorial", "Género", "Precio", "Disponibilidad", "URL de Imagen",
     "Fecha de Creación", "Fecha de Actualización"]

  /** The value the stringifier reads for one column of a book. */
  function Cell(b: Book, c: Column): Json {
    match c
    case Id => JNum(b.id)
    case Title => JStr(b.title)
    case Author => JStr(b.author)
    case Editorial => OptStr(b.editorial)
    case Genre => OptStr(b.genre)
    case Price => PriceJson(b.price)
    case Availability => OptAvailability(b.availability)
    case ImageUrl => OptStr(b.imageUrl)
    case CreatedAt => JNum(b.createdAt)
    case UpdatedAt => JNum(b.updatedAt)
    case _ => JUndefined
  }

  function Row(b: Book): (cells: seq<Json>)
    ensures |cells| == |EXPORT_COLUMNS|
    ensures forall k :: 0 <= k < |cells| ==> cells[k] == Cell(b, EXPORT_COLUMNS[k])
  {
    seq(|EXPORT_COLUMNS|, k requires 0 <= k < |EXPORT_COLUMNS| => Cell(b, EXPORT_COLUMNS[k]))
  }

  function HeaderRecord(): (c: Chunk)
    ensures c.Record? && |c.cells| == |EXPORT_LABELS|
  {
    Record(seq(|EXPORT_LABELS|, k requires 0 <= k < |EXPORT_LABELS| => JStr(EXPORT_LABELS[k])))
  }

  /** The stringifier's output: the header record, then one record per book in order. */
  function CsvDocument(books: seq<Book>): (doc: seq<Chunk>)
    ensures |doc| == |books| + 1
    ensures doc[0] == HeaderRecord()
    ensures forall k :: 0 <= k < |books| ==> doc[k + 1] == Record(Row(books[k]))
  {
    [HeaderRecord()] + seq(|books|, k requires 0 <= k < |books| => Record(Row(books[k])))
  }

  /** The Express response the export writes to. `writeFails` makes `res.write` throw. */
  class Response {
    var headers: seq<(string, string)>
    var body: seq<Chunk>
    var ended: bool
    const writeFails: bool

    constructor (writeFails: bool)
      ensures headers == [] && body == [] && !ended && this.writeFails == writeFails
    {
      headers := [];
      body := [];
      ended := false;
      this.writeFails := writeFails;
    }

    method SetHeader(name: string, value: string)
      modifies this
      ensures headers == old(headers) + [(name, value)] && body == old(body) && ended == old(ended)
    {
      headers := headers + [(name, value)];
    }

    method Write(c: Chunk) returns (ok: bool)
      modifies this
      ensures ok == !writeFails
      ensures headers == old(headers) && ended == old(ended)
      ensures body == if ok then old(body) + [c] else old(body)
    {
      ok := !writeFails;
      if ok {
        body := body + [c];
      }
    }

    method End()
      modifies this
      ensures ended && headers == old(headers) && body == old(body)
    {
      ended := true;
    }

    /** `passThrough.pipe(res)`: the piped chunks follow what is written, and the response ends with the stream. */
    method Pipe(chunks: seq<Chunk>)
      modifies this
      ensures body == old(body) + chunks && ended && headers == old(headers)
    {
      body := body + chunks;
      ended := true;
    }
  }

  /**
   * `exportToCsv`. An empty result is the headers and the byte-order mark
   * alone; otherwise the mark precedes the header record and one record per
   * book. A failure of the service or of the first write becomes
   * InternalServerError, and nothing reaches the body.
   */
  method ExportToCsv(outcome: Result<seq<Book>, Exception>, res: Response) returns (r: Result<(), Exception>)
    requires res.headers == [] && res.body == [] && !res.ended
    modifies res
    ensures outcome.Err? || res.writeFails ==> r == Err(InternalServerErrorException(EXPORT_FAILED_MESSAGE))
    ensures r.Err? ==> res.body == []
    ensures r.Ok? <==> outcome.Ok? && !res.writeFails
    ensures r.Ok? ==> res.headers == CSV_HEADERS && res.ended
    ensures r.Ok? && outcome.value == [] ==> res.body == [Bom]
    ensures r.Ok? && outcome.value != [] ==> res.body == [Bom] + CsvDocument(outcome.value)
  {
    if outcome.Err? {
      return Err(InternalServerErrorException(EXPORT_FAILED_MESSAGE));
    }
    var books := outcome.value;
    if |books| == 0 {
      res.SetHeader("Content-Type", "text/csv");
      res.SetHeader("Content-Disposition", "attachment; filename=books.csv");
      var ok := res.Write(Bom);
      if !ok {
        return Err(InternalServerErrorException(EXPORT_FAILED_MESSAGE));
      }
      res.End();
      return Ok(());
    }
    var stringified := [HeaderRecord()];
    res.SetHeader("Content-Type", "text/csv");
    res.SetHeader("Content-Disposition", "attachment; filename=books.csv");
    var ok := res.Write(Bom);
    if !ok {
      return Err(InternalServerErrorException(EXPORT_FAILED_MESSAGE));
    }
    for k := 0 to |books|
      invariant |stringified| == k + 1
      invariant stringified[0] == HeaderRecord()
      invariant forall j :: 0 <= j < k ==> stringified[j + 1] == Record(Row(books[j]))
    {
      stringified := stringified + [Record(Row(books[k]))];
    }
    res.Pipe(stringified);
    r := Ok(());
  }
}
