# cmpc-libros in Dafny

A model of the core of cmpc-libros, a book catalogue made of a NestJS
backend and a React web client. It covers:

- the backend's books module: the `Book` entity with its column rules,
  availability hooks and `toJSON`, the query, create and update bodies,
  the service's where clause, order list, pagination offset and
  soft-deleting store, and the controller's responses and CSV export;
- authentication: the `User` entity and its password check, the users
  table, the auth service and controller, and the JWT guard;
- the two global interceptors (the response envelope and the error
  classification);
- the web client's `bookService` (the query object, the export URL, the
  multipart body and the normalisation of returned books) and its
  `ErrorService.handleError`.

JavaScript values are the `Json` datatype of module `Json`, with
JavaScript truthiness. Exceptions are the `Exception` datatype of module
`Errors`: NestJS HTTP exceptions with class, status and body, and plain
JavaScript errors with a name and a message.

The database becomes class fields: `BooksService.BookStore.rows` (a
`seq` of rows; `remove` stamps `deletedAt`) and
`UsersService.UserTable.users` (a `map` keyed by the unique email). The
methods that change these fields keep the class invariant `Valid()`.

Collaborators the code calls but does not define are function
parameters:

- bcrypt's hash and compare;
- JWT signing;
- `class-validator`'s library checks (`Validators`);
- the database's case fold for `ILIKE`;
- `parseFloat` and `Number` of non-numeric values;
- URL form encoding.

Some inputs cannot be computed by the model and are parameters too:

- the clock (`now`);
- the configured server URL;
- the uploaded file's name;
- `fault`, the failure of a database write: `None` when the write
  succeeds, otherwise the error it throws.

Some behaviours of the code as written are modelled as they are:

- A list request without `page` gets page 0 from the query's initialiser.
  The offset is then `-limit` (`BooksService.DefaultPageGivesNegativeOffset`).
- The service's order fallbacks are unreachable once the defaults are
  applied (`BooksService.DefaultsBypassFallback`).
- An update body with a blank title passes validation but can never be
  saved (`BooksService.BlankTitleUpdateRejected`).
- A create body whose title or author is only whitespace passes the pipe
  and fails the entity (`BooksService.CreateBodyPassesEntity`).
- A successful registration answers without the new user's id and email,
  because the service spreads the model instance rather than its values
  (`AuthController.RegisterAnswerLacksUser`).
- A `null` export filter makes the export URL throw
  (`BookClient.ExportUrl`).
- The client's invalid-credentials message can never be shown
  (`ErrorService.InvalidCredentialsUnreachable`).

## Model

| member | source | states |
|---|---|---|
| BookEntity.PriceCustomValidator | cmpc-libros-backend/src/books/entities/book.entity.ts:65-73 | a missing price throws "Price is required"; any message thrown is one of the two of the validator |
| BookEntity.DecimalPlacesOfText | cmpc-libros-backend/src/books/entities/book.entity.ts:69 | counting the characters after the '.' of a printed decimal gives its number of fraction digits |
| BookEntity.PriceCheckByFraction | cmpc-libros-backend/src/books/entities/book.entity.ts:65-73 | on a well-formed price the custom validator rejects exactly the prices with more than two fraction digits |
| BookEntity.NoViolationsIff | cmpc-libros-backend/src/books/entities/book.entity.ts:28-92 | validation reports no violation exactly when the title has 1 to 255 characters and is not all whitespace, the author is not all whitespace, the price is present, non-negative and has at most two decimals, and availability is absent, 0 or 1 |
| BookEntity.Whitespace | cmpc-libros-backend/src/books/entities/book.entity.ts:32 | the characters of JavaScript's `\s` class, which `notEmpty` treats as empty |
| BookEntity.Blank | cmpc-libros-backend/src/books/entities/book.entity.ts:32 | `notEmpty` fails exactly on a string made only of those characters, the empty one included |
| BookEntity.NullViolations | cmpc-libros-backend/src/books/entities/book.entity.ts:28-76 | a null title, author or price is reported first, by the `allowNull: false` schema check |
| BookEntity.TitleViolations | cmpc-libros-backend/src/books/entities/book.entity.ts:28-36 | a present title breaks `notEmpty` when blank and `len` when outside 1 to 255 characters, in that order |
| BookEntity.AuthorViolations | cmpc-libros-backend/src/books/entities/book.entity.ts:38-45 | a present author breaks `notEmpty` when blank |
| BookEntity.PriceViolations | cmpc-libros-backend/src/books/entities/book.entity.ts:59-76 | a present price breaks `min: 0`, then `isDecimal`, then the custom validator, in declaration order |
| BookEntity.AvailabilityViolations | cmpc-libros-backend/src/books/entities/book.entity.ts:78-86 | a present availability other than 0 or 1 breaks `isIn` |
| BookEntity.Violations | cmpc-libros-backend/src/books/entities/book.entity.ts:28-92 | every broken rule: the null columns, then the validators column by column |
| BookEntity.ValidAttributes | cmpc-libros-backend/src/books/entities/book.entity.ts:28-92 | the column rules stated directly, as `NoViolationsIff` relates them to the validators |
| BookEntity.NullColumnsOnlyNull | cmpc-libros-backend/src/books/entities/book.entity.ts:28-76 | a missing title, author and price are reported only as null violations, none of their validators running |
| BookEntity.ItemMessage | cmpc-libros-backend/src/books/entities/book.entity.ts:28-85 | each violation's line: the notNull text naming `Book.<field>`, a built-in validator's default text, or the custom validator's own message |
| BookEntity.ValidationMessage | cmpc-libros-backend/src/books/books.controller.ts:65-68 | the validation error's message, which create forwards: the lines of the violations joined by ",\n" |
| BookEntity.ValidationMessageLists | cmpc-libros-backend/src/books/books.controller.ts:65-68 | the message starts with the first violation's line and contains every violation's line |
| BookEntity.BlankTitleMessage | cmpc-libros-backend/src/books/entities/book.entity.ts:28-36 | a title of three spaces passes `len`, fails `notEmpty`, and the message says exactly that |
| BookEntity.AttributesOf | cmpc-libros-backend/src/books/entities/book.entity.ts:28-92 | a stored row's attributes are its title, author, price, optional columns and availability |
| BookEntity.WithDefaultAvailability | cmpc-libros-backend/src/books/entities/book.entity.ts:94-106 | an undefined availability becomes 1 and a defined one is kept |
| BookEntity.DefaultAvailabilityKeepsValid | cmpc-libros-backend/src/books/entities/book.entity.ts:94-106 | the hooks keep a valid row valid and are idempotent |
| BookEntity.BookInstance.SetDefaults | cmpc-libros-backend/src/books/entities/book.entity.ts:94-99 | the `BeforeCreate` hook leaves the instance's values as `WithDefaultAvailability` of the old ones |
| BookEntity.BookInstance.SetDefaultsOnUpdate | cmpc-libros-backend/src/books/entities/book.entity.ts:101-106 | the `BeforeUpdate` hook does the same |
| BookEntity.PriceJson | cmpc-libros-backend/src/books/entities/book.entity.ts:59-60 | a DECIMAL column reads back as a string, the text of the scaled price |
| BookEntity.Scaled | cmpc-libros-backend/src/books/entities/book.entity.ts:59-60 | the DECIMAL(10, 2) value of a price: the same whole digits, the fraction padded with zeros to two digits, and no sign on a non-negative price |
| BookEntity.StoredPriceScale | cmpc-libros-backend/src/books/entities/book.entity.ts:59-73 | a stored price reads back with exactly two decimals, and the custom validator accepts it again |
| BookEntity.StoredPriceExamples | cmpc-libros-backend/src/books/entities/book.entity.ts:59-60 | 12.5, 12 and -0 read back as "12.50", "12.00" and "0.00" |
| BookEntity.Values | cmpc-libros-backend/src/books/entities/book.entity.ts:22-92 | `this.get()` holds exactly the entity's eleven columns, `deletedAt` included |
| BookEntity.AsObject | cmpc-libros-backend/src/books/entities/book.entity.ts:22-92 | the instance as an object keyed by property name, for interceptors and CSV columns |
| BookEntity.NonEmptyOrNull | cmpc-libros-backend/src/books/entities/book.entity.ts:111-113 | an optional string serialises as itself when non-empty, otherwise as `null` |
| BookEntity.NonEmptyOrNullNullsFalsy | cmpc-libros-backend/src/books/entities/book.entity.ts:111-113 | that is the stored value when truthy and `null` otherwise, so `''` and `null` both become `null` |
| BookEntity.JsonView | cmpc-libros-backend/src/books/entities/book.entity.ts:108-118 | the serialised book: id, title, author, createdAt and updatedAt as stored, price as decimal text, the optional strings nulled when falsy, `description`, `isbn` and `publicationDate` always `null`, and no `deletedAt` |
| BookEntity.JsonViewKeys | cmpc-libros-backend/src/books/entities/book.entity.ts:108-118 | the serialised book has a key for every column except `deletedAt` |
| BookEntity.ValuesWithoutDeletedAt | cmpc-libros-backend/src/books/entities/book.entity.ts:109-110 | the copied values without `deletedAt` are the columns `toJSON` keeps, plus the three optional strings |
| BookEntity.JsonViewOfCommon | cmpc-libros-backend/src/books/entities/book.entity.ts:108-118 | the serialised book is the kept columns plus the six nulled keys |
| BookEntity.NullIfFalsy | cmpc-libros-backend/src/books/entities/book.entity.ts:111-116 | `if (!values[c]) values[c] = null` leaves a truthy key alone and sets any other key to `null` |
| BookEntity.NullOptionalStrings | cmpc-libros-backend/src/books/entities/book.entity.ts:111-113 | the first three nulling statements give `NonEmptyOrNull` of editorial, genre and imageUrl |
| BookEntity.ToJsonSteps | cmpc-libros-backend/src/books/entities/book.entity.ts:109-117 | the six statements of `toJSON`, run on the values without `deletedAt`, give `JsonView` |
| BookEntity.BookInstance.ToJson | cmpc-libros-backend/src/books/entities/book.entity.ts:108-118 | `toJSON()` returns `JsonView` of the instance's values |
| BookQueryDto.WithDefaults | cmpc-libros-backend/src/books/dto/find-all-books-query.dto.ts:14-109 | each absent field with an initialiser takes it (page 0, limit 10, sortBy createdAt, sortOrder DESC); present fields and the filters are kept |
| BookQueryDto.DefaultsKeepValidity | cmpc-libros-backend/src/books/dto/find-all-books-query.dto.ts:14-109 | applying the defaults neither makes nor breaks the decorators' constraints |
| BookQueryDto.WithDefaultsIdempotent | cmpc-libros-backend/src/books/dto/find-all-books-query.dto.ts:14-109 | applying the defaults twice is applying them once |
| BookQueryDto.LowerCaseOrderRejected | cmpc-libros-backend/src/books/dto/find-all-books-query.dto.ts:106-109 | `asc` and `desc` fail the `IsIn(['ASC', 'DESC'])` check |
| BookQueryDto.EmptyQueryDefaults | cmpc-libros-backend/src/books/dto/find-all-books-query.dto.ts:14-109 | with no parameter the query is page 0 of 10, createdAt DESC, and valid |
| CreateBookDto.LocalhostUploadUrlOf | cmpc-libros-backend/src/books/dto/create-book.dto.ts:83-91 | a localhost upload URL on a numeric port matches the second alternative of the `imageUrl` pattern |
| CreateBookDto.RelativeUploadUrlOf | cmpc-libros-backend/src/books/dto/create-book.dto.ts:83-91 | a relative upload path matches the third alternative exactly when its name is made of word characters, `.` and `-` |
| CreateBookDto.ThreeDecimalsRejected | cmpc-libros-backend/src/books/dto/create-book.dto.ts:46-50 | a price with three fraction digits fails the create body |
| CreateBookDto.CreateDtoValid | cmpc-libros-backend/src/books/dto/create-book.dto.ts:14-123 | the create body's decorators: title and author non-empty strings, a price with at most two decimals and not negative, availability absent, 0 or 1, imageUrl matching the pattern and `IsUrl`, isbn and publicationDate checked when present |
| UpdateBookDto.UpdateDtoValid | cmpc-libros-backend/src/books/dto/update-book.dto.ts:15-82 | the update body's decorators: a non-negative number price with no decimal limit, availability absent, 0 or 1, and imageUrl matching the pattern |
| BookQueryDto.QueryValid | cmpc-libros-backend/src/books/dto/find-all-books-query.dto.ts:14-109 | the query's decorators, `sortOrder` among ASC and DESC included |
| UpdateBookDto.CreateRulesStricter | cmpc-libros-backend/src/books/dto/update-book.dto.ts:15-82 | every valid create body is a valid update body |
| UpdateBookDto.NoChangeValid | cmpc-libros-backend/src/books/dto/update-book.dto.ts:15-82 | an empty update body is valid |
| UpdateBookDto.UpdateLooserThanCreate | cmpc-libros-backend/src/books/dto/update-book.dto.ts:15-62 | an empty title and a three-digit fraction pass the update rules and fail the create rules |
| BooksService.SearchGroup | cmpc-libros-backend/src/books/books.service.ts:68-75 | a search term adds an `iLike` on title, author, editorial and genre, in that order |
| BooksService.FilterLike | cmpc-libros-backend/src/books/books.service.ts:77-87 | an author, editorial or genre filter adds its `iLike` exactly when given and non-empty |
| BooksService.WhereFor | cmpc-libros-backend/src/books/books.service.ts:64-91 | the where clause always has `deletedAt: null`, the `[Op.or]` group exactly when there is a search term, each text filter when given, and the availability as given |
| BooksService.BuildWhere | cmpc-libros-backend/src/books/books.service.ts:64-91 | the statements that build the where object give `WhereFor` |
| BooksService.FoldText | cmpc-libros-backend/src/books/books.service.ts:68-87 | the case fold keeps the length and maps each character |
| BooksService.ColumnText | cmpc-libros-backend/src/books/books.service.ts:68-87 | a column's text is the row's value, absent for a null editorial or genre |
| BooksService.SatisfiesWhereFor | cmpc-libros-backend/src/books/books.service.ts:64-91 | a row satisfies the where clause exactly when it is live, a given search term occurs in one of the four text columns, each given text filter occurs in its own column, and a given availability is equal |
| BooksService.SearchGroupHolds | cmpc-libros-backend/src/books/books.service.ts:68-75 | the `[Op.or]` group holds exactly when one of the four columns contains the term |
| BooksService.FilterLikeHolds | cmpc-libros-backend/src/books/books.service.ts:77-87 | a filter key holds exactly when its filter is absent or its column contains it |
| BooksService.WhereExcludesDeleted | cmpc-libros-backend/src/books/books.service.ts:65 | no query selects a soft-deleted row |
| BooksService.UnfilteredSelectsLive | cmpc-libros-backend/src/books/books.service.ts:64-91 | a query without filters selects exactly the live rows |
| BooksService.SortKeyOf | cmpc-libros-backend/src/books/books.service.ts:95-99 | a segment's field is what precedes its first `:` |
| BooksService.OrderFor | cmpc-libros-backend/src/books/books.service.ts:93-102 | an absent or empty `sortBy` gives the fallback; otherwise one key per `,`-separated segment, in order |
| BooksService.BuildOrder | cmpc-libros-backend/src/books/books.service.ts:93-102 | the `forEach`/`push` loop gives `OrderFor` |
| BooksService.SortKeyOfText | cmpc-libros-backend/src/books/books.service.ts:96-98 | `field:direction` gives that pair and a bare `field` takes `sortOrder` |
| BooksService.SortText | cmpc-libros-backend/src/books/books.service.ts:95-99 | an order list prints as one segment per key |
| BooksService.OrderRoundTrip | cmpc-libros-backend/src/books/books.service.ts:93-102 | printing an order list as `sortBy` and compiling it gives the list back |
| BooksService.Offset | cmpc-libros-backend/src/books/books.service.ts:62 | `(page - 1) * limit` is non-negative from page 1 and negative before it |
| BooksService.QueryOffset | cmpc-libros-backend/src/books/books.service.ts:61-62 | with neither page nor limit the service's own defaults give offset 0 |
| BooksService.DefaultPageGivesNegativeOffset | cmpc-libros-backend/src/books/books.service.ts:61-62 | after the query's defaults an absent page gives offset `-limit` |
| BooksService.NegativePageOffset | cmpc-libros-backend/src/books/books.service.ts:62 | page -1 of 10 has offset -20 |
| BooksService.DefaultsBypassFallback | cmpc-libros-backend/src/books/books.service.ts:93-102 | after the query's defaults an absent `sortBy` orders by createdAt in the query's direction, DESC when that is absent too, never the fallback |
| BooksService.Selected | cmpc-libros-backend/src/books/books.service.ts:104-111 | the selected rows are exactly the table's rows that satisfy the where clause |
| BooksService.Window | cmpc-libros-backend/src/books/books.service.ts:104-111 | `LIMIT`/`OFFSET` yields the rows from the offset on, at most `limit` of them |
| BooksService.LiveIndex | cmpc-libros-backend/src/books/books.service.ts:121-133 | the first live row with the id, or none when no live row has it |
| BooksService.NotFoundMessage | cmpc-libros-backend/src/books/books.service.ts:130 | the not-found message starts with "Libro con ID " |
| BooksService.NotFoundMessageNamesId | cmpc-libros-backend/src/books/books.service.ts:130 | distinct ids give distinct not-found messages |
| BooksService.GetImageUrl | cmpc-libros-backend/src/books/books.service.ts:34-37 | the address starts with the server URL or its default and ends with the file name |
| BooksService.DefaultImageUrlMatches | cmpc-libros-backend/src/books/books.service.ts:34-37 | with the default server URL the address passes the `imageUrl` pattern of both bodies |
| BooksService.ImageUrlFor | cmpc-libros-backend/src/books/books.service.ts:50-58 | an uploaded file's address replaces the body's `imageUrl` |
| BooksService.CreateAttributes | cmpc-libros-backend/src/books/books.service.ts:50-58 | `create` saves the body's columns with the image rule applied |
| BooksService.CreateBodyPassesEntity | cmpc-libros-backend/src/books/books.service.ts:50-58 | a body the pipe accepted passes the entity exactly when its title has at most 255 characters and neither title nor author is all whitespace |
| BooksService.PipeBodyKeepsPrice | cmpc-libros-backend/src/books/books.service.ts:53 | for a body the pipe accepted, `Number(price)` changes nothing: the price is present and the entity raises no price violation |
| BooksService.NewBook | cmpc-libros-backend/src/books/books.service.ts:50-58 | the inserted row has the attributes, the id, the timestamps and no `deletedAt` |
| BooksService.Changes | cmpc-libros-backend/src/books/books.service.ts:141-155 | an update changes the row when a given field differs from the stored one; a given price always counts, the stored DECIMAL text never equalling the body's number |
| BooksService.Applied | cmpc-libros-backend/src/books/books.service.ts:135-156 | given fields replace the stored ones; `updatedAt` moves to now exactly when some column changed, and an update that changes nothing leaves the row as it was; id, createdAt and deletedAt are kept |
| BooksService.EmptyUpdateLeavesRow | cmpc-libros-backend/src/books/books.service.ts:154-156 | an empty update changes no column and leaves the row exactly as it was, `updatedAt` included |
| BooksService.RepeatedUpdateLeavesRow | cmpc-libros-backend/src/books/books.service.ts:154-156 | sending the same update again without a price changes nothing the second time |
| BooksService.BlankTitleUpdateRejected | cmpc-libros-backend/src/books/books.service.ts:154-156 | an update to a blank title never yields a valid row |
| BooksService.BookStore.constructor | cmpc-libros-backend/src/books/books.service.ts:28-32 | the table starts empty and valid |
| BooksService.BookStore.Locate | cmpc-libros-backend/src/books/books.service.ts:121-133 | the position of the first live row with the id, or NotFound naming the id |
| BooksService.BookStore.FindOne | cmpc-libros-backend/src/books/books.service.ts:121-133 | a live row of the table with that id, or NotFound exactly when no live row has it |
| BooksService.BookStore.FindAll | cmpc-libros-backend/src/books/books.service.ts:60-119 | the options are the where clause, the order list, the limit and the offset; the page holds the window of the selected rows and their count, and each item satisfies the where clause |
| BooksService.BookStore.FindAllForExport | cmpc-libros-backend/src/books/books.service.ts:177-225 | the same where clause, the export's fallback order, no limit or offset, and every selected row |
| BooksService.BookStore.Create | cmpc-libros-backend/src/books/books.service.ts:50-58 | invalid attributes or a failed insert write nothing and throw; a validation error is `SequelizeValidationError` with the message of its violations; otherwise the new row, with the hook applied, is appended under the next id and is found by that id |
| BooksService.BookStore.Update | cmpc-libros-backend/src/books/books.service.ts:135-161 | a missing id is NotFound; a rejected save is `Error('Transaction failed')`; neither writes; an update that changes nothing cannot fail; otherwise the live row becomes the applied update, in place |
| BooksService.BookStore.Remove | cmpc-libros-backend/src/books/books.service.ts:163-175 | a missing id is NotFound, a failed delete is `Error('Transaction failed')`; otherwise that row's `deletedAt` and `updatedAt` are stamped, nothing else changes, and the id is no longer found |
| BooksController.PageObject | cmpc-libros-backend/src/books/books.service.ts:113-118 | the list result is `{ items, total, page, limit }` with each item as its object |
| BooksController.RethrowOrBadRequest | cmpc-libros-backend/src/books/books.controller.ts:137-140 | NotFound and InternalServerError pass unchanged; anything else becomes a BadRequest with the same message |
| BooksController.CreateResponse | cmpc-libros-backend/src/books/books.controller.ts:54-69 | a created book is a 201 envelope; any error is a BadRequest with its message |
| BooksController.FindAllResponse | cmpc-libros-backend/src/books/books.controller.ts:96-103 | the list is returned without an envelope; an error is a BadRequest |
| BooksController.FindOneResponse | cmpc-libros-backend/src/books/books.controller.ts:127-142 | the book in a 200 envelope, or the rethrow rule |
| BooksController.UpdateResponse | cmpc-libros-backend/src/books/books.controller.ts:174-193 | the updated book in a 200 envelope, or the rethrow rule |
| BooksController.RemoveResponse | cmpc-libros-backend/src/books/books.controller.ts:217-232 | a 200 envelope with `data: null`, or the rethrow rule |
| BooksController.StoreFailuresAsHttp | cmpc-libros-backend/src/books/books.controller.ts:137-140 | a missing id stays a 404 naming the id; a failed transaction becomes a 400 |
| BooksController.CreateValidationFailureIs400 | cmpc-libros-backend/src/books/books.controller.ts:65-68 | an entity validation error on create reaches the client as a 400 |
| BooksController.Cell | cmpc-libros-backend/src/books/books.controller.ts:263-277 | the value the stringifier reads for each exported column, the price as the column reads it back |
| BooksController.Row | cmpc-libros-backend/src/books/books.controller.ts:263-277 | one cell per exported column, in column order |
| BooksController.HeaderRecord | cmpc-libros-backend/src/books/books.controller.ts:263-277 | the header record has one label per exported column |
| BooksController.CsvDocument | cmpc-libros-backend/src/books/books.controller.ts:263-296 | the stringifier emits the header, then one record per book in order |
| BooksController.Response.SetHeader | cmpc-libros-backend/src/books/books.controller.ts:288-289 | appends one header and changes nothing else |
| BooksController.Response.Write | cmpc-libros-backend/src/books/books.controller.ts:290 | appends the chunk to the body unless the write fails |
| BooksController.Response.End | cmpc-libros-backend/src/books/books.controller.ts:259 | ends the response without changing the body |
| BooksController.Response.Pipe | cmpc-libros-backend/src/books/books.controller.ts:297 | the piped chunks follow the body and the response ends |
| BooksController.ExportToCsv | cmpc-libros-backend/src/books/books.controller.ts:251-302 | an empty result is the CSV headers and the byte-order mark; otherwise the mark, the header record and one record per book; a failure is InternalServerError with an empty body |
| TransformInterceptor.Transform | cmpc-libros-backend/src/common/interceptors/transform.interceptor.ts:27-53 | a CSV export or an existing envelope passes unchanged; anything else is wrapped with the response's status and the success message |
| TransformInterceptor.IsCsvRequest | cmpc-libros-backend/src/common/interceptors/transform.interceptor.ts:29 | a url containing `/export/csv` or an `Accept: text/csv` header |
| TransformInterceptor.IsEnvelope | cmpc-libros-backend/src/common/interceptors/transform.interceptor.ts:34 | a truthy object with `statusCode`, `message` and `data` |
| TransformInterceptor.IsPage | cmpc-libros-backend/src/common/interceptors/transform.interceptor.ts:39 | a truthy object with `items` and `total` |
| TransformInterceptor.TransformGivesEnvelope | cmpc-libros-backend/src/common/interceptors/transform.interceptor.ts:34-52 | outside a CSV export the result is an envelope |
| TransformInterceptor.TransformIdempotent | cmpc-libros-backend/src/common/interceptors/transform.interceptor.ts:27-53 | transforming twice is transforming once |
| TransformInterceptor.ControllerEnvelopePassesThrough | cmpc-libros-backend/src/common/interceptors/transform.interceptor.ts:34-36 | a controller's envelope keeps its own status and message |
| TransformInterceptor.PageWrapped | cmpc-libros-backend/src/common/interceptors/transform.interceptor.ts:39-45 | a page object is wrapped with the page itself as `data` |
| TransformInterceptor.NonObjectsWrapped | cmpc-libros-backend/src/common/interceptors/transform.interceptor.ts:47-52 | `null`, `undefined`, scalars and arrays are wrapped as they are |
| TransformInterceptor.ExportPathPassesThrough | cmpc-libros-backend/src/common/interceptors/transform.interceptor.ts:29-31 | any url containing `/export/csv` is left alone |
| ErrorInterceptor.Classify | cmpc-libros-backend/src/common/interceptors/error.interceptor.ts:32-58 | each of the five Sequelize error names gets its status, message and type; any other name gets 500 |
| ErrorInterceptor.LogLine | cmpc-libros-backend/src/common/interceptors/error.interceptor.ts:68-71 | the log line starts with the method and path and ends with the message, the status in between |
| ErrorInterceptor.Intercept | cmpc-libros-backend/src/common/interceptors/error.interceptor.ts:30-74 | an HTTP exception passes unchanged and unlogged; any other error becomes an HTTP exception with the classified status and a body naming status, message, type and path, and is logged |
| ErrorInterceptor.InterceptAlwaysHttp | cmpc-libros-backend/src/common/interceptors/error.interceptor.ts:30-74 | what leaves the interceptor is an HTTP exception; a rebuilt one carries the path and the same status in its body |
| ErrorInterceptor.OriginalMessageHidden | cmpc-libros-backend/src/common/interceptors/error.interceptor.ts:60-73 | the original message of a non-HTTP error never reaches the client |
| ErrorInterceptor.InterceptIdempotent | cmpc-libros-backend/src/common/interceptors/error.interceptor.ts:36-37 | passing the interceptor twice is passing it once |
| ErrorInterceptor.PlainErrorIs500 | cmpc-libros-backend/src/common/interceptors/error.interceptor.ts:32-34 | a plain `Error` becomes a 500 with the generic message |
| UserEntity.ValidatePassword | cmpc-libros-backend/src/users/entities/user.entity.ts:30-40 | true exactly when there is a hash and the comparison answers true; a thrown comparison is false |
| UserEntity.NoHashNoCompare | cmpc-libros-backend/src/users/entities/user.entity.ts:31-33 | without a hash the comparison is never consulted |
| UserEntity.CompareFailureRejects | cmpc-libros-backend/src/users/entities/user.entity.ts:37-39 | a comparison that throws rejects the password |
| UserEntity.Plain | cmpc-libros-backend/src/users/entities/user.entity.ts:4-23 | the plain object has the five attributes, with the row's id and email |
| UserEntity.InstanceSpread | cmpc-libros-backend/src/auth/auth.service.ts:66-68 | spreading a saved instance copies only its own properties, the values sitting under `dataValues` |
| UserEntity.SpreadLacksAttributes | cmpc-libros-backend/src/auth/auth.service.ts:68 | the spread has no `id`, `email` or `passwordHash` key |
| UsersService.UserTable.constructor | cmpc-libros-backend/src/users/users.service.ts:12-15 | the table starts empty and valid |
| UsersService.UserTable.FindOneByEmail | cmpc-libros-backend/src/users/users.service.ts:17-19 | the row with exactly that email, or none when no row has it |
| UsersService.UserTable.Create | cmpc-libros-backend/src/users/users.service.ts:21-25 | a used email violates the unique index and a failed insert throws, both writing nothing; otherwise the row with the hashed password is added under the next id |
| UsersService.UserTable.DeleteByEmail | cmpc-libros-backend/src/users/users.service.ts:27-32 | removes the row with that email and answers whether one was removed; a failure changes nothing |
| UsersController.DeleteMessage | cmpc-libros-backend/src/users/users.controller.ts:20-23 | the removed and the not-found messages, each naming the email |
| UsersController.DeleteUserResponse | cmpc-libros-backend/src/users/users.controller.ts:17-24 | a missing user is a message, never an error; a failure propagates |
| UsersController.DeleteMessagesDistinct | cmpc-libros-backend/src/users/users.controller.ts:20-23 | the two messages differ |
| UsersController.DeleteUser | cmpc-libros-backend/src/users/users.controller.ts:17-24 | one delete by email, then the message for whether that email was present |
| AuthService.WithoutHash | cmpc-libros-backend/src/auth/auth.service.ts:36-44 | the user's plain attributes without `passwordHash` |
| AuthService.RegisterResult | cmpc-libros-backend/src/auth/auth.service.ts:68-69 | removing `passwordHash` from the instance's spread removes nothing, and the result has no `id` or `email` |
| AuthService.ValidateUser | cmpc-libros-backend/src/auth/auth.service.ts:26-49 | an unknown email and a wrong password are distinct 401s; success exactly when the email is stored and the password checks, giving the user without its hash |
| AuthService.PayloadOf | cmpc-libros-backend/src/auth/auth.service.ts:51-57 | the token's claims are the user's email and id |
| AuthService.Login | cmpc-libros-backend/src/auth/auth.service.ts:51-57 | `{ access_token }` holding the signature of those claims |
| AuthService.LoginTokenNamesUser | cmpc-libros-backend/src/auth/auth.service.ts:26-57 | a token issued to a checked user signs that stored user's email and id |
| AuthService.Register | cmpc-libros-backend/src/auth/auth.service.ts:60-70 | an email in use is refused with a 401 before any insert; otherwise exactly the user with the next id, the email and the hashed password is added, and the spread of its instance is returned |
| AuthController.ShortPasswordRejected | cmpc-libros-backend/src/auth/auth.controller.ts:25-28 | a password under six characters fails the body |
| AuthController.LoginDtoValid | cmpc-libros-backend/src/auth/auth.controller.ts:9-32 | the login and register bodies' decorators: a non-empty email address and a non-empty password of at least six characters |
| AuthController.RethrowOrUnauthorized | cmpc-libros-backend/src/auth/auth.controller.ts:85-91 | an UnauthorizedException passes unchanged; anything else becomes one with the endpoint's message |
| AuthController.LoginResponse | cmpc-libros-backend/src/auth/auth.controller.ts:76-92 | a checked user gets the token in a 200 envelope; a failure is a 401 |
| AuthController.LoginEndpoint | cmpc-libros-backend/src/auth/auth.controller.ts:76-92 | login succeeds exactly when the email is stored and the password checks; every failure is a 401 |
| AuthController.FailedCheckSignsNothing | cmpc-libros-backend/src/auth/auth.controller.ts:76-92 | a failed check never consults the signer |
| AuthController.LoginFailureMessages | cmpc-libros-backend/src/auth/auth.controller.ts:85-91 | the service's two 401 messages reach the client as they are |
| AuthController.RegisterResponse | cmpc-libros-backend/src/auth/auth.controller.ts:113-132 | the message with `id` and `email` read from what the service returned, or a 401 |
| AuthController.RegisterAnswerLacksUser | cmpc-libros-backend/src/auth/auth.controller.ts:118-124 | a successful registration answers the message with `userId` and `email` undefined |
| AuthController.RegisterEndpoint | cmpc-libros-backend/src/auth/auth.controller.ts:113-132 | an email in use is a 401 that writes nothing; success adds exactly the new user under its email and answers the message with `userId` and `email` undefined |
| JwtAuthGuard.CanActivate | cmpc-libros-backend/src/auth/guards/jwt-auth.guard.ts:7-13 | falsy headers are a 401; otherwise the strategy's answer |
| JwtAuthGuard.MissingHeadersRefused | cmpc-libros-backend/src/auth/guards/jwt-auth.guard.ts:9-11 | missing and null headers are refused without the strategy |
| JwtAuthGuard.HandleRequest | cmpc-libros-backend/src/auth/guards/jwt-auth.guard.ts:15-22 | an error is rethrown, no user is a 401, otherwise the user |
| JwtAuthGuard.HandleRequestPasses | cmpc-libros-backend/src/auth/guards/jwt-auth.guard.ts:15-22 | a user passes exactly when there is no error and the user is truthy, and it is the same user |
| BookClient.FieldOf | cmpc-libros-frontend/src/api/bookService.ts:96 | the value of the first entry with that key, `undefined` when no entry has it |
| BookClient.FieldOfDistinct | cmpc-libros-frontend/src/api/bookService.ts:96 | in one object's entries, every key reads back its own value |
| BookClient.Stringify | cmpc-libros-frontend/src/api/bookService.ts:97 | `String(v)`: `undefined`, `null`, booleans and integers print as JavaScript prints them, a string is itself, an array joins its elements with commas |
| BookClient.QueryParamsOf | cmpc-libros-frontend/src/api/bookService.ts:94-103 | the `reduce` accumulator: each entry in turn sets its contribution under its key |
| BookClient.ParamValue | cmpc-libros-frontend/src/api/bookService.ts:95-101 | a filter is sent exactly when it is neither undefined nor empty and is not `sortOrder`; `sortBy` carries the order after a colon |
| BookClient.BuildQueryParams | cmpc-libros-frontend/src/api/bookService.ts:94-103 | the `reduce` gives `QueryParamsOf` of the entries |
| BookClient.QueryParamsKeys | cmpc-libros-frontend/src/api/bookService.ts:94-103 | a key is sent exactly when some entry with that key contributes |
| BookClient.SortOrderNeverSent | cmpc-libros-frontend/src/api/bookService.ts:98 | `sortOrder` is never a query key |
| BookClient.QueryParamsValues | cmpc-libros-frontend/src/api/bookService.ts:94-103 | each contributing filter is sent with its own value |
| BookClient.QueryParamExamples | cmpc-libros-frontend/src/api/bookService.ts:95-101 | availability 0 is sent, an empty search is not, and the order is folded into `sortBy` |
| BookClient.ExportUrl | cmpc-libros-frontend/src/api/bookService.ts:120-132 | the export path followed by the serialised pairs, or the TypeError exactly when some `null` filter reaches `toString` |
| BookClient.ThrowsOnToString | cmpc-libros-frontend/src/api/bookService.ts:123-127 | a `null` filter other than `sortOrder` and other than a `sortBy` printed with the order |
| BookClient.ExportPairsOf | cmpc-libros-frontend/src/api/bookService.ts:122-130 | the appended pairs: each contributing entry in order, its value printed |
| BookClient.Serialize | cmpc-libros-frontend/src/api/bookService.ts:131 | `key=value` pairs joined by `&`, each side encoded |
| BookClient.ExportMatchesQuery | cmpc-libros-frontend/src/api/bookService.ts:120-132 | the export URL carries the same keys as the list request, each once, with the list value printed |
| BookClient.ExportKeysFrom | cmpc-libros-frontend/src/api/bookService.ts:122-130 | every exported key is the key of an entry |
| BookClient.CreateBookFormData | cmpc-libros-frontend/src/api/bookService.ts:32-53 | the fields, then the image file, then a truthy `imageUrl` |
| BookClient.FormLayout | cmpc-libros-frontend/src/api/bookService.ts:32-53 | the fields, then the file under `image`, then a truthy `imageUrl` |
| BookClient.FieldPartsSkipImage | cmpc-libros-frontend/src/api/bookService.ts:36-40 | the field loop emits no image key and only text parts, each the printed value of some entry |
| BookClient.FieldPartsKeep | cmpc-libros-frontend/src/api/bookService.ts:36-40 | every present value with an ordinary key is sent as its text |
| BookClient.FormImageKeysOnce | cmpc-libros-frontend/src/api/bookService.ts:32-53 | `imageUrl` appears at most once and `image` only as the given file |
| BookClient.NumberOf | cmpc-libros-frontend/src/api/bookService.ts:24 | `Number` of a number is itself |
| BookClient.AvailabilityOf | cmpc-libros-frontend/src/api/bookService.ts:24 | `true` is 1, `false` is 0, a number is kept |
| BookClient.TextOrEmpty | cmpc-libros-frontend/src/api/bookService.ts:20-25 | a falsy value becomes `''`, a truthy one is kept |
| BookClient.TransformBookData | cmpc-libros-frontend/src/api/bookService.ts:17-29 | each field as the normaliser leaves it |
| BookClient.AvailabilityIsFlag | cmpc-libros-frontend/src/api/bookService.ts:24 | a boolean or 0/1 availability comes out 0 or 1 |
| BookClient.OptionalTextIsString | cmpc-libros-frontend/src/api/bookService.ts:20-25 | optional text fields come out as strings |
| BookClient.ListResult | cmpc-libros-frontend/src/api/bookService.ts:108-117 | the items normalised one by one, and total, page and limit defaulted to 0, 1 and 10 when falsy |
| BookClient.EmptyListDefaults | cmpc-libros-frontend/src/api/bookService.ts:108-117 | an empty body lists nothing, page 1 of 10 |
| ErrorService.Classify | cmpc-libros-frontend/src/services/error.service.ts:26-72 | the body's message answers exactly when there is a truthy body; the unknown message exactly for a non-`Error` |
| ErrorService.HandleError | cmpc-libros-frontend/src/services/error.service.ts:26-32 | with a body, the message is the body's `message` |
| ErrorService.InvalidCredentialsUnreachable | cmpc-libros-frontend/src/services/error.service.ts:40-48 | the invalid-credentials message is never shown |
| ErrorService.StatusMessages | cmpc-libros-frontend/src/services/error.service.ts:40-69 | without a body, 401, 403, 422, 404, 409 and 500 and above give their messages, and other statuses the error's own |
| ErrorService.BodyWinsOverStatus | cmpc-libros-frontend/src/services/error.service.ts:28-32 | a body's message wins over the status |
| ErrorService.OtherFailures | cmpc-libros-frontend/src/services/error.service.ts:34-71 | no response is the network message; other errors show their own message; a non-`Error` shows the unknown message |
| ErrorService.IsNetworkError | cmpc-libros-frontend/src/services/error.service.ts:74-76 | an Axios error without a response |
| ErrorService.IsAuthError | cmpc-libros-frontend/src/services/error.service.ts:78-81 | an Axios error answered 401 or 403 |
| ErrorService.IsValidationError | cmpc-libros-frontend/src/services/error.service.ts:83-85 | an Axios error answered 422 |
| ErrorService.IsConflictError | cmpc-libros-frontend/src/services/error.service.ts:87-89 | an Axios error answered 409 |
| ErrorService.IsNotFoundError | cmpc-libros-frontend/src/services/error.service.ts:91-93 | an Axios error answered 404 |
| ErrorService.IsServerError | cmpc-libros-frontend/src/services/error.service.ts:95-98 | an Axios error answered 500 or above |
| Text.JoinSplit | cmpc-libros-backend/src/books/books.service.ts:95-97 | joining the pieces of a split gives the text back |
| Text.SplitJoin | cmpc-libros-backend/src/books/books.service.ts:95-97 | splitting a join of separator-free pieces gives the pieces back |
| Text.JoinWithContains | cmpc-libros-backend/src/books/books.controller.ts:65-68 | a text joined from parts starts with the first part and contains every part |
| Text.ParsePrint | cmpc-libros-backend/src/books/books.service.ts:130 | printing a natural number and parsing it gives it back |
| Text.IntToStringInjective | cmpc-libros-backend/src/books/books.service.ts:130 | distinct integers print differently |
| Json.Envelope | cmpc-libros-backend/src/common/interceptors/transform.interceptor.ts:48-52 | the envelope has exactly the keys `statusCode`, `message` and `data`, holding its arguments |
| Json.OrElse | cmpc-libros-frontend/src/api/bookService.ts:20-25 | a truthy value is kept, anything else gives the fallback |

## Left out

- Database execution: the ORM's queries are modelled by what they compute
  over the table's rows. Transactions, connections and the `ORDER BY`
  itself are not modelled, so the order list is checked as built, not as
  applied to rows.
- `ILIKE` wildcards: `%` and `_` inside a search term are read literally.
  The database's case fold is a parameter.
- BooksService.Window: a negative offset or limit is read as 0; what the
  database does with the negative offset the code can produce is not
  modelled.
- CSV quoting and the streams: the stringifier's output is a sequence of
  records of cells, not text. The `PassThrough` error handler is left out.
- File uploads: the Multer storage and file filter, and the unused
  `deleteOldImage` (nothing calls it), are not modelled. An upload is
  its file name.
- bcrypt hashing and comparison, JWT signing and the passport strategy
  behind `super.canActivate` are parameters.
- Floating point: prices are decimal texts. `parseFloat`, and `Number`
  of anything but a number or `null`, are parameters, and so is NaN.
- The library checks of `class-validator` (`IsEmail`, `IsUrl`, the first
  alternative of the `imageUrl` pattern) are parameters. The pipe's
  conversion of query strings to numbers is taken as done.
- Timestamps of rows come from a `now` parameter. The `timestamp` field of
  the error body (error.interceptor.ts:31, :64) is dropped. Logging is kept only as the
  error interceptor's log line; the other loggers and the logging
  interceptor are not modelled.
- The web client's pages, hooks, state and routing, the application
  bootstrap, Swagger, and the end-to-end tests are not part of this model.
  `ParseIntPipe` is taken as done: ids are integers.
- Update bodies: a `null` field is treated like an absent one.
- BooksService.CreateAttributes: a create body with `availability: null`
  is read as absent, so the model stores 1. The source stores `null`,
  because the hook and the column default replace only `undefined` and
  `isIn` skips `null`.
- BooksService.BookStore.Create: the price's `Number()` coercion
  (books.service.ts:53) is taken as the identity. It is for every body the
  pipe accepts (`BooksService.PipeBodyKeepsPrice`), because `@IsNotEmpty`
  refuses a missing price. Reached without the pipe, an absent price
  would become NaN and fail `isDecimal`, and a `null` one would become 0;
  the model reports either as the notNull violation instead.
- BooksService.BookStore.Create: a price of 10^8 or more does not fit
  DECIMAL(10, 2) and the database refuses it; the model covers that only
  as a `fault`.
- BookEntity.PriceJson: every price is printed as the column reads it
  back, at two decimals. An instance that was just updated holds the
  body's number instead, which the model does not tell apart. A fraction
  longer than two digits, which validation never lets reach the column,
  is cut where the database would round it.
- BookClient.ExportUrl: the URL form encoding is a parameter, `encode`.
- BookClient.Stringify: an object prints as `[object Object]`; `String`
  of an array of objects is not refined further.
- UserEntity.InstanceSpread: the instance's `_changed` set and `_options`
  object are modelled as empty objects; only which keys the spread has
  matters to the callers.
- UsersService.UserTable.Create: the unique-index error is modelled by its
  name; its message is the fixed text "Validation error".
- BookEntity.AsObject: the controllers put `AsObject(b)` in their
  envelopes, but the client receives `JsonView(b)`, since `JSON.stringify`
  calls `toJSON`. The two differ: `AsObject` keeps `deletedAt` and an
  empty editorial or genre, while `JsonView` drops `deletedAt`, turns a
  falsy editorial or genre into `null`, and adds description, isbn and
  publicationDate as `null`. The model does not serialise the envelope.
