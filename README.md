# Files controller: an authenticated file-metadata store

This project models the files controller of a small file-manager service in Dafny. It has three
request handlers:

- `postUpload` creates a file, image or folder record.
- `getShow` returns one record owned by the requester.
- `getIndex` lists the requester's records under one parent, 20 per page.

All three start with the same authentication prelude:

1. Read the `X-Token` header.
2. Look up `auth_<token>` in the session store.
3. Convert the stored text to an ObjectId.
4. Find that user in the `users` collection.

The model replaces the session store, the `users` collection and the `files` collection with the
fields of one class, `Controller.FilesController`:

- `redis`: a map from session key to user-id text.
- `users`: a set of ids.
- `files`: a sequence of documents in insertion order.
- `nextId`: a fresh-id counter.

Each handler is a method that takes the request's header, body or query values. It returns a
`Response`, which is either `Reply(status, body)` or `Unhandled`. `Unhandled` stands for an
exception that no handler code catches, so it rejects the handler's promise and no reply is sent.

The rules are pure functions:

- the validation chain (`Upload.CheckUpload`);
- `parseInt(page, 10) || 0` (`Listing.NormalisePage`);
- the root sentinel (`Listing.IndexParent`);
- the `$match` / `$skip` / `$limit` pipeline (`Listing.Matching` and `Listing.PageOf`);
- the owner-scoped `findOne` (`Listing.Lookup`).

The methods are proved against these functions. The properties of the functions are proved as
lemmas.

The driver's `ObjectId(text)` conversion is not modelled. It is the class constant
`parseId: string -> Option<ObjectId>`, where `None` stands for the exception it throws, and
`Records.ValidId` is "the parser accepts this text". Only the lemma that needs injectivity
(`Controller.UploadedUnderOneParent`) assumes it.

Behaviour of the code that the model keeps:

- Upload converts a text `parentId` with `ObjectId(...)` while it builds the document. That happens
  before the data check and outside any `try`. A malformed parent id therefore never gets a 400
  reply: the request is `Unhandled`, and nothing is written. Only the number 0 means top level.
  The text "0" goes through the parser.
- The upload reply echoes the request's own `parentId` value. Show and Index return the stored
  value: 0 or the converted id.
- Show answers a malformed id with `400 Invalid file ID`. It answers an id that is missing or owned
  by another user with `404 Not found`.
- Index maps an absent `parentId`, or the text "0", to the top level. Any other text that does not
  convert gives `400 Invalid parentId`. Index checks neither that the parent exists nor that it is
  a folder.
- `parseInt` keeps a minus sign, so a negative page reaches the store as a negative `$skip`. The
  store rejects that and nothing catches the error, so the request is `Unhandled`.
- `page` is read by a model of ECMAScript's `parseInt`: skip leading white space, take an optional
  sign, then the longest run of digits. No digits is NaN. `|| 0` turns NaN and 0 into 0.

## Model

| member | source | states |
|---|---|---|
| Records.Shape | controllers/FilesController.js:70-77 | the six-field item drops only `createdAt` and `data`: together with those two fields it rebuilds the stored document |
| Records.ParseType | controllers/FilesController.js:20-21 | the type text is accepted exactly for "folder", "file" and "image", and the accepted value renders back as the same text |
| Sessions.SessionKey | controllers/FilesController.js:10 | the session key is the text `auth_` followed by the whole token |
| Sessions.SessionKeyInjective | controllers/FilesController.js:10 | different tokens have different session keys |
| Sessions.SessionServesOwnToken | controllers/FilesController.js:7-14 | storing a session under one token's key leaves the authentication of every other header value unchanged |
| Sessions.SessionText | controllers/FilesController.js:7-11 | a session text is found exactly when the header is present and non-empty and the store holds a non-empty text under its key |
| Sessions.Authenticate | controllers/FilesController.js:7-14 | the requester is authorized exactly when the session text converts to an id in `users`; a missing or empty header, a missing session and an unknown user give Unauthorized; a session text the parser rejects throws |
| Upload.StoredParent | controllers/FilesController.js:28 | only the number 0 is stored as root; a text is stored as its converted id, and conversion fails exactly when the parser rejects it |
| Upload.CheckUpload | controllers/FilesController.js:16-35 | fixed rejection order: Missing name iff the name is blank; else Missing type iff the type is blank; else Invalid type iff it is not folder/file/image; else the parent conversion throws; else Missing data iff a non-folder has blank data. On acceptance: the body's name and type, isPublic defaulting to false, the converted parent, no data for a folder and exactly the supplied non-empty data otherwise |
| Upload.NewDoc | controllers/FilesController.js:23-35 | the inserted document is well formed: non-empty name, data exactly when not a folder, never empty data |
| Upload.CreatedReply | controllers/FilesController.js:39-46 | the 201 body carries the new id, the requester and the request's own name, type text, isPublic (false when omitted) and parentId (0 when omitted) |
| Upload.ReplyDescribesRecord | controllers/FilesController.js:23-46 | the 201 reply and the stored document agree on id, userId (the requester), name, type and isPublic; an omitted parent is stored as root and echoed as 0; an omitted isPublic is false; a file or image stores exactly the supplied data |
| Listing.TrimStart | controllers/FilesController.js:93 | the result is a suffix of the text; everything removed is white space and the result does not start with white space |
| Listing.DigitRun | controllers/FilesController.js:93 | the result is the longest prefix of decimal digits: a prefix, all digits, followed by the end or a non-digit |
| Listing.ParseInt | controllers/FilesController.js:93 | parseInt yields NaN exactly when no digit follows the leading white space and optional sign; a negative result needs a minus sign there |
| Listing.NormalisePage | controllers/FilesController.js:92-93 | an absent page and a NaN page become 0; whenever parseInt reads a number, the page is that number |
| Listing.PageTextReadsBack | controllers/FilesController.js:93 | a page of white space, an optional sign, a non-empty digit run with any leading zeros, and a suffix that does not start with a digit, is exactly the signed value of the digits, so "+7" and "007" are 7 and "-3" is -3 |
| Listing.PageTextRoundTrip | controllers/FilesController.js:93 | a decimal page number, with leading white space and trailing non-digits allowed, normalises to itself |
| Listing.NegativePageText | controllers/FilesController.js:93 | a page written with a minus sign normalises to the negated number: the sign is kept |
| Listing.IndexParent | controllers/FilesController.js:92-104 | an absent parentId and the text "0" select root; any other text selects its converted id, and the filter fails exactly when the parser rejects it |
| Listing.Matching | controllers/FilesController.js:95-107 | a document is in the filtered sequence iff it is in the collection with the requester's userId and the filter's parentId; the result is no longer than the collection |
| Listing.MatchingAppend | controllers/FilesController.js:106-107 | filtering distributes over concatenation, so it keeps the collection's insertion order |
| Listing.AppendedComesLast | controllers/FilesController.js:106-107 | a newly inserted document comes last in the listing it matches and changes no other listing |
| Listing.Window | controllers/FilesController.js:108-109 | `$skip`/`$limit`: the length is 0 past the end, else min(limit, size - skip); item k is element skip + k |
| Listing.PageOf | controllers/FilesController.js:108-109 | a page holds at most 20 records and is empty when page * 20 is at or past the end |
| Listing.PageIsOwned | controllers/FilesController.js:95-110 | every record on a listing page has the requester's userId and the filter's parentId: no other user's records are listed |
| Listing.PagesArePrefix | controllers/FilesController.js:108-109 | pages 0 to n - 1 read one after another are exactly the first n * 20 filtered records |
| Listing.RecordOnItsPage | controllers/FilesController.js:108-109 | filtered record k is item k % 20 of page k / 20 |
| Listing.Lookup | controllers/FilesController.js:63 | a found document is in the collection with the requested id and the requester's userId; a miss means no such document exists |
| Listing.LookupAppended | controllers/FilesController.js:63 | a lookup of a newly appended document's id by its owner finds it when no earlier document has that id |
| Controller.IdsUnique | controllers/FilesController.js:37 | under the collection invariant no two documents share an id |
| Controller.UploadThenShow | controllers/FilesController.js:37-79 | an accepted upload keeps the collection invariant; the owner's lookup of the new id finds the new document; for a top-level upload the shaped record repeats the reply's six fields with parent root |
| Controller.UploadedUnderOneParent | controllers/FilesController.js:28 | with an injective parser, a record uploaded under one parent text appears in no listing for another parent text |
| Controller.ShapeAll | controllers/FilesController.js:112-122 | the listing's `forEach` yields one six-field item per cursor record, in cursor order |
| Controller.FilesController.PostUpload | controllers/FilesController.js:6-47 | 401 or Unhandled from the prelude, then the rejections of CheckUpload, all with files and counter unchanged; on acceptance exactly one document is appended (fresh id, requester as owner), earlier documents are untouched and the reply is 201 with the new id and the six fields; the invariant is kept |
| Controller.FilesController.GetShow | controllers/FilesController.js:49-80 | 401/Unhandled from the prelude; 400 Invalid file ID when the parser rejects the id; 404 iff no document with that id is owned by the requester; otherwise 200 with the requester's document of that id, shaped to six fields |
| Controller.FilesController.GetIndex | controllers/FilesController.js:82-125 | 401/Unhandled from the prelude; 400 Invalid parentId; Unhandled for a negative page; otherwise 200 with the shaped records of the page-th 20-record window of the requester's documents under the parent, so at most 20 items, each with the requester's userId and the filter's parentId |

## Left out

- HTTP plumbing is not modelled: Express, `req`/`res`, headers and status sending. The header, body
  and query values are method parameters, and the reply is a `Response` value.
- The Redis and MongoDB clients, `async`/`await` and store connectivity failures are not modelled.
  The stores are in-memory fields, and every store call succeeds except the negative `$skip`.
- The ObjectId text format is not modelled and belongs to the driver. The parser is a parameter.
  Fresh ids come from a counter (`Oid(0)`, `Oid(1)`, ...), not from the driver's generator. The
  driver's parser is not injective on text: hex case is ignored. So the one lemma that assumes
  injectivity speaks of an idealised parser.
- An upload `parentId` that is a non-zero number is not modelled, because `ObjectId(number)` builds
  an id from a timestamp. JSON values of other types in body fields are not modelled either. Every
  field is a text, except `isPublic`, which is a boolean.
- `createdAt` reads the clock. The clock value is the parameter `now`.
- Listing order: the aggregation has no `$sort`. The model assumes insertion order.
- `parseInt` returns a floating-point number. Numbers beyond 2^53, and the resulting inexact
  `page * 20`, are not modelled: the model's integers are exact.
- A `page` given several times arrives as an array. `parseInt` reads it as its values joined by
  commas, so "1,2" gives 1. `page` is a text here, so that case is the joined text.
- A `parentId` given several times arrives as an array and goes to `ObjectId` as is. The model
  passes only texts, so that case is not modelled.
- A session text that converts to an id only by the driver's 12-byte rule is covered through the
  abstract parser.
- Physical storage of `data` is not modelled. The text is stored as given.
- Parent existence, parent folder type and `isPublic` visibility are not modelled, because the
  code checks none of them.
