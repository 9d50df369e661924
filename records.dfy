/**
 * The values the files controller reads, stores and answers with: object ids,
 * file documents of the `files` collection, the six-field shaped record and
 * the (status, body) responses.
 */
module Records {
  import opened Wrappers

  /** A MongoDB ObjectId. Only equality matters to the controller; freshly
      inserted documents get the ids Oid(0), Oid(1), ... in insertion order. */
  datatype ObjectId = Oid(n: nat)

  /** The driver's `ObjectId(text)` conversion, supplied from outside:
      `None` stands for the exception it throws on malformed text. */
  type IdParser = string -> Option<ObjectId>

  /** The text is accepted by the id parser. */
  predicate ValidId(parse: IdParser, text: string) {
    parse(text).Some?
  }

  /** Distinct texts never parse to the same id. */
  ghost predicate Injective(parse: IdParser) {
    forall s, t :: parse(s).Some? && parse(s) == parse(t) ==> s == t
  }

  /** The three accepted values of the `type` field. */
  datatype FileType = Folder | File | Image

  function TypeName(t: FileType): string {
    match t
    case Folder => "folder"
    case File => "file"
    case Image => "image"
  }

  /** Membership of the `type` text in ['folder', 'file', 'image']. */
  function ParseType(s: string): (r: Option<FileType>)
    ensures r.Some? ==> TypeName(r.value) == s
    ensures r.None? ==> forall t :: TypeName(t) != s
  {
    if s == "folder" then Some(Folder)
    else if s == "file" then Some(File)
    else if s == "image" then Some(Image)
    else None
  }

  /** The stored `parentId`: the number 0 for the top level, else an ObjectId. */
  datatype Parent = Root | Under(folder: ObjectId)

  /** A document of the `files` collection. `createdAt` is the clock reading
      taken at insertion; `data` is present only when the upload stored it. */
  datatype FileDoc = FileDoc(
    id: ObjectId,
    userId: ObjectId,
    name: string,
    fileType: FileType,
    isPublic: bool,
    parentId: Parent,
    createdAt: int,
    data: Option<string>)

  /** The six fields Show and Index return for a stored document. */
  datatype FileItem = FileItem(
    id: ObjectId,
    userId: ObjectId,
    name: string,
    fileType: FileType,
    isPublic: bool,
    parentId: Parent)

  /** Response shaping: every field but `createdAt` and `data`. The item
      loses nothing else: it and those two fields rebuild the document. */
  function Shape(d: FileDoc): (item: FileItem)
    ensures d == FileDoc(item.id, item.userId, item.name, item.fileType, item.isPublic,
                         item.parentId, d.createdAt, d.data)
  {
    FileItem(d.id, d.userId, d.name, d.fileType, d.isPublic, d.parentId)
  }

  /** The `parentId` an upload request carries: the number 0 or a text. */
  datatype ParentArg = Zero | Text(text: string)

  /** The body of a 201 upload reply; its `parentId` echoes the request's
      value, not the stored one. */
  datatype Created = Created(
    id: ObjectId,
    userId: ObjectId,
    name: string,
    fileType: FileType,
    isPublic: bool,
    parentId: ParentArg)

  datatype Body =
    | Error(message: string)
    | CreatedFile(created: Created)
    | Item(item: FileItem)
    | Items(items: seq<FileItem>)

  /** What a handler sends. `Unhandled` is a handler whose promise rejects on
      an exception nobody catches: no reply is sent. */
  datatype Response = Reply(status: int, body: Body) | Unhandled

  const UnauthorizedReply := Reply(401, Error("Unauthorized"))
}
