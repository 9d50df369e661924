/**
 * The validation chain of the upload handler and the document and reply it
 * builds. Checks run in a fixed order and the first failure wins:
 * name, type, type membership, parent id conversion, data.
 */
module Upload {
  import opened Wrappers
  import opened Records

  /** The request body fields the handler destructures; a field the client
      did not send is `None`. */
  datatype UploadBody = UploadBody(
    name: Option<string>,
    fileType: Option<string>,
    data: Option<string>,
    isPublic: Option<bool>,
    parentId: Option<ParentArg>)

  /** JavaScript falsiness of an optional text field: absent or empty. */
  predicate Blank(v: Option<string>) {
    v.None? || v.value == ""
  }

  datatype Checked =
    | Rejected(message: string)
    /** `ObjectId(parentId)` threw while the document was being built. */
    | ParentThrows
    | Accepted(name: string, fileType: FileType, isPublic: bool, parentId: Parent, data: Option<string>)

  const UploadMessages := {"Missing name", "Missing type", "Invalid type", "Missing data"}

  /** The stored parent: only the number 0 means the top level; any text,
      "0" included, goes through the id parser. */
  function StoredParent(arg: ParentArg, parse: IdParser): (r: Option<Parent>)
    ensures r == Some(Root) <==> arg == Zero
    ensures arg.Text? ==> (r.Some? <==> ValidId(parse, arg.text))
    ensures arg.Text? && r.Some? ==> r.value == Under(parse(arg.text).value)
  {
    match arg
    case Zero => Some(Root)
    case Text(t) => if parse(t).Some? then Some(Under(parse(t).value)) else None
  }

  /** The outcome of the checks on an upload body. */
  function CheckUpload(body: UploadBody, parse: IdParser): (c: Checked)
    ensures c == Rejected("Missing name") <==> Blank(body.name)
    ensures c == Rejected("Missing type") <==> !Blank(body.name) && Blank(body.fileType)
    ensures c == Rejected("Invalid type") <==>
      !Blank(body.name) && !Blank(body.fileType) && ParseType(body.fileType.value).None?
    ensures c == ParentThrows <==>
      !Blank(body.name) && !Blank(body.fileType) && ParseType(body.fileType.value).Some?
      && StoredParent(body.parentId.GetOr(Zero), parse).None?
    ensures c == Rejected("Missing data") <==>
      !Blank(body.name) && !Blank(body.fileType) && ParseType(body.fileType.value).Some?
      && StoredParent(body.parentId.GetOr(Zero), parse).Some?
      && ParseType(body.fileType.value).value != Folder && Blank(body.data)
    ensures c.Rejected? ==> c.message in UploadMessages
    ensures c.Accepted? ==>
      && body.name == Some(c.name) && c.name != ""
      && body.fileType == Some(TypeName(c.fileType))
      && c.isPublic == body.isPublic.GetOr(false)
      && Some(c.parentId) == StoredParent(body.parentId.GetOr(Zero), parse)
      && (c.fileType == Folder ==> c.data.None?)
      && (c.fileType != Folder ==> c.data == body.data && body.data.value != "")
  {
    if Blank(body.name) then Rejected("Missing name")
    else if Blank(body.fileType) then Rejected("Missing type")
    else match ParseType(body.fileType.value)
      case None => Rejected("Invalid type")
      case Some(t) =>
        match StoredParent(body.parentId.GetOr(Zero), parse)
        case None => ParentThrows
        case Some(p) =>
          if t != Folder && Blank(body.data) then Rejected("Missing data")
          else Accepted(body.name.value, t, body.isPublic.GetOr(false), p,
                        if t == Folder then None else body.data)
  }

  /** What every stored document satisfies: a non-empty name, and `data`
      exactly when it is not a folder, never empty. */
  predicate WellFormed(d: FileDoc) {
    && d.name != ""
    && (d.fileType == Folder <==> d.data.None?)
    && (d.data.Some? ==> d.data.value != "")
  }

  /** The document inserted for an accepted upload. */
  function NewDoc(id: ObjectId, user: ObjectId, body: UploadBody, parse: IdParser, now: int): (d: FileDoc)
    requires CheckUpload(body, parse).Accepted?
    ensures WellFormed(d)
  {
    var c := CheckUpload(body, parse);
    FileDoc(id, user, c.name, c.fileType, c.isPublic, c.parentId, now, c.data)
  }

  /** The 201 reply body: the new id, the requester and the request's own
      name, type, isPublic and parentId (0 when omitted). */
  function CreatedReply(id: ObjectId, user: ObjectId, body: UploadBody, parse: IdParser): (r: Created)
    requires CheckUpload(body, parse).Accepted?
    ensures r.id == id && r.userId == user
    ensures body.name == Some(r.name) && body.fileType == Some(TypeName(r.fileType))
    ensures r.isPublic == body.isPublic.GetOr(false)
    ensures r.parentId == body.parentId.GetOr(Zero)
  {
    var c := CheckUpload(body, parse);
    Created(id, user, c.name, c.fileType, c.isPublic, body.parentId.GetOr(Zero))
  }

  /** The reply and the stored document agree on every field the reply has,
      and the record belongs to the requester with the defaults applied. */
  lemma ReplyDescribesRecord(id: ObjectId, user: ObjectId, body: UploadBody, parse: IdParser, now: int)
    requires CheckUpload(body, parse).Accepted?
    ensures var c := CheckUpload(body, parse);
            var d := NewDoc(id, user, body, parse, now);
            var r := CreatedReply(id, user, body, parse);
            && d.id == r.id == id && d.userId == r.userId == user
            && Some(d.name) == Some(r.name) == body.name
            && Some(TypeName(d.fileType)) == Some(TypeName(r.fileType)) == body.fileType
            && d.isPublic == r.isPublic == body.isPublic.GetOr(false)
            && (body.isPublic.None? ==> !d.isPublic)
            && (body.parentId.None? ==> d.parentId == Root && r.parentId == Zero)
            && (r.parentId == Zero <==> d.parentId == Root)
            && (d.fileType != Folder ==> d.data == body.data)
  {
  }
}
