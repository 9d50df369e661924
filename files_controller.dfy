/**
 * The files controller: its three request handlers over an in-memory
 * session store, user collection and files collection.
 */
module Controller {
  import opened Wrappers
  import opened Records
  import opened Sessions
  import opened Upload
  import opened Listing

  /** What the files collection keeps: ids strictly increase in insertion
      order and stay below the next fresh id, and every document is well
      formed. */
  ghost predicate StoreInvariant(files: seq<FileDoc>, nextId: nat) {
    && (forall i :: 0 <= i < |files| ==> files[i].id.n < nextId && WellFormed(files[i]))
    && (forall i, j :: 0 <= i < j < |files| ==> files[i].id.n < files[j].id.n)
  }

  /** No two stored documents share an id. */
  lemma IdsUnique(files: seq<FileDoc>, nextId: nat, d: FileDoc, e: FileDoc)
    requires StoreInvariant(files, nextId)
    requires d in files && e in files && d.id == e.id
    ensures d == e
  {
    var i :| 0 <= i < |files| && files[i] == d;
    var j :| 0 <= j < |files| && files[j] == e;
    assert i == j;
  }

  /** The top-level upload reply as Show and Index would render the record. */
  function RootItem(r: Created): FileItem {
    FileItem(r.id, r.userId, r.name, r.fileType, r.isPublic, Root)
  }

  /** An accepted upload keeps the collection invariant, its document is
      the one a lookup of the new id by its owner finds, and for a
      top-level upload the shaped record repeats the six reply fields. */
  lemma {:induction false} UploadThenShow(files: seq<FileDoc>, nextId: nat, user: ObjectId,
                                          body: UploadBody, parse: IdParser, now: int)
    requires StoreInvariant(files, nextId)
    requires CheckUpload(body, parse).Accepted?
    ensures var d := NewDoc(Oid(nextId), user, body, parse, now);
            && StoreInvariant(files + [d], nextId + 1)
            && Lookup(files + [d], Oid(nextId), user) == Some(d)
            && (body.parentId.GetOr(Zero) == Zero ==>
                  Shape(d) == RootItem(CreatedReply(Oid(nextId), user, body, parse)))
  {
    var d := NewDoc(Oid(nextId), user, body, parse, now);
    forall e | e in files
      ensures e.id != d.id
    {
      var i :| 0 <= i < |files| && files[i] == e;
    }
    LookupAppended(files, d, user);
  }

  /** With an injective id parser, a record uploaded under the parent text
      `t` is listed under no other parent text. */
  lemma UploadedUnderOneParent(files: seq<FileDoc>, nextId: nat, user: ObjectId,
                               body: UploadBody, parse: IdParser, now: int, t: string, other: string)
    requires Injective(parse)
    requires body.parentId == Some(Text(t)) && CheckUpload(body, parse).Accepted?
    requires other != t && IndexParent(Some(other), parse).Some?
    ensures var d := NewDoc(Oid(nextId), user, body, parse, now);
            d !in Matching(files + [d], user, IndexParent(Some(other), parse).value)
            && Matching(files + [d], user, IndexParent(Some(other), parse).value)
               == Matching(files, user, IndexParent(Some(other), parse).value)
  {
    var d := NewDoc(Oid(nextId), user, body, parse, now);
    var p := IndexParent(Some(other), parse).value;
    assert d.parentId == Under(parse(t).value);
    if other != "0" {
      assert parse(other).Some? && parse(other) == parse(t) ==> other == t;
    }
    assert d.parentId != p;
    AppendedComesLast(files, d, user, p);
  }

  /** The `forEach` over the listing cursor: push each record's six
      fields, in cursor order. */
  method ShapeAll(cursor: seq<FileDoc>) returns (filesArray: seq<FileItem>)
    ensures |filesArray| == |cursor|
    ensures forall k :: 0 <= k < |cursor| ==> filesArray[k] == Shape(cursor[k])
  {
    filesArray := [];
    var i := 0;
    while i < |cursor|
      invariant 0 <= i <= |cursor|
      invariant |filesArray| == i
      invariant forall k :: 0 <= k < i ==> filesArray[k] == Shape(cursor[k])
    {
      filesArray := filesArray + [Shape(cursor[i])];
      i := i + 1;
    }
  }

  class FilesController {
    /** The driver's ObjectId conversion. */
    const parseId: IdParser
    /** The session store: `auth_<token>` to the user id text. */
    var redis: map<string, string>
    /** The ids of the `users` collection. */
    var users: set<ObjectId>
    /** The `files` collection in insertion order. */
    var files: seq<FileDoc>
    /** The id the next inserted document receives. */
    var nextId: nat

    ghost predicate Valid()
      reads this
    {
      StoreInvariant(files, nextId)
    }

    constructor (parseId: IdParser, redis: map<string, string>, users: set<ObjectId>)
      ensures Valid()
      ensures this.parseId == parseId && this.redis == redis && this.users == users
      ensures files == [] && nextId == 0
    {
      this.parseId := parseId;
      this.redis := redis;
      this.users := users;
      files := [];
      nextId := 0;
    }

    /** POST /files. */
    method PostUpload(token: Option<string>, body: UploadBody, now: int) returns (resp: Response)
      requires Valid()
      modifies this
      ensures Valid()
      ensures redis == old(redis) && users == old(users)
      ensures var auth := Authenticate(token, old(redis), old(users), parseId);
              var c := CheckUpload(body, parseId);
              if auth.Authorized? && c.Accepted? then
                var id := Oid(old(nextId));
                && files == old(files) + [NewDoc(id, auth.user, body, parseId, now)]
                && nextId == old(nextId) + 1
                && resp == Reply(201, CreatedFile(CreatedReply(id, auth.user, body, parseId)))
              else
                && files == old(files) && nextId == old(nextId)
                && (auth.Unauthorized? ==> resp == UnauthorizedReply)
                && (auth.Throws? ==> resp == Unhandled)
                && (auth.Authorized? && c.ParentThrows? ==> resp == Unhandled)
                && (auth.Authorized? && c.Rejected? ==> resp == Reply(400, Error(c.message)))
    {
      var auth := Authenticate(token, redis, users, parseId);
      if auth.Unauthorized? {
        return UnauthorizedReply;
      } else if auth.Throws? {
        return Unhandled;
      }
      var user := auth.user;

      if Blank(body.name) {
        return Reply(400, Error("Missing name"));
      }
      if Blank(body.fileType) {
        return Reply(400, Error("Missing type"));
      }
      var fileType := ParseType(body.fileType.value);
      if fileType.None? {
        return Reply(400, Error("Invalid type"));
      }
      var isPublic := body.isPublic.GetOr(false);
      var parentArg := body.parentId.GetOr(Zero);
      var parent := StoredParent(parentArg, parseId);
      if parent.None? {
        return Unhandled;
      }

      var data: Option<string> := None;
      if fileType.value != Folder {
        if Blank(body.data) {
          return Reply(400, Error("Missing data"));
        }
        data := body.data;
      }

      assert CheckUpload(body, parseId) == Accepted(body.name.value, fileType.value, isPublic, parent.value, data);
      var id := Oid(nextId);
      var fileData := FileDoc(id, user, body.name.value, fileType.value, isPublic, parent.value, now, data);
      assert fileData == NewDoc(id, user, body, parseId, now);
      UploadThenShow(files, nextId, user, body, parseId, now);
      files := files + [fileData];
      nextId := nextId + 1;
      assert Authenticate(token, old(redis), old(users), parseId) == Authorized(user);
      assert files == old(files) + [NewDoc(Oid(old(nextId)), user, body, parseId, now)];
      assert Valid();

      resp := Reply(201, CreatedFile(Created(id, user, body.name.value, fileType.value, isPublic, parentArg)));
      assert resp == Reply(201, CreatedFile(CreatedReply(id, user, body, parseId)));
    }

    /** GET /files/:id. */
    method GetShow(token: Option<string>, fileId: string) returns (resp: Response)
      requires Valid()
      ensures var auth := Authenticate(token, redis, users, parseId);
              && (auth.Unauthorized? ==> resp == UnauthorizedReply)
              && (auth.Throws? ==> resp == Unhandled)
              && (auth.Authorized? && !ValidId(parseId, fileId) ==>
                    resp == Reply(400, Error("Invalid file ID")))
              && (auth.Authorized? && ValidId(parseId, fileId) ==>
                    var id := parseId(fileId).value;
                    && (resp == Reply(404, Error("Not found")) <==>
                          forall d :: d in files ==> !(d.id == id && d.userId == auth.user))
                    && (resp != Reply(404, Error("Not found")) ==>
                          && resp.Reply? && resp.status == 200 && resp.body.Item?
                          && resp.body.item.id == id && resp.body.item.userId == auth.user
                          && forall d :: d in files && d.id == id ==> resp.body.item == Shape(d)))
    {
      var auth := Authenticate(token, redis, users, parseId);
      if auth.Unauthorized? {
        return UnauthorizedReply;
      } else if auth.Throws? {
        return Unhandled;
      }

      var id := parseId(fileId);
      if id.None? {
        return Reply(400, Error("Invalid file ID"));
      }
      var file := Lookup(files, id.value, auth.user);
      if file.None? {
        return Reply(404, Error("Not found"));
      }

      forall d | d in files && d.id == id.value
        ensures d == file.value
      {
        IdsUnique(files, nextId, d, file.value);
      }
      resp := Reply(200, Item(Shape(file.value)));
    }

    /** GET /files?parentId=&page=. */
    method GetIndex(token: Option<string>, parentId: Option<string>, page: Option<string>)
      returns (resp: Response)
      ensures var auth := Authenticate(token, redis, users, parseId);
              var parent := IndexParent(parentId, parseId);
              var pageNo := NormalisePage(page);
              && (auth.Unauthorized? ==> resp == UnauthorizedReply)
              && (auth.Throws? ==> resp == Unhandled)
              && (auth.Authorized? && parent.None? ==> resp == Reply(400, Error("Invalid parentId")))
              && (auth.Authorized? && parent.Some? && pageNo < 0 ==> resp == Unhandled)
              && (auth.Authorized? && parent.Some? && pageNo >= 0 ==>
                    var window := PageOf(Matching(files, auth.user, parent.value), pageNo);
                    && resp.Reply? && resp.status == 200 && resp.body.Items?
                    && |resp.body.items| == |window| <= PageSize
                    && (forall k :: 0 <= k < |window| ==> resp.body.items[k] == Shape(window[k]))
                    && (forall k :: 0 <= k < |resp.body.items| ==>
                          resp.body.items[k].userId == auth.user
                          && resp.body.items[k].parentId == parent.value))
    {
      var auth := Authenticate(token, redis, users, parseId);
      if auth.Unauthorized? {
        return UnauthorizedReply;
      } else if auth.Throws? {
        return Unhandled;
      }

      var pageNo := NormalisePage(page);
      var parent := IndexParent(parentId, parseId);
      if parent.None? {
        return Reply(400, Error("Invalid parentId"));
      }
      if pageNo < 0 {
        // The store rejects a negative $skip and nothing catches the error.
        return Unhandled;
      }

      var matching := Matching(files, auth.user, parent.value);
      var cursor := PageOf(matching, pageNo);
      var filesArray := ShapeAll(cursor);

      PageIsOwned(files, auth.user, parent.value, pageNo);
      forall k | 0 <= k < |filesArray|
        ensures filesArray[k].userId == auth.user && filesArray[k].parentId == parent.value
      {
        assert cursor[k] in cursor;
      }
      resp := Reply(200, Items(filesArray));
    }
  }

  /** A controller with one user, Oid(100), whose session token is "tok";
      the parser reads "u1" as that user and "f0" as the first file id. */
  method NewScenarioController() returns (c: FilesController)
    ensures fresh(c) && c.Valid() && c.files == [] && c.nextId == 0
    ensures Authenticate(Some("tok"), c.redis, c.users, c.parseId) == Authorized(Oid(100))
    ensures Authenticate(None, c.redis, c.users, c.parseId) == Unauthorized
    ensures c.parseId("f0") == Some(Oid(0))
  {
    var parse: IdParser := s => if s == "u1" then Some(Oid(100)) else if s == "f0" then Some(Oid(0)) else None;
    c := new FilesController(parse, map["auth_tok" := "u1"], {Oid(100)});
    assert SessionKey("tok") == "auth_tok";
  }

  /** The scenario controller after uploading the top-level file
      "root.txt"; its shaped record is the result `item`. */
  method ScenarioWithRootFile() returns (c: FilesController, item: FileItem)
    ensures fresh(c) && c.Valid()
    ensures Authenticate(Some("tok"), c.redis, c.users, c.parseId) == Authorized(Oid(100))
    ensures c.parseId("f0") == Some(Oid(0))
    ensures c.files == [FileDoc(Oid(0), Oid(100), "root.txt", File, false, Root, 0, Some("aGVsbG8="))]
    ensures item == FileItem(Oid(0), Oid(100), "root.txt", File, false, Root)
  {
    c := NewScenarioController();
    var body := UploadBody(Some("root.txt"), Some("file"), Some("aGVsbG8="), None, None);
    assert CheckUpload(body, c.parseId) == Accepted("root.txt", File, false, Root, Some("aGVsbG8="));
    var created := c.PostUpload(Some("tok"), body, 0);
    assert created == Reply(201, CreatedFile(Created(Oid(0), Oid(100), "root.txt", File, false, Zero)));
    item := FileItem(Oid(0), Oid(100), "root.txt", File, false, Root);
  }

  /** Showing the uploaded file by its id echoes its six fields. */
  method UploadShowScenario()
  {
    var c, item := ScenarioWithRootFile();
    var shown := c.GetShow(Some("tok"), "f0");
    assert shown == Reply(200, Item(item));
  }

  /** The first listing page holds the uploaded file. */
  method UploadListScenario()
  {
    var c, item := ScenarioWithRootFile();
    var list := c.GetIndex(Some("tok"), None, None);
    assert Matching(c.files, Oid(100), Root) == c.files;
    assert list == Reply(200, Items([item]));
  }

  /** The query text "1" selects page 1. */
  lemma PageOneText()
    ensures NormalisePage(Some("1")) == 1
  {
    var one := "1";
    assert one[..0] == [] && DigitsValue([]) == 0;
    assert DigitsValue(one) == 1;
    BareDigitsReadBack(one);
  }

  /** The second listing page after one upload is empty. */
  method SecondPageScenario()
  {
    var c, item := ScenarioWithRootFile();
    PageOneText();
    assert Matching(c.files, Oid(100), Root) == c.files;
    assert PageOf(c.files, 1) == [];
    var second := c.GetIndex(Some("tok"), None, Some("1"));
    assert second == Reply(200, Items([]));
  }

  /** An upload with an unknown type and a request without a token change
      nothing. */
  method RejectedRequestsScenario()
  {
    var c := NewScenarioController();
    var bad := c.PostUpload(Some("tok"), UploadBody(Some("x"), Some("spreadsheet"), None, None, None), 1);
    assert bad == Reply(400, Error("Invalid type"));
    var anonymous := c.PostUpload(None, UploadBody(Some("x"), Some("folder"), None, None, None), 1);
    assert anonymous == UnauthorizedReply;
    assert c.files == [];
  }
}
