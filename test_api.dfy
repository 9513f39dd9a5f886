/** The HTTP handlers of the test API: from the request fields and the
    outcome of the test-case file service to one status and JSON body. */
module TestApi {
  import opened Base
  import opened TestTree
  import opened TestFiles

  /** The JSON bodies the handlers send. */
  datatype Body =
    | ErrorBody(error: string)
    | SuccessBody
    | CaseBody(testCase: TestCase)
    | TreeBody(tree: seq<Node>)

  datatype Response = Response(status: nat, body: Body)

  /** The file system after a handler, and the response it sent. */
  datatype Handled = Handled(fs: Fs, response: Response)

  const PathRequired: string := "Path is required"
  const SourceRequired: string := "Source is required"
  const PathAndSourceRequired: string := "Path and source are required"
  const InvalidPath: string := "Invalid path"
  const InternalError: string := "Internal server error"

  /** `!value` for a request field that is an optional string: absent or
      empty. */
  predicate Missing(value: Option<string>) {
    value.None? || value == Some("")
  }

  /** The catch block of a handler: a message holding `marker` is passed
      on with `markerStatus`, a refused path becomes 400 "Invalid path",
      anything else 500. */
  function Failure(message: string, marker: string, markerStatus: nat): Response {
    if Contains(message, marker) then Response(markerStatus, ErrorBody(message))
    else if Contains(message, "traversal") || Contains(message, "Absolute paths") then Response(400, ErrorBody(InvalidPath))
    else Response(500, ErrorBody(InternalError))
  }

  /** `GET /api/tests`: the tree of the test directory, or 500 when it
      cannot be listed. */
  function TreeResponse(listing: Result<seq<Entry>>, le: (string, string) -> bool): Response {
    match listing
    case Ok(entries) => Response(200, TreeBody(Tree(entries, "", le)))
    case Err(_) => Response(500, ErrorBody(InternalError))
  }

  /** `GET /api/tests/<path>`. */
  function GetResponse(fs: Fs, path: Option<string>, outside: string -> bool): (r: Response)
    ensures r.status in {200, 400, 404, 500}
    ensures r.status == 200 <==> !Missing(path) && GetCase(fs, path.value, outside).Ok?
  {
    if Missing(path) then Response(400, ErrorBody(PathRequired))
    else
      match GetCase(fs, path.value, outside)
      case Ok(testCase) => Response(200, CaseBody(testCase))
      case Err(e) => Failure(e, "not found", 404)
  }

  /** `PUT /api/tests/<path>`. */
  function UpdateResponse(fs: Fs, path: Option<string>, source: Option<string>, check: Option<string>,
                          outside: string -> bool): (r: Handled)
    ensures r.response.status in {200, 400, 404, 500}
    ensures r.response.status == 200 <==>
      !Missing(path) && !Missing(source) && UpdateCase(fs, path.value, source.value, check, outside).error.None?
  {
    if Missing(path) then Handled(fs, Response(400, ErrorBody(PathRequired)))
    else if Missing(source) then Handled(fs, Response(400, ErrorBody(SourceRequired)))
    else
      var outcome := UpdateCase(fs, path.value, source.value, check, outside);
      match outcome.error
      case None => Handled(outcome.fs, Response(200, SuccessBody))
      case Some(e) => Handled(outcome.fs, Failure(e, "not found", 404))
  }

  /** `POST /api/tests`. */
  function CreateResponse(fs: Fs, path: Option<string>, source: Option<string>, check: Option<string>,
                          outside: string -> bool): (r: Handled)
    ensures r.response.status in {201, 400, 409, 500}
    ensures r.response.status == 201 <==>
      !Missing(path) && !Missing(source) && CreateCase(fs, path.value, source.value, check, outside).error.None?
  {
    if Missing(path) || Missing(source) then Handled(fs, Response(400, ErrorBody(PathAndSourceRequired)))
    else
      var outcome := CreateCase(fs, path.value, source.value, check, outside);
      match outcome.error
      case None => Handled(outcome.fs, Response(201, SuccessBody))
      case Some(e) => Handled(outcome.fs, Failure(e, "already exists", 409))
  }

  // ---- what each message is classified as ----------------------------------------------

  /** `a + sub + b` contains `sub`. */
  lemma ContainsMiddle(a: string, sub: string, b: string)
    ensures Contains(a + sub + b, sub)
  {
    assert sub[..|sub|] == sub;
    ContainsPrefix(sub, sub);
    ContainsExtended(a, sub, b, sub);
  }

  /** The message holds neither phrase that marks a test case missing or
      present. */
  predicate NamesNoCase(message: string) {
    !Contains(message, "not found") && !Contains(message, "already exists")
  }

  /** The message holds none of the phrases the handlers look for. */
  predicate Unmarked(message: string) {
    NamesNoCase(message) && !Contains(message, "traversal") && !Contains(message, "Absolute paths")
  }

  /** A message lacking the `f` of "not found" and the `x` of "already
      exists" holds neither marker. */
  lemma MarkerFree(message: string)
    requires forall i :: 0 <= i < |message| ==> message[i] !in "fx"
    ensures !Contains(message, "not found") && !Contains(message, "already exists")
  {
    LacksChar(message, "not found", 4);
    LacksChar(message, "already exists", 9);
  }

  /** A message none of whose letters is the `f` of "not found", the `x`
      of "already exists", the `v` of "traversal" or the `A` of "Absolute
      paths" holds no phrase at all. */
  lemma UnmarkedByLetters(message: string)
    requires forall i :: 0 <= i < |message| ==> message[i] !in "fxvA"
    ensures Unmarked(message)
  {
    LacksChar(message, "not found", 4);
    LacksChar(message, "already exists", 9);
    LacksChar(message, "traversal", 3);
    LacksChar(message, "Absolute paths", 0);
  }

  /** The same with "not found" ruled out by its `fo` instead. */
  lemma UnmarkedByPair(message: string)
    requires forall i :: 0 <= i < |message| - 1 ==> !(message[i] == 'f' && message[i + 1] == 'o')
    requires forall i :: 0 <= i < |message| ==> message[i] !in "xvA"
    ensures Unmarked(message)
  {
    LacksPair(message, "not found", 4);
    LacksChar(message, "already exists", 9);
    LacksChar(message, "traversal", 3);
    LacksChar(message, "Absolute paths", 0);
  }

  lemma AbsolutePathsPhrases()
    ensures Contains(AbsolutePathsMessage, "Absolute paths")
    ensures !Contains(AbsolutePathsMessage, "not found") && !Contains(AbsolutePathsMessage, "already exists")
  {
    AbsolutePathsNamed();
    MarkerFree(AbsolutePathsMessage);
  }

  lemma AbsolutePathsNamed()
    ensures Contains(AbsolutePathsMessage, "Absolute paths")
  {
    ContainsMiddle("", "Absolute paths", " are not allowed");
    assert "" + "Absolute paths" + " are not allowed" == AbsolutePathsMessage;
  }

  lemma TraversalPhrases()
    ensures Contains(TraversalMessage, "traversal")
    ensures !Contains(TraversalMessage, "not found") && !Contains(TraversalMessage, "already exists")
  {
    TraversalNamed();
    MarkerFree(TraversalMessage);
  }

  lemma TraversalNamed()
    ensures Contains(TraversalMessage, "traversal")
  {
    ContainsMiddle("Path ", "traversal", " is not allowed");
  }

  /** The refusal of a path outside the test directory holds no phrase
      the handlers look for. */
  lemma OutsideUnmarked()
    ensures Unmarked(OutsideMessage)
  {
    UnmarkedByLetters(OutsideMessage);
  }

  /** Nor do the codes of the file system's errors. */
  lemma NoEntryUnmarked()
    ensures Unmarked(NoEntryCode)
  {
    UnmarkedByPair(NoEntryCode);
  }

  lemma IsDirectoryUnmarked()
    ensures Unmarked(IsDirectoryCode)
  {
    UnmarkedByLetters(IsDirectoryCode);
  }

  lemma NotDirectoryUnmarked()
    ensures Unmarked(NotDirectoryCode)
  {
    UnmarkedByLetters(NotDirectoryCode);
  }

  lemma ReadDirectoryUnmarked()
    ensures Unmarked(ReadDirectoryError)
  {
    UnmarkedByLetters(ReadDirectoryError);
  }

  /** Joining two strings with a character no phrase holds adds no
      phrase. */
  lemma NamesNoCaseAcross(a: string, c: char, b: string)
    requires NamesNoCase(a) && NamesNoCase(b)
    requires c in ",'/"
    ensures NamesNoCase(a + [c] + b)
  {
    ContainsAcross(a, c, b, "not found");
    ContainsAcross(a, c, b, "already exists");
  }

  lemma UnmarkedAcross(a: string, c: char, b: string)
    requires Unmarked(a) && Unmarked(b)
    requires c in ",'/"
    ensures Unmarked(a + [c] + b)
  {
    NamesNoCaseAcross(a, c, b);
    ContainsAcross(a, c, b, "traversal");
    ContainsAcross(a, c, b, "Absolute paths");
  }

  /** The message of a file-system error cut at its comma, quotes and the
      slash after the test directory. */
  lemma FsErrorPieces(code: string, syscall: string, root: string, path: string)
    ensures path == "" ==> AbsolutePath(root, path) == root
    ensures path != "" ==> AbsolutePath(root, path) == root + ['/'] + path
    ensures FsError(code, syscall, AbsolutePath(root, path))
      == code + [','] + (" " + syscall + " ") + ['\''] + AbsolutePath(root, path) + ['\''] + ""
  {
  }

  /** The code of a file-system error, and the part naming its system
      call, hold no phrase. */
  lemma FsErrorHead(code: string, syscall: string)
    requires code in {NoEntryCode, IsDirectoryCode, NotDirectoryCode}
    requires syscall in {"open", "unlink", "mkdir"}
    ensures Unmarked(code) && Unmarked(" " + syscall + " ") && Unmarked("")
  {
    if code == NoEntryCode {
      NoEntryUnmarked();
    } else if code == IsDirectoryCode {
      IsDirectoryUnmarked();
    } else {
      NotDirectoryUnmarked();
    }
    UnmarkedByLetters(" " + syscall + " ");
    UnmarkedByLetters("");
  }

  /** The message of a file-system error holds a phrase only if the test
      directory or the path does. */
  lemma FsErrorUnmarked(code: string, syscall: string, root: string, path: string)
    requires code in {NoEntryCode, IsDirectoryCode, NotDirectoryCode}
    requires syscall in {"open", "unlink", "mkdir"}
    requires Unmarked(root) && Unmarked(path)
    ensures Unmarked(FsError(code, syscall, AbsolutePath(root, path)))
  {
    FsErrorHead(code, syscall);
    FsErrorPieces(code, syscall, root, path);
    var call, target := " " + syscall + " ", AbsolutePath(root, path);
    if path != "" {
      UnmarkedAcross(root, '/', path);
    }
    UnmarkedAcross(code, ',', call);
    UnmarkedAcross(code + [','] + call, '\'', target);
    UnmarkedAcross(code + [','] + call + ['\''] + target, '\'', "");
  }

  /** The same for the two phrases that mark a test case. */
  lemma FsErrorNamesNoCase(code: string, syscall: string, root: string, path: string)
    requires code in {NoEntryCode, IsDirectoryCode, NotDirectoryCode}
    requires syscall in {"open", "unlink", "mkdir"}
    requires NamesNoCase(root) && NamesNoCase(path)
    ensures NamesNoCase(FsError(code, syscall, AbsolutePath(root, path)))
  {
    FsErrorHead(code, syscall);
    FsErrorPieces(code, syscall, root, path);
    var call, target := " " + syscall + " ", AbsolutePath(root, path);
    if path != "" {
      NamesNoCaseAcross(root, '/', path);
    }
    NamesNoCaseAcross(code, ',', call);
    NamesNoCaseAcross(code + [','] + call, '\'', target);
    NamesNoCaseAcross(code + [','] + call + ['\''] + target, '\'', "");
  }

  // ---- the handlers' contracts ------------------------------------------------------------

  /** A missing path, or a missing source where one is needed, is
      answered with 400 before the service is asked, so nothing changes. */
  lemma MissingFieldsRejected(fs: Fs, path: Option<string>, source: Option<string>, check: Option<string>,
                              outside: string -> bool)
    ensures Missing(path) ==> GetResponse(fs, path, outside) == Response(400, ErrorBody(PathRequired))
    ensures Missing(path) ==> UpdateResponse(fs, path, source, check, outside) == Handled(fs, Response(400, ErrorBody(PathRequired)))
    ensures !Missing(path) && Missing(source) ==>
      UpdateResponse(fs, path, source, check, outside) == Handled(fs, Response(400, ErrorBody(SourceRequired)))
    ensures Missing(path) || Missing(source) ==>
      CreateResponse(fs, path, source, check, outside) == Handled(fs, Response(400, ErrorBody(PathAndSourceRequired)))
  {
  }

  /** An absolute path, or one holding `..`, is answered with 400
      "Invalid path" by every handler, and nothing changes. */
  lemma RefusedPathIsInvalid(fs: Fs, path: string, source: string, check: Option<string>, outside: string -> bool)
    requires path != "" && source != ""
    requires StartsWith(path, "/") || StartsWith(path, "\\") || Contains(path, "..")
    ensures GetResponse(fs, Some(path), outside) == Response(400, ErrorBody(InvalidPath))
    ensures UpdateResponse(fs, Some(path), Some(source), check, outside) == Handled(fs, Response(400, ErrorBody(InvalidPath)))
    ensures CreateResponse(fs, Some(path), Some(source), check, outside) == Handled(fs, Response(400, ErrorBody(InvalidPath)))
  {
    AbsolutePathsPhrases();
    TraversalPhrases();
  }

  /** A path that only the containment check refuses is answered with
      500, not 400: its message holds neither phrase the handlers look
      for. */
  lemma OutsidePathIsInternalError(fs: Fs, path: string, source: string, check: Option<string>, outside: string -> bool)
    requires path != "" && source != ""
    requires !StartsWith(path, "/") && !StartsWith(path, "\\") && !Contains(path, "..") && outside(path)
    ensures GetResponse(fs, Some(path), outside) == Response(500, ErrorBody(InternalError))
    ensures UpdateResponse(fs, Some(path), Some(source), check, outside) == Handled(fs, Response(500, ErrorBody(InternalError)))
    ensures CreateResponse(fs, Some(path), Some(source), check, outside) == Handled(fs, Response(500, ErrorBody(InternalError)))
  {
    OutsideUnmarked();
  }

  /** A test case without a `.ns` file is answered with 404 and the
      service's message by `get` and `update`, and nothing changes. */
  lemma MissingCaseIsNotFound(fs: Fs, path: string, source: string, check: Option<string>, outside: string -> bool)
    requires path != "" && source != ""
    requires ValidatePath(path, outside).Ok? && !fs.Exists(NsPath(path))
    ensures GetResponse(fs, Some(path), outside) == Response(404, ErrorBody(NotFoundPrefix + path))
    ensures UpdateResponse(fs, Some(path), Some(source), check, outside)
      == Handled(fs, Response(404, ErrorBody(NotFoundPrefix + path)))
  {
    ContainsMiddle("Test file ", "not found", ": " + path);
    assert NotFoundPrefix + path == "Test file " + "not found" + (": " + path);
  }

  /** Creating a test case whose `.ns` file exists is answered with 409
      and the service's message, and nothing changes. */
  lemma ExistingCaseIsConflict(fs: Fs, path: string, source: string, check: Option<string>, outside: string -> bool)
    requires path != "" && source != ""
    requires ValidatePath(path, outside).Ok? && fs.Exists(NsPath(path))
    ensures CreateResponse(fs, Some(path), Some(source), check, outside)
      == Handled(fs, Response(409, ErrorBody(AlreadyExistsPrefix + path)))
  {
    ContainsMiddle("Test file ", "already exists", ": " + path);
    assert AlreadyExistsPrefix + path == "Test file " + "already exists" + (": " + path);
  }

  /** An error of the file system is answered with 500 by every handler,
      as long as neither the test directory nor the path holds a phrase
      the handlers look for. */
  lemma FileErrorIsInternalError(code: string, syscall: string, root: string, path: string)
    requires code in {NoEntryCode, IsDirectoryCode, NotDirectoryCode}
    requires syscall in {"open", "unlink", "mkdir"}
    requires Unmarked(root) && Unmarked(path)
    ensures Failure(FsError(code, syscall, AbsolutePath(root, path)), "not found", 404) == Response(500, ErrorBody(InternalError))
    ensures Failure(FsError(code, syscall, AbsolutePath(root, path)), "already exists", 409) == Response(500, ErrorBody(InternalError))
  {
    FsErrorUnmarked(code, syscall, root, path);
  }

  /** Once `get` has found the `.ns` file, the only file-system error it
      can meet is a read of a directory, whose message names no path: it
      is answered with 500 whatever the path holds. */
  lemma GetFileErrorIsInternalError(fs: Fs, path: string, outside: string -> bool)
    requires path != "" && ValidatePath(path, outside).Ok? && fs.Exists(NsPath(path))
    ensures GetCase(fs, path, outside).Err? ==>
      && GetCase(fs, path, outside).error == ReadDirectoryError
      && GetResponse(fs, Some(path), outside) == Response(500, ErrorBody(InternalError))
  {
    ReadDirectoryUnmarked();
  }

  /** The catch blocks of `update` and `create` look for the phrase
      anywhere in the message: a file-system error of their writes,
      deletions or directory creations on a path naming "traversal" is
      answered with 400 "Invalid path", as if the path had been
      refused. */
  lemma FileErrorNamingTraversal(code: string, syscall: string, root: string, path: string)
    requires code in {NoEntryCode, IsDirectoryCode, NotDirectoryCode}
    requires syscall in {"open", "unlink", "mkdir"}
    requires NamesNoCase(root) && NamesNoCase(path) && Contains(path, "traversal")
    ensures Failure(FsError(code, syscall, AbsolutePath(root, path)), "not found", 404) == Response(400, ErrorBody(InvalidPath))
    ensures Failure(FsError(code, syscall, AbsolutePath(root, path)), "already exists", 409) == Response(400, ErrorBody(InvalidPath))
  {
    FsErrorNamesNoCase(code, syscall, root, path);
    var message := FsError(code, syscall, AbsolutePath(root, path));
    assert path != "";
    assert message == (code + ", " + syscall + " '" + root + "/") + path + "'";
    ContainsExtended(code + ", " + syscall + " '" + root + "/", path, "'", "traversal");
  }

  /** Success is 200 with the test case (whose path is the requested one)
      for `get`, 200 with `{success: true}` for `update` and 201 with
      `{success: true}` for `create`. */
  lemma SuccessResponses(fs: Fs, path: string, source: string, check: Option<string>, outside: string -> bool)
    requires path != "" && source != ""
    ensures GetCase(fs, path, outside).Ok? ==>
      && GetResponse(fs, Some(path), outside) == Response(200, CaseBody(GetCase(fs, path, outside).value))
      && GetCase(fs, path, outside).value.path == path
    ensures UpdateCase(fs, path, source, check, outside).error.None? ==>
      UpdateResponse(fs, Some(path), Some(source), check, outside).response == Response(200, SuccessBody)
    ensures CreateCase(fs, path, source, check, outside).error.None? ==>
      CreateResponse(fs, Some(path), Some(source), check, outside).response == Response(201, SuccessBody)
  {
  }

  /** The controller over one file service. */
  class TestController {
    const service: TestFileService

    constructor (service: TestFileService)
      ensures this.service == service
    {
      this.service := service;
    }

    /** `handleGetTree`, given the listing of the test directory or the
        error listing it raised. */
    method HandleGetTree(listing: Result<seq<Entry>>, le: (string, string) -> bool) returns (resp: Response)
      ensures resp == TreeResponse(listing, le)
      ensures resp.status == 200 <==> listing.Ok?
      ensures listing.Ok? ==> resp.body == TreeBody(Tree(listing.value, "", le))
      ensures listing.Err? ==> resp == Response(500, ErrorBody(InternalError))
    {
      if listing.Err? {
        return Response(500, ErrorBody(InternalError));
      }
      var tree := service.GetTree(listing.value, le);
      resp := Response(200, TreeBody(tree));
    }

    method HandleGetTestCase(path: Option<string>) returns (resp: Response)
      ensures resp == GetResponse(service.fs.State(), path, service.outside)
    {
      if Missing(path) {
        return Response(400, ErrorBody(PathRequired));
      }
      var result := service.GetTestCase(path.value);
      if result.Ok? {
        resp := Response(200, CaseBody(result.value));
      } else {
        resp := Failure(result.error, "not found", 404);
      }
    }

    method HandleUpdateTestCase(path: Option<string>, source: Option<string>, check: Option<string>) returns (resp: Response)
      modifies service.fs
      ensures Handled(service.fs.State(), resp) == UpdateResponse(old(service.fs.State()), path, source, check, service.outside)
    {
      if Missing(path) {
        return Response(400, ErrorBody(PathRequired));
      }
      if Missing(source) {
        return Response(400, ErrorBody(SourceRequired));
      }
      var err := service.UpdateTestCase(path.value, source.value, check);
      if err.None? {
        resp := Response(200, SuccessBody);
      } else {
        resp := Failure(err.value, "not found", 404);
      }
    }

    method HandleCreateTestCase(path: Option<string>, source: Option<string>, check: Option<string>) returns (resp: Response)
      modifies service.fs
      ensures Handled(service.fs.State(), resp) == CreateResponse(old(service.fs.State()), path, source, check, service.outside)
    {
      if Missing(path) || Missing(source) {
        return Response(400, ErrorBody(PathAndSourceRequired));
      }
      var err := service.CreateTestCase(path.value, source.value, check);
      if err.None? {
        resp := Response(201, SuccessBody);
      } else {
        resp := Failure(err.value, "already exists", 409);
      }
    }
  }
}
