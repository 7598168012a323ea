/**
  The connection worker of the file server: handleConnection reads one
  request, parses its request line, and getRequestedData checks the name and
  runs GET, PUT, POST or DELETE against the file store before the connection
  is closed. `Dispatch` and `Serve` state what a request does as functions of
  the store and of what the client sends; the methods do it step by step, as
  the worker does, and are proved to agree with them.
 */
module Server {
  import opened Bytes
  import opened RequestParser
  import opened Names
  import opened Responses
  import opened Io

  const Get: Bytes := "GET"
  const Put: Bytes := "PUT"
  const Post: Bytes := "POST"
  const Delete: Bytes := "DELETE"

  /**
    Failures the store can report besides a missing file: `malloc` refusing
    the buffer for a GET (`allocFails`), and `fopen` refusing to open a file
    for writing or appending (`openFails`).
   */
  datatype Faults = Faults(allocFails: bool, openFails: bool)

  const NoFaults := Faults(false, false)

  /**
    What one request does: the status and content of its response, the files
    afterwards, and whether the worker read the connection to its end.
   */
  datatype Outcome = Outcome(status: Bytes, content: Bytes, files: map<Bytes, Bytes>, drainsInput: bool)

  /** The bytes of the one response a connection gets. */
  function Response(o: Outcome): Bytes
  {
    FormatResponse(o.status, o.content)
  }

  /** GET of an accepted path: 404 when the file is missing, else its bytes unless `malloc` fails. */
  function GetOutcome(files: map<Bytes, Bytes>, path: Bytes, allocFails: bool): (o: Outcome)
  {
    if path !in files then Outcome(StatusNotFound, NotFoundBody, files, false)
    else if allocFails then Outcome(StatusServerError, ProcessingErrorBody, files, false)
    else Outcome(StatusOk, files[path], files, false)
  }

  /**
    PUT and POST of an accepted path. Once the file is open, holding `kept`
    (nothing after "wb", its old bytes after "ab"), the whole rest of the
    connection is appended to it; a read error at the end turns the response
    into a 500 but leaves what was written in the file.
   */
  function WriteOutcome(files: map<Bytes, Bytes>, path: Bytes, kept: Bytes, body: seq<Bytes>,
                        bodyFails: bool, openFails: bool, doneBody: Bytes): (o: Outcome)
  {
    if openFails then Outcome(StatusServerError, ProcessingErrorBody, files, false)
    else if bodyFails then Outcome(StatusServerError, ProcessingErrorBody, files[path := kept + Concat(body)], true)
    else Outcome(StatusOk, doneBody, files[path := kept + Concat(body)], true)
  }

  /** DELETE of an accepted path: `remove` fails with a 500 when the file is missing. */
  function DeleteOutcome(files: map<Bytes, Bytes>, path: Bytes): (o: Outcome)
  {
    if path in files then Outcome(StatusOk, DeletedBody, files - {path}, false)
    else Outcome(StatusServerError, ProcessingErrorBody, files, false)
  }

  /**
    getRequestedData: the name check comes first, whatever the method; then
    the method picks the file operation. `body` is what the connection still
    delivers, `bodyFails` whether reading stops on an error.
   */
  function Dispatch(root: Bytes, files: map<Bytes, Bytes>, verb: Bytes, name: Bytes,
                    body: seq<Bytes>, bodyFails: bool, faults: Faults): (o: Outcome)
    ensures IsKnownStatus(o.status)
    ensures o.status == StatusBadRequest <==> !IsSafeName(name)
    ensures o.files != files ==> IsSafeName(name) && (verb == Put || verb == Post || verb == Delete)
    ensures o.drainsInput ==> IsSafeName(name) && (verb == Put || verb == Post)
  {
    match ResolvePath(root, name)
    case None => Outcome(StatusBadRequest, InvalidPathBody, files, false)
    case Some(path) =>
      if verb == Get then GetOutcome(files, path, faults.allocFails)
      else if verb == Put then WriteOutcome(files, path, [], body, bodyFails, faults.openFails, UploadedBody)
      else if verb == Post then
        WriteOutcome(files, path, if path in files then files[path] else [], body, bodyFails,
                     faults.openFails, AppendedBody)
      else if verb == Delete then DeleteOutcome(files, path)
      else Outcome(StatusNotImplemented, NotImplementedBody, files, false)
  }

  /**
    handleConnection: `input` is what successive reads of the connection
    deliver and `failsAtEnd` whether the read after them fails. The first
    read is the request, taken as a C string; a failed first read is a 500,
    a request line without two tokens a 400.
   */
  function Serve(root: Bytes, files: map<Bytes, Bytes>, input: seq<Bytes>, failsAtEnd: bool,
                 faults: Faults): (o: Outcome)
    ensures IsKnownStatus(o.status)
    ensures o.drainsInput ==> input != []
  {
    if input == [] && failsAtEnd then Outcome(StatusServerError, ReadRequestErrorBody, files, false)
    else
      var request := if input == [] then [] else input[0];
      var body := if input == [] then [] else input[1..];
      match ParseRequestLine(CString(request))
      case None => Outcome(StatusBadRequest, InvalidRequestBody, files, false)
      case Some(line) => Dispatch(root, files, line.verb, StripSlash(line.target), body, failsAtEnd, faults)
  }

  /** sendResponse: one `write` of the formatted response. */
  method SendResponse(conn: Connection, status: Bytes, content: Bytes)
    modifies conn`sent
    ensures conn.sent == old(conn.sent) + [FormatResponse(status, content)]
  {
    conn.Write(FormatResponse(status, content));
  }

  /**
    The PUT and POST loop: every chunk `read` returns is written to the end of
    the open file until a read returns no bytes. Chunks written before a read
    error stay in the file; the result tells whether reading ended at end of
    stream rather than on an error.
   */
  method CopyBody(conn: Connection, store: FileStore, path: Bytes) returns (ok: bool)
    requires conn.Valid() && path in store.files
    modifies conn`position, store`files
    ensures conn.Valid() && conn.position == |conn.input|
    ensures store.files
         == old(store.files)[path := old(store.files)[path] + Concat(conn.input[old(conn.position)..])]
    ensures ok <==> !conn.failsAtEnd
  {
    ghost var start := conn.position;
    ghost var before := store.files[path];
    assert conn.input[start..start] == [];
    var r := conn.Read();
    while r.Chunk?
      invariant conn.Valid() && start <= conn.position
      invariant path in store.files && store.files == old(store.files)[path := store.files[path]]
      invariant r.Chunk? ==>
        && start < conn.position && r.data == conn.input[conn.position - 1]
        && store.files[path] == before + Concat(conn.input[start..conn.position - 1])
      invariant !r.Chunk? ==>
        && conn.position == |conn.input| && r == (if conn.failsAtEnd then ReadError else EndOfStream)
        && store.files[path] == before + Concat(conn.input[start..conn.position])
      decreases |conn.input| - conn.position + (if r.Chunk? then 1 else 0)
    {
      ghost var written := conn.input[start..conn.position - 1];
      store.Append(path, r.data);
      ConcatAppend(written, r.data);
      assert written + [r.data] == conn.input[start..conn.position];
      r := conn.Read();
    }
    assert conn.input[start..conn.position] == conn.input[start..];
    ok := !r.ReadError?;
  }

  /** The GET branch of getRequestedData; the result is true on an error response. */
  method ServeGet(conn: Connection, store: FileStore, path: Bytes, allocFails: bool) returns (failed: bool)
    modifies conn`sent
    ensures var o := GetOutcome(store.files, path, allocFails);
      conn.sent == old(conn.sent) + [Response(o)] && (failed <==> o.status != StatusOk)
  {
    var content := store.Load(path);
    if content.None? {
      SendResponse(conn, StatusNotFound, NotFoundBody);
      return true;
    }
    if allocFails {
      SendResponse(conn, StatusServerError, ProcessingErrorBody);
      return true;
    }
    SendResponse(conn, StatusOk, content.value);
    return false;
  }

  /**
    The PUT branch (`append` false: `fopen` mode "wb") and the POST branch
    (`append` true: mode "ab") of getRequestedData.
   */
  method ServeWrite(conn: Connection, store: FileStore, path: Bytes, append: bool, openFails: bool,
                    doneBody: Bytes) returns (failed: bool)
    requires conn.Valid()
    modifies conn`position, conn`sent, store`files
    ensures conn.Valid()
    ensures var kept := if append && path in old(store.files) then old(store.files)[path] else [];
      var o := WriteOutcome(old(store.files), path, kept, old(conn.input[conn.position..]),
                            conn.failsAtEnd, openFails, doneBody);
      && conn.sent == old(conn.sent) + [Response(o)]
      && store.files == o.files
      && conn.position == (if o.drainsInput then |conn.input| else old(conn.position))
      && (failed <==> o.status != StatusOk)
  {
    ghost var kept := if append && path in store.files then store.files[path] else [];
    ghost var o := WriteOutcome(store.files, path, kept, conn.input[conn.position..],
                                conn.failsAtEnd, openFails, doneBody);
    if openFails {
      SendResponse(conn, StatusServerError, ProcessingErrorBody);
      return true;
    }
    ghost var created := store.files[path := kept];
    if append {
      store.OpenAppend(path);
    } else {
      store.Truncate(path);
    }
    assert store.files == created;
    var ok := CopyBody(conn, store, path);
    assert store.files == o.files && o.drainsInput;
    if !ok {
      SendResponse(conn, StatusServerError, ProcessingErrorBody);
      return true;
    }
    SendResponse(conn, StatusOk, doneBody);
    return false;
  }

  /** The DELETE branch of getRequestedData. */
  method ServeDelete(conn: Connection, store: FileStore, path: Bytes) returns (failed: bool)
    modifies conn`sent, store`files
    ensures var o := DeleteOutcome(old(store.files), path);
      && conn.sent == old(conn.sent) + [Response(o)]
      && store.files == o.files
      && (failed <==> o.status != StatusOk)
  {
    var ok := store.Remove(path);
    if !ok {
      SendResponse(conn, StatusServerError, ProcessingErrorBody);
      return true;
    }
    SendResponse(conn, StatusOk, DeletedBody);
    return false;
  }

  /**
    getRequestedData. The result is the function's return code: true (1) on
    every error response, false (0) on success and on 501.
   */
  method GetRequestedData(conn: Connection, store: FileStore, root: Bytes, name: Bytes, verb: Bytes,
                          faults: Faults) returns (failed: bool)
    requires conn.Valid()
    modifies conn`position, conn`sent, store`files
    ensures conn.Valid()
    ensures var o := Dispatch(root, old(store.files), verb, name, old(conn.input[conn.position..]),
                              conn.failsAtEnd, faults);
      && conn.sent == old(conn.sent) + [Response(o)]
      && store.files == o.files
      && conn.position == (if o.drainsInput then |conn.input| else old(conn.position))
      && (failed <==> o.status != StatusOk && o.status != StatusNotImplemented)
  {
    if '/' in name || HasParentRef(name) {
      SendResponse(conn, StatusBadRequest, InvalidPathBody);
      return true;
    }
    var fullPath := root + name;
    if verb == Get {
      failed := ServeGet(conn, store, fullPath, faults.allocFails);
    } else if verb == Put {
      failed := ServeWrite(conn, store, fullPath, false, faults.openFails, UploadedBody);
    } else if verb == Post {
      failed := ServeWrite(conn, store, fullPath, true, faults.openFails, AppendedBody);
    } else if verb == Delete {
      failed := ServeDelete(conn, store, fullPath);
    } else {
      SendResponse(conn, StatusNotImplemented, NotImplementedBody);
      failed := false;
    }
  }

  /**
    handleConnection: every path, the failed first read, the two parse
    failures and every outcome of getRequestedData, writes exactly one
    response and then closes the connection exactly once.
   */
  method HandleConnection(conn: Connection, store: FileStore, root: Bytes, faults: Faults)
    requires conn.Valid()
    modifies conn`position, conn`sent, conn`closes, store`files
    ensures conn.Valid() && conn.closes == old(conn.closes) + 1
    ensures var o := Serve(root, old(store.files), old(conn.input[conn.position..]), conn.failsAtEnd, faults);
      && conn.sent == old(conn.sent) + [Response(o)]
      && store.files == o.files
      && conn.position == (if o.drainsInput then |conn.input|
                           else if old(conn.position) < |conn.input| then old(conn.position) + 1
                           else old(conn.position))
  {
    ghost var input := conn.input[conn.position..];
    ghost var o := Serve(root, store.files, input, conn.failsAtEnd, faults);
    var r := conn.Read();
    if r.ReadError? {
      SendResponse(conn, StatusServerError, ReadRequestErrorBody);
    } else {
      var request := if r.Chunk? then r.data else [];
      ghost var body := conn.input[conn.position..];
      assert request == (if input == [] then [] else input[0]);
      assert body == (if input == [] then [] else input[1..]);
      var first := NextToken(CString(request));
      if first.None? {
        SendResponse(conn, StatusBadRequest, InvalidRequestBody);
      } else {
        var second := NextToken(first.value.1);
        if second.None? {
          SendResponse(conn, StatusBadRequest, InvalidRequestBody);
        } else {
          var name := StripSlash(second.value.0);
          assert o == Dispatch(root, store.files, first.value.0, name, body, conn.failsAtEnd, faults);
          var _ := GetRequestedData(conn, store, root, name, first.value.0, faults);
        }
      }
    }
    conn.Close();
  }
}
