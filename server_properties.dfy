/**
  What a client sees across requests: each request is one connection, sent
  as a request line followed by the body chunks, and served by `Serve`
  against the files the previous requests left.
 */
module ServerProperties {
  import opened Bytes
  import opened RequestParser
  import opened Names
  import opened Responses
  import opened Server

  /** What a client writes after the target: the version and the end of the header. */
  const RequestTail: Bytes := " HTTP/1.1\r\n\r\n"

  /** A name a client can put in a request line: no delimiter, no NUL. */
  predicate IsSendableName(name: Bytes)
  {
    '\0' !in name && forall i :: 0 <= i < |name| ==> !IsDelimiter(name[i])
  }

  /** The first chunk of a request for `name` with method `verb`. */
  function RequestFor(verb: Bytes, name: Bytes): Bytes
  {
    verb + [' '] + ['/'] + name + RequestTail
  }

  /**
    A well-formed request line reaches getRequestedData with its method and
    the name after the slash; the chunks after it are the body.
   */
  lemma ServeRequest(root: Bytes, files: map<Bytes, Bytes>, verb: Bytes, name: Bytes, body: seq<Bytes>,
                     failsAtEnd: bool, faults: Faults)
    requires IsToken(verb) && '\0' !in verb && IsSendableName(name)
    ensures Serve(root, files, [RequestFor(verb, name)] + body, failsAtEnd, faults)
         == Dispatch(root, files, verb, name, body, failsAtEnd, faults)
  {
    var target := ['/'] + name;
    assert forall i :: 1 <= i < |target| ==> target[i] == name[i - 1];
    assert IsToken(target);
    assert target[1..] == name;
    var request := RequestFor(verb, name);
    assert request == verb + [' '] + target + RequestTail;
    assert '\0' !in RequestTail;
    assert '\0' !in request;
    ParseSimpleLine(verb, target, RequestTail);
    var input := [request] + body;
    assert input[0] == request && input[1..] == body;
  }

  /** The four method names differ from one another. */
  lemma MethodsDistinct()
    ensures Get != Put && Get != Post && Get != Delete && Put != Post && Put != Delete && Post != Delete
  {
    assert Get[0] == 'G' && Put[0] == 'P' && Post[0] == 'P' && Delete[0] == 'D';
    assert Put[1] == 'U' && Post[1] == 'O';
  }

  /** How an accepted name is served, method by method. */
  lemma DispatchAccepted(root: Bytes, files: map<Bytes, Bytes>, verb: Bytes, name: Bytes,
                         body: seq<Bytes>, bodyFails: bool, faults: Faults)
    requires IsSafeName(name)
    ensures var o := Dispatch(root, files, verb, name, body, bodyFails, faults);
      var path := root + name;
      && (verb == Get ==> o == GetOutcome(files, path, faults.allocFails))
      && (verb == Put ==> o == WriteOutcome(files, path, [], body, bodyFails, faults.openFails, UploadedBody))
      && (verb == Post ==>
            o == WriteOutcome(files, path, if path in files then files[path] else [], body, bodyFails,
                              faults.openFails, AppendedBody))
      && (verb == Delete ==> o == DeleteOutcome(files, path))
  {
    MethodsDistinct();
  }

  /** A request touches at most one file: the one its name resolves to. */
  lemma OnlyTargetFileChanges(root: Bytes, files: map<Bytes, Bytes>, verb: Bytes, name: Bytes,
                              body: seq<Bytes>, bodyFails: bool, faults: Faults, p: Bytes)
    requires p != root + name
    ensures var o := Dispatch(root, files, verb, name, body, bodyFails, faults);
      && (p in o.files <==> p in files)
      && (p in files ==> o.files[p] == files[p])
  {
    if IsSafeName(name) {
      DispatchAccepted(root, files, verb, name, body, bodyFails, faults);
    }
  }

  /**
    The request line is read with `strtok`: whatever the first read holds up
    to its first NUL, the method and target are its first two
    delimiter-separated tokens, and fewer than two tokens is a 400.
   */
  lemma ServeMatchesTokens(root: Bytes, files: map<Bytes, Bytes>, request: Bytes, body: seq<Bytes>,
                           failsAtEnd: bool, faults: Faults)
    ensures var ts := Tokens(CString(request));
      var o := Serve(root, files, [request] + body, failsAtEnd, faults);
      && (|ts| < 2 ==> o == Outcome(StatusBadRequest, InvalidRequestBody, files, false))
      && (|ts| >= 2 ==> o == Dispatch(root, files, ts[0], StripSlash(ts[1]), body, failsAtEnd, faults))
  {
    ParseRequestLineMatchesTokens(CString(request));
    var input := [request] + body;
    assert input[0] == request && input[1..] == body;
  }

  /** A connection that delivers nothing is a 400, or a 500 when the first read fails. */
  lemma EmptyConnection(root: Bytes, files: map<Bytes, Bytes>, failsAtEnd: bool, faults: Faults)
    ensures var o := Serve(root, files, [], failsAtEnd, faults);
      && o.files == files && !o.drainsInput
      && o.status == (if failsAtEnd then StatusServerError else StatusBadRequest)
      && o.content == (if failsAtEnd then ReadRequestErrorBody else InvalidRequestBody)
  {
    assert Tokens(CString([])) == [];
    ParseRequestLineMatchesTokens(CString([]));
  }

  /**
    A '/' or ".." anywhere in the name is a 400 "Invalid file path." whatever
    the method, before any file is touched or any body byte read.
   */
  lemma UnsafeNameRejected(root: Bytes, files: map<Bytes, Bytes>, verb: Bytes, name: Bytes,
                           body: seq<Bytes>, failsAtEnd: bool, faults: Faults)
    requires IsToken(verb) && '\0' !in verb && IsSendableName(name) && !IsSafeName(name)
    ensures Serve(root, files, [RequestFor(verb, name)] + body, failsAtEnd, faults)
         == Outcome(StatusBadRequest, InvalidPathBody, files, false)
  {
    ServeRequest(root, files, verb, name, body, failsAtEnd, faults);
  }

  /** "GET /../secret" is refused. */
  lemma TraversalRejected(root: Bytes, files: map<Bytes, Bytes>, body: seq<Bytes>, faults: Faults)
    ensures Serve(root, files, [RequestFor(Get, "../secret")] + body, false, faults)
         == Outcome(StatusBadRequest, InvalidPathBody, files, false)
  {
    var secret: Bytes := "../secret";
    assert secret == [] + ['.', '.'] + "/secret";
    ParentRefAnywhereRejected(root, [], "/secret");
    assert IsToken(Get) && IsSendableName(secret);
    ServeRequest(root, files, Get, secret, body, false, faults);
  }

  /** The harmless name "a..b" is refused too: the check looks for ".." anywhere. */
  lemma DoubleDotRejected(root: Bytes, files: map<Bytes, Bytes>, body: seq<Bytes>, faults: Faults)
    ensures Serve(root, files, [RequestFor(Put, "a..b")] + body, false, faults)
         == Outcome(StatusBadRequest, InvalidPathBody, files, false)
  {
    var dots: Bytes := "a..b";
    assert dots == "a" + ['.', '.'] + "b";
    ParentRefAnywhereRejected(root, "a", "b");
    assert IsToken(Put) && IsSendableName(dots);
    ServeRequest(root, files, Put, dots, body, false, faults);
  }

  /**
    A method other than GET, PUT, POST and DELETE on an accepted name is a 501
    whose body is itself a 501 response; the store is untouched and no body
    byte is read.
   */
  lemma UnknownMethodNotImplemented(root: Bytes, files: map<Bytes, Bytes>, verb: Bytes, name: Bytes,
                                    body: seq<Bytes>, failsAtEnd: bool, faults: Faults)
    requires IsToken(verb) && '\0' !in verb && IsSendableName(name) && IsSafeName(name)
    requires verb != Get && verb != Put && verb != Post && verb != Delete
    ensures Serve(root, files, [RequestFor(verb, name)] + body, failsAtEnd, faults)
         == Outcome(StatusNotImplemented, NotImplementedBody, files, false)
  {
    ServeRequest(root, files, verb, name, body, failsAtEnd, faults);
  }

  /**
    A GET changes nothing and reads nothing after the request: it answers
    with the file's bytes, a 404 when there is no such file, or a 500 when
    the buffer cannot be allocated.
   */
  lemma GetReadsOnly(root: Bytes, files: map<Bytes, Bytes>, name: Bytes, body: seq<Bytes>,
                     failsAtEnd: bool, faults: Faults)
    requires IsSendableName(name) && IsSafeName(name)
    ensures var o := Serve(root, files, [RequestFor(Get, name)] + body, failsAtEnd, faults);
      && o.files == files && !o.drainsInput
      && (root + name !in files ==> o.status == StatusNotFound && o.content == NotFoundBody)
      && (root + name in files && faults.allocFails ==> o.status == StatusServerError)
      && (root + name in files && !faults.allocFails ==> o.status == StatusOk && o.content == files[root + name])
  {
    assert IsToken(Get);
    ServeRequest(root, files, Get, name, body, failsAtEnd, faults);
    DispatchAccepted(root, files, Get, name, body, failsAtEnd, faults);
  }

  /** A GET of an existing file, with no allocation failure, answers with the file's bytes. */
  lemma ServeGetFile(root: Bytes, files: map<Bytes, Bytes>, name: Bytes, faults: Faults)
    requires IsSendableName(name) && IsSafeName(name) && root + name in files && !faults.allocFails
    ensures Serve(root, files, [RequestFor(Get, name)], false, faults)
         == Outcome(StatusOk, files[root + name], files, false)
  {
    assert IsToken(Get);
    ServeRequest(root, files, Get, name, [], false, faults);
    DispatchAccepted(root, files, Get, name, [], false, faults);
    assert [RequestFor(Get, name)] + [] == [RequestFor(Get, name)];
  }

  /**
    A PUT replaces the file with everything the client sends after the
    request line; a later GET of the same name returns it, cut at its first
    NUL because the content is formatted with `%s`.
   */
  lemma GetAfterPut(root: Bytes, files: map<Bytes, Bytes>, name: Bytes, body: seq<Bytes>, faults: Faults)
    requires IsSendableName(name) && IsSafeName(name) && !faults.openFails && !faults.allocFails
    ensures var put := Serve(root, files, [RequestFor(Put, name)] + body, false, faults);
      var get := Serve(root, put.files, [RequestFor(Get, name)], false, faults);
      && put.status == StatusOk && put.content == UploadedBody
      && put.files == files[root + name := Concat(body)]
      && get.status == StatusOk && get.content == Concat(body)
      && Response(get) == StatusLinePrefix + StatusOk + HeaderEnd + CString(Concat(body))
  {
    ServePut(root, files, name, body, faults);
    var stored := files[root + name := Concat(body)];
    ServeGetFile(root, stored, name, faults);
  }

  /**
    A PUT, whose file opens, replaces the file with everything the client
    sends after the request line.
   */
  lemma ServePut(root: Bytes, files: map<Bytes, Bytes>, name: Bytes, body: seq<Bytes>, faults: Faults)
    requires IsSendableName(name) && IsSafeName(name) && !faults.openFails
    ensures var put := Serve(root, files, [RequestFor(Put, name)] + body, false, faults);
      put == Outcome(StatusOk, UploadedBody, files[root + name := Concat(body)], true)
  {
    assert IsToken(Put);
    ServeRequest(root, files, Put, name, body, false, faults);
    DispatchAccepted(root, files, Put, name, body, false, faults);
    assert [] + Concat(body) == Concat(body);
  }

  /**
    A POST to an existing file, whose file opens, adds everything the client
    sends after the request line to the end of the file.
   */
  lemma ServePost(root: Bytes, files: map<Bytes, Bytes>, name: Bytes, body: seq<Bytes>, faults: Faults)
    requires IsSendableName(name) && IsSafeName(name) && !faults.openFails && root + name in files
    ensures Serve(root, files, [RequestFor(Post, name)] + body, false, faults)
         == Outcome(StatusOk, AppendedBody, files[root + name := files[root + name] + Concat(body)], true)
  {
    assert IsToken(Post);
    ServeRequest(root, files, Post, name, body, false, faults);
    DispatchAccepted(root, files, Post, name, body, false, faults);
  }

  /** A POST after a PUT appends: the file then holds both bodies in order. */
  lemma PostAppends(root: Bytes, files: map<Bytes, Bytes>, name: Bytes, first: seq<Bytes>,
                    second: seq<Bytes>, faults: Faults)
    requires IsSendableName(name) && IsSafeName(name) && !faults.openFails
    ensures var put := Serve(root, files, [RequestFor(Put, name)] + first, false, faults);
      var post := Serve(root, put.files, [RequestFor(Post, name)] + second, false, faults);
      && post.status == StatusOk && post.content == AppendedBody
      && post.files == files[root + name := Concat(first) + Concat(second)]
  {
    var stored := files[root + name := Concat(first)];
    ServePut(root, files, name, first, faults);
    ServePost(root, stored, name, second, faults);
    AppendToUpdated(files, root + name, Concat(first), Concat(second));
  }

  /** Appending to a file just written is writing the concatenation. */
  lemma AppendToUpdated(files: map<Bytes, Bytes>, path: Bytes, written: Bytes, appended: Bytes)
    ensures files[path := written][path := files[path := written][path] + appended]
         == files[path := written + appended]
  {
  }

  /** A POST to a missing file creates it just as a PUT would. */
  lemma PostCreates(root: Bytes, files: map<Bytes, Bytes>, name: Bytes, body: seq<Bytes>,
                    failsAtEnd: bool, faults: Faults)
    requires IsSendableName(name) && IsSafeName(name) && root + name !in files
    ensures Serve(root, files, [RequestFor(Post, name)] + body, failsAtEnd, faults).files
         == Serve(root, files, [RequestFor(Put, name)] + body, failsAtEnd, faults).files
  {
    assert IsToken(Put) && IsToken(Post);
    ServeRequest(root, files, Post, name, body, failsAtEnd, faults);
    DispatchAccepted(root, files, Post, name, body, failsAtEnd, faults);
    ServeRequest(root, files, Put, name, body, failsAtEnd, faults);
    DispatchAccepted(root, files, Put, name, body, failsAtEnd, faults);
  }

  /**
    A body cut short by a read error still lands in the file: the client gets
    a 500 but the chunks read before the error stay written.
   */
  lemma ReadErrorKeepsWrittenChunks(root: Bytes, files: map<Bytes, Bytes>, name: Bytes, body: seq<Bytes>,
                                    faults: Faults)
    requires IsSendableName(name) && IsSafeName(name) && !faults.openFails
    ensures var put := Serve(root, files, [RequestFor(Put, name)] + body, true, faults);
      && put.status == StatusServerError && put.content == ProcessingErrorBody
      && put.files == files[root + name := Concat(body)] && put.drainsInput
  {
    assert IsToken(Put);
    ServeRequest(root, files, Put, name, body, true, faults);
    DispatchAccepted(root, files, Put, name, body, true, faults);
    assert [] + Concat(body) == Concat(body);
  }

  /**
    The same holds for POST: after a read error the file holds its old bytes
    (none when it was missing) followed by the chunks read before the error.
   */
  lemma PostReadErrorKeepsAppendedChunks(root: Bytes, files: map<Bytes, Bytes>, name: Bytes,
                                         body: seq<Bytes>, faults: Faults)
    requires IsSendableName(name) && IsSafeName(name) && !faults.openFails
    ensures var post := Serve(root, files, [RequestFor(Post, name)] + body, true, faults);
      var kept := if root + name in files then files[root + name] else [];
      && post.status == StatusServerError && post.content == ProcessingErrorBody
      && post.files == files[root + name := kept + Concat(body)] && post.drainsInput
  {
    assert IsToken(Post);
    ServeRequest(root, files, Post, name, body, true, faults);
    DispatchAccepted(root, files, Post, name, body, true, faults);
  }

  /**
    A DELETE removes the file, after which a GET is a 404 whose body is
    itself a whole 404 response; a second DELETE fails with a 500.
   */
  lemma DeleteThenGet(root: Bytes, files: map<Bytes, Bytes>, name: Bytes, faults: Faults)
    requires IsSendableName(name) && IsSafeName(name) && root + name in files
    ensures var del := Serve(root, files, [RequestFor(Delete, name)], false, faults);
      var get := Serve(root, del.files, [RequestFor(Get, name)], false, faults);
      var again := Serve(root, del.files, [RequestFor(Delete, name)], false, faults);
      && del.status == StatusOk && del.content == DeletedBody
      && del.files == files - {root + name}
      && get.status == StatusNotFound && ParseResponse(Response(get)) == Some((StatusNotFound, NotFoundBody))
      && again.status == StatusServerError && again.files == del.files
  {
    assert IsToken(Delete) && IsToken(Get);
    var del := RequestFor(Delete, name);
    var get := RequestFor(Get, name);
    assert [del] + [] == [del] && [get] + [] == [get];
    ServeRequest(root, files, Delete, name, [], false, faults);
    DispatchAccepted(root, files, Delete, name, [], false, faults);
    var after := files - {root + name};
    ServeRequest(root, after, Get, name, [], false, faults);
    DispatchAccepted(root, after, Get, name, [], false, faults);
    ServeRequest(root, after, Delete, name, [], false, faults);
    DispatchAccepted(root, after, Delete, name, [], false, faults);
    NotFoundHeaderDoubled();
  }

  /**
    Every response a connection gets is a status line naming one of the
    five statuses, a blank line, and the content up to its first NUL.
   */
  lemma EveryResponseWellFormed(root: Bytes, files: map<Bytes, Bytes>, input: seq<Bytes>, failsAtEnd: bool,
                                faults: Faults)
    ensures var o := Serve(root, files, input, failsAtEnd, faults);
      && IsKnownStatus(o.status)
      && ParseResponse(Response(o)) == Some((o.status, CString(o.content)))
  {
    var o := Serve(root, files, input, failsAtEnd, faults);
    KnownStatusesHaveNoCarriageReturn(o.status);
    ResponseRoundTrip(o.status, o.content);
  }
}
