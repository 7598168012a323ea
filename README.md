# A verified model of the file server's request handling

The server in `server.c` is a multi-threaded HTTP file server. Each
accepted connection gets a worker, `handleConnection`, which does four things:

1. It reads one request of at most 1024 bytes.
2. It takes the method and the target from the request line with `strtok`, splitting on space, tab and newline.
3. It strips one leading `/` from the target.
4. It hands method and name to `getRequestedData`.

`getRequestedData` does three things in turn:

- It refuses any name that holds a `/` or `..` anywhere.
- It builds `root ++ name`.
- It serves the request against the files under the root directory:
  - GET returns the file.
  - PUT replaces it with the rest of the connection.
  - POST appends the rest of the connection.
  - DELETE removes the file.
  - Any other method is a 501.

Every response is `"HTTP/1.1 " ++ status ++ "\r\n\r\n" ++ content`, written by `sendResponse` in a single `write`, and every path ends with `close`.

The model has two layers.

- **Specification functions** say what one connection does as a function of the files and of what the client sends:
  - `Server.Serve` covers `handleConnection`.
  - `Server.Dispatch` covers `getRequestedData`.
  - The tokeniser (`RequestParser`), the name check (`Names`) and the serialiser (`Responses`) are pure functions.
- **Imperative methods** follow the C code step by step:
  - the chunk-copy loop of PUT and POST (`Server.CopyBody`);
  - the branches of `getRequestedData`;
  - `handleConnection` itself.

  They work on two classes:
  - `Io.Connection`: the chunks successive `read` calls deliver, how far reading has got, the responses written, and how often `close` was called.
  - `Io.FileStore`: a map from full path to file bytes, updated in place.

  Each method is proved to leave the state its specification function gives. The lemmas in `ServerProperties` state what a client sees over several requests.

Modules, one per file:

- `Bytes` (bytes.dfy): C strings and chunk concatenation.
- `RequestParser` (request_parser.dfy): the `strtok` tokeniser and a reference split.
- `Names` (names.dfy): name check and path.
- `Responses` (responses.dfy): response layout and its reader.
- `Io` (io.dfy): connection and file store.
- `Server` (server.dfy): specification and worker.
- `ServerProperties` (server_properties.dfy): cross-request properties.

Modelling decisions:

- **Bytes.** A byte is a C `char`, and a file or a request is a sequence of them. Wherever the C code treats a buffer as a C string, the model cuts it at its first NUL (`Bytes.CString`). That covers `strtok` on the request and `%s` in `sendResponse`.
- **Connection input.**
  - What a client sends is a sequence of chunks, one per `read`, each between 1 and 1024 bytes.
  - After the chunks come either end of stream (`read` returns 0) or a read error (`read` returns -1).
  - The first chunk is the request. Every later chunk is body for PUT and POST.
- **The store.** Files are keyed by the full path `root ++ name`, which is the string `fopen` receives.
- **Faults.** `fopen` failing for writing and `malloc` failing for the GET buffer are parameters (`Server.Faults`). A GET of a path absent from the store is the `fopen(..., "rb") == NULL` branch.
- **`\r` is not a delimiter.** "GET /a\r\n" therefore asks for the name "a\r" (`RequestParser.CarriageReturnKept`).
- **Failed first read.** When the first `read` fails, the response is a 500 "An error occurred while reading the request." (server.c:151-155). Only an empty first read, or one with fewer than two tokens, is a 400 (`ServerProperties.EmptyConnection`).
- **Doubled headers.** The 404 and 501 bodies are themselves complete status headers, so those responses carry the header twice. The model keeps this.

## Model

| member | source | states |
|---|---|---|
| Bytes.CString | server.c:157 | the C string of a buffer is its longest NUL-free prefix: it is a prefix, holds no NUL, is followed by a NUL when shorter, and is the whole buffer when there is no NUL |
| Bytes.ConcatAppend | server.c:82-84 | writing one more chunk extends what was written by exactly that chunk |
| RequestParser.SkipDelimiters | server.c:157 | the result is a suffix of the input that starts with a non-delimiter (or is empty), and every byte dropped is a space, tab or newline |
| RequestParser.TokenLength | server.c:157 | the token is the longest run of non-delimiters at the front: every byte before the length is a non-delimiter, and the byte at it is a delimiter |
| RequestParser.NextToken | server.c:157-163 | one `strtok` step returns a non-empty token free of delimiters, and fails exactly when the input holds only delimiters |
| RequestParser.StripSlash | server.c:169-172 | exactly one leading '/' is removed when there is one, and the target is unchanged otherwise |
| RequestParser.Tokens | server.c:157-163 | the reference split, byte by byte: every token is non-empty and delimiter-free, and a leading non-delimiter begins the first token |
| RequestParser.TokensSkipDelimiters | server.c:157 | leading delimiters do not change the token list |
| RequestParser.TokensOfLeadingToken | server.c:157 | an input that starts with a token splits into that token followed by the tokens of the rest |
| RequestParser.NextTokenMatchesTokens | server.c:157-163 | a `strtok` step fails exactly when the reference split is empty; otherwise it yields the first token, and the remainder yields the other tokens |
| RequestParser.ParseRequestLineMatchesTokens | server.c:157-167 | the request line parses exactly when the request has at least two tokens, and then method and target are the first two tokens |
| RequestParser.TokenLengthOfToken | server.c:157 | a token followed by a delimiter or by nothing is read whole |
| RequestParser.NextTokenOfToken | server.c:157-163 | a token followed by a delimiter is returned whole, and `strtok` resumes after that delimiter |
| RequestParser.FirstTokenOfLine | server.c:157 | on "verb target…" the first step returns the verb and resumes at the target |
| RequestParser.ParseSimpleLine | server.c:157-167 | "verb target" followed by a delimiter or by nothing parses to that verb and target |
| RequestParser.CarriageReturnKept | server.c:157-167 | a request line ending in "\r\n" keeps the '\r' at the end of the target |
| Names.HasParentRef | server.c:30 | true exactly when two consecutive dots occur somewhere in the name |
| Names.ResolvePath | server.c:30-38 | a path is built exactly for names with no '/' and no ".."; the path is exactly root followed by the name, so the part after the root holds neither |
| Names.SeparatorAnywhereRejected | server.c:30 | a '/' anywhere in the name is refused, whatever surrounds it |
| Names.ParentRefAnywhereRejected | server.c:30 | ".." anywhere in the name is refused, whatever surrounds it |
| Names.ResolvePathInjective | server.c:36-38 | two accepted names that give the same path are the same name |
| Responses.ResponseRoundTrip | server.c:22-25 | a reader of the response recovers the status and the content up to its first NUL, for any status without '\r' |
| Responses.KnownStatusesHaveNoCarriageReturn | server.c:22-25 | none of the five status texts holds '\r' |
| Responses.NotFoundHeaderDoubled | server.c:13 | a 404 response's body is itself a complete 404 response with body "Page not found." |
| Responses.NotImplementedHeaderDoubled | server.c:12 | a 501 response's body is itself a complete, empty 501 response |
| Io.Connection.Read | server.c:150 | `read` returns the next chunk and advances; once the chunks are used up it returns end of stream or the error, without advancing |
| Io.Connection.Write | server.c:25 | `write` appends exactly its bytes to what the client receives |
| Io.Connection.Close | server.c:179 | `close` is counted once per call |
| Io.FileStore.Load | server.c:42-62 | reading a file gives its bytes, and nothing when it does not exist |
| Io.FileStore.Truncate | server.c:75 | opening with "wb" leaves the file empty and every other file unchanged |
| Io.FileStore.OpenAppend | server.c:100 | opening with "ab" creates a missing file empty and leaves an existing one as it was |
| Io.FileStore.Append | server.c:83 | `fwrite` adds the bytes at the end of the file and changes nothing else |
| Io.FileStore.Remove | server.c:122 | `remove` succeeds exactly when the file exists, and the file is gone afterwards |
| Server.Dispatch | server.c:28-133 | the status is one of the five; it is 400 exactly when the name is refused; the store changes only for PUT, POST and DELETE on an accepted name; only PUT and POST read the body |
| Server.Serve | server.c:143-176 | the status is one of the five, and the body is read only when a request was received |
| Server.SendResponse | server.c:22-25 | the client receives exactly "HTTP/1.1 " ++ status ++ "\r\n\r\n" ++ the content up to its first NUL |
| Server.CopyBody | server.c:82-91 | the copy loop reads the connection to its end and appends every chunk, in order, to the open file; it succeeds exactly when reading ended at end of stream and not on an error |
| Server.ServeGet | server.c:40-69 | the GET branch sends the response its specification gives and reports an error exactly when that response is not 200 |
| Server.ServeWrite | server.c:71-119 | the PUT and POST branches send the response and leave the store and the read position their specification gives; chunks written before a read error stay in the file |
| Server.ServeDelete | server.c:121-129 | the DELETE branch sends the response and leaves the store its specification gives |
| Server.GetRequestedData | server.c:28-141 | sends exactly the response of `Dispatch`, leaves the store `Dispatch` gives, reads the connection to its end exactly for a PUT or POST on an accepted name whose file opens, and returns 1 exactly on responses other than 200 and 501 |
| Server.HandleConnection | server.c:143-182 | on every path, writes exactly the one response of `Serve`, leaves the store `Serve` gives, and closes the connection exactly once |
| ServerProperties.ServeRequest | server.c:157-174 | a request line "verb /name HTTP/1.1" reaches getRequestedData with that verb and name, and the later chunks are its body |
| ServerProperties.DispatchAccepted | server.c:40-133 | for an accepted name, GET, PUT, POST and DELETE each run their own branch on the path root ++ name |
| ServerProperties.OnlyTargetFileChanges | server.c:36-133 | a request leaves every file other than root ++ name present or absent as before, with the same bytes |
| ServerProperties.ServeMatchesTokens | server.c:157-174 | for any first read: fewer than two tokens before its first NUL is a 400 "Invalid request." with the store untouched; otherwise the first two tokens go to getRequestedData, the target without its leading '/' |
| ServerProperties.EmptyConnection | server.c:150-160 | a failed first read is a 500 "An error occurred while reading the request."; an empty first read is a 400 "Invalid request."; neither touches the store |
| ServerProperties.UnsafeNameRejected | server.c:30-34 | a name with '/' or ".." is a 400 "Invalid file path." for every method, known or not, with the store untouched and no body read |
| ServerProperties.TraversalRejected | server.c:30-34 | "GET /../secret" is a 400 "Invalid file path." and touches nothing |
| ServerProperties.DoubleDotRejected | server.c:30 | "PUT /a..b" is refused too, although "a..b" names a file inside the root |
| ServerProperties.UnknownMethodNotImplemented | server.c:131-133 | any other method on an accepted name is a 501 with the doubled 501 body, with the store untouched and no body read |
| ServerProperties.GetReadsOnly | server.c:40-69 | a GET never changes the store or reads a body; it answers 404 with the NOT_FOUND body for a missing file, 500 when allocation fails, and otherwise 200 with the file's bytes |
| ServerProperties.ServeGetFile | server.c:40-69 | a GET of an existing file answers 200 with its bytes |
| ServerProperties.GetAfterPut | server.c:40-94 | after a PUT the file holds the whole body; a later GET answers 200 with that body, sent only up to its first NUL |
| ServerProperties.ServePut | server.c:71-94 | a PUT replaces the file with the concatenation of all chunks up to end of stream and answers "File uploaded successfully." |
| ServerProperties.ServePost | server.c:96-119 | a POST to an existing file appends the concatenated chunks to its old bytes and answers "File appended successfully." |
| ServerProperties.PostAppends | server.c:71-119 | a PUT then a POST leaves the file holding the two bodies in order |
| ServerProperties.PostCreates | server.c:100 | a POST to a missing file leaves the same files as a PUT of the same body |
| ServerProperties.ReadErrorKeepsWrittenChunks | server.c:82-91 | a PUT whose body ends in a read error answers 500, yet the file already holds every chunk read |
| ServerProperties.PostReadErrorKeepsAppendedChunks | server.c:107-116 | a POST whose body ends in a read error answers 500, yet the file holds its old bytes followed by every chunk read |
| ServerProperties.DeleteThenGet | server.c:121-129 | a DELETE of an existing file removes it and answers 200; a later GET is a 404 whose body is itself a whole 404 response; a second DELETE is a 500 that changes nothing |
| ServerProperties.EveryResponseWellFormed | server.c:22-25 | every response a connection gets parses back into one of the five statuses and the content up to its first NUL |

## Left out

- `main` (server.c:184 onwards) is not part of this model: argument parsing, the listening socket, `accept`, and the thread created per connection. Concurrency between workers is not modelled: each connection is served against the files the previous one left, and its request line is parsed while no other worker is parsing, since `strtok` (server.c:157, 163) keeps its position in storage shared by all threads; `ServerProperties.ServeMatchesTokens` and `ServerProperties.ServeRequest` hold only for connections parsed one at a time.
- The `printf` logging and the `inet_ntop` formatting of the client address have no effect on the response or the files, and are omitted.
- Server.SendResponse: the response buffer has 1024 bytes and `sprintf` does not check its length. Responses longer than that, such as a GET of a large file, overflow it in the C code. The model writes the whole response instead.
- Names.ResolvePath: `snprintf` cuts `root ++ name` at 1023 bytes. The model uses the whole string, so it assumes root and name together stay within that bound.
- Server.Serve: `read` does not NUL-terminate the request buffer. The model takes the request to be exactly the bytes read, cut at the first NUL inside them. A zero-byte first read is treated as an empty request, which is a 400.
- Server.CopyBody: each `fwrite` is taken to write all its bytes, and each `write` of a response to send all of them. Short writes and write errors are not modelled.
- Io.FileStore.Remove: `remove` succeeds exactly when the path is a key of the map. A `remove` that fails on an existing path, for lack of permission or because the path is a non-empty directory (the empty name resolves to the root directory), is not modelled; in the C code it reaches the same 500 branch (server.c:123-127).
- Io.FileStore.Load: a file that exists but cannot be opened for reading is treated as missing (404). The model has no permissions and no directories. In particular, the empty name, which makes the path the root directory itself, is just another key in the map.
- Bytes.Byte is the full `char` type. The model never does arithmetic on bytes, so it does not restrict values to 0..255.
- `fseek`/`ftell` and the size computation of the GET buffer are folded into `Io.FileStore.Load`, which returns the whole file.
