/**
  The two resources a connection worker uses: the client connection (a
  socket read and written with `read`, `write` and `close`) and the file
  store under the root directory (`fopen`, `fread`, `fwrite`, `remove`).
 */
module Io {
  import opened Bytes

  /** What one `read` call returns: some bytes (> 0), end of stream (0) or an error (< 0). */
  datatype ReadResult = Chunk(data: Bytes) | EndOfStream | ReadError

  /**
    A connection as the worker sees it. `input` lists what successive `read`
    calls deliver, each chunk between 1 and MaxRequestLength bytes since every
    read goes into a buffer of that size; once it is used up, every further
    read reports an error when `failsAtEnd` and end of stream otherwise.
   */
  class Connection {
    const input: seq<Bytes>
    const failsAtEnd: bool
    /** How many chunks have been read so far. */
    var position: nat
    /** The bytes of each `write` call, in order. */
    var sent: seq<Bytes>
    /** How many times `close` was called. */
    ghost var closes: nat

    ghost predicate Valid()
      reads this
    {
      position <= |input| && ChunksFit(input)
    }

    static ghost predicate ChunksFit(chunks: seq<Bytes>)
    {
      forall i :: 0 <= i < |chunks| ==> 0 < |chunks[i]| <= MaxRequestLength
    }

    constructor (input: seq<Bytes>, failsAtEnd: bool)
      requires ChunksFit(input)
      ensures Valid()
      ensures this.input == input && this.failsAtEnd == failsAtEnd
      ensures position == 0 && sent == [] && closes == 0
    {
      this.input := input;
      this.failsAtEnd := failsAtEnd;
      position := 0;
      sent := [];
      closes := 0;
    }

    /** `read(connection, buffer, MAX_REQUEST_LENGTH)`. */
    method Read() returns (r: ReadResult)
      requires Valid()
      modifies this`position
      ensures Valid()
      ensures old(position) < |input| ==> r == Chunk(input[old(position)]) && position == old(position) + 1
      ensures old(position) == |input| ==>
        position == old(position) && r == (if failsAtEnd then ReadError else EndOfStream)
    {
      if position < |input| {
        r := Chunk(input[position]);
        position := position + 1;
      } else if failsAtEnd {
        r := ReadError;
      } else {
        r := EndOfStream;
      }
    }

    /** `write(connection, data, length)`, all bytes written in one call. */
    method Write(data: Bytes)
      modifies this`sent
      ensures sent == old(sent) + [data]
    {
      sent := sent + [data];
    }

    /** `close(connection)`. */
    method Close()
      modifies this`closes
      ensures closes == old(closes) + 1
    {
      closes := closes + 1;
    }
  }

  /** The files under the root directory, by full path. */
  class FileStore {
    var files: map<Bytes, Bytes>

    constructor (files: map<Bytes, Bytes>)
      ensures this.files == files
    {
      this.files := files;
    }

    /** `fopen(path, "rb")` and `fread` of the whole file: None when the file does not exist. */
    method Load(path: Bytes) returns (r: Option<Bytes>)
      ensures r.Some? <==> path in files
      ensures r.Some? ==> r.value == files[path]
    {
      r := if path in files then Some(files[path]) else None;
    }

    /** `fopen(path, "wb")`: creates the file or truncates it to nothing. */
    method Truncate(path: Bytes)
      modifies this`files
      ensures files == old(files)[path := []]
    {
      files := files[path := []];
    }

    /** `fopen(path, "ab")`: creates the file when absent, keeps its contents otherwise. */
    method OpenAppend(path: Bytes)
      modifies this`files
      ensures path in files
      ensures files == if path in old(files) then old(files) else old(files)[path := []]
    {
      if path !in files {
        files := files[path := []];
      }
    }

    /** `fwrite` on a file opened for writing or appending: the bytes go at its end. */
    method Append(path: Bytes, data: Bytes)
      requires path in files
      modifies this`files
      ensures files == old(files)[path := old(files)[path] + data]
    {
      files := files[path := files[path] + data];
    }

    /** `remove(path)`: fails, changing nothing, when the file does not exist. */
    method Remove(path: Bytes) returns (ok: bool)
      modifies this`files
      ensures ok <==> path in old(files)
      ensures files == old(files) - {path}
    {
      ok := path in files;
      files := files - {path};
    }
  }
}
