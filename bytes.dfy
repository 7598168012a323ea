/**
  Bytes as the server handles them: C `char` values, the C strings built
  from them, and the concatenation of the chunks a stream delivers.
 */
module Bytes {

  /**
    One C `char`. The model never does arithmetic on bytes, so it does not
    restrict the character range.
   */
  type Byte = char

  type Bytes = seq<Byte>

  datatype Option<T> = None | Some(value: T)

  /** Size of every buffer the server reads into (MAX_REQUEST_LENGTH). */
  const MaxRequestLength: nat := 1024

  /**
    The C string a buffer denotes: the bytes before its first NUL, which is
    what `strtok`, `strlen` and `sprintf("%s")` see.
   */
  function CString(s: Bytes): (r: Bytes)
    ensures |r| <= |s| && r == s[..|r|]
    ensures '\0' !in r
    ensures |r| < |s| ==> s[|r|] == '\0'
    ensures '\0' !in s ==> r == s
  {
    if s == [] || s[0] == '\0' then [] else [s[0]] + CString(s[1..])
  }

  /** The bytes of successive chunks, in order. */
  function Concat(chunks: seq<Bytes>): Bytes
  {
    if chunks == [] then [] else chunks[0] + Concat(chunks[1..])
  }

  /** Writing one more chunk extends the concatenation by exactly that chunk. */
  lemma {:induction false} ConcatAppend(chunks: seq<Bytes>, c: Bytes)
    ensures Concat(chunks + [c]) == Concat(chunks) + c
  {
    if chunks == [] {
      assert chunks + [c] == [c];
    } else {
      assert (chunks + [c])[1..] == chunks[1..] + [c];
      ConcatAppend(chunks[1..], c);
    }
  }
}
