/**
  The request-line tokeniser of handleConnection: two calls of `strtok` with
  the delimiters space, tab and newline give the method and the target, and
  one leading '/' is then stripped from the target. The request line is a
  loose take on section 3 of RFC 9112: '\r' is not a delimiter, so a line
  ending in "\r\n" leaves a '\r' at the end of the target.
 */
module RequestParser {
  import opened Bytes

  /** The delimiter set handed to `strtok`. */
  predicate IsDelimiter(c: Byte)
  {
    c == ' ' || c == '\t' || c == '\n'
  }

  /** A token as `strtok` returns it: non-empty, free of delimiters. */
  predicate IsToken(t: Bytes)
  {
    t != [] && forall i :: 0 <= i < |t| ==> !IsDelimiter(t[i])
  }

  /** `strtok` first skips the delimiters in front of a token. */
  function SkipDelimiters(s: Bytes): (r: Bytes)
    ensures |r| <= |s| && r == s[|s| - |r|..]
    ensures r == [] || !IsDelimiter(r[0])
    ensures forall i :: 0 <= i < |s| - |r| ==> IsDelimiter(s[i])
  {
    if s != [] && IsDelimiter(s[0]) then SkipDelimiters(s[1..]) else s
  }

  /** Length of the run of non-delimiters at the front of `s`. */
  function TokenLength(s: Bytes): (k: nat)
    ensures k <= |s|
    ensures forall i :: 0 <= i < k ==> !IsDelimiter(s[i])
    ensures k < |s| ==> IsDelimiter(s[k])
  {
    if s == [] || IsDelimiter(s[0]) then 0 else 1 + TokenLength(s[1..])
  }

  /**
    One call of `strtok`: the next token, and the text the following call
    resumes from. The delimiter that ends the token is overwritten with a NUL,
    so the next call starts just after it.
   */
  function NextToken(s: Bytes): (r: Option<(Bytes, Bytes)>)
    ensures r.Some? ==> IsToken(r.value.0)
    ensures r.None? <==> forall i :: 0 <= i < |s| ==> IsDelimiter(s[i])
  {
    var t := SkipDelimiters(s);
    if t == [] then None
    else
      var k := TokenLength(t);
      assert t[0] == s[|s| - |t|] && !IsDelimiter(t[0]);
      assert forall i :: 0 <= i < k ==> t[..k][i] == t[i];
      Some((t[..k], if k < |t| then t[k + 1..] else []))
  }

  datatype RequestLine = RequestLine(verb: Bytes, target: Bytes)

  /** The method is the first token, the target the second; either missing is a parse failure. */
  function ParseRequestLine(request: Bytes): Option<RequestLine>
  {
    match NextToken(request)
    case None => None
    case Some((verb, rest)) =>
      match NextToken(rest)
      case None => None
      case Some((target, _)) => Some(RequestLine(verb, target))
  }

  /** At most one leading '/' is removed from the target. */
  function StripSlash(target: Bytes): (name: Bytes)
    ensures target == name || target == ['/'] + name
    ensures target != [] && target[0] == '/' <==> target == ['/'] + name
  {
    if target != [] && target[0] == '/' then target[1..] else target
  }

  /**
    Reference definition of the tokens of a text, read one character at a
    time: a delimiter ends the current token, any other character starts a
    token or extends the one it follows.
   */
  function Tokens(s: Bytes): (ts: seq<Bytes>)
    ensures forall i :: 0 <= i < |ts| ==> IsToken(ts[i])
    ensures s != [] && !IsDelimiter(s[0]) ==> ts != [] && IsToken(ts[0]) && ts[0][0] == s[0]
  {
    if s == [] then []
    else
      var rest := Tokens(s[1..]);
      if IsDelimiter(s[0]) then rest
      else if |s| > 1 && !IsDelimiter(s[1]) then [[s[0]] + rest[0]] + rest[1..]
      else [[s[0]]] + rest
  }

  lemma {:induction false} TokensSkipDelimiters(s: Bytes)
    ensures Tokens(SkipDelimiters(s)) == Tokens(s)
  {
    if s != [] && IsDelimiter(s[0]) {
      TokensSkipDelimiters(s[1..]);
    }
  }

  lemma {:induction false} TokensOfLeadingToken(s: Bytes)
    requires s != [] && !IsDelimiter(s[0])
    ensures Tokens(s) == [s[..TokenLength(s)]] + Tokens(s[TokenLength(s)..])
  {
    var k := TokenLength(s);
    if |s| == 1 || IsDelimiter(s[1]) {
      assert k == 1 && s[..k] == [s[0]];
    } else {
      TokensOfLeadingToken(s[1..]);
      var k' := TokenLength(s[1..]);
      assert k == k' + 1;
      assert s[..k] == [s[0]] + s[1..][..k'];
      assert s[1..][k'..] == s[k..];
    }
  }

  /** Each `strtok` call peels off exactly the first token of the reference split. */
  lemma {:induction false} NextTokenMatchesTokens(s: Bytes)
    ensures NextToken(s).None? <==> Tokens(s) == []
    ensures NextToken(s).Some? ==>
      Tokens(s) == [NextToken(s).value.0] + Tokens(NextToken(s).value.1)
  {
    TokensSkipDelimiters(s);
    var t := SkipDelimiters(s);
    if t != [] {
      TokensOfLeadingToken(t);
      var k := TokenLength(t);
      if k < |t| {
        assert t[k..][1..] == t[k + 1..];
      } else {
        assert t[k..] == [];
      }
    }
  }

  /**
    The request line parses exactly when the text holds at least two tokens,
    and then the method and the target are the first two.
   */
  lemma {:induction false} ParseRequestLineMatchesTokens(s: Bytes)
    ensures ParseRequestLine(s).Some? <==> |Tokens(s)| >= 2
    ensures ParseRequestLine(s).Some? ==>
      ParseRequestLine(s).value == RequestLine(Tokens(s)[0], Tokens(s)[1])
  {
    NextTokenMatchesTokens(s);
    if NextToken(s).Some? {
      NextTokenMatchesTokens(NextToken(s).value.1);
    }
  }

  lemma {:induction false} TokenLengthOfToken(t: Bytes, rest: Bytes)
    requires forall i :: 0 <= i < |t| ==> !IsDelimiter(t[i])
    requires rest == [] || IsDelimiter(rest[0])
    ensures TokenLength(t + rest) == |t|
  {
    if t != [] {
      assert (t + rest)[1..] == t[1..] + rest;
      TokenLengthOfToken(t[1..], rest);
    }
  }

  /** A token followed by a delimiter or by nothing is what `strtok` returns next. */
  lemma NextTokenOfToken(t: Bytes, rest: Bytes)
    requires IsToken(t)
    requires rest == [] || IsDelimiter(rest[0])
    ensures NextToken(t + rest) == Some((t, if rest == [] then [] else rest[1..]))
  {
    assert (t + rest)[0] == t[0];
    assert SkipDelimiters(t + rest) == t + rest;
    TokenLengthOfToken(t, rest);
    assert (t + rest)[..|t|] == t;
    if rest != [] {
      assert (t + rest)[|t| + 1..] == rest[1..];
    }
  }

  lemma FirstTokenOfLine(verb: Bytes, target: Bytes, rest: Bytes)
    requires IsToken(verb)
    ensures NextToken(verb + [' '] + target + rest) == Some((verb, target + rest))
  {
    var tail: Bytes := [' '] + (target + rest);
    assert tail[1..] == target + rest;
    assert verb + [' '] + target + rest == verb + tail;
    NextTokenOfToken(verb, tail);
  }

  /** A line `verb SP target` followed by a delimiter or nothing parses to that method and target. */
  lemma ParseSimpleLine(verb: Bytes, target: Bytes, rest: Bytes)
    requires IsToken(verb) && IsToken(target)
    requires rest == [] || IsDelimiter(rest[0])
    ensures ParseRequestLine(verb + [' '] + target + rest) == Some(RequestLine(verb, target))
  {
    FirstTokenOfLine(verb, target, rest);
    NextTokenOfToken(target, rest);
    ParseRequestLineOfTokens(verb + [' '] + target + rest, verb, target + rest, target);
  }

  /** Proof step of ParseSimpleLine: the two `strtok` steps, once known, give the request line. */
  lemma ParseRequestLineOfTokens(line: Bytes, verb: Bytes, rest: Bytes, target: Bytes)
    requires NextToken(line) == Some((verb, rest))
    requires NextToken(rest).Some? && NextToken(rest).value.0 == target
    ensures ParseRequestLine(line) == Some(RequestLine(verb, target))
  {
  }

  /**
    A line ending in "\r\n" keeps the '\r' in its target: the target of
    `GET /a\r\n` is `/a\r`.
   */
  lemma CarriageReturnKept(verb: Bytes, target: Bytes, tail: Bytes)
    requires IsToken(verb) && IsToken(target)
    ensures ParseRequestLine(verb + [' '] + target + ['\r', '\n'] + tail)
         == Some(RequestLine(verb, target + ['\r']))
  {
    assert verb + [' '] + target + ['\r', '\n'] + tail
        == verb + [' '] + (target + ['\r']) + (['\n'] + tail);
    ParseSimpleLine(verb, target + ['\r'], ['\n'] + tail);
  }
}
