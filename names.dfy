/**
  The name check and path builder at the head of getRequestedData: a name
  holding a '/' or the two-byte sequence ".." anywhere is refused, and any
  other name is appended to the root directory. The check is coarse on
  purpose: it also refuses harmless names such as "a..b".
 */
module Names {
  import opened Bytes

  /** `strstr(name, "..") != NULL`: two consecutive dots somewhere in the name. */
  function HasParentRef(name: Bytes): (r: bool)
    ensures r <==> exists i :: 0 <= i < |name| - 1 && name[i] == '.' && name[i + 1] == '.'
  {
    if |name| < 2 then false
    else if name[0] == '.' && name[1] == '.' then true
    else
      var r := HasParentRef(name[1..]);
      assert forall i :: 0 < i < |name| - 1 ==> name[i] == name[1..][i - 1];
      assert forall i :: 0 <= i < |name| - 2 ==> name[1..][i] == name[i + 1];
      r
  }

  /** Names that pass the check: no '/' (`strchr`) and no ".." (`strstr`). */
  predicate IsSafeName(name: Bytes)
  {
    '/' !in name && !HasParentRef(name)
  }

  /**
    The file-system path of a requested name, or None when the name is
    refused. An accepted name sits directly inside the root directory: the
    part of the path after the root holds no separator and no "..".
   */
  function ResolvePath(root: Bytes, name: Bytes): (r: Option<Bytes>)
    ensures r.Some? <==> IsSafeName(name)
    ensures r.Some? ==> r.value == root + name
    ensures r.Some? ==>
      && |root| <= |r.value| && r.value[..|root|] == root
      && '/' !in r.value[|root|..] && !HasParentRef(r.value[|root|..])
  {
    if IsSafeName(name) then
      assert (root + name)[|root|..] == name;
      Some(root + name)
    else None
  }

  /** Any name with a '/' anywhere in it is refused, whatever surrounds it. */
  lemma SeparatorAnywhereRejected(root: Bytes, before: Bytes, after: Bytes)
    ensures ResolvePath(root, before + ['/'] + after) == None
  {
    assert (before + ['/'] + after)[|before|] == '/';
  }

  /** Any name with ".." anywhere in it is refused, "a..b" included. */
  lemma ParentRefAnywhereRejected(root: Bytes, before: Bytes, after: Bytes)
    ensures ResolvePath(root, before + ['.', '.'] + after) == None
  {
    var name := before + ['.', '.'] + after;
    assert name[|before|] == '.' && name[|before| + 1] == '.';
  }

  /** Two different accepted names never resolve to the same file. */
  lemma ResolvePathInjective(root: Bytes, a: Bytes, b: Bytes)
    requires ResolvePath(root, a).Some? && ResolvePath(root, a) == ResolvePath(root, b)
    ensures a == b
  {
    assert a == (root + a)[|root|..];
    assert b == (root + b)[|root|..];
  }
}
