/**
 * Lexical slash-separated path handling, following Go's `path` package:
 * Clean, Join, Dir and Ext as the classifier and the root prefixing use them.
 * Nothing here touches a file system.
 */
module Paths {

  /** strings.HasPrefix. */
  predicate HasPrefix(s: string, prefix: string)
  {
    prefix <= s
  }

  /** strings.Split(p, "/"): the pieces between slashes, at least one. */
  function Split(p: string): (r: seq<string>)
    ensures |r| >= 1
    ensures forall i :: 0 <= i < |r| ==> '/' !in r[i]
  {
    if p == [] then [""]
    else
      var rest := Split(p[1..]);
      if p[0] == '/' then [""] + rest
      else [[p[0]] + rest[0]] + rest[1..]
  }

  /** strings.Join(parts, "/"). */
  function JoinSlash(parts: seq<string>): (r: string)
    ensures parts == [] ==> r == ""
    ensures parts != [] ==> parts[0] <= r
  {
    if parts == [] then ""
    else if |parts| == 1 then parts[0]
    else parts[0] + "/" + JoinSlash(parts[1..])
  }

  /**
   * The segment stack Clean keeps while reading the pieces of a path left to
   * right: empty and "." pieces vanish, ".." cancels the last real segment,
   * and a ".." that has nothing to cancel is dropped at the root and kept in a
   * relative path.
   */
  function Resolve(pieces: seq<string>, rooted: bool): (out: seq<string>)
    ensures forall i :: 0 <= i < |out| ==> out[i] != "" && out[i] != "."
    ensures rooted ==> forall i :: 0 <= i < |out| ==> out[i] != ".."
    ensures (forall i :: 0 <= i < |pieces| ==> '/' !in pieces[i]) ==> forall i :: 0 <= i < |out| ==> '/' !in out[i]
    decreases |pieces|
  {
    if pieces == [] then []
    else
      var out := Resolve(pieces[..|pieces| - 1], rooted);
      var s := pieces[|pieces| - 1];
      if s == "" || s == "." then out
      else if s == ".." then
        if |out| > 0 && out[|out| - 1] != ".." then out[..|out| - 1]
        else if rooted then out
        else out + [".."]
      else out + [s]
  }

  /** path.Clean: the shortest lexically equivalent path; "." for an empty result. */
  function Clean(p: string): (r: string)
    ensures r != ""
    ensures r[0] == '/' <==> p != "" && p[0] == '/'
  {
    if p == "" then "."
    else
      var rooted := p[0] == '/';
      var body := JoinSlash(Resolve(Split(p), rooted));
      if rooted then "/" + body
      else if body == "" then "."
      else body
  }

  /** path.Join: the non-empty tail of the elements joined by slashes and cleaned; "" when all are empty. */
  function Join(elems: seq<string>): (r: string)
    ensures r == "" <==> forall i :: 0 <= i < |elems| ==> elems[i] == ""
  {
    if elems == [] then ""
    else if elems[0] != "" then Clean(JoinSlash(elems))
    else Join(elems[1..])
  }

  /** The index of the last slash of `p`, or -1. */
  function LastSlash(p: string): (i: int)
    ensures -1 <= i < |p|
    ensures i >= 0 ==> p[i] == '/'
    ensures forall j :: i < j < |p| ==> p[j] != '/'
  {
    if p == [] then -1
    else if p[|p| - 1] == '/' then |p| - 1
    else LastSlash(p[..|p| - 1])
  }

  /** path.Dir: everything up to the last slash, cleaned ("." when there is no slash). */
  function Dir(p: string): (r: string)
    ensures r != ""
    ensures LastSlash(p) < 0 ==> r == "."
    ensures LastSlash(p) == 0 ==> r == "/"
  {
    CleanRoot();
    assert LastSlash(p) == 0 ==> p[..1] == "/";
    Clean(p[..LastSlash(p) + 1])
  }

  /**
   * path.Ext: the suffix of the final element that starts at its last dot, or ""
   * when the final element has no dot.
   */
  function Ext(p: string): (r: string)
    ensures |r| <= |p| && r == p[|p| - |r|..]
    ensures r == "" || r[0] == '.'
    ensures '/' !in r
    ensures r != "" ==> '.' !in r[1..]
    decreases |p|
  {
    if p == [] || p[|p| - 1] == '/' then ""
    else if p[|p| - 1] == '.' then "."
    else
      var e := Ext(p[..|p| - 1]);
      if e == "" then ""
      else
        assert p[..|p| - 1][|p| - 1 - |e|..] + [p[|p| - 1]] == p[|p| - |e| - 1..];
        e + [p[|p| - 1]]
  }

  /** The root is clean. */
  lemma CleanRoot()
    ensures Clean("/") == "/"
  {
    assert Split("/") == ["", ""];
    assert Resolve(["", ""], true) == [] by { assert ["", ""][..1] == [""]; }
  }

  /** A single ordinary name is already clean. */
  lemma {:induction false} CleanName(p: string)
    requires p != "" && p != "." && p != ".." && '/' !in p
    ensures Clean(p) == p
  {
    assert Split(p) == [p] by { SplitWithoutSlash(p); }
    assert Resolve([p], false) == [p] by {
      assert [p][..0] == [];
    }
  }

  lemma {:induction false} SplitWithoutSlash(p: string)
    requires '/' !in p
    ensures Split(p) == [p]
    decreases |p|
  {
    if p != [] {
      SplitWithoutSlash(p[1..]);
      assert [p[0]] + p[1..] == p;
    }
  }
}
