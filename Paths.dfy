/**
 * The parts of Python's `pathlib` (POSIX flavour) the service uses on file
 * names: the last component (`name`), its extension (`suffix`) and the name
 * without it (`stem`).
 */
module Paths {
  import opened Wrappers

  /** Position of the last `c` in `s`, if any. */
  function LastIndex(s: string, c: char): (r: Option<nat>)
    ensures r.None? <==> c !in s
    ensures r.Some? ==> r.value < |s| && s[r.value] == c && c !in s[r.value + 1..]
  {
    if s == [] then None
    else if s[|s| - 1] == c then Some(|s| - 1)
    else
      var r := LastIndex(s[..|s| - 1], c);
      assert s == s[..|s| - 1] + [s[|s| - 1]];
      r
  }

  function TrimTrailingSlashes(p: string): (r: string)
    ensures |r| <= |p| && r == p[..|r|]
    ensures r == [] || r[|r| - 1] != '/'
  {
    if p != [] && p[|p| - 1] == '/' then TrimTrailingSlashes(p[..|p| - 1]) else p
  }

  /**
   * `Path(p).name`: the last component of the path. Like `pathlib`, empty
   * components (repeated or trailing slashes) and `.` components are
   * dropped, so a path with no other component has the empty name.
   */
  function Name(p: string): (r: string)
    ensures '/' !in r && r != "."
    decreases |p|
  {
    var t := TrimTrailingSlashes(p);
    match LastIndex(t, '/')
    case None => if t == "." then "" else t
    case Some(i) => if t[i + 1..] == "." then Name(t[..i]) else t[i + 1..]
  }

  /** A trailing `.` component does not change the name, and `.` alone names nothing. */
  lemma {:induction false} NameDropsDotParts(p: string)
    ensures Name(p + "/.") == Name(p)
    ensures Name(".") == "" && Stem(".") == "" && Suffix(".") == ""
  {
    var t := p + "/.";
    assert TrimTrailingSlashes(t) == t;
    assert t[|t| - 1] == '.' && t[|t| - 2] == '/';
    assert LastIndex(t, '/') == Some(|p|) by {
      assert t == (p + "/") + ".";
      assert LastIndex(t[..|t| - 1], '/') == Some(|p|);
    }
    assert t[|p| + 1..] == "." && t[..|p|] == p;
    assert LastIndex(".", '/') == None;
  }

  /**
   * Where the extension of a name starts: the last `.`, provided it is neither
   * the first nor the last character of the name.
   */
  function SuffixStart(name: string): (r: Option<nat>)
    ensures r.Some? ==> 0 < r.value < |name| - 1 && name[r.value] == '.'
  {
    match LastIndex(name, '.')
    case Some(i) => if 0 < i < |name| - 1 then Some(i) else None
    case None => None
  }

  /** `Path(p).suffix`. */
  function Suffix(p: string): string
  {
    var n := Name(p);
    match SuffixStart(n)
    case Some(i) => n[i..]
    case None => ""
  }

  /** `Path(p).stem`. */
  function Stem(p: string): string
  {
    var n := Name(p);
    match SuffixStart(n)
    case Some(i) => n[..i]
    case None => n
  }

  /**
   * A suffix is empty, or a dot followed by at least one character and no
   * further dot; and stem and suffix put back together give the name.
   */
  lemma SuffixShape(p: string)
    ensures Stem(p) + Suffix(p) == Name(p)
    ensures Suffix(p) == "" || (|Suffix(p)| >= 2 && Suffix(p)[0] == '.' && '.' !in Suffix(p)[1..])
  {
    var n := Name(p);
    match SuffixStart(n)
    case Some(i) =>
      assert n == n[..i] + n[i..];
      assert Suffix(p)[1..] == n[i + 1..];
    case None =>
  }
}
