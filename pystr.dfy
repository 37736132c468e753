/**
 * The Python string built-ins the benchmark GUI relies on, on `string` (= `seq<char>`):
 * `str.lower`, `str.startswith`, the `in` substring test, `str.strip`, and
 * `os.path.basename` / `os.path.join` as the POSIX `posixpath` module defines them.
 */
module PyStr {

  /** `str.lower()` on one character, for the ASCII letters. */
  function LowerChar(c: char): char
  {
    if 'A' <= c <= 'Z' then (c as int + 32) as char else c
  }

  /** `s.lower()`: every character is lower-cased in place, nothing is added or removed. */
  function Lower(s: string): (r: string)
    ensures |r| == |s|
    ensures forall i :: 0 <= i < |s| ==> r[i] == LowerChar(s[i])
  {
    if s == [] then [] else [LowerChar(s[0])] + Lower(s[1..])
  }

  /** `s.startswith(p)` */
  predicate StartsWith(s: string, p: string)
  {
    |p| <= |s| && s[..|p|] == p
  }

  /** `sub` occurs in `s` at position `i`. */
  ghost predicate OccursAt(s: string, sub: string, i: int)
  {
    0 <= i && i + |sub| <= |s| && s[i..i + |sub|] == sub
  }

  /** `sub in s`: true exactly when `sub` occurs somewhere in `s`. */
  function Contains(s: string, sub: string): (r: bool)
    ensures r <==> exists i :: OccursAt(s, sub, i)
    decreases |s|
  {
    if |sub| > |s| then false
    else if s[..|sub|] == sub then
      assert OccursAt(s, sub, 0);
      true
    else
      var r := Contains(s[1..], sub);
      assert forall i :: OccursAt(s, sub, i) ==> i > 0 && OccursAt(s[1..], sub, i - 1);
      assert forall i :: OccursAt(s[1..], sub, i) ==> OccursAt(s, sub, i + 1);
      r
  }

  /** The characters `str.isspace()` accepts, which `str.strip()` removes. */
  predicate IsSpace(c: char)
  {
    || c == ' '
    || '\t' <= c <= '\r'
    || '\U{1c}' <= c <= '\U{1f}'
    || c == '\U{85}' || c == '\U{a0}' || c == '\U{1680}'
    || '\U{2000}' <= c <= '\U{200a}'
    || c == '\U{2028}' || c == '\U{2029}' || c == '\U{202f}' || c == '\U{205f}' || c == '\U{3000}'
  }

  /** `s.lstrip()` */
  function StripLeading(s: string): string
  {
    if s != [] && IsSpace(s[0]) then StripLeading(s[1..]) else s
  }

  /** `s.rstrip()` */
  function StripTrailing(s: string): string
  {
    if s != [] && IsSpace(s[|s| - 1]) then StripTrailing(s[..|s| - 1]) else s
  }

  /** `s.strip()` */
  function Strip(s: string): string
  {
    StripTrailing(StripLeading(s))
  }

  /** `lstrip` keeps the longest suffix that does not start with white space. */
  lemma {:induction false} StripLeadingTrims(s: string)
    ensures var r := StripLeading(s);
      && |r| <= |s| && r == s[|s| - |r|..]
      && (forall i :: 0 <= i < |s| - |r| ==> IsSpace(s[i]))
      && (r == [] || !IsSpace(r[0]))
  {
    if s != [] && IsSpace(s[0]) {
      var t := s[1..];
      StripLeadingTrims(t);
      var r := StripLeading(t);
      assert StripLeading(s) == r;
      assert t[|t| - |r|..] == s[|s| - |r|..];
      forall i | 0 <= i < |s| - |r|
        ensures IsSpace(s[i])
      {
        if i > 0 {
          assert s[i] == t[i - 1];
        }
      }
    }
  }

  /** `rstrip` keeps the longest prefix that does not end with white space. */
  lemma {:induction false} StripTrailingTrims(s: string)
    ensures var r := StripTrailing(s);
      && |r| <= |s| && r == s[..|r|]
      && (forall i :: |r| <= i < |s| ==> IsSpace(s[i]))
      && (r == [] || !IsSpace(r[|r| - 1]))
  {
    if s != [] && IsSpace(s[|s| - 1]) {
      StripTrailingTrims(s[..|s| - 1]);
    }
  }

  /** `r` is `s` with white space, and only white space, cut from both ends at offset `i`. */
  ghost predicate TrimmedAt(s: string, r: string, i: int)
  {
    && 0 <= i && i + |r| <= |s|
    && r == s[i..i + |r|]
    && (forall k :: 0 <= k < i ==> IsSpace(s[k]))
    && (forall k :: i + |r| <= k < |s| ==> IsSpace(s[k]))
  }

  /** `strip` removes white space, and only white space, from both ends, and leaves none there. */
  lemma StripTrims(s: string)
    ensures exists i :: TrimmedAt(s, Strip(s), i)
    ensures Strip(s) == [] || (!IsSpace(Strip(s)[0]) && !IsSpace(Strip(s)[|Strip(s)| - 1]))
  {
    var left := StripLeading(s);
    StripLeadingTrims(s);
    StripTrailingTrims(left);
    assert TrimmedAt(s, Strip(s), |s| - |left|);
  }

  /** `posixpath.basename(path)`: what follows the last `/`. */
  function Basename(path: string): (r: string)
    ensures |r| <= |path| && r == path[|path| - |r|..]
    ensures '/' !in r
    ensures |r| < |path| ==> path[|path| - |r| - 1] == '/'
  {
    if path == [] || path[|path| - 1] == '/' then []
    else Basename(path[..|path| - 1]) + [path[|path| - 1]]
  }

  /** `posixpath.join(a, b)` */
  function Join(a: string, b: string): string
  {
    if StartsWith(b, "/") then b
    else if a == [] || a[|a| - 1] == '/' then a + b
    else a + "/" + b
  }

  /** A name without `/` after a directory part that ends in `/` is its own basename. */
  lemma BasenameAfterSlash(dir: string, name: string)
    requires dir == [] || dir[|dir| - 1] == '/'
    requires '/' !in name
    ensures Basename(dir + name) == name
  {
    var path := dir + name;
    var r := Basename(path);
    // a shorter basename would be preceded by a `/` inside `name`; a longer one would take in
    // the `/` that ends `dir`
    assert |r| == |name|;
    assert r == path[|dir|..];
  }

  /** Joining a directory-listing name (non-empty, no `/`) onto a path and taking the basename gives the name back. */
  lemma BasenameOfJoin(dir: string, name: string)
    requires name != [] && '/' !in name
    ensures Basename(Join(dir, name)) == name
  {
    assert !StartsWith(name, "/") by { assert name[0] in name; }
    if dir == [] || dir[|dir| - 1] == '/' {
      BasenameAfterSlash(dir, name);
    } else {
      assert dir + "/" + name == (dir + "/") + name;
      BasenameAfterSlash(dir + "/", name);
    }
  }
}
