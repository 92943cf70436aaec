/** The two `os.path` functions the intake code uses, as the POSIX flavour of
    Python's standard library defines them (`posixpath.join` with two parts and
    `posixpath.splitext`). */
module PosixPath {
  import opened Text

  /** Python's `s.rfind(c)`: the index of the last `c` in `s`, or -1. */
  function RFind(s: string, c: char): (i: int)
    ensures -1 <= i < |s|
    ensures i >= 0 ==> s[i] == c
    ensures forall k :: i < k < |s| ==> s[k] != c
    ensures i == -1 <==> c !in s
  {
    if |s| == 0 then -1
    else if s[|s| - 1] == c then |s| - 1
    else
      assert forall x :: x in s[..|s| - 1] ==> x in s;
      assert s == s[..|s| - 1] + [s[|s| - 1]];
      RFind(s[..|s| - 1], c)
  }

  /** `os.path.join(a, b)`: an absolute `b` replaces `a`; otherwise `b` is
      appended, with one `/` in between unless `a` is empty or already ends with one. */
  function Join(a: string, b: string): (r: string)
    ensures StartsWith(b, "/") ==> r == b
    ensures !StartsWith(b, "/") ==> r == JoinPrefix(a) + b
    ensures !StartsWith(b, "/") ==> StartsWith(r, a)
  {
    if StartsWith(b, "/") then b
    else if a == "" || a[|a| - 1] == '/' then a + "" + b
    else a + "/" + b
  }

  /** What `Join(a, b)` puts before a relative `b`: `a`, followed by a slash
      exactly when `a` is neither empty nor already ends with one; so it is
      empty or ends with a slash. */
  function JoinPrefix(a: string): (p: string)
    ensures a != "" && a[|a| - 1] != '/' ==> p == a + "/"
    ensures a == "" || a[|a| - 1] == '/' ==> p == a
    ensures p == "" || p[|p| - 1] == '/'
  {
    if a == "" || a[|a| - 1] == '/' then a else a + "/"
  }

  /** Whether some character of `p[lo..hi]` is not a dot: the scan over the
      leading dots of the file name that `splitext` performs. */
  predicate HasNonDot(p: string, lo: int, hi: int)
    requires 0 <= lo && hi <= |p|
    decreases hi - lo
  {
    lo < hi && (p[lo] != '.' || HasNonDot(p, lo + 1, hi))
  }

  lemma {:induction false} HasNonDotIff(p: string, lo: int, hi: int)
    requires 0 <= lo && hi <= |p|
    ensures HasNonDot(p, lo, hi) <==> exists k :: lo <= k < hi && p[k] != '.'
    decreases hi - lo
  {
    if lo < hi && p[lo] == '.' {
      HasNonDotIff(p, lo + 1, hi);
    }
  }

  /** `os.path.splitext(p)`: splits off the last extension of the final path
      component — the text from its last dot on — unless every character of
      that component before the dot is a dot (a name like `.profile`), in
      which case the extension is empty. */
  function SplitExt(p: string): (r: (string, string))
    ensures r.0 + r.1 == p
    ensures r.1 == "" || (r.1[0] == '.' && forall k :: 1 <= k < |r.1| ==> r.1[k] != '.' && r.1[k] != '/')
    ensures r.1 != "" ==> exists k :: RFind(p, '/') < k < |r.0| && p[k] != '.'
    ensures r.1 == "" ==> forall i, j :: RFind(p, '/') < i < j < |p| && p[j] == '.' ==> p[i] == '.'
  {
    var sepIndex := RFind(p, '/');
    var dotIndex := RFind(p, '.');
    HasNonDotIff(p, sepIndex + 1, if dotIndex > sepIndex then dotIndex else sepIndex + 1);
    if dotIndex > sepIndex && HasNonDot(p, sepIndex + 1, dotIndex) then
      assert p[..dotIndex] + p[dotIndex..] == p;
      (p[..dotIndex], p[dotIndex..])
    else
      (p, "")
  }

  /** The last occurrence of `c` in `a + b` is in `b` when `b` holds one, and otherwise in `a`. */
  lemma {:induction false} RFindAppend(a: string, b: string, c: char)
    ensures c in b ==> RFind(a + b, c) == |a| + RFind(b, c)
    ensures c !in b ==> RFind(a + b, c) == RFind(a, c)
    decreases |b|
  {
    if |b| == 0 {
      assert a + b == a;
    } else if b[|b| - 1] != c {
      var b' := b[..|b| - 1];
      assert (a + b)[..|a + b| - 1] == a + b';
      assert b == b' + [b[|b| - 1]];
      assert c in b <==> c in b';
      RFindAppend(a, b', c);
    }
  }
}
