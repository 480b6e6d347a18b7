/**
 * Character- and string-level helpers that stand for the `java.lang.String`
 * operations the chatbot core uses: ASCII lower-casing, `trim`, `isBlank`,
 * `contains`, and splitting on a single space.
 */
module Text {

  /** `toLowerCase(Locale.ROOT)` restricted to ASCII: only 'A'..'Z' change. */
  function LowerChar(c: char): (r: char)
    ensures 'A' <= c <= 'Z' ==> 'a' <= r <= 'z' && r as int == c as int + 32
    ensures !('A' <= c <= 'Z') ==> r == c
  {
    if 'A' <= c <= 'Z' then (c as int + 32) as char else c
  }

  function Lower(s: string): (r: string)
    ensures |r| == |s|
    ensures forall i :: 0 <= i < |s| ==> r[i] == LowerChar(s[i])
  {
    seq(|s|, i requires 0 <= i < |s| => LowerChar(s[i]))
  }

  /** A text without upper-case ASCII letters is its own lower-case form. */
  lemma LowerOfLowerCase(s: string)
    requires forall i :: 0 <= i < |s| ==> !('A' <= s[i] <= 'Z')
    ensures Lower(s) == s
  {
  }

  /** `Character.isWhitespace`, code point by code point. */
  predicate IsJavaWhitespace(c: char) {
    var n := c as int;
    || 9 <= n <= 13
    || 28 <= n <= 32
    || n == 0x1680
    || 0x2000 <= n <= 0x2006
    || 0x2008 <= n <= 0x200A
    || n == 0x2028 || n == 0x2029
    || n == 0x205F || n == 0x3000
  }

  /** `String.isBlank`: empty, or only whitespace. */
  predicate IsBlank(s: string) {
    forall i :: 0 <= i < |s| ==> IsJavaWhitespace(s[i])
  }

  /** `String.trim` removes leading and trailing characters up to U+0020. */
  function TrimLeft(s: string): (r: string)
    ensures |r| <= |s| && r == s[|s| - |r|..]
    ensures r != [] ==> r[0] > ' '
  {
    if s != [] && s[0] <= ' ' then TrimLeft(s[1..]) else s
  }

  function TrimRight(s: string): (r: string)
    ensures |r| <= |s| && r == s[..|r|]
    ensures r != [] ==> r[|r| - 1] > ' '
  {
    if s != [] && s[|s| - 1] <= ' ' then TrimRight(s[..|s| - 1]) else s
  }

  function Trim(s: string): string {
    TrimRight(TrimLeft(s))
  }

  predicate OccursAt(s: string, p: string, i: int) {
    0 <= i && i + |p| <= |s| && s[i..i + |p|] == p
  }

  /** `String.contains`. */
  predicate Contains(s: string, p: string) {
    exists i :: 0 <= i <= |s| - |p| && OccursAt(s, p, i)
  }

  /**
   * Trimming never destroys an occurrence of a pattern that starts and ends
   * with characters above U+0020: such an occurrence lies inside the kept part.
   */
  lemma {:induction false} TrimKeepsOccurrence(s: string, p: string)
    requires p != [] && p[0] > ' ' && p[|p| - 1] > ' '
    requires Contains(s, p)
    ensures Contains(Trim(s), p)
  {
    var i :| 0 <= i <= |s| - |p| && OccursAt(s, p, i);
    TrimLeftKeeps(s, p, i);
    var j :| 0 <= j <= |TrimLeft(s)| - |p| && OccursAt(TrimLeft(s), p, j);
    TrimRightKeeps(TrimLeft(s), p, j);
  }

  /** Whatever a slice contains, the whole text contains. */
  lemma ContainsInSlice(s: string, p: string, a: int, b: int)
    requires 0 <= a <= b <= |s|
    requires Contains(s[a..b], p)
    ensures Contains(s, p)
  {
    var t := s[a..b];
    var i :| 0 <= i <= |t| - |p| && OccursAt(t, p, i);
    forall j | 0 <= j < |p|
      ensures s[a + i + j] == p[j]
    {
      assert t[i..i + |p|][j] == p[j];
    }
    assert s[a + i..a + i + |p|] == p;
    assert OccursAt(s, p, a + i);
  }

  /** Whatever the trimmed text contains, the text contains. */
  lemma ContainsInTrim(s: string, p: string)
    requires Contains(Trim(s), p)
    ensures Contains(s, p)
  {
    var l := TrimLeft(s);
    var t := TrimRight(l);
    assert l[0..|t|] == t;
    ContainsInSlice(l, p, 0, |t|);
    assert s[|s| - |l|..|s|] == l;
    ContainsInSlice(s, p, |s| - |l|, |s|);
  }

  lemma {:induction false} TrimLeftKeeps(s: string, p: string, i: int)
    requires p != [] && p[0] > ' '
    requires OccursAt(s, p, i)
    ensures exists j :: 0 <= j <= |TrimLeft(s)| - |p| && OccursAt(TrimLeft(s), p, j)
    decreases |s|
  {
    if s != [] && s[0] <= ' ' {
      assert s[i] == p[0];
      assert i > 0;
      assert s[1..][i - 1..i - 1 + |p|] == s[i..i + |p|];
      assert TrimLeft(s) == TrimLeft(s[1..]);
      TrimLeftKeeps(s[1..], p, i - 1);
    } else {
      assert OccursAt(TrimLeft(s), p, i);
    }
  }

  lemma {:induction false} TrimRightKeeps(s: string, p: string, i: int)
    requires p != [] && p[|p| - 1] > ' '
    requires OccursAt(s, p, i)
    ensures exists j :: 0 <= j <= |TrimRight(s)| - |p| && OccursAt(TrimRight(s), p, j)
    decreases |s|
  {
    if s != [] && s[|s| - 1] <= ' ' {
      assert s[i + |p| - 1] == p[|p| - 1];
      assert i + |p| < |s|;
      assert s[..|s| - 1][i..i + |p|] == s[i..i + |p|];
      assert TrimRight(s) == TrimRight(s[..|s| - 1]);
      TrimRightKeeps(s[..|s| - 1], p, i);
    } else {
      assert OccursAt(TrimRight(s), p, i);
    }
  }

  /**
   * The pieces of `s` between single spaces, empty pieces included
   * (`"a  b"` gives `["a", "", "b"]`, `""` gives `[""]`).
   */
  function Fields(s: string): (r: seq<string>)
    ensures |r| >= 1
    ensures forall k :: 0 <= k < |r| ==> ' ' !in r[k]
    ensures forall k, c :: 0 <= k < |r| && c in r[k] ==> c in s
    decreases |s|
  {
    if s == [] then [[]]
    else
      var rest := Fields(s[1..]);
      assert forall c :: c in s[1..] ==> c in s;
      if s[0] == ' ' then [[]] + rest
      else [[s[0]] + rest[0]] + rest[1..]
  }

  /** The inverse of `Fields`: glue pieces back together with single spaces. */
  function Join(fs: seq<string>): string {
    if fs == [] then []
    else if |fs| == 1 then fs[0]
    else fs[0] + " " + Join(fs[1..])
  }

  lemma {:induction false} JoinFields(s: string)
    ensures Join(Fields(s)) == s
    decreases |s|
  {
    if s != [] {
      var rest := Fields(s[1..]);
      JoinFields(s[1..]);
      if s[0] == ' ' {
        assert Fields(s) == [[]] + rest;
        assert Join(Fields(s)) == [] + " " + Join(rest);
      } else {
        if |rest| == 1 {
          assert Join(Fields(s)) == [s[0]] + rest[0];
        } else {
          assert Join(rest) == rest[0] + " " + Join(rest[1..]);
          assert Fields(s)[1..] == rest[1..];
          assert Join(Fields(s)) == [s[0]] + rest[0] + " " + Join(rest[1..]);
        }
      }
    }
  }

  lemma {:induction false} FieldsJoin(fs: seq<string>)
    requires fs != []
    requires forall k :: 0 <= k < |fs| ==> ' ' !in fs[k]
    ensures Fields(Join(fs)) == fs
    decreases |fs|
  {
    FieldsOfWord(fs[0]);
    if |fs| > 1 {
      FieldsJoin(fs[1..]);
      FieldsSplitAtSpace(fs[0], Join(fs[1..]));
      assert fs == [fs[0]] + fs[1..];
    }
  }

  /** A space-free string is a single field. */
  lemma {:induction false} FieldsOfWord(w: string)
    requires ' ' !in w
    ensures Fields(w) == [w]
    decreases |w|
  {
    if w != [] {
      assert ' ' !in w[1..];
      FieldsOfWord(w[1..]);
      assert w == [w[0]] + w[1..];
    }
  }

  /** `Fields` of a text with a known first character. */
  lemma FieldsCons(c: char, t: string)
    ensures c == ' ' ==> Fields([c] + t) == [[]] + Fields(t)
    ensures c != ' ' ==> Fields([c] + t) == [[c] + Fields(t)[0]] + Fields(t)[1..]
  {
    assert ([c] + t)[1..] == t;
  }

  /** A single space separates the fields of the two sides. */
  lemma {:induction false} FieldsSplitAtSpace(a: string, b: string)
    ensures Fields(a + " " + b) == Fields(a) + Fields(b)
    decreases |a|
  {
    if a == [] {
      assert a + " " + b == [' '] + b;
      FieldsCons(' ', b);
    } else {
      var c, a' := a[0], a[1..];
      assert a == [c] + a';
      assert a + " " + b == [c] + (a' + " " + b);
      FieldsSplitAtSpace(a', b);
      FieldsCons(c, a' + " " + b);
      FieldsCons(c, a');
      var fa := Fields(a');
      if c != ' ' {
        assert (fa + Fields(b))[1..] == fa[1..] + Fields(b);
      }
    }
  }
}
