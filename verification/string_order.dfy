/**
 * `String.compareTo` order, sorted sequences of strings, and the insertion
 * that builds the vectorizer's sorted vocabulary.
 */
module StringOrder {

  /**
   * `a.compareTo(b) < 0`: the first differing character decides; when one
   * string is a prefix of the other, the shorter one comes first.
   */
  predicate Less(a: string, b: string)
    decreases |a|
  {
    if a == [] then b != []
    else if b == [] then false
    else if a[0] != b[0] then a[0] < b[0]
    else Less(a[1..], b[1..])
  }

  lemma {:induction false} LessIrreflexive(a: string)
    ensures !Less(a, a)
    decreases |a|
  {
    if a != [] {
      LessIrreflexive(a[1..]);
    }
  }

  lemma {:induction false} LessTransitive(a: string, b: string, c: string)
    requires Less(a, b) && Less(b, c)
    ensures Less(a, c)
    decreases |a|
  {
    if a != [] && b != [] && c != [] && a[0] == b[0] && b[0] == c[0] {
      LessTransitive(a[1..], b[1..], c[1..]);
    }
  }

  /** Any two different strings are ordered one way or the other. */
  lemma {:induction false} LessTotal(a: string, b: string)
    ensures a == b || Less(a, b) || Less(b, a)
    decreases |a|
  {
    if a != [] && b != [] && a[0] == b[0] {
      LessTotal(a[1..], b[1..]);
      if a[1..] == b[1..] {
        assert a == [a[0]] + a[1..] && b == [b[0]] + b[1..];
      }
    }
  }

  lemma {:induction false} LessAsymmetric(a: string, b: string)
    requires Less(a, b)
    ensures !Less(b, a)
  {
    if Less(b, a) {
      LessTransitive(a, b, a);
      LessIrreflexive(a);
    }
  }

  ghost predicate StrictlySorted(s: seq<string>) {
    forall i, j :: 0 <= i < j < |s| ==> Less(s[i], s[j])
  }

  /** A strictly sorted sequence has no duplicates. */
  lemma SortedDistinct(s: seq<string>, i: int, j: int)
    requires StrictlySorted(s)
    requires 0 <= i < |s| && 0 <= j < |s| && i != j
    ensures s[i] != s[j]
  {
    if i < j {
      LessIrreflexive(s[i]);
    } else {
      LessIrreflexive(s[j]);
    }
  }

  /**
   * Insertion of `x` into a strictly sorted sequence; `x` is not added twice.
   */
  function Insert(x: string, s: seq<string>): (r: seq<string>)
    requires StrictlySorted(s)
    ensures StrictlySorted(r)
    ensures forall t :: t in r <==> t == x || t in s
    ensures |r| <= |s| + 1
    decreases |s|
  {
    if s == [] then [x]
    else if x == s[0] then s
    else if Less(x, s[0]) then
      assert forall j :: 0 < j < |s| ==> Less(x, s[j]) by {
        forall j | 0 < j < |s| {
          LessTransitive(x, s[0], s[j]);
        }
      }
      [x] + s
    else
      LessTotal(x, s[0]);
      var rest := Insert(x, s[1..]);
      assert forall t :: t in rest ==> Less(s[0], t);
      [s[0]] + rest
  }

  /**
   * A strictly sorted sequence is determined by its elements: the vocabulary
   * a fit produces does not depend on the order in which terms were met.
   */
  lemma {:induction false} SortedUnique(a: seq<string>, b: seq<string>)
    requires StrictlySorted(a) && StrictlySorted(b)
    requires forall t :: t in a <==> t in b
    ensures a == b
    decreases |a|
  {
    if b != [] {
      assert b[0] in a;
    }
    if a != [] {
      assert b != [] by { assert a[0] in b; }
      if a[0] != b[0] {
        assert a[0] in b && b[0] in a;
        var k :| 0 <= k < |b| && b[k] == a[0];
        var m :| 0 <= m < |a| && a[m] == b[0];
        assert k != 0 && m != 0;
        assert Less(b[0], b[k]);
        assert Less(a[0], a[m]);
        LessAsymmetric(a[0], b[0]);
      }
      forall t
        ensures t in a[1..] <==> t in b[1..]
      {
        if t in a[1..] {
          var i :| 1 <= i < |a| && a[i] == t;
          SortedDistinct(a, 0, i);
          assert t in b;
          var j :| 0 <= j < |b| && b[j] == t;
          assert j != 0;
        }
        if t in b[1..] {
          var j :| 1 <= j < |b| && b[j] == t;
          SortedDistinct(b, 0, j);
          assert t in a;
          var i :| 0 <= i < |a| && a[i] == t;
          assert i != 0;
        }
      }
      SortedUnique(a[1..], b[1..]);
      assert a == [a[0]] + a[1..] && b == [b[0]] + b[1..];
    }
  }

  /**
   * `keys.stream().sorted().collect(...)`: the keys in strictly ascending
   * order, each once.
   */
  method SortKeys(keys: set<string>) returns (r: seq<string>)
    ensures StrictlySorted(r)
    ensures forall t :: t in r <==> t in keys
  {
    r := [];
    var pending := keys;
    while pending != {}
      invariant pending <= keys
      invariant StrictlySorted(r)
      invariant forall t :: t in r <==> t in keys - pending
      decreases pending
    {
      var x :| x in pending;
      r := Insert(x, r);
      pending := pending - {x};
    }
  }
}
