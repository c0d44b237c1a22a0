/**
 * Python's ordering of strings (lexicographic on code points) and
 * `sorted(set(xs))`: the elements of a collection of strings, each once,
 * in strictly ascending order.
 */
module StringOrder {

  /** `a < b` on Python strings. */
  predicate Less(a: string, b: string) {
    if a == [] then b != []
    else b != [] && (a[0] < b[0] || (a[0] == b[0] && Less(a[1..], b[1..])))
  }

  lemma {:induction false} LessIrreflexive(a: string)
    ensures !Less(a, a)
  {
    if a != [] { LessIrreflexive(a[1..]); }
  }

  lemma {:induction false} LessTransitive(a: string, b: string, c: string)
    requires Less(a, b) && Less(b, c)
    ensures Less(a, c)
  {
    if a != [] && a[0] == b[0] && b[0] == c[0] {
      LessTransitive(a[1..], b[1..], c[1..]);
    }
  }

  lemma {:induction false} LessTotal(a: string, b: string)
    requires a != b
    ensures Less(a, b) || Less(b, a)
  {
    if a != [] && b != [] && a[0] == b[0] {
      assert a == [a[0]] + a[1..] && b == [b[0]] + b[1..];
      LessTotal(a[1..], b[1..]);
    }
  }

  lemma LessAsymmetric(a: string, b: string)
    requires Less(a, b)
    ensures !Less(b, a)
  {
    if Less(b, a) {
      LessTransitive(a, b, a);
      LessIrreflexive(a);
    }
  }

  /** The set of elements of a sequence. */
  function Elems(s: seq<string>): (r: set<string>)
    ensures forall k :: k in r <==> k in s
  {
    set k | k in s
  }

  lemma ElemsSnoc(s: seq<string>, x: string)
    ensures Elems(s + [x]) == Elems(s) + {x}
  {
  }

  /** Strictly ascending, hence free of duplicates. */
  predicate StrictlyAscending(s: seq<string>) {
    forall i, j :: 0 <= i < j < |s| ==> Less(s[i], s[j])
  }

  lemma AscendingDistinct(s: seq<string>, i: int, j: int)
    requires StrictlyAscending(s) && 0 <= i < j < |s|
    ensures s[i] != s[j]
  {
    LessIrreflexive(s[i]);
  }

  /** Inserts `x` into a strictly ascending sequence, keeping it so. */
  function Insert(x: string, s: seq<string>): (r: seq<string>)
    requires StrictlyAscending(s)
    ensures StrictlyAscending(r)
    ensures Elems(r) == Elems(s) + {x}
    ensures |r| <= |s| + 1
  {
    if s == [] then [x]
    else if x == s[0] then s
    else if Less(x, s[0]) then
      assert forall j :: 0 < j < |s| ==> Less(x, s[j]) by {
        forall j | 0 < j < |s| ensures Less(x, s[j]) { LessTransitive(x, s[0], s[j]); }
      }
      [x] + s
    else
      LessTotal(x, s[0]);
      var t := Insert(x, s[1..]);
      assert forall k :: k in t ==> Less(s[0], k);
      [s[0]] + t
  }

  /** `sorted(set(xs))` */
  function SortedUnique(xs: seq<string>): (r: seq<string>)
    ensures StrictlyAscending(r)
    ensures Elems(r) == Elems(xs)
    ensures |r| <= |xs|
  {
    if xs == [] then []
    else
      var r := Insert(xs[0], SortedUnique(xs[1..]));
      assert xs == [xs[0]] + xs[1..];
      r
  }

  /** A strictly ascending sequence is determined by its elements: so the
      result of `SortedUnique` is exactly Python's `sorted(set(...))`. */
  lemma {:induction false} AscendingUnique(s: seq<string>, t: seq<string>)
    requires StrictlyAscending(s) && StrictlyAscending(t)
    requires Elems(s) == Elems(t)
    ensures s == t
  {
    if s != [] && t != [] {
      assert s[0] in t && t[0] in s;
      if s[0] != t[0] {
        var i :| 0 <= i < |t| && t[i] == s[0];
        var j :| 0 <= j < |s| && s[j] == t[0];
        assert i > 0 && j > 0;
        LessAsymmetric(t[0], t[i]);
        assert false;
      }
      forall k | k in s[1..] ensures k in t[1..] {
        AscendingHeadNotInTail(s);
        assert k in t;
        var m :| 0 <= m < |t| && t[m] == k;
        assert m != 0;
      }
      forall k | k in t[1..] ensures k in s[1..] {
        AscendingHeadNotInTail(t);
        assert k in s;
        var m :| 0 <= m < |s| && s[m] == k;
        assert m != 0;
      }
      assert Elems(s[1..]) == Elems(t[1..]);
      AscendingUnique(s[1..], t[1..]);
      assert s == [s[0]] + s[1..] && t == [t[0]] + t[1..];
    } else {
      ElemsEmpty(s);
      ElemsEmpty(t);
    }
  }

  lemma ElemsEmpty(s: seq<string>)
    ensures Elems(s) == {} <==> s == []
  {
    if s != [] { assert s[0] in Elems(s); }
  }

  lemma AscendingHeadNotInTail(s: seq<string>)
    requires StrictlyAscending(s) && s != []
    ensures s[0] !in s[1..]
  {
    if s[0] in s[1..] {
      var m :| 0 <= m < |s[1..]| && s[1..][m] == s[0];
      AscendingDistinct(s, 0, m + 1);
    }
  }

  /** The length of `sorted(set(xs))` is the number of distinct elements. */
  lemma {:induction false} AscendingLength(s: seq<string>)
    requires StrictlyAscending(s)
    ensures |Elems(s)| == |s|
  {
    if s != [] {
      AscendingHeadNotInTail(s);
      assert StrictlyAscending(s[1..]);
      AscendingLength(s[1..]);
      assert s == [s[0]] + s[1..];
      assert Elems(s) == (Elems(s[1..])) + {s[0]};
    }
  }
}
