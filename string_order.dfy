/**
 * The ordering std::wstring's operator< uses (lexicographic on character codes), and
 * std::set<std::wstring> modelled as a strictly increasing sequence under that ordering.
 * std::map<std::wstring, _> enumerates its keys in the same order.
 */
module StringOrder {

  /** Lexicographic "strictly less than" on strings. */
  predicate Less(a: string, b: string)
  {
    if |b| == 0 then false
    else if |a| == 0 then true
    else if a[0] != b[0] then a[0] < b[0]
    else Less(a[1..], b[1..])
  }

  lemma {:induction false} LessIrreflexive(a: string)
    ensures !Less(a, a)
  {
    if |a| > 0 {
      LessIrreflexive(a[1..]);
    }
  }

  lemma {:induction false} LessTransitive(a: string, b: string, c: string)
    requires Less(a, b) && Less(b, c)
    ensures Less(a, c)
  {
    if |a| > 0 && a[0] == b[0] && b[0] == c[0] {
      LessTransitive(a[1..], b[1..], c[1..]);
    }
  }

  lemma {:induction false} LessTotal(a: string, b: string)
    requires a != b
    ensures Less(a, b) || Less(b, a)
  {
    if |a| > 0 && |b| > 0 && a[0] == b[0] {
      assert a == [a[0]] + a[1..] && b == [b[0]] + b[1..];
      LessTotal(a[1..], b[1..]);
    }
  }

  lemma LessAsymmetric(a: string, b: string)
    requires Less(a, b)
    ensures !Less(b, a)
  {
    if Less(b, a) {
      LessTransitive(a, b, a);
      LessIrreflexive(a);
    }
  }

  /** A sequence that is strictly increasing: the iteration order of a std::set. */
  predicate Sorted(s: seq<string>)
  {
    forall i, j :: 0 <= i < j < |s| ==> Less(s[i], s[j])
  }

  /** Prepending an element below the head keeps a sorted sequence sorted. */
  lemma PrependBelowHead(x: string, s: seq<string>)
    requires Sorted(s) && |s| > 0 && Less(x, s[0])
    ensures Sorted([x] + s)
  {
    forall j | 0 < j < |[x] + s|
      ensures Less(([x] + s)[0], ([x] + s)[j])
    {
      if j > 1 {
        LessTransitive(x, s[0], s[j - 1]);
      }
    }
  }

  /**
   * std::set::insert: the sorted sequence holding the elements of s and x.
   * Inserting an element already present returns s unchanged.
   */
  function Insert(s: seq<string>, x: string): (r: seq<string>)
    requires Sorted(s)
    ensures Sorted(r)
    ensures forall y :: y in r <==> y in s || y == x
    ensures x in s ==> r == s
    ensures x !in s ==> |r| == |s| + 1
    decreases |s|
  {
    if |s| == 0 then [x]
    else if x == s[0] then s
    else if Less(x, s[0]) then
      PrependBelowHead(x, s);
      assert x !in s by {
        if x in s {
          var j :| 0 <= j < |s| && s[j] == x;
          LessAsymmetric(x, s[0]);
          LessIrreflexive(x);
        }
      }
      [x] + s
    else
      var t := Insert(s[1..], x);
      LessTotal(x, s[0]);
      assert forall j :: 0 <= j < |t| ==> Less(s[0], t[j]) by {
        forall j | 0 <= j < |t|
          ensures Less(s[0], t[j])
        {
          if t[j] != x {
            assert t[j] in s[1..];
            var k :| 0 <= k < |s[1..]| && s[1..][k] == t[j];
            assert s[k + 1] == t[j];
          }
        }
      }
      assert s == [s[0]] + s[1..];
      [s[0]] + t
  }

  /** The elements of a sorted sequence are distinct, so its length counts them. */
  lemma {:induction false} SortedHeadNotInTail(s: seq<string>)
    requires Sorted(s) && |s| > 0
    ensures s[0] !in s[1..]
  {
    if s[0] in s[1..] {
      var k :| 0 <= k < |s[1..]| && s[1..][k] == s[0];
      assert Less(s[0], s[k + 1]);
      LessIrreflexive(s[0]);
    }
  }

  /** Two sorted sequences with the same elements are equal: a std::set has one iteration order. */
  lemma {:induction false} SortedUnique(a: seq<string>, b: seq<string>)
    requires Sorted(a) && Sorted(b)
    requires forall x :: x in a <==> x in b
    ensures a == b
    decreases |a|
  {
    assert |a| > 0 ==> a[0] in b;
    assert |b| > 0 ==> b[0] in a;
    if |a| > 0 && |b| > 0 {
      assert a[0] == b[0] by {
        if a[0] != b[0] {
          assert a[0] in b && b[0] in a;
          var i :| 0 <= i < |b| && b[i] == a[0];
          var j :| 0 <= j < |a| && a[j] == b[0];
          assert Less(b[0], a[0]);
          assert Less(a[0], b[0]);
          LessAsymmetric(a[0], b[0]);
        }
      }
      SortedHeadNotInTail(a);
      SortedHeadNotInTail(b);
      assert a == [a[0]] + a[1..] && b == [b[0]] + b[1..];
      forall x
        ensures x in a[1..] <==> x in b[1..]
      {
        assert x in a[1..] <==> x in a && x != a[0];
        assert x in b[1..] <==> x in b && x != b[0];
      }
      SortedUnique(a[1..], b[1..]);
      assert a == [a[0]] + a[1..] && b == [b[0]] + b[1..];
    }
  }

  /** Inserting two elements in either order gives the same set. */
  lemma InsertCommutes(s: seq<string>, x: string, y: string)
    requires Sorted(s)
    ensures Insert(Insert(s, x), y) == Insert(Insert(s, y), x)
  {
    SortedUnique(Insert(Insert(s, x), y), Insert(Insert(s, y), x));
  }

  /** The elements of a finite set of strings in increasing order: how std::map enumerates its keys. */
  ghost function SortedOf(s: set<string>): (r: seq<string>)
    ensures Sorted(r)
    ensures forall x :: x in r <==> x in s
    ensures |r| == |s|
    decreases s
  {
    if s == {} then []
    else
      var x :| x in s;
      var t := SortedOf(s - {x});
      Insert(t, x)
  }

  /** The keys of a map in the order std::map enumerates them. */
  method SortedKeys(s: set<string>) returns (keys: seq<string>)
    ensures Sorted(keys)
    ensures forall x :: x in keys <==> x in s
  {
    keys := [];
    var rest := s;
    while rest != {}
      invariant rest <= s
      invariant Sorted(keys)
      invariant forall x :: x in keys <==> x in s && x !in rest
      decreases rest
    {
      var x :| x in rest;
      keys := Insert(keys, x);
      rest := rest - {x};
    }
  }
}
