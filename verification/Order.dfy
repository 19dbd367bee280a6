/** The lexicographic order Rust gives byte strings, and iteration of an ordered map's keys. */
module Order {
  import opened Base

  predicate Less(a: Bytes, b: Bytes) {
    b != [] && (a == [] || a[0] < b[0] || (a[0] == b[0] && Less(a[1..], b[1..])))
  }

  predicate Leq(a: Bytes, b: Bytes) {
    a == b || Less(a, b)
  }

  lemma {:induction false} Irreflexive(a: Bytes)
    ensures !Less(a, a)
  {
    if a != [] { Irreflexive(a[1..]); }
  }

  lemma {:induction false} Transitive(a: Bytes, b: Bytes, c: Bytes)
    requires Less(a, b) && Less(b, c)
    ensures Less(a, c)
  {
    if a != [] && a[0] == b[0] == c[0] { Transitive(a[1..], b[1..], c[1..]); }
  }

  lemma {:induction false} Trichotomy(a: Bytes, b: Bytes)
    ensures a == b || Less(a, b) || Less(b, a)
  {
    if a != [] && b != [] && a[0] == b[0] {
      Trichotomy(a[1..], b[1..]);
      assert a == [a[0]] + a[1..] && b == [b[0]] + b[1..];
    }
  }

  lemma Asymmetric(a: Bytes, b: Bytes)
    requires Less(a, b)
    ensures !Less(b, a)
  {
    if Less(b, a) {
      Transitive(a, b, a);
      Irreflexive(a);
    }
  }

  predicate IsLeast(x: Bytes, s: set<Bytes>) {
    x in s && forall y | y in s :: Leq(x, y)
  }

  lemma LeastUnique(x: Bytes, y: Bytes, s: set<Bytes>)
    requires IsLeast(x, s) && IsLeast(y, s)
    ensures x == y
  {
    if Less(x, y) { Asymmetric(x, y); }
  }

  /** Every nonempty finite set of keys has a least one. */
  lemma {:induction false} LeastExists(s: set<Bytes>)
    requires s != {}
    ensures exists x :: IsLeast(x, s)
    decreases |s|
  {
    var pick :| pick in s;
    var rest := s - {pick};
    if rest == {} {
      assert s == {pick};
      assert IsLeast(pick, s);
    } else {
      LeastExists(rest);
      var other :| IsLeast(other, rest);
      Trichotomy(pick, other);
      if Less(other, pick) {
        assert IsLeast(other, s);
      } else {
        forall y | y in s ensures Leq(pick, y) {
          if y in rest && y != other && pick != other { Transitive(pick, other, y); }
        }
        assert IsLeast(pick, s);
      }
    }
  }

  /** The next key an ordered map's iterator yields, out of the keys still to come. */
  function Least(s: set<Bytes>): (least: Bytes)
    requires s != {}
    ensures least in s
  {
    LeastExists(s);
    assert forall x, y | IsLeast(x, s) && IsLeast(y, s) :: x == y by {
      forall x, y | IsLeast(x, s) && IsLeast(y, s) ensures x == y { LeastUnique(x, y, s); }
    }
    var least :| least in s && IsLeast(least, s);
    least
  }

  /** The keys of an ordered map in the order its iterator yields them. */
  function Ascending(s: set<Bytes>): (keys: seq<Bytes>)
    ensures forall x :: x in keys <==> x in s
    decreases |s|
  {
    if s == {} then [] else
    var least := Least(s);
    [least] + Ascending(s - {least})
  }

  /** The elements of a set in strictly ascending order. */
  predicate InOrder(keys: seq<Bytes>, s: set<Bytes>) {
    && (forall i, j | 0 <= i < j < |keys| :: Less(keys[i], keys[j]))
    && (forall x | x in keys :: x in s) && (forall x | x in s :: x in keys)
  }

  lemma {:induction false} AscendingIsInOrder(s: set<Bytes>)
    ensures InOrder(Ascending(s), s)
    decreases |s|
  {
    if s != {} {
      LeastExists(s);
      var rest := Ascending(s - {Least(s)});
      AscendingIsInOrder(s - {Least(s)});
      forall j | 0 <= j < |rest| ensures Less(Least(s), rest[j]) {
        assert rest[j] in rest;
      }
    }
  }

  /** There is only one such order. */
  lemma {:induction false} OrderIsUnique(a: seq<Bytes>, b: seq<Bytes>, s: set<Bytes>)
    requires InOrder(a, s) && InOrder(b, s)
    ensures a == b
    decreases |a|
  {
    BothEmpty(a, s);
    BothEmpty(b, s);
    if a != [] {
      HeadIsLeast(a, s);
      HeadIsLeast(b, s);
      LeastUnique(a[0], b[0], s);
      TailIsInOrder(a, s);
      TailIsInOrder(b, s);
      OrderIsUnique(a[1..], b[1..], s - {a[0]});
      assert a == [a[0]] + a[1..] && b == [b[0]] + b[1..];
    }
  }

  lemma BothEmpty(keys: seq<Bytes>, s: set<Bytes>)
    requires InOrder(keys, s)
    ensures keys == [] <==> s == {}
  {
    if keys != [] { assert keys[0] in s; }
  }

  lemma HeadIsLeast(keys: seq<Bytes>, s: set<Bytes>)
    requires InOrder(keys, s) && keys != []
    ensures IsLeast(keys[0], s)
  {
    forall y | y in s ensures Leq(keys[0], y) {
      var i :| 0 <= i < |keys| && keys[i] == y;
      if i > 0 { assert Less(keys[0], keys[i]); }
    }
  }

  lemma TailIsInOrder(keys: seq<Bytes>, s: set<Bytes>)
    requires InOrder(keys, s) && keys != []
    ensures InOrder(keys[1..], s - {keys[0]})
  {
    Irreflexive(keys[0]);
    forall x | x in s - {keys[0]} ensures x in keys[1..] {
      var i :| 0 <= i < |keys| && keys[i] == x;
      assert keys[1..][i - 1] == x;
    }
    forall x | x in keys[1..] ensures x in s - {keys[0]} {
      var i :| 0 <= i < |keys[1..]| && keys[1..][i] == x;
      assert x == keys[i + 1] && Less(keys[0], keys[i + 1]);
    }
  }

  /** `a` is a proper prefix of `b`, or has the smaller byte where they first differ. */
  ghost predicate FirstDifferenceIsLess(a: Bytes, b: Bytes) {
    exists k :: 0 <= k <= |a| && k < |b| && a[..k] == b[..k] && (k == |a| || a[k] < b[k])
  }

  /** The first difference of the tails is that of the wholes, one place later. */
  lemma DifferenceLater(a: Bytes, b: Bytes)
    requires a != [] && b != [] && a[0] == b[0]
    ensures FirstDifferenceIsLess(a[1..], b[1..]) ==> FirstDifferenceIsLess(a, b)
  {
    var c, d := a[1..], b[1..];
    if FirstDifferenceIsLess(c, d) {
      var k :| 0 <= k <= |c| && k < |d| && c[..k] == d[..k] && (k == |c| || c[k] < d[k]);
      assert a[..k + 1] == [a[0]] + c[..k] && b[..k + 1] == [b[0]] + d[..k];
    }
  }

  lemma DifferenceEarlier(a: Bytes, b: Bytes)
    requires a != [] && b != [] && a[0] == b[0]
    ensures FirstDifferenceIsLess(a, b) ==> FirstDifferenceIsLess(a[1..], b[1..])
  {
    var c, d := a[1..], b[1..];
    if FirstDifferenceIsLess(a, b) {
      var k :| 0 <= k <= |a| && k < |b| && a[..k] == b[..k] && (k == |a| || a[k] < b[k]);
      assert c[..k - 1] == a[..k][1..] && d[..k - 1] == b[..k][1..];
    }
  }

  lemma DifferenceAtOnce(a: Bytes, b: Bytes)
    requires a == [] || b == [] || a[0] != b[0]
    ensures FirstDifferenceIsLess(a, b) <==> b != [] && (a == [] || a[0] < b[0])
  {
    assert a[..0] == b[..0];
    forall k | 0 < k <= |a| && k < |b| ensures a[..k] != b[..k] { assert a[..k][0] == a[0] && b[..k][0] == b[0]; }
  }

  lemma {:induction false} LessIsLexicographic(a: Bytes, b: Bytes)
    ensures Less(a, b) <==> FirstDifferenceIsLess(a, b)
  {
    hide FirstDifferenceIsLess;
    if a == [] || b == [] || a[0] != b[0] {
      DifferenceAtOnce(a, b);
    } else {
      LessIsLexicographic(a[1..], b[1..]);
      DifferenceLater(a, b);
      DifferenceEarlier(a, b);
    }
  }
}
