/** Small shared vocabulary: optional values, duplicate-freeness, and the text order ids are sorted by. */
module Common {

  datatype Option<+T> = None | Some(value: T) {
    /** JavaScript's `this ?? other`. */
    function Or(other: T): T {
      if Some? then value else other
    }
    function OrElse(other: Option<T>): Option<T> {
      if Some? then this else other
    }
  }

  ghost predicate NoDup<T>(s: seq<T>) {
    forall i, j :: 0 <= i < j < |s| ==> s[i] != s[j]
  }

  function Elems<T>(s: seq<T>): set<T> {
    set x | x in s
  }

  lemma ElemsSnoc<T>(s: seq<T>, x: T)
    ensures Elems(s + [x]) == Elems(s) + {x}
  {
  }

  /** A sequence has as many distinct elements as positions exactly when nothing repeats. */
  lemma {:induction false} DistinctCount<T>(s: seq<T>)
    ensures |Elems(s)| <= |s|
    ensures |Elems(s)| == |s| <==> NoDup(s)
  {
    if s == [] {
    } else {
      var k := |s| - 1;
      var init, last := s[..k], s[k];
      DistinctCount(init);
      assert s == init + [last];
      if last in init {
        assert Elems(s) == Elems(init);
        var i :| 0 <= i < k && s[i] == last;
        assert !NoDup(s);
      } else {
        assert Elems(s) == Elems(init) + {last};
        assert NoDup(s) <==> NoDup(init);
      }
    }
  }

  lemma SubsetSize<T>(a: set<T>, b: set<T>)
    requires a <= b
    ensures |a| <= |b|
    ensures |a| == |b| ==> a == b
  {
    assert b == a + (b - a);
    if |a| == |b| {
      assert |b - a| == 0;
    }
  }

  lemma MiddleOut<T>(left: seq<T>, x: T, right: seq<T>)
    ensures multiset(left + ([x] + right)) == multiset(left + right) + multiset{x}
  {
    assert multiset([x] + right) == multiset{x} + multiset(right);
    assert multiset(left + ([x] + right)) == multiset(left) + multiset([x] + right);
    assert multiset(left + right) == multiset(left) + multiset(right);
    assert multiset(left) + (multiset{x} + multiset(right)) == multiset(left) + multiset(right) + multiset{x};
  }

  lemma SplitAround<T>(b: seq<T>, i: nat)
    requires i < |b|
    ensures b == b[..i] + ([b[i]] + b[i + 1..])
  {
  }

  /** Takes one occurrence of `x` out of a sequence that has the same elements as `rest` and `x`. */
  lemma TakeOut<T>(b: seq<T>, rest: seq<T>, x: T) returns (left: seq<T>, right: seq<T>)
    requires multiset(b) == multiset(rest) + multiset{x}
    ensures b == left + ([x] + right) && multiset(left + right) == multiset(rest)
  {
    assert x in multiset(b);
    var i :| 0 <= i < |b| && b[i] == x;
    left, right := b[..i], b[i + 1..];
    SplitAround(b, i);
    MiddleOut(left, x, right);
    assert multiset(left + right) == multiset(b) - multiset{x};
  }

  // ---- Decimal digits ----

  predicate IsDigit(c: char) {
    '0' <= c <= '9'
  }

  predicate AllDigits(s: string) {
    s != [] && forall k :: 0 <= k < |s| ==> IsDigit(s[k])
  }

  function Digits(n: nat): (s: string)
    ensures AllDigits(s)
  {
    var last := [(n % 10 + '0' as int) as char];
    if n < 10 then last else Digits(n / 10) + last
  }

  // ---- Text order (the BINARY collation of `ORDER BY ..., id ASC`) ----

  predicate StrLess(a: string, b: string) {
    if b == [] then false
    else if a == [] then true
    else if a[0] != b[0] then a[0] < b[0]
    else StrLess(a[1..], b[1..])
  }

  lemma {:induction false} StrLessTotal(a: string, b: string)
    ensures a == b || StrLess(a, b) || StrLess(b, a)
    ensures !(StrLess(a, b) && StrLess(b, a))
    ensures !StrLess(a, a)
  {
    if a != [] {
      StrLessTotal(a[1..], a[1..]);
    }
    if a != [] && b != [] && a[0] == b[0] {
      StrLessTotal(a[1..], b[1..]);
      assert a == [a[0]] + a[1..] && b == [b[0]] + b[1..];
    }
  }

  /** `a` and `b` agree on their first `k` characters and then `a` has ended, or has the smaller one. */
  ghost predicate SmallerFrom(a: string, b: string, k: nat) {
    && k <= |a| && k < |b| && (forall i :: 0 <= i < k ==> a[i] == b[i])
    && (k < |a| ==> a[k] < b[k])
  }

  /** It is the order of a dictionary. */
  lemma {:induction false} StrLessIff(a: string, b: string)
    ensures StrLess(a, b) <==> exists k: nat :: SmallerFrom(a, b, k)
  {
    if a == [] || b == [] || a[0] != b[0] {
      assert StrLess(a, b) ==> SmallerFrom(a, b, 0);
    } else {
      StrLessIff(a[1..], b[1..]);
      if StrLess(a[1..], b[1..]) {
        var k: nat :| SmallerFrom(a[1..], b[1..], k);
        forall i | 0 <= i < k + 1 ensures a[i] == b[i] {
          assert i > 0 ==> a[i] == a[1..][i - 1] && b[i] == b[1..][i - 1];
        }
        assert k < |a[1..]| ==> a[k + 1] == a[1..][k] && b[k + 1] == b[1..][k];
        assert SmallerFrom(a, b, k + 1);
      }
      if k: nat :| SmallerFrom(a, b, k) {
        assert SmallerFrom(a[1..], b[1..], k - 1);
      }
    }
  }

  lemma {:induction false} StrLessTrans(a: string, b: string, c: string)
    requires StrLess(a, b) && StrLess(b, c)
    ensures StrLess(a, c)
  {
    if a != [] && a[0] == b[0] == c[0] {
      StrLessTrans(a[1..], b[1..], c[1..]);
    }
  }
}
