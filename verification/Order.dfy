/** The order of strings, strictly sorted sequences, and properties that ignore order. */
module Order {

  /** Lexicographic by character, which for UTF-8 is the order of the bytes. */
  predicate Less(a: string, b: string) {
    |b| > 0 && (|a| == 0 || a[0] < b[0] || (a[0] == b[0] && Less(a[1..], b[1..])))
  }

  /** The texts agree before place `k`, where the first ends or has the smaller character. */
  predicate LessAt(a: string, b: string, k: nat) {
    k <= |a| && k < |b| && a[..k] == b[..k] && (k < |a| ==> a[k] < b[k])
  }

  /** The order is the lexicographic one. */
  lemma {:induction false} LessExactly(a: string, b: string)
    ensures Less(a, b) <==> exists k :: LessAt(a, b, k)
  {
    if |b| > 0 && |a| > 0 && a[0] == b[0] {
      LessExactly(a[1..], b[1..]);
      if k: nat :| LessAt(a[1..], b[1..], k) {
        assert a[..k + 1] == [a[0]] + a[1..][..k] && b[..k + 1] == [b[0]] + b[1..][..k];
        assert LessAt(a, b, k + 1);
      }
      if k: nat :| LessAt(a, b, k) {
        assert k > 0;
        assert a[1..][..k - 1] == a[..k][1..] && b[1..][..k - 1] == b[..k][1..];
        assert LessAt(a[1..], b[1..], k - 1);
      }
    } else {
      assert Less(a, b) ==> LessAt(a, b, 0);
      if k: nat :| LessAt(a, b, k) && k > 0 {
        assert a[..k][0] == b[..k][0];
      }
    }
  }

  lemma {:induction false} LessIrreflexive(a: string)
    ensures !Less(a, a)
  {
    if |a| > 0 {
      LessIrreflexive(a[1..]);
    }
  }

  lemma {:induction false} LessTransitive(a: string, b: string, c: string)
    requires Less(a, b) && Less(b, c)
    ensures Less(a, c)
  {
    if |a| > 0 && a[0] == b[0] == c[0] {
      LessTransitive(a[1..], b[1..], c[1..]);
    }
  }

  lemma {:induction false} LessTotal(a: string, b: string)
    ensures a == b || Less(a, b) || Less(b, a)
  {
    if |a| > 0 && |b| > 0 && a[0] == b[0] {
      LessTotal(a[1..], b[1..]);
      assert a == [a[0]] + a[1..] && b == [b[0]] + b[1..];
    }
  }

  lemma LessAsymmetric(a: string, b: string)
    requires Less(a, b)
    ensures !Less(b, a) && a != b
  {
    LessIrreflexive(a);
    if Less(b, a) {
      LessTransitive(a, b, a);
    }
  }

  ghost predicate Ascending(s: seq<string>) {
    forall i, j :: 0 <= i < j < |s| ==> Less(s[i], s[j])
  }

  lemma {:induction false} AscendingUnique(s: seq<string>, t: seq<string>)
    requires Ascending(s) && Ascending(t)
    requires forall x :: x in s <==> x in t
    ensures s == t
  {
    if |s| == 0 {
      HasMember(t);
    } else {
      assert s[0] in t;
      assert t[0] in s by { assert t[0] in t; }
      HeadIsLeast(s, t[0]);
      HeadIsLeast(t, s[0]);
      if s[0] != t[0] {
        LessAsymmetric(s[0], t[0]);
      }
      forall x ensures x in s[1..] <==> x in t[1..] {
        TailMembers(s, x);
        TailMembers(t, x);
      }
      AscendingUnique(s[1..], t[1..]);
      assert s == [s[0]] + s[1..] && t == [t[0]] + t[1..];
    }
  }

  lemma HasMember(t: seq<string>)
    ensures |t| > 0 ==> exists x :: x in t
  {
    if |t| > 0 {
      assert t[0] in t;
    }
  }

  lemma HeadIsLeast(s: seq<string>, x: string)
    requires Ascending(s) && x in s
    ensures x == s[0] || Less(s[0], x)
  {
  }

  lemma TailMembers(s: seq<string>, x: string)
    requires Ascending(s) && |s| > 0
    ensures x in s[1..] <==> x in s && x != s[0]
  {
    LessIrreflexive(s[0]);
    if x in s && x != s[0] {
      var i :| 0 <= i < |s| && s[i] == x;
      assert s[1..][i - 1] == x;
    }
    if x in s[1..] {
      var i :| 0 <= i < |s[1..]| && s[1..][i] == x;
      assert s[i + 1] == x;
    }
  }

  function InsertName(names: seq<string>, x: string): seq<string> {
    if |names| == 0 || Less(x, names[0]) then [x] + names else [names[0]] + InsertName(names[1..], x)
  }

  lemma {:induction false} InsertNameAscending(names: seq<string>, x: string)
    requires Ascending(names) && x !in names
    ensures Ascending(InsertName(names, x))
    ensures forall y :: y in InsertName(names, x) <==> y in names || y == x
  {
    hide Less;
    var r := InsertName(names, x);
    if |names| == 0 {
    } else if Less(x, names[0]) {
      assert r == [x] + names;
      forall i, j | 0 <= i < j < |r| ensures Less(r[i], r[j]) {
        if i == 0 && j > 1 {
          LessTransitive(x, names[0], names[j - 1]);
        }
      }
    } else {
      LessTotal(x, names[0]);
      var t := InsertName(names[1..], x);
      InsertNameAscending(names[1..], x);
      assert names == [names[0]] + names[1..];
      forall i, j | 0 <= i < j < |r| ensures Less(r[i], r[j]) {
        if i == 0 {
          assert t[j - 1] in t;
        } else {
          assert Less(t[i - 1], t[j - 1]);
        }
      }
    }
  }

  // -------------------------------------------------------------------
  // Properties of all members, and of all pairs of positions
  // -------------------------------------------------------------------

  ghost predicate Pairwise<T>(s: seq<T>, p: (T, T) -> bool) {
    forall i, j :: 0 <= i < |s| && 0 <= j < |s| && i != j ==> p(s[i], s[j])
  }

  lemma SameMembers<T>(s: seq<T>, t: seq<T>)
    requires multiset(s) == multiset(t)
    ensures forall x :: x in s <==> x in t
    ensures |s| == |t|
  {
    assert forall x :: x in s <==> x in multiset(s);
    assert forall x :: x in t <==> x in multiset(t);
    assert |multiset(s)| == |s| && |multiset(t)| == |t|;
  }

  lemma TwicePositions<T>(s: seq<T>, x: T) returns (i: nat, j: nat)
    requires multiset(s)[x] >= 2
    ensures i < j < |s| && s[i] == x && s[j] == x
  {
    i :| 0 <= i < |s| && s[i] == x && x !in s[..i] by { FirstPosition(s, x); }
    var rest := s[i + 1..];
    assert s == s[..i] + [x] + rest;
    assert multiset(s[..i])[x] == 0;
    assert multiset(rest)[x] >= 1;
    assert x in rest;
    var k :| 0 <= k < |rest| && rest[k] == x;
    j := i + 1 + k;
  }

  lemma {:induction false} FirstPosition<T>(s: seq<T>, x: T)
    requires x in s
    ensures exists i :: 0 <= i < |s| && s[i] == x && x !in s[..i]
  {
    if s[0] == x {
      assert x !in s[..0];
    } else {
      FirstPosition(s[1..], x);
      var i :| 0 <= i < |s[1..]| && s[1..][i] == x && x !in s[1..][..i];
      assert s[..i + 1] == [s[0]] + s[1..][..i];
      assert s[i + 1] == x;
    }
  }

  lemma TwoPositionsCount<T>(s: seq<T>, i: nat, j: nat)
    requires i < j < |s| && s[i] == s[j]
    ensures multiset(s)[s[i]] >= 2
  {
    assert s == s[..i] + [s[i]] + s[i + 1..j] + [s[j]] + s[j + 1..];
  }

  /** A property of all pairs of positions survives permutation. */
  lemma PairwisePermuted<T>(s: seq<T>, t: seq<T>, p: (T, T) -> bool)
    requires multiset(s) == multiset(t) && Pairwise(s, p)
    ensures Pairwise(t, p)
  {
    SameMembers(s, t);
    forall i, j | 0 <= i < |t| && 0 <= j < |t| && i != j ensures p(t[i], t[j]) {
      if t[i] == t[j] {
        TwoPositionsCount(t, if i < j then i else j, if i < j then j else i);
        var a, b := TwicePositions(s, t[i]);
      } else {
        assert t[i] in t && t[j] in t;
        var a :| 0 <= a < |s| && s[a] == t[i];
        var b :| 0 <= b < |s| && s[b] == t[j];
      }
    }
  }

  function RemoveAt<T>(s: seq<T>, k: nat): (r: seq<T>)
    requires k < |s|
    ensures |r| == |s| - 1 && forall i :: 0 <= i < |r| ==> r[i] == if i < k then s[i] else s[i + 1]
  {
    s[..k] + s[k + 1..]
  }

  lemma RemovedMultiset<T>(s: seq<T>, k: nat)
    requires k < |s|
    ensures multiset(s) == multiset(RemoveAt(s, k)) + multiset{s[k]}
  {
    assert s == s[..k] + [s[k]] + s[k + 1..];
  }

  /** Removing, or putting back, one equal member on both sides keeps permutations. */
  lemma RestPermuted<T>(a: seq<T>, b: seq<T>, k: nat)
    requires |a| > 0 && k < |b| && a[0] == b[k]
    ensures multiset(a) == multiset(b) <==> multiset(RemoveAt(a, 0)) == multiset(RemoveAt(b, k))
  {
    RemovedMultiset(a, 0);
    RemovedMultiset(b, k);
    hide RemoveAt;
    if multiset(a) == multiset(b) {
      assert multiset(RemoveAt(a, 0)) == multiset(a) - multiset{a[0]};
      assert multiset(RemoveAt(b, k)) == multiset(b) - multiset{b[k]};
    }
  }

  /** Applying the same function to permuted sequences gives permuted sequences. */
  lemma {:induction false} ImagePermuted<T, U>(a: seq<T>, b: seq<T>, fa: seq<U>, fb: seq<U>)
    requires multiset(a) == multiset(b) && |fa| == |a| && |fb| == |b|
    requires forall i, j :: 0 <= i < |a| && 0 <= j < |b| && a[i] == b[j] ==> fa[i] == fb[j]
    ensures multiset(fa) == multiset(fb)
  {
    SameMembers(a, b);
    if |a| > 0 {
      assert a[0] in b by { assert a[0] in a; }
      var k :| 0 <= k < |b| && b[k] == a[0];
      RestPermuted(a, b, k);
      RestPermuted(fa, fb, k);
      ImagePermuted(RemoveAt(a, 0), RemoveAt(b, k), RemoveAt(fa, 0), RemoveAt(fb, k));
    }
  }
}
