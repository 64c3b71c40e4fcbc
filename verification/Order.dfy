/** The order of snapshot names (string order) and stable sorting by a name. */
module Order {
  /** `a` and `b` agree before position `i`; from there on `a` is smaller. */
  predicate LessFrom(a: string, b: string, i: nat)
    requires i <= |a| && i <= |b|
    decreases |b| - i
  {
    i < |b| && (i == |a| || a[i] < b[i] || (a[i] == b[i] && LessFrom(a, b, i + 1)))
  }

  /** Lexicographic order, by code point. */
  predicate Less(a: string, b: string) { LessFrom(a, b, 0) }

  /** At position `k` the texts differ for the first time, and `a` has the smaller character there. */
  ghost predicate SmallerAt(a: string, b: string, k: nat) {
    k < |a| && k < |b| && a[k] < b[k] && forall j :: 0 <= j < k ==> a[j] == b[j]
  }

  lemma {:induction false} LessFromMeans(a: string, b: string, i: nat)
    requires i <= |a| && i <= |b| && forall j :: 0 <= j < i ==> a[j] == b[j]
    ensures LessFrom(a, b, i) <==> a < b || exists k :: SmallerAt(a, b, k)
    decreases |b| - i
  {
    if i < |a| && i < |b| {
      if a[i] == b[i] { LessFromMeans(a, b, i + 1); } else if a[i] < b[i] { assert SmallerAt(a, b, i); }
    }
  }

  /**
   * What string order is: a proper prefix comes first (`<` on sequences), and otherwise the first
   * differing character decides.
   */
  lemma LessMeans(a: string, b: string)
    ensures Less(a, b) <==> a < b || exists k :: SmallerAt(a, b, k)
  {
    LessFromMeans(a, b, 0);
  }

  /** A text comes before everything that extends it. */
  lemma PrefixFirst(s: string, t: string)
    requires t != ""
    ensures Less(s, s + t)
  {
    LessMeans(s, s + t);
  }

  lemma {:induction false} LessIrreflexiveFrom(a: string, i: nat)
    requires i <= |a|
    ensures !LessFrom(a, a, i)
    decreases |a| - i
  {
    if i < |a| { LessIrreflexiveFrom(a, i + 1); }
  }

  lemma {:induction false} LessTransitiveFrom(a: string, b: string, c: string, i: nat)
    requires i <= |a| && i <= |b| && i <= |c| && LessFrom(a, b, i) && LessFrom(b, c, i)
    ensures LessFrom(a, c, i)
    decreases |b| - i
  {
    if i < |a| && a[i] == b[i] == c[i] { LessTransitiveFrom(a, b, c, i + 1); }
  }

  lemma {:induction false} LessTotalFrom(a: string, b: string, i: nat)
    requires i <= |a| && i <= |b| && a[..i] == b[..i]
    ensures LessFrom(a, b, i) || a == b || LessFrom(b, a, i)
    decreases |b| - i
  {
    if i < |a| && i < |b| && a[i] == b[i] {
      assert a[..i + 1] == a[..i] + [a[i]] && b[..i + 1] == b[..i] + [b[i]];
      LessTotalFrom(a, b, i + 1);
    } else if i == |a| == |b| {
      assert a == a[..i] && b == b[..i];
    }
  }

  lemma LessIrreflexive(a: string)
    ensures !Less(a, a)
  {
    LessIrreflexiveFrom(a, 0);
  }

  lemma LessTransitive(a: string, b: string, c: string)
    requires Less(a, b) && Less(b, c)
    ensures Less(a, c)
  {
    LessTransitiveFrom(a, b, c, 0);
  }

  lemma LessTotal(a: string, b: string)
    ensures Less(a, b) || a == b || Less(b, a)
  {
    LessTotalFrom(a, b, 0);
  }

  /** `Less` is a strict total order. */
  lemma LessIsOrder()
    ensures forall a :: !Less(a, a)
    ensures forall a, b, c :: Less(a, b) && Less(b, c) ==> Less(a, c)
    ensures forall a, b :: Less(a, b) || a == b || Less(b, a)
  {
    forall a ensures !Less(a, a) { LessIrreflexive(a); }
    forall a, b, c | Less(a, b) && Less(b, c) ensures Less(a, c) { LessTransitive(a, b, c); }
    forall a, b ensures Less(a, b) || a == b || Less(b, a) { LessTotal(a, b); }
  }

  ghost predicate Ascending<T(!new)>(key: T -> string, s: seq<T>) {
    forall i, j :: 0 <= i < j < |s| ==> Less(key(s[i]), key(s[j]))
  }

  /** No two positions hold the same key. */
  ghost predicate DistinctKeys<T(!new)>(key: T -> string, s: seq<T>) {
    forall i, j :: 0 <= i < j < |s| ==> key(s[i]) != key(s[j])
  }

  lemma AscendingDistinct<T(!new)>(key: T -> string, s: seq<T>)
    requires Ascending(key, s)
    ensures DistinctKeys(key, s)
  {
    forall i, j | 0 <= i < j < |s| ensures key(s[i]) != key(s[j]) {
      LessIrreflexive(key(s[i]));
    }
  }

  /** Puts `x` behind every element whose key is not greater: one round of a stable sort. */
  function InsertBy<T>(key: T -> string, s: seq<T>, x: T): (r: seq<T>)
    ensures multiset(r) == multiset(s) + multiset{x}
  {
    if |s| == 0 || !Less(key(x), key(s[|s| - 1])) then s + [x]
    else
      assert s == s[..|s| - 1] + [s[|s| - 1]];
      InsertBy(key, s[..|s| - 1], x) + [s[|s| - 1]]
  }

  /** A stable sort by ascending key. */
  function SortBy<T>(key: T -> string, s: seq<T>): (r: seq<T>)
    ensures multiset(r) == multiset(s)
  {
    if |s| == 0 then []
    else
      assert s == s[..|s| - 1] + [s[|s| - 1]];
      InsertBy(key, SortBy(key, s[..|s| - 1]), s[|s| - 1])
  }

  lemma SameElements<T>(s: seq<T>, r: seq<T>)
    requires multiset(r) == multiset(s)
    ensures |r| == |s|
    ensures forall x :: x in r <==> x in s
  {
    assert |multiset(r)| == |multiset(s)|;
    forall x ensures x in r <==> x in s { assert x in r <==> x in multiset(r); }
  }

  lemma InsertElements<T>(key: T -> string, s: seq<T>, x: T)
    ensures forall y :: y in InsertBy(key, s, x) <==> y in s || y == x
  {
    forall y ensures y in InsertBy(key, s, x) <==> y in s || y == x {
      assert y in InsertBy(key, s, x) <==> y in multiset(InsertBy(key, s, x));
    }
  }

  lemma {:induction false} InsertAscending<T(!new)>(key: T -> string, s: seq<T>, x: T)
    requires Ascending(key, s)
    requires forall y :: y in s ==> key(y) != key(x)
    ensures Ascending(key, InsertBy(key, s, x))
    decreases |s|
  {
    if |s| > 0 {
      var init, last := s[..|s| - 1], s[|s| - 1];
      assert forall y :: y in init ==> Less(key(y), key(last));
      LessTotal(key(x), key(last));
      assert last in s;
      if Less(key(x), key(last)) {
        InsertAscending(key, init, x);
        InsertElements(key, init, x);
      } else {
        forall y | y in init ensures Less(key(y), key(x)) { LessTransitive(key(y), key(last), key(x)); }
        assert forall y :: y in s ==> y in init || y == last;
      }
    }
  }

  /** With distinct keys the sorted sequence is strictly ascending. */
  lemma {:induction false} SortAscending<T(!new)>(key: T -> string, s: seq<T>)
    requires DistinctKeys(key, s)
    ensures Ascending(key, SortBy(key, s))
    decreases |s|
  {
    if |s| > 0 {
      var init := s[..|s| - 1];
      SortAscending(key, init);
      SameElements(init, SortBy(key, init));
      InsertAscending(key, SortBy(key, init), s[|s| - 1]);
    }
  }

  lemma LessAsymmetric(a: string, b: string)
    requires Less(a, b)
    ensures !Less(b, a)
  {
    LessIrreflexive(a);
    if Less(b, a) { LessTransitive(a, b, a); }
  }

  lemma InsertLargest<T(!new)>(key: T -> string, s: seq<T>, x: T)
    requires |s| > 0 ==> Less(key(s[|s| - 1]), key(x))
    ensures InsertBy(key, s, x) == s + [x]
  {
    if |s| > 0 { LessAsymmetric(key(s[|s| - 1]), key(x)); }
  }

  /** Sorting what is already strictly ascending changes nothing. */
  lemma {:induction false} SortFixesAscending<T(!new)>(key: T -> string, s: seq<T>)
    requires Ascending(key, s)
    ensures SortBy(key, s) == s
    decreases |s|
  {
    if |s| > 0 {
      SortFixesAscending(key, s[..|s| - 1]);
      InsertLargest(key, s[..|s| - 1], s[|s| - 1]);
      assert s == s[..|s| - 1] + [s[|s| - 1]];
    }
  }

  /** No later element has a smaller key. */
  ghost predicate Ordered<T(!new)>(key: T -> string, s: seq<T>) {
    forall i, j :: 0 <= i < j < |s| ==> !Less(key(s[j]), key(s[i]))
  }

  lemma {:induction false} InsertOrdered<T(!new)>(key: T -> string, s: seq<T>, x: T)
    requires Ordered(key, s)
    ensures Ordered(key, InsertBy(key, s, x))
    decreases |s|
  {
    LessIsOrder();
    hide Less;
    if |s| > 0 {
      var init, last := s[..|s| - 1], s[|s| - 1];
      if Less(key(x), key(last)) {
        InsertOrdered(key, init, x);
        InsertElements(key, init, x);
        assert forall y :: y in InsertBy(key, init, x) ==> !Less(key(last), key(y));
      } else {
        assert forall y :: y in s ==> !Less(key(x), key(y));
      }
    }
  }

  /** The elements with one key, in their order. */
  function WithKey<T>(key: T -> string, s: seq<T>, k: string): seq<T> {
    if |s| == 0 then []
    else WithKey(key, s[..|s| - 1], k) + (if key(s[|s| - 1]) == k then [s[|s| - 1]] else [])
  }

  lemma WithKeyPush<T>(key: T -> string, s: seq<T>, x: T, k: string)
    ensures WithKey(key, s + [x], k) == WithKey(key, s, k) + (if key(x) == k then [x] else [])
  {
    assert (s + [x])[..|s|] == s;
  }

  lemma {:induction false} InsertStable<T>(key: T -> string, s: seq<T>, x: T, k: string)
    ensures WithKey(key, InsertBy(key, s, x), k) == WithKey(key, s, k) + (if key(x) == k then [x] else [])
    decreases |s|
  {
    hide Less, WithKey;
    if |s| == 0 || !Less(key(x), key(s[|s| - 1])) {
      WithKeyPush(key, s, x, k);
    } else {
      var init, last := s[..|s| - 1], s[|s| - 1];
      LessIrreflexive(key(last));
      InsertStable(key, init, x, k);
      WithKeyPush(key, InsertBy(key, init, x), last, k);
      WithKeyPush(key, init, last, k);
      assert s == init + [last];
    }
  }

  lemma NothingOrdered<T(!new)>(key: T -> string, s: seq<T>)
    requires s == []
    ensures Ordered(key, s)
  {
  }

  /** Whatever is sorted, no later element has a smaller key, and elements with equal keys keep their order. */
  lemma {:induction false} SortIsStable<T(!new)>(key: T -> string, s: seq<T>)
    ensures Ordered(key, SortBy(key, s))
    ensures forall k :: WithKey(key, SortBy(key, s), k) == WithKey(key, s, k)
    decreases |s|
  {
    hide Ordered, InsertBy;
    if |s| > 0 {
      var init := s[..|s| - 1];
      SortIsStable(key, init);
      InsertOrdered(key, SortBy(key, init), s[|s| - 1]);
      forall k { InsertStable(key, SortBy(key, init), s[|s| - 1], k); }
    } else {
      NothingOrdered(key, s);
    }
  }
}
