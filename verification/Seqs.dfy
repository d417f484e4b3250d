// Facts about sequences, each stated once so that proofs can ask for just the one they need.
module Seqs {
  function Last<T>(s: seq<T>): T
    requires s != []
  {
    s[|s| - 1]
  }

  function Init<T>(s: seq<T>): seq<T>
    requires s != []
  {
    s[..|s| - 1]
  }

  lemma ConcatAssociates<T>(a: seq<T>, b: seq<T>, c: seq<T>)
    ensures (a + b) + c == a + (b + c)
  {
  }

  lemma ConcatEmpty<T>(a: seq<T>)
    ensures a + [] == a && [] + a == a
  {
  }

  lemma TailOfConcat<T>(a: seq<T>, b: seq<T>)
    requires a != []
    ensures (a + b)[0] == a[0] && (a + b)[1..] == a[1..] + b
  {
  }

  lemma CutOfConcat<T>(a: seq<T>, b: seq<T>)
    ensures (a + b)[..|a|] == a && (a + b)[|a|..] == b
  {
  }

  lemma TakeBeyond<T>(a: seq<T>, b: seq<T>, n: nat)
    requires |a| <= n <= |a + b|
    ensures (a + b)[..n] == a + b[..n - |a|]
  {
  }

  lemma TakeWithin<T>(a: seq<T>, b: seq<T>, n: nat)
    requires n <= |a|
    ensures (a + b)[..n] == a[..n]
  {
  }

  lemma DropWithin<T>(a: seq<T>, b: seq<T>, n: nat)
    requires n <= |a|
    ensures (a + b)[n..] == a[n..] + b
  {
  }

  lemma InitOfDrop<T>(s: seq<T>, n: nat)
    requires n < |s|
    ensures Init(s)[n..] == Init(s[n..]) && Last(s[n..]) == Last(s)
  {
  }

  lemma CutAt<T>(s: seq<T>, n: nat)
    requires n <= |s|
    ensures s[..n] + s[n..] == s
  {
  }

  lemma CutAround<T>(s: seq<T>, n: nat)
    requires n < |s|
    ensures s == s[..n] + ([s[n]] + s[n + 1..])
  {
  }

  lemma HeadTail<T>(s: seq<T>)
    requires s != []
    ensures [s[0]] + s[1..] == s
  {
  }

  lemma InitLast<T>(s: seq<T>)
    requires s != []
    ensures s == Init(s) + [Last(s)]
  {
  }

  lemma InitOfTake<T>(s: seq<T>, n: nat)
    requires n < |s|
    ensures Init(s[..n + 1]) == s[..n] && Last(s[..n + 1]) == s[n]
  {
  }

  lemma SliceOfSlice<T>(s: seq<T>, from: nat, to: nat, n: nat)
    requires from + n <= to <= |s|
    ensures s[from..to][..n] == s[from..from + n]
  {
  }

  lemma SliceOfTake<T>(s: seq<T>, cut: nat, from: nat, to: nat)
    requires from <= to <= cut <= |s|
    ensures s[..cut][from..to] == s[from..to]
  {
  }

  lemma TakeOfTake<T>(s: seq<T>, m: nat, n: nat)
    requires m <= n <= |s|
    ensures s[..n][..m] == s[..m]
  {
  }

  // Dropping k and then taking n - k is taking n and then dropping k.
  lemma TakeOfDrop<T>(s: seq<T>, k: nat, n: nat)
    requires k <= n <= |s|
    ensures s[k..][..n - k] == s[..n][k..] && s[..k] + s[k..][..n - k] == s[..n]
  {
  }

  lemma DropOfDrop<T>(s: seq<T>, k: nat, n: nat)
    requires k <= n <= |s|
    ensures s[k..][n - k..] == s[n..]
  {
  }

  lemma CutPrefix<T>(p: seq<T>, s: seq<T>)
    requires p <= s
    ensures p + s[|p|..] == s
  {
  }

  lemma PrefixIsTake<T>(p: seq<T>, s: seq<T>)
    requires p <= s
    ensures s[..|p|] == p
  {
  }

  lemma CutTwice<T>(s: seq<T>, m: nat, n: nat)
    requires m <= n <= |s|
    ensures s[..m] + (s[m..n] + s[n..]) == s
  {
  }

  lemma ThreeParts<T>(a: seq<T>, m: seq<T>, b: seq<T>)
    ensures var r := a + m + b; r[..|a|] == a && r[|a|..|r| - |b|] == m && r[|r| - |b|..] == b
  {
  }

  function Concat<T>(chunks: seq<seq<T>>): seq<T> {
    if chunks == [] then [] else chunks[0] + Concat(chunks[1..])
  }

  lemma {:induction false} ConcatSnoc<T>(chunks: seq<seq<T>>)
    requires chunks != []
    ensures Concat(chunks) == Concat(Init(chunks)) + Last(chunks)
  {
    if |chunks| == 1 {
      ConcatEmpty(chunks[0]);
    } else {
      assert Init(chunks)[1..] == Init(chunks[1..]) && Last(chunks[1..]) == Last(chunks);
      ConcatSnoc(chunks[1..]);
      ConcatAssociates(chunks[0], Concat(Init(chunks[1..])), Last(chunks));
    }
  }

  ghost predicate Distinct<T>(s: seq<T>) {
    forall i, j :: 0 <= i < j < |s| ==> s[i] != s[j]
  }

  lemma DistinctTogether<T>(a: seq<T>, b: seq<T>)
    requires Distinct(a) && Distinct(b) && forall x :: x in a ==> x !in b
    ensures Distinct(a + b)
  {
    forall i, j | 0 <= i < j < |a + b| ensures (a + b)[i] != (a + b)[j] {
      if j < |a| {
        assert a[i] != a[j];
      } else if i < |a| {
        assert a[i] in a && b[j - |a|] in b;
      } else {
        assert b[i - |a|] != b[j - |a|];
      }
    }
  }

  // ----- The first occurrence of an element -----------------------------------------------------

  // The first place at or after `from` where x stands; the length of the sequence if nowhere.
  function FirstIndex<T(==)>(s: seq<T>, x: T, from: nat): (i: nat)
    requires from <= |s|
    ensures from <= i <= |s| && (i < |s| ==> s[i] == x)
    ensures forall k :: from <= k < i ==> s[k] != x
    decreases |s| - from
  {
    if from == |s| || s[from] == x then from else FirstIndex(s, x, from + 1)
  }

  lemma {:induction false} FirstIndexIs<T>(s: seq<T>, x: T, from: nat, i: nat)
    requires from <= i <= |s| && (i < |s| ==> s[i] == x)
    requires forall k :: from <= k < i ==> s[k] != x
    ensures FirstIndex(s, x, from) == i
    decreases i - from
  {
    if from < i {
      FirstIndexIs(s, x, from + 1, i);
    }
  }

  lemma {:induction false} FirstIndexAfter<T>(done: seq<T>, rest: seq<T>, x: T, from: nat)
    requires from <= |rest|
    ensures FirstIndex(done + rest, x, |done| + from) == |done| + FirstIndex(rest, x, from)
    decreases |rest| - from
  {
    if from < |rest| {
      assert (done + rest)[|done| + from] == rest[from];
      FirstIndexAfter(done, rest, x, from + 1);
    }
  }

  // What is appended does not matter once the element has been found.
  lemma FirstIndexStays<T>(s: seq<T>, more: seq<T>, x: T)
    requires FirstIndex(s, x, 0) < |s|
    ensures FirstIndex(s + more, x, 0) == FirstIndex(s, x, 0)
  {
    FirstIndexIs(s + more, x, 0, FirstIndex(s, x, 0));
  }
}
