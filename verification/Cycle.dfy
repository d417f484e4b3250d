/** Positions on a ring of n places. */
module Cycle {
  import opened Seqs

  lemma MultipleIsFar(n: int, d: int)
    requires n > 0
    ensures d != 0 ==> n * d >= n || n * d <= -n
  {
    if d > 0 {
      assert n * d >= n;
    } else if d < 0 {
      assert n * d <= -n;
    }
  }

  lemma ModUnique(x: nat, n: nat, q: nat, r: nat)
    requires n > 0 && x == q * n + r && r < n
    ensures x % n == r
  {
    var d := x / n - q;
    assert n * d == r - x % n;
    MultipleIsFar(n, d);
  }

  lemma ModMinus(x: nat, n: nat)
    requires 0 < n <= x
    ensures (x - n) % n == x % n
  {
    var q := x / n;
    assert x == q * n + x % n;
    assert q >= 1;
    assert x - n == (q - 1) * n + x % n;
    ModUnique(x - n, n, q - 1, x % n);
  }

  lemma {:induction false} AddMod(a: nat, b: nat, n: nat)
    requires n > 0
    ensures (a % n + b) % n == (a + b) % n
  {
    if a >= n {
      ModMinus(a, n);
      ModMinus(a + b, n);
      AddMod(a - n, b, n);
    } else {
      ModUnique(a, n, 0, a);
    }
  }

  // The place i steps ahead of c.
  function Place(c: nat, i: nat, n: nat): (p: nat)
    requires n > 0
    ensures p < n
  {
    (c + i) % n
  }

  lemma PlaceOfPlace(c: nat, i: nat, j: nat, n: nat)
    requires n > 0
    ensures Place(Place(c, i, n), j, n) == Place(c, i + j, n)
  {
    AddMod(c + i, j, n);
  }

  // Fewer than n steps apart means different places.
  lemma PlacesDiffer(c: nat, i: nat, j: nat, n: nat)
    requires i < j < i + n
    ensures Place(c, i, n) != Place(c, j, n)
  {
    var r := (c + i) % n;
    var d := j - i;
    AddMod(c + i, d, n);
    if r + d < n {
      ModUnique(r + d, n, 0, r + d);
    } else {
      ModMinus(r + d, n);
      ModUnique(r + d - n, n, 0, r + d - n);
    }
  }

  // A whole turn leads back.
  lemma WholeTurn(c: nat, i: nat, n: nat)
    requires n > 0
    ensures Place(c, i + n, n) == Place(c, i, n)
  {
    ModMinus(c + i + n, n);
  }

  lemma {:induction false} WholeTurns(c: nat, i: nat, n: nat)
    requires n > 0
    ensures Place(c, i, n) == Place(c, i % n, n)
  {
    if i >= n {
      ModMinus(i, n);
      WholeTurns(c, i - n, n);
      WholeTurn(c, i - n, n);
    } else {
      ModUnique(i, n, 0, i);
    }
  }

  // Every place is fewer than n steps ahead.
  lemma PlaceAhead(c: nat, place: nat, n: nat) returns (i: nat)
    requires place < n
    ensures i < n && Place(c, i, n) == place
  {
    var r := c % n;
    if place >= r {
      i := place - r;
      ModUnique(place, n, 0, place);
    } else {
      i := place + n - r;
      ModMinus(place + n, n);
      ModUnique(place, n, 0, place);
    }
    AddMod(c, i, n);
  }

  // ----- Searching the ring ---------------------------------------------------------------------

  // How many steps ahead the first marked place is, counting from `from` and giving up at `tries`.
  function Ahead(marks: seq<bool>, c: nat, from: nat, tries: nat): (i: nat)
    requires marks != []
    ensures from <= tries ==> from <= i <= tries
    ensures i < tries ==> marks[Place(c, i, |marks|)]
    ensures forall k :: from <= k < i && k < tries ==> !marks[Place(c, k, |marks|)]
    decreases tries - from
  {
    if from >= tries || marks[Place(c, from, |marks|)] then from else Ahead(marks, c, from + 1, tries)
  }

  lemma AheadIs(marks: seq<bool>, c: nat, from: nat, tries: nat, i: nat)
    requires marks != [] && from <= i <= tries && (i < tries ==> marks[Place(c, i, |marks|)])
    requires forall k :: from <= k < i ==> !marks[Place(c, k, |marks|)]
    ensures Ahead(marks, c, from, tries) == i
  {
    hide Place;
  }

  // Searching a whole turn finds whatever is marked.
  lemma WholeTurnFinds(marks: seq<bool>, c: nat, place: nat)
    requires place < |marks| && marks[place]
    ensures Ahead(marks, c, 0, |marks|) < |marks|
  {
    var i := PlaceAhead(c, place, |marks|);
  }

  // Searching on from the place o steps ahead.
  lemma SearchOn(marks: seq<bool>, c: nat, o: nat)
    requires marks != [] && o <= |marks| && Ahead(marks, c, o, |marks|) < |marks|
    ensures Ahead(marks, Place(c, o, |marks|), 0, |marks|) == Ahead(marks, c, o, |marks|) - o
  {
    var n := |marks|;
    var i := Ahead(marks, c, o, n);
    PlaceOfPlace(c, o, i - o, n);
    hide Place;
    forall k | 0 <= k < i - o ensures !marks[Place(Place(c, o, n), k, n)] {
      PlaceOfPlace(c, o, k, n);
    }
    AheadIs(marks, Place(c, o, n), 0, n, i - o);
  }

  // The marked places in the order in which they are met.
  function Met(marks: seq<bool>, c: nat, from: nat): (places: seq<nat>)
    requires marks != []
    ensures forall j :: 0 <= j < |places| ==> places[j] < |marks|
    decreases |marks| - from
  {
    if from >= |marks| then []
    else (if marks[Place(c, from, |marks|)] then [Place(c, from, |marks|)] else []) + Met(marks, c, from + 1)
  }

  lemma {:induction false} MetStep(marks: seq<bool>, c: nat, from: nat)
    requires marks != [] && from <= |marks|
    ensures var i := Ahead(marks, c, from, |marks|);
            Met(marks, c, from) == if i < |marks| then [Place(c, i, |marks|)] + Met(marks, c, i + 1) else []
    decreases |marks| - from
  {
    hide Place;
    if from < |marks| && !marks[Place(c, from, |marks|)] {
      MetStep(marks, c, from + 1);
      ConcatEmpty(Met(marks, c, from + 1));
    }
  }

  lemma {:induction false} MetMembers(marks: seq<bool>, c: nat, from: nat, p: nat)
    requires marks != [] && p in Met(marks, c, from)
    ensures p < |marks| && marks[p] && exists i :: from <= i < |marks| && p == Place(c, i, |marks|)
    decreases |marks| - from
  {
    hide Place;
    if from < |marks| && !(marks[Place(c, from, |marks|)] && p == Place(c, from, |marks|)) {
      MetMembers(marks, c, from + 1, p);
    }
  }

  lemma {:induction false} MetAll(marks: seq<bool>, c: nat, from: nat, i: nat)
    requires marks != [] && from <= i < |marks| && marks[Place(c, i, |marks|)]
    ensures Place(c, i, |marks|) in Met(marks, c, from)
    decreases |marks| - from
  {
    hide Place;
    if from < i {
      MetAll(marks, c, from + 1, i);
    }
  }

  lemma {:induction false} MetOnce(marks: seq<bool>, c: nat, from: nat)
    requires marks != []
    ensures Distinct(Met(marks, c, from))
    decreases |marks| - from
  {
    if from < |marks| {
      MetOnce(marks, c, from + 1);
      var here := Place(c, from, |marks|);
      if here in Met(marks, c, from + 1) {
        MetMembers(marks, c, from + 1, here);
        var i :| from + 1 <= i < |marks| && here == Place(c, i, |marks|);
        PlacesDiffer(c, from, i, |marks|);
        assert false;
      }
    }
  }

  lemma {:induction false} DistinctCount(places: seq<nat>, s: set<nat>)
    requires Distinct(places) && forall p :: p in places <==> p in s
    ensures |places| == |s|
    decreases |places|
  {
    if places == [] {
      assert s == {};
    } else {
      var first, rest := places[0], places[1..];
      assert places == [first] + rest;
      forall p ensures p in rest <==> p in s - {first} {
        if p in rest {
          var j :| 0 <= j < |rest| && rest[j] == p;
          assert places[j + 1] == p;
        }
      }
      DistinctCount(rest, s - {first});
    }
  }

  // Over a whole turn every marked place is met, and met once.
  lemma MetIsMarked(marks: seq<bool>, c: nat)
    requires marks != []
    ensures Distinct(Met(marks, c, 0))
    ensures forall p: nat :: p in Met(marks, c, 0) <==> p < |marks| && marks[p]
    ensures |Met(marks, c, 0)| == |set p: nat | p < |marks| && marks[p]|
  {
    MetOnce(marks, c, 0);
    forall p: nat ensures p in Met(marks, c, 0) <==> p < |marks| && marks[p] {
      if p in Met(marks, c, 0) {
        MetMembers(marks, c, 0, p);
      } else if p < |marks| && marks[p] {
        var i := PlaceAhead(c, p, |marks|);
        MetAll(marks, c, 0, i);
      }
    }
    DistinctCount(Met(marks, c, 0), set p: nat | p < |marks| && marks[p]);
  }
}
