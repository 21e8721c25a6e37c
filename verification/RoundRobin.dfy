/** The cursor arithmetic of the limit scan, on any list. */
module RoundRobin {
  import opened Sequences

  /** Position visited by the k-th step from `cursor` over n items. */
  function Slot(cursor: nat, k: nat, n: nat): (p: nat)
    requires n > 0
    ensures p < n
  {
    (cursor + k) % n
  }

  /** The first k items visited from `cursor`. */
  function Visits<T>(items: seq<T>, cursor: nat, k: nat): (r: seq<T>)
    requires k > 0 ==> items != []
    ensures |r| == k
    ensures forall i :: 0 <= i < k ==> r[i] == items[Slot(cursor, i, |items|)]
  {
    seq(k, i requires 0 <= i < k => items[Slot(cursor, i, |items|)])
  }

  lemma MultipleIsLarge(d: int, n: nat)
    ensures d >= 1 ==> d * n >= n
    ensures d <= -1 ==> d * n + n <= 0
  {
    if d >= 1 {
      assert d * n == (d - 1) * n + n;
    } else if d <= -1 {
      assert d * n == (d + 1) * n - n;
    }
  }

  lemma QuotientUnique(q0: int, r0: nat, q1: int, r1: nat, n: nat)
    requires r0 < n && r1 < n && q0 * n + r0 == q1 * n + r1
    ensures q0 == q1 && r0 == r1
  {
    assert (q0 - q1) * n == q0 * n - q1 * n;
    MultipleIsLarge(q0 - q1, n);
  }

  lemma ModUnique(q: int, r: nat, n: nat)
    requires r < n
    ensures (q * n + r) % n == r
  {
    var x := q * n + r;
    QuotientUnique(x / n, x % n, q, r, n);
  }

  lemma SlotAt(cursor: nat, k: nat, n: nat, q: int, r: nat)
    requires r < n && cursor + k == q * n + r
    ensures Slot(cursor, k, n) == r
  {
    ModUnique(q, r, n);
  }

  lemma SlotInjective(cursor: nat, i: nat, j: nat, n: nat)
    requires i < j < i + n
    ensures Slot(cursor, i, n) != Slot(cursor, j, n)
  {
    var p := Slot(cursor, i, n);
    var q := (cursor + i) / n;
    assert cursor + i == q * n + p;
    var d := j - i;
    if p + d < n {
      SlotAt(cursor, j, n, q, p + d);
    } else {
      SlotAt(cursor, j, n, q + 1, p + d - n);
    }
  }

  /** One scan never visits the same item twice. */
  lemma VisitsDistinct<T>(items: seq<T>, cursor: nat, k: nat)
    requires Distinct(items) && k <= |items|
    ensures Distinct(Visits(items, cursor, k))
  {
    forall i, j | 0 <= i < j < k
      ensures Visits(items, cursor, k)[i] != Visits(items, cursor, k)[j]
    {
      SlotInjective(cursor, i, j, |items|);
    }
  }

  lemma SlotResume(cursor: nat, k: nat, i: nat, n: nat)
    requires n > 0
    ensures Slot((cursor + k) % n, i, n) == Slot(cursor, k + i, n)
  {
    var c := (cursor + k) % n;
    var q := (cursor + k) / n;
    assert cursor + k == q * n + c;
    var p := Slot(c, i, n);
    var q' := (c + i) / n;
    assert c + i == q' * n + p;
    assert (q + q') * n == q * n + q' * n;
    SlotAt(cursor, k + i, n, q + q', p);
  }

  lemma VisitsGrow<T>(items: seq<T>, cursor: nat, k: nat)
    requires Distinct(items) && k < |items|
    ensures Visits(items, cursor, k + 1) == Visits(items, cursor, k) + [items[Slot(cursor, k, |items|)]]
    ensures items[Slot(cursor, k, |items|)] !in Visits(items, cursor, k)
  {
    VisitsDistinct(items, cursor, k + 1);
    var v := Visits(items, cursor, k + 1);
    assert v == Visits(items, cursor, k) + [v[k]];
  }

  /** Stopping after k visits, storing the cursor and going on later is the same as not stopping. */
  lemma VisitsResume<T>(items: seq<T>, cursor: nat, k: nat, more: nat)
    requires items != []
    ensures Visits(items, cursor, k) + Visits(items, (cursor + k) % |items|, more) == Visits(items, cursor, k + more)
  {
    var n := |items|;
    var c := (cursor + k) % n;
    forall i: nat | i < more
      ensures Visits(items, c, more)[i] == Visits(items, cursor, k + more)[k + i]
    {
      SlotResume(cursor, k, i, n);
    }
  }

  lemma VisitsWrap<T>(items: seq<T>, cursor: nat, k: nat)
    requires items != []
    ensures Visits(items, cursor % |items|, k) == Visits(items, cursor, k)
  {
    forall i: nat | i < k
      ensures Visits(items, cursor % |items|, k)[i] == Visits(items, cursor, k)[i]
    {
      SlotResume(cursor, 0, i, |items|);
    }
  }

  /** Any n consecutive visits reach every position. */
  lemma SlotReaches(cursor: nat, n: nat, p: nat) returns (k: nat)
    requires p < n
    ensures k < n && Slot(cursor, k, n) == p
  {
    var c := cursor % n;
    var q := cursor / n;
    assert cursor == q * n + c;
    if c <= p {
      k := p - c;
      SlotAt(cursor, k, n, q, p);
    } else {
      k := n + p - c;
      SlotAt(cursor, k, n, q + 1, p);
    }
  }

  lemma VisitsCover<T>(items: seq<T>, cursor: nat, k: nat)
    requires 0 < |items| <= k
    ensures forall x :: x in items ==> x in Visits(items, cursor, k)
  {
    forall x | x in items
      ensures x in Visits(items, cursor, k)
    {
      var p :| 0 <= p < |items| && items[p] == x;
      var i := SlotReaches(cursor, |items|, p);
      assert Visits(items, cursor, k)[i] == x;
    }
  }

  // ----- fairness -----

  function Count<T(==)>(s: seq<T>, x: T): nat {
    if s == [] then 0 else Count(s[..|s| - 1], x) + if s[|s| - 1] == x then 1 else 0
  }

  /** How often the item at position p has been visited, given that the cursor went q times past the end and stands at
      `at`: once per lap, less the lap that began after p, plus the lap that has already passed p. */
  lemma {:induction false} VisitCount<T>(items: seq<T>, cursor: nat, k: nat, p: nat) returns (q: nat, at: nat)
    requires Distinct(items) && p < |items| && cursor < |items|
    ensures cursor + k == q * |items| + at && at < |items|
    ensures Count(Visits(items, cursor, k), items[p]) == q + (if p < at then 1 else 0) - (if p < cursor then 1 else 0)
  {
    var n := |items|;
    if k == 0 {
      q, at := 0, cursor;
    } else {
      var q0, at0 := VisitCount(items, cursor, k - 1, p);
      SlotAt(cursor, k - 1, n, q0, at0);
      var v := Visits(items, cursor, k);
      assert v[..k - 1] == Visits(items, cursor, k - 1);
      assert v[k - 1] == items[at0];
      assert items[at0] == items[p] <==> at0 == p;
      if at0 + 1 < n {
        q, at := q0, at0 + 1;
      } else {
        q, at := q0 + 1, 0;
        assert (q0 + 1) * n == q0 * n + n;
      }
    }
  }

  lemma VisitsFairFrom<T>(items: seq<T>, cursor: nat, k: nat, x: T, y: T)
    requires Distinct(items) && x in items && y in items && cursor < |items|
    ensures -1 <= Count(Visits(items, cursor, k), x) - Count(Visits(items, cursor, k), y) <= 1
  {
    var p :| 0 <= p < |items| && items[p] == x;
    var r :| 0 <= r < |items| && items[r] == y;
    var q0, a0 := VisitCount(items, cursor, k, p);
    var q1, a1 := VisitCount(items, cursor, k, r);
    QuotientUnique(q0, a0, q1, a1, |items|);
  }

  /** Round-robin is fair: after any number of visits no two items' visit counts differ by more than one. */
  lemma VisitsFair<T>(items: seq<T>, cursor: nat, k: nat, x: T, y: T)
    requires Distinct(items) && x in items && y in items
    ensures -1 <= Count(Visits(items, cursor, k), x) - Count(Visits(items, cursor, k), y) <= 1
  {
    VisitsWrap(items, cursor, k);
    VisitsFairFrom(items, cursor % |items|, k, x, y);
  }
}
