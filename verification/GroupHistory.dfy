/** What the group table holds after any sequence of upserts. */
module GroupHistory {
  import opened Wrappers
  import opened Sequences
  import opened GroupPolicies
  import opened GroupLru

  datatype Call = Call(message: Message, now: u64)

  function Run(s: State, calls: seq<Call>): (r: State)
    requires s.slots != []
    ensures |r.slots| == |s.slots|
  {
    if calls == [] then s
    else
      var last := calls[|calls| - 1];
      Upsert(Run(s, calls[..|calls| - 1]), last.message, last.now).state
  }

  function Accepted(calls: seq<Call>): History {
    if calls == [] then []
    else
      var m := calls[|calls| - 1].message;
      Accepted(calls[..|calls| - 1]) + if Acceptable(m) then [(KeyOf(m.group.value), m)] else []
  }

  // ----- any clock -----

  /** How many of the calls created a group: accepted ones whose id was not live. */
  ghost function Creations(s: State, calls: seq<Call>): nat
    requires s.slots != []
  {
    if calls == [] then 0
    else
      var m := calls[|calls| - 1].message;
      Creations(s, calls[..|calls| - 1])
      + if Acceptable(m) && !Has(Run(s, calls[..|calls| - 1]), KeyOf(m.group.value)) then 1 else 0
  }

  lemma ClearedInv(capacity: nat)
    requires capacity > 0
    ensures Inv(Cleared(capacity)) && Used(Cleared(capacity).slots) == 0
  {
    NoneUsed(Cleared(capacity).slots);
  }

  lemma {:induction false} NoneUsed(slots: seq<Entry>)
    requires forall i :: 0 <= i < |slots| ==> !slots[i].inUse
    ensures Used(slots) == 0
  {
    if slots != [] {
      NoneUsed(slots[..|slots| - 1]);
    }
  }

  /** Since clear, and whatever the clock does: ids are distinct, group_count is the number of slots in use, and every
      group ever created is either still there or counted as an eviction. */
  lemma {:induction false} Accounting(capacity: nat, calls: seq<Call>)
    requires capacity > 0
    ensures var s := Run(Cleared(capacity), calls);
            && Inv(s) && s.count == Used(s.slots) <= capacity
            && Creations(Cleared(capacity), calls) == s.count + s.evictions
  {
    ClearedInv(capacity);
    if calls != [] {
      var before := Run(Cleared(capacity), calls[..|calls| - 1]);
      Accounting(capacity, calls[..|calls| - 1]);
      UpsertInv(before, calls[|calls| - 1].message, calls[|calls| - 1].now);
    }
    UsedBounds(Run(Cleared(capacity), calls).slots);
  }

  // ----- what is stored for a live id, with any clock -----

  predicate IsFor(m: Message, k: Key) {
    Acceptable(m) && KeyOf(m.group.value) == k
  }

  /** What a lookup of a live id returns. */
  function Stored(s: State, k: Key): Fields
    requires Has(s, k)
  {
    s.slots[Find(s.slots, k, 0)].fields
  }

  /** The messages for k from call `from` on, merged in order. */
  function Folded(calls: seq<Call>, from: nat, k: Key): Fields
    requires from <= |calls|
  {
    if |calls| == from then NO_FIELDS
    else
      var f := Folded(calls[..|calls| - 1], from, k);
      var m := calls[|calls| - 1].message;
      if IsFor(m, k) then Merge(f, m) else f
  }

  /** The last value for k, from call `from` on, among those that carry one. */
  function LastCarried<T>(calls: seq<Call>, from: nat, k: Key, carried: Message -> Option<T>): Option<T>
    requires from <= |calls|
  {
    if |calls| == from then None
    else
      var m := calls[|calls| - 1].message;
      if IsFor(m, k) && carried(m).Some? then carried(m)
      else LastCarried(calls[..|calls| - 1], from, k, carried)
  }

  function MaxPctOf(m: Message): Option<nat> { if m.cpu.Some? then m.cpu.value.maxPct else None }
  function MaxBytesOf(m: Message): Option<u64> { if m.mem.Some? then m.mem.value.maxBytes else None }
  function HighBytesOf(m: Message): Option<u64> { if m.mem.Some? then m.mem.value.highBytes else None }
  function PidsMaxOf(m: Message): Option<nat> { if m.pids.Some? then m.pids.value.max else None }
  function ActionOf(m: Message): Option<ViolationAction> { m.action }
  function DeadlineOf(m: Message): Option<nat> { if m.timeouts.Some? then m.timeouts.value.applyDeadlineMs else None }

  /** Folding messages keeps, for each field separately, the last value any of them carried. */
  lemma {:induction false} FoldedIsLastCarried(calls: seq<Call>, from: nat, k: Key)
    requires from <= |calls|
    ensures Folded(calls, from, k) ==
            Fields(LastCarried(calls, from, k, MaxPctOf), LastCarried(calls, from, k, MaxBytesOf),
                   LastCarried(calls, from, k, HighBytesOf), LastCarried(calls, from, k, PidsMaxOf),
                   LastCarried(calls, from, k, ActionOf), LastCarried(calls, from, k, DeadlineOf))
  {
    hide KeyOf;
    if |calls| > from {
      FoldedIsLastCarried(calls[..|calls| - 1], from, k);
    }
  }

  lemma FoundIffLive(s: State, k: Key)
    ensures Has(s, k) <==> Find(s.slots, k, 0) < |s.slots|
  {
  }

  lemma FoundAt(s: State, k: Key, i: nat)
    requires Inv(s) && i < |s.slots| && s.slots[i].inUse && s.slots[i].key == k
    ensures Has(s, k) && Find(s.slots, k, 0) == i
  {
    FoundIffLive(s, k);
  }

  /** One upsert, seen from an id that is live after it: its own message is merged in, or creates it with no fields at all;
      any other message leaves it alone. */
  lemma UpsertStores(s: State, m: Message, now: u64, k: Key)
    requires Inv(s) && Has(Upsert(s, m, now).state, k)
    ensures var r := Upsert(s, m, now).state;
            if Has(s, k) then Stored(r, k) == if IsFor(m, k) then Merge(Stored(s, k), m) else Stored(s, k)
            else IsFor(m, k) && Stored(r, k) == NO_FIELDS
  {
    UpsertInv(s, m, now);
    hide Merge, Prefix, Used;
    var r := Upsert(s, m, now).state;
    var j := Find(r.slots, k, 0);
    FoundIffLive(r, k);
    FoundIffLive(s, k);
    if Acceptable(m) && KeyOf(m.group.value) != k {
      assert s.slots[j] == r.slots[j];
      FoundAt(s, k, j);
    }
    if IsFor(m, k) && Has(s, k) {
      FoundAt(r, k, Find(s.slots, k, 0));
    }
  }

  /** Group k is live after the first i of the calls. */
  ghost predicate LiveAt(capacity: nat, calls: seq<Call>, k: Key, i: nat)
    requires capacity > 0 && i <= |calls|
  {
    Has(Run(Cleared(capacity), calls[..i]), k)
  }

  /** `birth` is the upsert that last created group k, and `fields` the fold of the upserts after it. */
  ghost predicate StoredSince(capacity: nat, calls: seq<Call>, k: Key, birth: nat, fields: Fields)
    requires capacity > 0
  {
    && birth < |calls| && IsFor(calls[birth].message, k)
    && !LiveAt(capacity, calls, k, birth)
    && (forall i: nat :: birth < i <= |calls| ==> LiveAt(capacity, calls, k, i))
    && fields == Folded(calls, birth + 1, k)
  }

  lemma PrefixOfPrefix<T>(s: seq<T>, n: nat, i: nat)
    requires i <= n <= |s|
    ensures s[..n][..i] == s[..i]
  {
  }

  lemma LiveInPrefix(capacity: nat, calls: seq<Call>, k: Key, n: nat, i: nat)
    requires capacity > 0 && i <= n <= |calls|
    ensures LiveAt(capacity, calls[..n], k, i) == LiveAt(capacity, calls, k, i)
  {
    hide Has, Run;
    PrefixOfPrefix(calls, n, i);
  }

  lemma LiveAtEnd(capacity: nat, calls: seq<Call>, k: Key)
    requires capacity > 0
    ensures LiveAt(capacity, calls, k, |calls|) == Has(Run(Cleared(capacity), calls), k)
  {
    hide Has, Run;
    assert calls[..|calls|] == calls;
  }

  lemma StoredStep(capacity: nat, calls: seq<Call>, k: Key, birth: nat, fields: Fields)
    requires capacity > 0 && calls != [] && Has(Run(Cleared(capacity), calls), k)
    requires StoredSince(capacity, calls[..|calls| - 1], k, birth, fields)
    ensures var m := calls[|calls| - 1].message;
            StoredSince(capacity, calls, k, birth, if IsFor(m, k) then Merge(fields, m) else fields)
  {
    hide Merge, Has, Run, IsFor, LiveAt;
    var n := |calls| - 1;
    LiveInPrefix(capacity, calls, k, n, birth);
    LiveAtEnd(capacity, calls, k);
    forall i: nat | birth < i <= |calls|
      ensures LiveAt(capacity, calls, k, i)
    {
      if i <= n {
        LiveInPrefix(capacity, calls, k, n, i);
      }
    }
  }

  lemma StoredBirth(capacity: nat, calls: seq<Call>, k: Key)
    requires capacity > 0 && calls != [] && Has(Run(Cleared(capacity), calls), k)
    requires IsFor(calls[|calls| - 1].message, k) && !Has(Run(Cleared(capacity), calls[..|calls| - 1]), k)
    ensures StoredSince(capacity, calls, k, |calls| - 1, NO_FIELDS)
  {
    hide Merge, Has, Run, IsFor, LiveAt;
    LiveAtEnd(capacity, calls, k);
    LiveAtEnd(capacity, calls[..|calls| - 1], k);
    LiveInPrefix(capacity, calls, k, |calls| - 1, |calls| - 1);
  }

  /** After any run and with any clock, what a lookup of a live id returns is the fold of the upserts after the one that
      last created its slot. The creating message itself leaves no fields. */
  lemma {:induction false} StoredPolicy(capacity: nat, calls: seq<Call>, k: Key) returns (birth: nat)
    requires capacity > 0 && Has(Run(Cleared(capacity), calls), k)
    ensures StoredSince(capacity, calls, k, birth, Stored(Run(Cleared(capacity), calls), k))
  {
    hide Merge, StoredSince, Stored, Has, IsFor, Upsert;
    NothingAtFirst(capacity, k);
    var n := |calls| - 1;
    var before := Run(Cleared(capacity), calls[..n]);
    Accounting(capacity, calls[..n]);
    UpsertStores(before, calls[n].message, calls[n].now, k);
    if Has(before, k) {
      birth := StoredPolicy(capacity, calls[..n], k);
      StoredStep(capacity, calls, k, birth, Stored(before, k));
    } else {
      birth := n;
      StoredBirth(capacity, calls, k);
    }
  }

  lemma NothingAtFirst(capacity: nat, k: Key)
    ensures !Has(Cleared(capacity), k)
  {
  }

  // ----- a strictly increasing clock -----

  ghost predicate Increasing(calls: seq<Call>) {
    forall i, j :: 0 <= i < j < |calls| ==> calls[i].now < calls[j].now
  }

  lemma ClearedRefines(capacity: nat)
    requires capacity > 0
    ensures Refines(Cleared(capacity).slots, [], -1, [])
  {
  }

  lemma LruAccepts(capacity: nat, h: History, key: Key, m: Message)
    ensures Lru(capacity, h + [(key, m)]) == Touch(Lru(capacity, h), capacity, key, m)
  {
    assert (h + [(key, m)])[..|h|] == h;
  }

  /** The slot table refines the reference list through every run. */
  lemma {:induction false} RunRefines(capacity: nat, calls: seq<Call>) returns (places: seq<nat>, latest: int)
    requires capacity > 0 && Increasing(calls)
    ensures Refines(Run(Cleared(capacity), calls).slots, places, latest, Lru(capacity, Accepted(calls)))
    ensures latest <= if calls == [] then -1 else calls[|calls| - 1].now
  {
    hide Refines;
    if calls == [] {
      ClearedRefines(capacity);
      places, latest := [], -1;
    } else {
      var n := |calls| - 1;
      var before := calls[..n];
      places, latest := RunRefines(capacity, before);
      var m := calls[n].message;
      assert n > 0 ==> before[n - 1].now < calls[n].now;
      if Acceptable(m) {
        var s := Run(Cleared(capacity), before);
        assert |s.slots| == capacity;
        places := UpsertRefines(s, places, latest, Lru(capacity, Accepted(before)), m, calls[n].now);
        latest := calls[n].now;
        assert Accepted(calls) == Accepted(before) + [(KeyOf(m.group.value), m)];
        LruAccepts(capacity, Accepted(before), KeyOf(m.group.value), m);
      } else {
        assert Accepted(calls) == Accepted(before);
      }
    }
  }

  // ----- which ids are live -----

  function IndexOf(s: seq<Key>, k: Key): (p: nat)
    ensures p <= |s| && (p < |s| ==> s[p] == k)
    ensures forall i :: 0 <= i < p ==> s[i] != k
  {
    if s == [] || s[0] == k then 0 else 1 + IndexOf(s[1..], k)
  }

  /** The distinct ids of a history, most recently upserted first. */
  function ByRecency(h: History): seq<Key> {
    if h == [] then []
    else
      var k := h[|h| - 1].0;
      var older := ByRecency(h[..|h| - 1]);
      var p := IndexOf(older, k);
      if p < |older| then ToFront(k, older, p) else [k] + older
  }

  function KeysOf(l: seq<Group>): (r: seq<Key>)
    ensures |r| == |l| && forall i :: 0 <= i < |l| ==> r[i] == l[i].key
  {
    seq(|l|, i requires 0 <= i < |l| => l[i].key)
  }

  lemma TakeNear(older: seq<Key>, k: Key, p: nat, n: nat)
    requires p < |older| && p < n
    ensures Take(ToFront(k, older, p), n) == ToFront(k, Take(older, n), p)
  {
  }

  lemma TakeFar(older: seq<Key>, k: Key, p: nat, n: nat)
    requires 0 < n <= p < |older|
    ensures Take(ToFront(k, older, p), n) == Take([k] + Take(older, n), n)
  {
  }

  lemma TakeNew(older: seq<Key>, k: Key, n: nat)
    requires 0 < n
    ensures Take([k] + older, n) == Take([k] + Take(older, n), n)
  {
  }

  lemma KeysToFront(g: Group, l: seq<Group>, p: nat)
    requires p < |l|
    ensures KeysOf(ToFront(g, l, p)) == ToFront(g.key, KeysOf(l), p)
  {
  }

  lemma KeysTake(g: Group, l: seq<Group>, n: nat)
    ensures KeysOf(Take([g] + l, n)) == Take([g.key] + KeysOf(l), n)
  {
    KeysCons(g, l);
    hide KeysOf;
    if |l| + 1 > n {
      KeysPrefix([g] + l, n);
    }
  }

  lemma KeysCons(g: Group, l: seq<Group>)
    ensures KeysOf([g] + l) == [g.key] + KeysOf(l)
  {
  }

  lemma KeysPrefix(l: seq<Group>, n: nat)
    requires n <= |l|
    ensures KeysOf(l[..n]) == KeysOf(l)[..n]
  {
  }

  lemma SamePosition(l: seq<Group>, k: Key, older: seq<Key>, n: nat)
    requires KeysOf(l) == Take(older, n)
    ensures Position(l, k) < |l| ==> IndexOf(older, k) == Position(l, k) < n && Position(l, k) < |older|
    ensures Position(l, k) == |l| ==> IndexOf(older, k) == |older| || IndexOf(older, k) >= n
  {
    var q := Position(l, k);
    var p := IndexOf(older, k);
    assert forall i :: 0 <= i < |l| ==> older[i] == KeysOf(l)[i] == l[i].key;
  }

  lemma TouchKeys(l: seq<Group>, capacity: nat, k: Key, m: Message, older: seq<Key>)
    requires capacity > 0 && KeysOf(l) == Take(older, capacity)
    ensures var p := IndexOf(older, k);
            KeysOf(Touch(l, capacity, k, m)) == Take(if p < |older| then ToFront(k, older, p) else [k] + older, capacity)
  {
    hide Merge, ToFront, Take;
    var p := IndexOf(older, k);
    var q := Position(l, k);
    SamePosition(l, k, older, capacity);
    if q < |l| {
      TakeNear(older, k, p, capacity);
      KeysToFront(Group(k, Merge(l[q].fields, m)), l, q);
    } else {
      KeysTake(Group(k, NO_FIELDS), l, capacity);
      if p < |older| {
        TakeFar(older, k, p, capacity);
      } else {
        TakeNew(older, k, capacity);
      }
    }
  }

  lemma {:induction false} LruKeys(capacity: nat, h: History)
    requires capacity > 0
    ensures KeysOf(Lru(capacity, h)) == Take(ByRecency(h), capacity)
  {
    if h != [] {
      var older := h[..|h| - 1];
      LruKeys(capacity, older);
      TouchKeys(Lru(capacity, older), capacity, h[|h| - 1].0, h[|h| - 1].1, ByRecency(older));
    }
  }

  ghost predicate Occurs(h: History, k: Key) {
    exists i :: 0 <= i < |h| && h[i].0 == k
  }

  /** The distinct ids upserted after the last upsert of k. */
  function Since(h: History, k: Key): set<Key> {
    if h == [] || h[|h| - 1].0 == k then {} else {h[|h| - 1].0} + Since(h[..|h| - 1], k)
  }

  /** An id stands in recency order behind exactly the distinct ids upserted after it. */
  lemma {:induction false} RecencyRank(h: History, k: Key)
    ensures Distinct(ByRecency(h))
    ensures Occurs(h, k) <==> k in ByRecency(h)
    ensures Occurs(h, k) ==> Elements(ByRecency(h)[..IndexOf(ByRecency(h), k)]) == Since(h, k)
  {
    if h != [] {
      var older := h[..|h| - 1];
      var x := h[|h| - 1].0;
      RecencyRank(older, k);
      OccursLast(h, k);
      RankStep(ByRecency(older), x, k);
    }
  }

  lemma OccursLast(h: History, k: Key)
    requires h != []
    ensures Occurs(h, k) <==> Occurs(h[..|h| - 1], k) || h[|h| - 1].0 == k
  {
    if Occurs(h[..|h| - 1], k) {
      var i :| 0 <= i < |h| - 1 && h[..|h| - 1][i].0 == k;
      assert h[i].0 == k;
    }
    if Occurs(h, k) && h[|h| - 1].0 != k {
      var i :| 0 <= i < |h| && h[i].0 == k;
      assert h[..|h| - 1][i].0 == k;
    }
  }

  lemma RankStep(older: seq<Key>, x: Key, k: Key)
    requires Distinct(older)
    ensures var p := IndexOf(older, x);
            var newer := if p < |older| then ToFront(x, older, p) else [x] + older;
            && Distinct(newer)
            && (k in newer <==> k in older || k == x)
            && (k == x ==> IndexOf(newer, k) == 0)
            && (k in older && k != x ==>
                  Elements(newer[..IndexOf(newer, k)]) == {x} + Elements(older[..IndexOf(older, k)]))
  {
    if IndexOf(older, x) < |older| {
      RankStepMoved(older, x, k);
    } else {
      RankStepNew(older, x, k);
    }
  }

  lemma RankStepMoved(older: seq<Key>, x: Key, k: Key)
    requires Distinct(older) && IndexOf(older, x) < |older|
    ensures var newer := ToFront(x, older, IndexOf(older, x));
            && Distinct(newer)
            && (k in newer <==> k in older || k == x)
            && (k == x ==> IndexOf(newer, k) == 0)
            && (k in older && k != x ==>
                  Elements(newer[..IndexOf(newer, k)]) == {x} + Elements(older[..IndexOf(older, k)]))
  {
    hide ToFront;
    var p := IndexOf(older, x);
    var r := IndexOf(older, k);
    ToFrontDistinct(older, p);
    ToFrontAt(x, older, p);
    if k in older && k != x {
      RankMoved(older, p, r);
      IndexIs(ToFront(x, older, p), if r < p then r + 1 else r, k);
    }
  }

  lemma RankStepNew(older: seq<Key>, x: Key, k: Key)
    requires Distinct(older) && IndexOf(older, x) == |older|
    ensures var newer := [x] + older;
            && Distinct(newer)
            && (k in newer <==> k in older || k == x)
            && (k == x ==> IndexOf(newer, k) == 0)
            && (k in older && k != x ==>
                  Elements(newer[..IndexOf(newer, k)]) == {x} + Elements(older[..IndexOf(older, k)]))
  {
    var newer := [x] + older;
    var r := IndexOf(older, k);
    if k in older && k != x {
      IndexIs(newer, r + 1, k);
      assert newer[..r + 1] == [x] + older[..r];
    }
  }

  lemma IndexIs(s: seq<Key>, i: nat, k: Key)
    requires Distinct(s) && i < |s| && s[i] == k
    ensures IndexOf(s, k) == i
  {
  }

  lemma RankMoved(older: seq<Key>, p: nat, r: nat)
    requires Distinct(older) && p < |older| && r < |older| && p != r
    ensures var newer := ToFront(older[p], older, p);
            var at := if r < p then r + 1 else r;
            && |newer| == |older| && newer[at] == older[r]
            && Elements(newer[..at]) == {older[p]} + Elements(older[..r])
  {
    var newer := ToFront(older[p], older, p);
    ToFrontAt(older[p], older, p);
    hide ToFront;
    if r < p {
      assert newer[..r + 1] == [older[p]] + older[..r];
    } else {
      assert newer[..r] == [older[p]] + older[..p] + older[p + 1..r];
      assert older[..r] == older[..p] + [older[p]] + older[p + 1..r];
    }
  }

  /** Some accepted upsert of the run was for this id, as strncmp sees it. */
  ghost predicate UpsertedId(calls: seq<Call>, id: string) {
    exists i :: 0 <= i < |calls| && Acceptable(calls[i].message) && SameId(calls[i].message.group.value, id)
  }

  lemma {:induction false} UpsertedIff(calls: seq<Call>, id: string)
    ensures UpsertedId(calls, id) <==> Occurs(Accepted(calls), KeyOf(id))
  {
    hide SameId, KeyOf, Occurs;
    if calls == [] {
      NeverOccurs(KeyOf(id));
    } else {
      var n := |calls| - 1;
      UpsertedIff(calls[..n], id);
      UpsertedLast(calls, id);
      AcceptedLast(calls);
      if Acceptable(calls[n].message) {
        SameKeyIff(calls[n].message.group.value, id);
        OccursLast(Accepted(calls), KeyOf(id));
      }
    }
  }

  lemma AcceptedLast(calls: seq<Call>)
    requires calls != []
    ensures var h := Accepted(calls);
            var m := calls[|calls| - 1].message;
            if Acceptable(m) then
              h != [] && h[..|h| - 1] == Accepted(calls[..|calls| - 1]) && h[|h| - 1].0 == KeyOf(m.group.value)
            else h == Accepted(calls[..|calls| - 1])
  {
  }

  lemma NeverOccurs(k: Key)
    ensures !Occurs([], k)
  {
  }

  lemma UpsertedLast(calls: seq<Call>, id: string)
    requires calls != []
    ensures var m := calls[|calls| - 1].message;
            UpsertedId(calls, id) <==>
            UpsertedId(calls[..|calls| - 1], id) || (Acceptable(m) && SameId(m.group.value, id))
  {
    hide SameId;
    var n := |calls| - 1;
    if UpsertedId(calls[..n], id) {
      var i :| 0 <= i < n && Acceptable(calls[..n][i].message) && SameId(calls[..n][i].message.group.value, id);
      assert calls[i] == calls[..n][i];
    }
    if UpsertedId(calls, id) {
      var i :| 0 <= i < |calls| && Acceptable(calls[i].message) && SameId(calls[i].message.group.value, id);
      assert i < n ==> calls[..n][i] == calls[i];
    }
  }

  /** With a strictly increasing clock the live groups are exactly the `capacity` most recently upserted distinct ids: an
      id is live if and only if it was upserted and fewer than `capacity` other ids have been upserted since. */
  lemma MostRecentlyUpserted(capacity: nat, calls: seq<Call>, id: string)
    requires capacity > 0 && Increasing(calls)
    ensures Lives(Run(Cleared(capacity), calls), id) <==>
            UpsertedId(calls, id) && |Since(Accepted(calls), KeyOf(id))| < capacity
  {
    hide Lives, UpsertedId, Has, Occurs, Since, Accepted, Run, KeyOf;
    LivesIff(Run(Cleared(capacity), calls), id);
    UpsertedIff(calls, id);
    RecentlyUpserted(capacity, calls, KeyOf(id));
  }

  lemma RecentlyUpserted(capacity: nat, calls: seq<Call>, k: Key)
    requires capacity > 0 && Increasing(calls)
    ensures Has(Run(Cleared(capacity), calls), k) <==>
            Occurs(Accepted(calls), k) && |Since(Accepted(calls), k)| < capacity
  {
    var h := Accepted(calls);
    var places, latest := RunRefines(capacity, calls);
    HasIffListed(Run(Cleared(capacity), calls), places, latest, Lru(capacity, h), k);
    LruKeys(capacity, h);
    RecencyRank(h, k);
    InTakeIff(ByRecency(h), capacity, k);
    var p := IndexOf(ByRecency(h), k);
    if Occurs(h, k) {
      PrefixDistinct(ByRecency(h), p);
      DistinctCardinality(ByRecency(h)[..p]);
    }
  }

  lemma PrefixDistinct(s: seq<Key>, p: nat)
    requires Distinct(s) && p <= |s|
    ensures Distinct(s[..p])
  {
  }

  lemma InTakeIff(s: seq<Key>, n: nat, k: Key)
    requires Distinct(s)
    ensures k in Take(s, n) <==> k in s && IndexOf(s, k) < n
  {
    var p := IndexOf(s, k);
    if k in s && p < n {
      assert Take(s, n)[p] == k;
    }
    if k in Take(s, n) {
      var i :| 0 <= i < |Take(s, n)| && Take(s, n)[i] == k;
      assert s[i] == k;
    }
  }

  lemma HasIffListed(s: State, places: seq<nat>, latest: int, l: seq<Group>, k: Key)
    requires Refines(s.slots, places, latest, l)
    ensures Has(s, k) <==> k in KeysOf(l)
  {
    if Has(s, k) {
      var i :| 0 <= i < |s.slots| && s.slots[i].inUse && s.slots[i].key == k;
      var a :| 0 <= a < |places| && places[a] == i;
      assert KeysOf(l)[a] == k;
    }
    if k in KeysOf(l) {
      var a :| 0 <= a < |l| && KeysOf(l)[a] == k;
      assert s.slots[places[a]].inUse && s.slots[places[a]].key == k;
    }
  }
}
