/** With a strictly increasing clock the group table is a least-recently-used map: it is refined to a list of groups,
    most recently upserted first. */
module GroupLru {
  import opened Wrappers
  import opened Sequences
  import opened GroupPolicies

  // ----- the reference -----

  datatype Group = Group(key: Key, fields: Fields)

  function Position(l: seq<Group>, key: Key): (p: nat)
    ensures p <= |l| && (p < |l| ==> l[p].key == key)
    ensures forall i :: 0 <= i < p ==> l[i].key != key
  {
    if l == [] || l[0].key == key then 0 else 1 + Position(l[1..], key)
  }

  function Take<T>(l: seq<T>, n: nat): seq<T> {
    if |l| <= n then l else l[..n]
  }

  /** The list with item p taken out and x put in front. */
  function ToFront<T>(x: T, s: seq<T>, p: nat): seq<T>
    requires p < |s|
  {
    [x] + s[..p] + s[p + 1..]
  }

  /** Moves a known group to the front with the message merged in, or puts a new, empty group there and lets the last one
      go if there is no room. */
  function Touch(l: seq<Group>, capacity: nat, key: Key, m: Message): seq<Group> {
    var p := Position(l, key);
    if p < |l| then ToFront(Group(key, Merge(l[p].fields, m)), l, p)
    else Take([Group(key, NO_FIELDS)] + l, capacity)
  }

  /** The upserts that were accepted, oldest first. */
  type History = seq<(Key, Message)>

  function Lru(capacity: nat, h: History): seq<Group> {
    if h == [] then []
    else
      var (key, m) := h[|h| - 1];
      Touch(Lru(capacity, h[..|h| - 1]), capacity, key, m)
  }

  // ----- the refinement -----

  /** `places` lists exactly the slots in use. */
  ghost predicate Placed(slots: seq<Entry>, places: seq<nat>) {
    && Distinct(places)
    && (forall a :: 0 <= a < |places| ==> places[a] < |slots| && slots[places[a]].inUse)
    && (forall i: nat :: i < |slots| && slots[i].inUse ==> i in places)
  }

  ghost function At(slots: seq<Entry>, places: seq<nat>): (es: seq<Entry>)
    requires forall a :: 0 <= a < |places| ==> places[a] < |slots|
    ensures |es| == |places|
    ensures forall a :: 0 <= a < |places| ==> es[a] == slots[places[a]]
  {
    seq(|places|, a requires 0 <= a < |places| => slots[places[a]])
  }

  /** Times strictly decrease from at most `latest`. */
  ghost predicate Decreasing(es: seq<Entry>, latest: int) {
    && (forall a, b :: 0 <= a < b < |es| ==> es[b].lastUpdate < es[a].lastUpdate)
    && (forall a :: 0 <= a < |es| ==> es[a].lastUpdate <= latest)
  }

  ghost function GroupsOf(es: seq<Entry>): (l: seq<Group>)
    ensures |l| == |es|
    ensures forall a :: 0 <= a < |es| ==> l[a] == Group(es[a].key, es[a].fields)
  {
    seq(|es|, a requires 0 <= a < |es| => Group(es[a].key, es[a].fields))
  }

  /** The slots in use, most recently written first, are the list l. */
  ghost predicate Refines(slots: seq<Entry>, places: seq<nat>, latest: int, l: seq<Group>) {
    && KeysDistinct(slots) && slots != [] && Placed(slots, places)
    && Decreasing(At(slots, places), latest) && l == GroupsOf(At(slots, places))
  }

  lemma ToFrontAt<T>(x: T, s: seq<T>, p: nat)
    requires p < |s|
    ensures |ToFront(x, s, p)| == |s| && ToFront(x, s, p)[0] == x
    ensures forall a :: 0 < a <= p ==> ToFront(x, s, p)[a] == s[a - 1]
    ensures forall a :: p < a < |s| ==> ToFront(x, s, p)[a] == s[a]
  {
  }

  lemma ToFrontDistinct<T>(s: seq<T>, p: nat)
    requires p < |s| && Distinct(s)
    ensures Distinct(ToFront(s[p], s, p))
    ensures forall y :: y in ToFront(s[p], s, p) <==> y in s
    ensures forall a :: 0 < a < |s| ==> ToFront(s[p], s, p)[a] != s[p]
  {
    var q := ToFront(s[p], s, p);
    ToFrontAt(s[p], s, p);
    hide ToFront;
    forall a | 0 <= a < |s|
      ensures s[a] in q
    {
      if a < p { assert q[a + 1] == s[a]; } else if a == p { assert q[0] == s[a]; } else { assert q[a] == s[a]; }
    }
  }

  lemma AtMove(slots: seq<Entry>, places: seq<nat>, p: nat, e: Entry)
    requires Placed(slots, places) && p < |places|
    ensures At(slots[places[p] := e], ToFront(places[p], places, p)) == ToFront(e, At(slots, places), p)
  {
    ToFrontAt(places[p], places, p);
    ToFrontAt(e, At(slots, places), p);
    ToFrontDistinct(places, p);
    hide ToFront;
  }

  lemma PlacedMove(slots: seq<Entry>, places: seq<nat>, p: nat, e: Entry)
    requires Placed(slots, places) && p < |places| && e.inUse
    ensures Placed(slots[places[p] := e], ToFront(places[p], places, p))
  {
    ToFrontDistinct(places, p);
    hide ToFront, Distinct;
    var q := ToFront(places[p], places, p);
    forall a | 0 <= a < |q|
      ensures q[a] < |slots| && slots[places[p] := e][q[a]].inUse
    {
      assert q[a] in places;
    }
  }

  lemma DecreasingMove(es: seq<Entry>, latest: int, p: nat, e: Entry)
    requires Decreasing(es, latest) && p < |es| && latest < e.lastUpdate
    ensures Decreasing(ToFront(e, es, p), e.lastUpdate)
  {
    ToFrontAt(e, es, p);
    hide ToFront;
  }

  lemma GroupsOfMove(es: seq<Entry>, p: nat, e: Entry)
    requires p < |es|
    ensures GroupsOf(ToFront(e, es, p)) == ToFront(Group(e.key, e.fields), GroupsOf(es), p)
  {
    ToFrontAt(e, es, p);
    ToFrontAt(Group(e.key, e.fields), GroupsOf(es), p);
    hide ToFront;
  }

  lemma PlacedAdd(slots: seq<Entry>, places: seq<nat>, i: nat, e: Entry)
    requires Placed(slots, places) && i < |slots| && !slots[i].inUse && e.inUse
    ensures Placed(slots[i := e], [i] + places)
    ensures At(slots[i := e], [i] + places) == [e] + At(slots, places)
  {
    assert i !in places;
  }

  lemma PlacedDrop(slots: seq<Entry>, places: seq<nat>, e: Entry)
    requires Placed(slots, places) && places != [] && !e.inUse
    ensures var n := |places| - 1;
            && Placed(slots[places[n] := e], places[..n])
            && At(slots[places[n] := e], places[..n]) == At(slots, places)[..n]
  {
    var n := |places| - 1;
    assert places == places[..n] + [places[n]];
    assert places[n] !in places[..n];
  }

  lemma PlacesFull(slots: seq<Entry>, places: seq<nat>)
    requires Placed(slots, places)
    ensures |places| <= |slots|
    ensures |places| == |slots| <==> FirstFree(slots, 0) == |slots|
  {
    var all := Below(|slots|);
    DistinctCardinality(places);
    assert Elements(places) <= all;
    SubsetCardinality(Elements(places), all);
    if FirstFree(slots, 0) == |slots| {
      assert Elements(places) == all;
    } else {
      var f := FirstFree(slots, 0);
      assert Elements(places) <= all - {f};
      SubsetCardinality(Elements(places), all - {f});
    }
  }

  function Below(n: nat): (s: set<nat>)
    ensures |s| == n && forall i: nat :: i in s <==> i < n
  {
    if n == 0 then {} else Below(n - 1) + {n - 1}
  }

  lemma {:induction false} FindIsPosition(slots: seq<Entry>, places: seq<nat>, latest: int, l: seq<Group>, key: Key)
    requires Refines(slots, places, latest, l)
    ensures var i := Find(slots, key, 0);
            var p := Position(l, key);
            (i < |slots| <==> p < |l|) && (p < |l| ==> places[p] == i)
  {
    var i := Find(slots, key, 0);
    var p := Position(l, key);
    if p < |l| {
      assert places[p] in places;
      assert slots[places[p]].inUse && slots[places[p]].key == key;
    }
    if i < |slots| {
      assert i in places;
      var a :| 0 <= a < |places| && places[a] == i;
      assert l[a].key == key;
    }
  }

  lemma {:induction false} MoveToFront(slots: seq<Entry>, places: seq<nat>, latest: int, l: seq<Group>, p: nat, e: Entry)
    requires Refines(slots, places, latest, l) && p < |places|
    requires e.inUse && e.key == slots[places[p]].key && latest < e.lastUpdate
    ensures Refines(slots[places[p] := e], ToFront(places[p], places, p), e.lastUpdate, ToFront(Group(e.key, e.fields), l, p))
  {
    PlacedMove(slots, places, p, e);
    AtMove(slots, places, p, e);
    DecreasingMove(At(slots, places), latest, p, e);
    GroupsOfMove(At(slots, places), p, e);
    hide ToFront, Placed, Decreasing, GroupsOf;
  }

  lemma {:induction false} AddToFront(slots: seq<Entry>, places: seq<nat>, latest: int, l: seq<Group>, i: nat, e: Entry)
    requires Refines(slots, places, latest, l) && i < |slots| && !slots[i].inUse
    requires e.inUse && latest < e.lastUpdate
    requires forall k :: 0 <= k < |slots| && slots[k].inUse ==> slots[k].key != e.key
    ensures Refines(slots[i := e], [i] + places, e.lastUpdate, [Group(e.key, e.fields)] + l)
  {
    PlacedAdd(slots, places, i, e);
    DecreasingAdd(At(slots, places), latest, e);
    hide Placed, Decreasing;
    assert GroupsOf([e] + At(slots, places)) == [Group(e.key, e.fields)] + l;
  }

  lemma DecreasingAdd(es: seq<Entry>, latest: int, e: Entry)
    requires Decreasing(es, latest) && latest < e.lastUpdate
    ensures Decreasing([e] + es, e.lastUpdate)
  {
  }

  lemma LastIsOldest(slots: seq<Entry>, places: seq<nat>, latest: int, i: nat)
    requires Placed(slots, places) && Decreasing(At(slots, places), latest) && i in places
    requires forall k :: 0 <= k < |slots| ==> slots[i].lastUpdate <= slots[k].lastUpdate
    ensures places[|places| - 1] == i
  {
    var n := |places| - 1;
    var a :| 0 <= a < |places| && places[a] == i;
    assert At(slots, places)[a].lastUpdate <= At(slots, places)[n].lastUpdate;
  }

  /** A full table gives up the last place. */
  lemma DropLast(s: State, places: seq<nat>, latest: int, l: seq<Group>)
    requires Refines(s.slots, places, latest, l) && FirstFree(s.slots, 0) == |s.slots|
    ensures places != []
    ensures var t := EvictOldest(s).slots;
            && Refines(t, places[..|places| - 1], latest, l[..|l| - 1])
            && FirstFree(t, 0) < |t| == |s.slots|
            && forall k :: 0 <= k < |t| && t[k].inUse ==> s.slots[k].inUse && t[k].key == s.slots[k].key
  {
    OldestIsLast(s, places, latest);
    var n := |places| - 1;
    var i := Oldest(s.slots);
    PlacedDrop(s.slots, places, s.slots[i].(inUse := false));
    GroupsDrop(At(s.slots, places));
    DecreasingDrop(At(s.slots, places), latest);
    hide Placed, Oldest, At, GroupsOf, Decreasing;
    assert !EvictOldest(s).slots[i].inUse;
  }

  lemma OldestIsLast(s: State, places: seq<nat>, latest: int)
    requires s.slots != [] && Placed(s.slots, places) && Decreasing(At(s.slots, places), latest)
    requires FirstFree(s.slots, 0) == |s.slots|
    ensures places != [] && places[|places| - 1] == Oldest(s.slots)
  {
    hide Oldest, Decreasing;
    PlacesFull(s.slots, places);
    EvictsLeastRecent(s);
    assert Oldest(s.slots) in places;
    LastIsOldest(s.slots, places, latest, Oldest(s.slots));
  }

  lemma GroupsDrop(es: seq<Entry>)
    requires es != []
    ensures GroupsOf(es[..|es| - 1]) == GroupsOf(es)[..|es| - 1]
  {
  }

  lemma DecreasingDrop(es: seq<Entry>, latest: int)
    requires es != [] && Decreasing(es, latest)
    ensures Decreasing(es[..|es| - 1], latest)
  {
  }

  lemma TakeOfCons<T>(x: T, l: seq<T>, n: nat)
    requires |l| == n > 0
    ensures Take([x] + l, n) == [x] + l[..n - 1]
  {
  }

  /** One accepted upsert later than everything stored is one touch of the reference list. */
  lemma UpsertRefines(s: State, places: seq<nat>, latest: int, l: seq<Group>, m: Message, now: u64) returns (q: seq<nat>)
    requires Refines(s.slots, places, latest, l) && Acceptable(m) && latest < now
    ensures Refines(Upsert(s, m, now).state.slots, q, now, Touch(l, |s.slots|, KeyOf(m.group.value), m))
  {
    hide Refines, Touch, Upsert;
    var key := KeyOf(m.group.value);
    if Find(s.slots, key, 0) < |s.slots| {
      q := UpdateRefines(s, places, latest, l, m, now);
    } else if FirstFree(s.slots, 0) < |s.slots| {
      q := InsertRefines(s, places, latest, l, m, now);
    } else {
      q := EvictRefines(s, places, latest, l, m, now);
    }
  }

  lemma UpdateRefines(s: State, places: seq<nat>, latest: int, l: seq<Group>, m: Message, now: u64) returns (q: seq<nat>)
    requires Refines(s.slots, places, latest, l) && Acceptable(m) && latest < now
    requires Find(s.slots, KeyOf(m.group.value), 0) < |s.slots|
    ensures Refines(Upsert(s, m, now).state.slots, q, now, Touch(l, |s.slots|, KeyOf(m.group.value), m))
  {
    var key := KeyOf(m.group.value);
    FindIsPosition(s.slots, places, latest, l, key);
    hide Merge, Prefix, Placed, Decreasing, KeysDistinct, FirstFree, ToFront;
    var i := Find(s.slots, key, 0);
    var p := Position(l, key);
    MoveToFront(s.slots, places, latest, l, p, s.slots[i].(lastUpdate := now, fields := Merge(s.slots[i].fields, m)));
    q := ToFront(i, places, p);
  }

  lemma InsertRefines(s: State, places: seq<nat>, latest: int, l: seq<Group>, m: Message, now: u64) returns (q: seq<nat>)
    requires Refines(s.slots, places, latest, l) && Acceptable(m) && latest < now
    requires Find(s.slots, KeyOf(m.group.value), 0) == |s.slots| && FirstFree(s.slots, 0) < |s.slots|
    ensures Refines(Upsert(s, m, now).state.slots, q, now, Touch(l, |s.slots|, KeyOf(m.group.value), m))
  {
    var key := KeyOf(m.group.value);
    FindIsPosition(s.slots, places, latest, l, key);
    PlacesFull(s.slots, places);
    hide Merge, Prefix, Placed, Decreasing, KeysDistinct;
    var f := FirstFree(s.slots, 0);
    AddToFront(s.slots, places, latest, l, f, Entry(key, now, NO_FIELDS, true));
    q := [f] + places;
  }

  lemma EvictedSlots(s: State, m: Message, now: u64)
    requires s.slots != [] && Acceptable(m)
    requires Find(s.slots, KeyOf(m.group.value), 0) == |s.slots| == FirstFree(s.slots, 0)
    requires FirstFree(EvictOldest(s).slots, 0) < |s.slots|
    ensures var t := EvictOldest(s).slots;
            Upsert(s, m, now).state.slots == t[FirstFree(t, 0) := Entry(KeyOf(m.group.value), now, NO_FIELDS, true)]
  {
    hide Merge, Prefix, Oldest;
  }

  lemma {:induction false} NotFound(slots: seq<Entry>, places: seq<nat>, latest: int, l: seq<Group>, m: Message)
    requires Refines(slots, places, latest, l) && Acceptable(m)
    requires Find(slots, KeyOf(m.group.value), 0) == |slots| == FirstFree(slots, 0)
    ensures slots != [] && |places| == |l| == |slots|
    ensures Touch(l, |slots|, KeyOf(m.group.value), m) == [Group(KeyOf(m.group.value), NO_FIELDS)] + l[..|l| - 1]
    ensures forall k :: 0 <= k < |slots| && slots[k].inUse ==> slots[k].key != KeyOf(m.group.value)
  {
    var key := KeyOf(m.group.value);
    FindIsPosition(slots, places, latest, l, key);
    PlacesFull(slots, places);
    hide Merge, Prefix, Placed, Decreasing, KeysDistinct;
    TakeOfCons(Group(key, NO_FIELDS), l, |slots|);
  }

  lemma EvictRefines(s: State, places: seq<nat>, latest: int, l: seq<Group>, m: Message, now: u64) returns (q: seq<nat>)
    requires Refines(s.slots, places, latest, l) && Acceptable(m) && latest < now
    requires Find(s.slots, KeyOf(m.group.value), 0) == |s.slots| == FirstFree(s.slots, 0)
    ensures Refines(Upsert(s, m, now).state.slots, q, now, Touch(l, |s.slots|, KeyOf(m.group.value), m))
  {
    hide Refines, Upsert, EvictOldest, Touch, Prefix;
    var key := KeyOf(m.group.value);
    NotFound(s.slots, places, latest, l, m);
    DropLast(s, places, latest, l);
    var t := EvictOldest(s).slots;
    var n := |places| - 1;
    AddToFront(t, places[..n], latest, l[..n], FirstFree(t, 0), Entry(key, now, NO_FIELDS, true));
    q := [FirstFree(t, 0)] + places[..n];
    EvictedSlots(s, m, now);
  }
}
