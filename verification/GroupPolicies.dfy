/** The group table of the policy store as a value: a fixed number of slots that are searched, filled and reused. */
module GroupPolicies {
  import opened Wrappers

  const MAX_GROUP_ID_LEN := 32

  datatype ViolationAction = NO_ACTION | WARN | SOFT_KILL | HARD_KILL

  datatype CpuPart = CpuPart(maxPct: Option<nat>)
  datatype MemPart = MemPart(maxBytes: Option<u64>, highBytes: Option<u64>)
  datatype PidsPart = PidsPart(max: Option<nat>)
  datatype TimeoutsPart = TimeoutsPart(applyDeadlineMs: Option<nat>)

  /** The message fields the store reads. */
  datatype Message = Message(
    group: Option<string>,
    cpu: Option<CpuPart>,
    mem: Option<MemPart>,
    pids: Option<PidsPart>,
    action: Option<ViolationAction>,
    timeouts: Option<TimeoutsPart>)

  datatype Fields = Fields(
    cpuMaxPct: Option<nat>,
    memMaxBytes: Option<u64>,
    memHighBytes: Option<u64>,
    pidsMax: Option<nat>,
    defaultAction: Option<ViolationAction>,
    applyDeadlineMs: Option<nat>)

  const NO_FIELDS := Fields(None, None, None, None, None, None)

  function Or<T>(newer: Option<T>, older: Option<T>): Option<T> {
    if newer.Some? then newer else older
  }

  /** A message overwrites the fields it carries and leaves the others. */
  function Merge(f: Fields, m: Message): Fields {
    Fields(
      if m.cpu.Some? then Or(m.cpu.value.maxPct, f.cpuMaxPct) else f.cpuMaxPct,
      if m.mem.Some? then Or(m.mem.value.maxBytes, f.memMaxBytes) else f.memMaxBytes,
      if m.mem.Some? then Or(m.mem.value.highBytes, f.memHighBytes) else f.memHighBytes,
      if m.pids.Some? then Or(m.pids.value.max, f.pidsMax) else f.pidsMax,
      Or(m.action, f.defaultAction),
      if m.timeouts.Some? then Or(m.timeouts.value.applyDeadlineMs, f.applyDeadlineMs) else f.applyDeadlineMs)
  }

  /** What strncmp and strncpy see of an id: at most n characters, up to the first NUL. */
  function Prefix(s: string, n: nat): (r: string)
    ensures |r| <= n && '\0' !in r
  {
    if n == 0 || s == [] || s[0] == '\0' then [] else [s[0]] + Prefix(s[1..], n - 1)
  }

  /** An id as a slot keeps it. */
  type Key = s: string | |s| <= MAX_GROUP_ID_LEN && '\0' !in s

  function KeyOf(id: string): Key {
    Prefix(id, MAX_GROUP_ID_LEN)
  }

  // ----- which ids are the same -----

  /** Character i of a C string, whose characters from its end on are taken to be NUL. */
  function CharAt(s: string, i: nat): char {
    if i < |s| then s[i] else '\0'
  }

  /** No NUL before position i. */
  ghost predicate Reaches(s: string, i: nat) {
    forall j: nat :: j < i ==> CharAt(s, j) != '\0'
  }

  /** strncmp(a, b, n) is 0: a and b have the same characters up to the first NUL or position n. */
  ghost predicate SameUpTo(a: string, b: string, n: nat) {
    forall i: nat :: i < n && Reaches(a, i) ==> CharAt(a, i) == CharAt(b, i)
  }

  ghost predicate SameId(a: string, b: string) {
    SameUpTo(a, b, 32)
  }

  lemma ReachesTail(s: string, i: nat)
    ensures Reaches(s, i + 1) <==> CharAt(s, 0) != '\0' && Reaches(if s == [] then [] else s[1..], i)
  {
    var t := if s == [] then [] else s[1..];
    assert forall j: nat :: CharAt(t, j) == CharAt(s, j + 1);
    if Reaches(s, i + 1) {
      assert CharAt(s, 0) != '\0';
    } else {
      var j: nat :| j < i + 1 && CharAt(s, j) == '\0';
      assert j > 0 ==> CharAt(t, j - 1) == '\0';
    }
  }

  lemma SameTail(a: string, b: string, n: nat)
    requires a != [] && b != [] && a[0] == b[0] != '\0' && n > 0
    ensures SameUpTo(a, b, n) <==> SameUpTo(a[1..], b[1..], n - 1)
  {
    hide Reaches;
    forall i: nat
      ensures Reaches(a, i + 1) <==> Reaches(a[1..], i)
      ensures CharAt(a, i + 1) == CharAt(a[1..], i) && CharAt(b, i + 1) == CharAt(b[1..], i)
    {
      ReachesTail(a, i);
    }
    if SameUpTo(a[1..], b[1..], n - 1) {
      forall i: nat | i < n && Reaches(a, i)
        ensures CharAt(a, i) == CharAt(b, i)
      {
        if i > 0 {
          assert Reaches(a[1..], i - 1);
        }
      }
    }
    if SameUpTo(a, b, n) {
      forall i: nat | i < n - 1 && Reaches(a[1..], i)
        ensures CharAt(a[1..], i) == CharAt(b[1..], i)
      {
        assert Reaches(a, i + 1);
      }
    }
  }

  lemma {:induction false} PrefixIff(a: string, b: string, n: nat)
    ensures Prefix(a, n) == Prefix(b, n) <==> SameUpTo(a, b, n)
  {
    if n > 0 {
      assert Reaches(a, 0);
      if CharAt(a, 0) == CharAt(b, 0) {
        if CharAt(a, 0) == '\0' {
          assert forall i: nat :: i > 0 ==> !Reaches(a, i);
        } else {
          PrefixIff(a[1..], b[1..], n - 1);
          SameTail(a, b, n);
          assert Prefix(a, n)[1..] == Prefix(a[1..], n - 1) && Prefix(b, n)[1..] == Prefix(b[1..], n - 1);
        }
      } else {
        assert Prefix(a, n) != [] ==> Prefix(a, n)[0] == CharAt(a, 0);
        assert Prefix(b, n) != [] ==> Prefix(b, n)[0] == CharAt(b, 0);
      }
    }
  }

  lemma {:induction false} PrefixWhole(s: string, n: nat)
    requires |s| <= n && '\0' !in s
    ensures Prefix(s, n) == s
  {
    if s != [] {
      PrefixWhole(s[1..], n - 1);
    }
  }

  /** Two ids share a slot exactly if they have the same characters up to the first NUL or the 32nd; a slot's own id is
      such an id, and ids of at most 32 characters without NUL share a slot only if they are equal. */
  lemma SameKeyIff(a: string, b: string)
    ensures KeyOf(a) == KeyOf(b) <==> SameId(a, b)
    ensures |a| <= 32 && '\0' !in a ==> KeyOf(a) == a
    ensures |a| <= 32 && |b| <= 32 && '\0' !in a && '\0' !in b ==> (SameId(a, b) <==> a == b)
  {
    PrefixIff(a, b, 32);
    if |a| <= 32 && '\0' !in a {
      PrefixWhole(a, 32);
    }
    if |b| <= 32 && '\0' !in b {
      PrefixWhole(b, 32);
    }
  }

  datatype Entry = Entry(key: Key, lastUpdate: u64, fields: Fields, inUse: bool)

  const FREE := Entry("", 0, NO_FIELDS, false)

  /** The first slot from i on that holds the key, or |slots|. */
  function Find(slots: seq<Entry>, key: Key, i: nat): (r: nat)
    requires i <= |slots|
    ensures i <= r <= |slots|
    ensures r < |slots| ==> slots[r].inUse && slots[r].key == key
    ensures forall k :: i <= k < r ==> !(slots[k].inUse && slots[k].key == key)
    decreases |slots| - i
  {
    if i == |slots| || (slots[i].inUse && slots[i].key == key) then i else Find(slots, key, i + 1)
  }

  /** The first free slot from i on, or |slots|. */
  function FirstFree(slots: seq<Entry>, i: nat): (r: nat)
    requires i <= |slots|
    ensures i <= r <= |slots|
    ensures r < |slots| ==> !slots[r].inUse
    ensures forall k :: i <= k < r ==> slots[k].inUse
    decreases |slots| - i
  {
    if i == |slots| || !slots[i].inUse then i else FirstFree(slots, i + 1)
  }

  /** What the eviction loop has found after the first i slots: the least time seen below UINT64_MAX and where it first
      occurred, or slot 0. */
  function OldestUpTo(slots: seq<Entry>, i: nat): (r: (u64, nat))
    requires i <= |slots| && slots != []
    ensures r.1 < |slots|
  {
    if i == 0 then (UINT64_MAX, 0)
    else
      var (oldest, at) := OldestUpTo(slots, i - 1);
      if slots[i - 1].inUse && slots[i - 1].lastUpdate < oldest then (slots[i - 1].lastUpdate, i - 1) else (oldest, at)
  }

  function Oldest(slots: seq<Entry>): (r: nat)
    requires slots != []
    ensures r < |slots|
  {
    OldestUpTo(slots, |slots|).1
  }

  datatype State = State(slots: seq<Entry>, count: nat, evictions: nat)

  datatype Outcome = Outcome(state: State, ok: bool)

  /** Fills the first free slot, with the id and the time only; the rest of the message is not stored. */
  function Insert(s: State, key: Key, now: u64): Outcome {
    var i := FirstFree(s.slots, 0);
    if i < |s.slots|
    then Outcome(State(s.slots[i := Entry(key, now, NO_FIELDS, true)], s.count + 1, s.evictions), true)
    else Outcome(s, false)
  }

  function EvictOldest(s: State): State
    requires s.slots != []
  {
    var i := Oldest(s.slots);
    s.(slots := s.slots[i := s.slots[i].(inUse := false)], count := if s.count > 0 then s.count - 1 else 0)
  }

  predicate Acceptable(m: Message) {
    m.group.Some? && |m.group.value| <= MAX_GROUP_ID_LEN
  }

  function Upsert(s: State, m: Message, now: u64): Outcome
    requires s.slots != []
  {
    if !Acceptable(m) then Outcome(s, false)
    else
      var key := KeyOf(m.group.value);
      var i := Find(s.slots, key, 0);
      if i < |s.slots| then
        var e := s.slots[i];
        Outcome(s.(slots := s.slots[i := e.(lastUpdate := now, fields := Merge(e.fields, m))]), true)
      else if FirstFree(s.slots, 0) < |s.slots| then Insert(s, key, now)
      else
        var t := EvictOldest(s);
        Insert(t.(evictions := t.evictions + 1), key, now)
  }

  function Cleared(capacity: nat): State {
    State(seq(capacity, i => FREE), 0, 0)
  }

  // ----- with any clock -----

  function Used(slots: seq<Entry>): nat {
    if slots == [] then 0 else Used(slots[..|slots| - 1]) + if slots[|slots| - 1].inUse then 1 else 0
  }

  ghost predicate KeysDistinct(slots: seq<Entry>) {
    forall i, j :: 0 <= i < j < |slots| && slots[i].inUse && slots[j].inUse ==> slots[i].key != slots[j].key
  }

  ghost predicate Inv(s: State) {
    s.slots != [] && KeysDistinct(s.slots) && s.count == Used(s.slots)
  }

  lemma {:induction false} UsedUpdate(slots: seq<Entry>, i: nat, e: Entry)
    requires i < |slots|
    ensures Used(slots[i := e]) == Used(slots) + (if e.inUse then 1 else 0) - (if slots[i].inUse then 1 else 0)
  {
    var n := |slots| - 1;
    if i < n {
      assert slots[i := e][..n] == slots[..n][i := e];
      UsedUpdate(slots[..n], i, e);
    } else {
      assert slots[i := e][..n] == slots[..n];
    }
  }

  lemma {:induction false} UsedBounds(slots: seq<Entry>)
    ensures Used(slots) <= |slots|
    ensures Used(slots) == |slots| <==> forall i :: 0 <= i < |slots| ==> slots[i].inUse
  {
    if slots != [] {
      UsedBounds(slots[..|slots| - 1]);
    }
  }

  lemma {:induction false} OldestIsMinimum(slots: seq<Entry>, i: nat)
    requires i <= |slots| && slots != [] && forall k :: 0 <= k < |slots| ==> slots[k].inUse
    ensures var (oldest, at) := OldestUpTo(slots, i);
            && (forall k :: 0 <= k < i ==> oldest <= slots[k].lastUpdate)
            && (forall k :: 0 <= k < at ==> oldest < slots[k].lastUpdate)
            && (oldest < UINT64_MAX ==> at < i && slots[at].lastUpdate == oldest)
            && (oldest == UINT64_MAX ==> at == 0)
  {
    if i > 0 {
      OldestIsMinimum(slots, i - 1);
    }
  }

  /** Whatever the clock does, the slot given up by a full table is the first whose group was updated longest ago. */
  lemma EvictsLeastRecent(s: State)
    requires s.slots != [] && FirstFree(s.slots, 0) == |s.slots|
    ensures var i := Oldest(s.slots);
            && EvictOldest(s).slots == s.slots[i := s.slots[i].(inUse := false)]
            && (forall k :: 0 <= k < |s.slots| ==> s.slots[i].lastUpdate <= s.slots[k].lastUpdate)
            && (forall k :: 0 <= k < i ==> s.slots[i].lastUpdate < s.slots[k].lastUpdate)
  {
    OldestIsMinimum(s.slots, |s.slots|);
  }

  lemma InsertInv(s: State, key: Key, now: u64)
    requires Inv(s) && FirstFree(s.slots, 0) < |s.slots|
    requires forall k :: 0 <= k < |s.slots| && s.slots[k].inUse ==> s.slots[k].key != key
    ensures Insert(s, key, now).ok && Inv(Insert(s, key, now).state)
    ensures Insert(s, key, now).state.evictions == s.evictions && Insert(s, key, now).state.count == s.count + 1
  {
    UsedUpdate(s.slots, FirstFree(s.slots, 0), Entry(key, now, NO_FIELDS, true));
  }

  lemma EvictInv(s: State)
    requires Inv(s) && FirstFree(s.slots, 0) == |s.slots|
    ensures Inv(EvictOldest(s)) && FirstFree(EvictOldest(s).slots, 0) == Oldest(s.slots)
    ensures EvictOldest(s).count == s.count - 1 && EvictOldest(s).evictions == s.evictions
  {
    var i := Oldest(s.slots);
    UsedBounds(s.slots);
    UsedUpdate(s.slots, i, s.slots[i].(inUse := false));
    var slots := EvictOldest(s).slots;
    assert !slots[i].inUse && forall k :: 0 <= k < |slots| && k != i ==> slots[k] == s.slots[k];
  }

  /** The key is one of the live groups. */
  ghost predicate Has(s: State, key: Key) {
    exists i :: 0 <= i < |s.slots| && s.slots[i].inUse && s.slots[i].key == key
  }

  /** Some slot in use holds this id, as strncmp sees it. */
  ghost predicate Lives(s: State, id: string) {
    exists i :: 0 <= i < |s.slots| && s.slots[i].inUse && SameId(s.slots[i].key, id)
  }

  lemma LivesIff(s: State, id: string)
    ensures Lives(s, id) <==> Has(s, KeyOf(id))
    ensures forall i :: 0 <= i < |s.slots| ==> (SameId(s.slots[i].key, id) <==> s.slots[i].key == KeyOf(id))
  {
    hide SameId, KeyOf;
    forall i | 0 <= i < |s.slots|
      ensures SameId(s.slots[i].key, id) <==> s.slots[i].key == KeyOf(id)
    {
      SameKeyIff(s.slots[i].key, id);
    }
  }

  /** An upsert fails only for a missing or over-long id, and then changes nothing; ids stay distinct and the count exact;
      and count + evictions grows by one exactly when a new group is created. */
  lemma UpsertInv(s: State, m: Message, now: u64)
    requires Inv(s)
    ensures var r := Upsert(s, m, now);
            && Inv(r.state) && |r.state.slots| == |s.slots|
            && (r.ok <==> m.group.Some? && |m.group.value| <= 32)
            && (!r.ok ==> r.state == s)
            && r.state.count + r.state.evictions ==
               s.count + s.evictions + (if r.ok && !Has(s, KeyOf(m.group.value)) then 1 else 0)
            && (r.ok ==> Has(r.state, KeyOf(m.group.value)))
  {
    hide Merge, Prefix;
    if Acceptable(m) {
      var key := KeyOf(m.group.value);
      var i := Find(s.slots, key, 0);
      if i < |s.slots| {
        assert Has(s, key);
        var e := s.slots[i];
        UsedUpdate(s.slots, i, e.(lastUpdate := now, fields := Merge(e.fields, m)));
      } else if FirstFree(s.slots, 0) < |s.slots| {
        InsertInv(s, key, now);
      } else {
        EvictInv(s);
        var t := EvictOldest(s);
        InsertInv(t.(evictions := t.evictions + 1), key, now);
      }
      var r := Upsert(s, m, now);
      if i == |s.slots| {
        var j := if FirstFree(s.slots, 0) < |s.slots| then FirstFree(s.slots, 0) else Oldest(s.slots);
        assert r.state.slots[j].inUse && r.state.slots[j].key == key;
      } else {
        assert r.state.slots[i].inUse && r.state.slots[i].key == key;
      }
    }
  }
}
