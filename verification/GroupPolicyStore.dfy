/** The policy store's group table as the program has it (group_policy_store.cpp): a fixed array that is scanned and
    overwritten in place. Every call is proved to be the corresponding step of GroupPolicies. */
module GroupPolicyStore {
  import opened Wrappers
  import opened GroupPolicies

  class GroupPolicyStore {
    const groups: array<Entry>
    var groupCount: nat
    var groupEvictions: nat

    ghost predicate Valid()
      reads this, groups
    {
      groups.Length > 0 && Inv(View())
    }

    ghost function View(): State
      reads this, groups
    {
      State(groups[..], groupCount, groupEvictions)
    }

    constructor (capacity: nat)
      requires capacity > 0
      ensures View() == Cleared(capacity) && fresh(groups)
    {
      groups := new Entry[capacity](i => FREE);
      groupCount, groupEvictions := 0, 0;
      new;
      assert groups[..] == Cleared(capacity).slots;
    }

    /** The slot holding the id that strncmp finds first, or the number of slots. */
    method FindGroup(key: Key) returns (i: nat)
      ensures i == Find(groups[..], key, 0)
    {
      i := 0;
      while i < groups.Length
        invariant i <= groups.Length
        invariant Find(groups[..], key, 0) == Find(groups[..], key, i)
      {
        if groups[i].inUse && groups[i].key == key {
          return;
        }
        i := i + 1;
      }
    }

    /** Puts the id into the first free slot, if there is one. */
    method InsertGroup(key: Key, now: u64) returns (ok: bool)
      modifies this`groupCount, groups
      ensures Outcome(View(), ok) == Insert(old(View()), key, now)
    {
      var i := 0;
      while i < groups.Length
        invariant i <= groups.Length
        invariant FirstFree(groups[..], 0) == FirstFree(groups[..], i)
        invariant groups[..] == old(groups[..]) && groupCount == old(groupCount)
      {
        if !groups[i].inUse {
          groups[i] := Entry(key, now, NO_FIELDS, true);
          groupCount := groupCount + 1;
          assert groups[..] == old(groups[..])[i := Entry(key, now, NO_FIELDS, true)];
          return true;
        }
        i := i + 1;
      }
      return false;
    }

    method EvictOldestGroup()
      requires groups.Length > 0
      modifies this`groupCount, groups
      ensures View() == EvictOldest(old(View()))
    {
      var oldest: u64 := UINT64_MAX;
      var oldestIdx := 0;
      for i := 0 to groups.Length
        invariant OldestUpTo(groups[..], i) == (oldest, oldestIdx)
        invariant groups[..] == old(groups[..])
      {
        if groups[i].inUse && groups[i].lastUpdate < oldest {
          oldest := groups[i].lastUpdate;
          oldestIdx := i;
        }
      }
      groups[oldestIdx] := groups[oldestIdx].(inUse := false);
      if groupCount > 0 {
        groupCount := groupCount - 1;
      }
    }

    /** `now` is what the store's clock shows during the call. */
    method UpsertGroup(m: Message, now: u64) returns (ok: bool)
      requires Valid()
      modifies this, groups
      ensures Valid() && Outcome(View(), ok) == Upsert(old(View()), m, now)
    {
      UpsertInv(View(), m, now);
      hide Inv, Merge, Prefix, Has;
      if m.group.None? {
        return false;
      }
      if |m.group.value| > MAX_GROUP_ID_LEN {
        return false;
      }
      var key := KeyOf(m.group.value);
      var i := FindGroup(key);
      if i < groups.Length {
        var e := groups[i];
        groups[i] := e.(lastUpdate := now, fields := Merge(e.fields, m));
        assert groups[..] == old(groups[..])[i := e.(lastUpdate := now, fields := Merge(e.fields, m))];
        return true;
      }
      ok := InsertGroup(key, now);
      if ok {
        return;
      }
      EvictOldestGroup();
      groupEvictions := groupEvictions + 1;
      ok := InsertGroup(key, now);
    }

    /** Finds the live group with this id, as strncmp compares the first 32 characters of ids. */
    method GetGroup(id: string) returns (r: Option<Fields>)
      requires Valid()
      ensures r.Some? <==> exists i :: 0 <= i < groups.Length && groups[i].inUse && SameId(groups[i].key, id)
      ensures forall i :: 0 <= i < groups.Length && groups[i].inUse && SameId(groups[i].key, id) ==> r == Some(groups[i].fields)
    {
      LivesIff(View(), id);
      hide SameId;
      assert forall i :: 0 <= i < groups.Length ==> groups[i] == View().slots[i];
      var i := FindGroup(KeyOf(id));
      if i < groups.Length {
        assert groups[..][i].inUse && groups[..][i].key == KeyOf(id);
        return Some(groups[i].fields);
      }
      return None;
    }

    method Clear()
      requires groups.Length > 0
      modifies this, groups
      ensures View() == Cleared(groups.Length)
    {
      for i := 0 to groups.Length
        invariant forall k :: 0 <= k < i ==> groups[k] == FREE
      {
        groups[i] := FREE;
      }
      groupCount, groupEvictions := 0, 0;
      assert groups[..] == Cleared(groups.Length).slots;
    }
  }
}
