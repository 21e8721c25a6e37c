/** The status socket's event side as the program has it (status.cpp). Each method is one of its critical sections and is
    proved to be the corresponding step of EventBus. */
module StatusSocket {
  import opened Sequences
  import opened RingBuffer
  import EventBus

  const REPLAY := 100

  /** Message i is the event that the stream names. */
  ghost predicate Carries<E>(messages: seq<E>, stream: seq<nat>, pushed: seq<E>) {
    && |messages| == |stream|
    && forall i :: 0 <= i < |stream| ==> stream[i] < |pushed| && messages[i] == pushed[stream[i]]
  }

  class StatusSocket<E(0)> {
    const ring: RingBuffer<E>
    var subscribers: seq<EventBus.Client>
    /** The messages sent to each connection. */
    var sent: map<EventBus.Client, seq<E>>
    ghost var inflight: map<EventBus.Publisher, nat>
    ghost var returned: seq<nat>
    ghost var holder: EventBus.Holder
    ghost var feeds: map<EventBus.Client, EventBus.Feed>

    ghost function View(): EventBus.Bus
      reads this, ring
    {
      EventBus.Bus(ring.capacity, |ring.pushed|, inflight, returned, subscribers, holder, feeds)
    }

    ghost predicate SentOk()
      reads `sent, `feeds, ring
    {
      && sent.Keys == feeds.Keys
      && forall c :: c in sent ==> Carries(sent[c], feeds[c].stream, ring.pushed)
    }

    ghost predicate Valid()
      reads this, ring, ring.buffer
    {
      ring.Valid() && ring.capacity == REPLAY && SentOk() && EventBus.Wired(View())
    }

    constructor ()
      ensures Valid() && View() == EventBus.Init(100)
    {
      ring := new RingBuffer<E>(REPLAY);
      subscribers, sent := [], map[];
      inflight, returned, holder, feeds := map[], [], EventBus.Nobody, map[];
    }

    /** A send that works: delivers one message. */
    method Send(c: EventBus.Client, event: E, ghost index: nat)
      requires Valid() && c in feeds && index < |ring.pushed| && ring.pushed[index] == event
      modifies this`sent, this`feeds
      ensures Valid() && feeds.Keys == old(feeds).Keys
      ensures feeds == old(feeds)[c := old(feeds)[c].(stream := old(feeds)[c].stream + [index])]
    {
      sent := sent[c := sent[c] + [event]];
      feeds := feeds[c := feeds[c].(stream := feeds[c].stream + [index])];
    }

    /** First half of publish_event, under the ring's lock. */
    method PushEvent(ghost p: EventBus.Publisher, event: E)
      requires Valid() && p !in inflight
      modifies this`inflight, ring, ring.buffer
      ensures Valid() && ring.pushed == old(ring.pushed) + [event]
      ensures View() == EventBus.Next(old(View()), EventBus.Push(p))
    {
      inflight := inflight[p := |ring.pushed|];
      ring.Push(event);
    }

    /** One step of the broadcast loop: a connection whose send fails is closed and erased, and the next one moves up. */
    method SendOrErase(i: nat, event: E, ghost index: nat, failed: set<EventBus.Client>) returns (next: nat)
      requires Valid() && i < |subscribers| && subscribers[i] in feeds
      requires index < |ring.pushed| && ring.pushed[index] == event
      modifies this`subscribers, this`sent, this`feeds
      ensures Valid()
      ensures var c := old(subscribers)[i];
              if c in failed then
                && next == i && subscribers == old(subscribers)[..i] + old(subscribers)[i + 1..]
                && feeds == old(feeds)
              else
                && next == i + 1 && subscribers == old(subscribers)
                && feeds == old(feeds)[c := EventBus.SendLive(old(feeds)[c], index)]
    {
      hide StatusSocket.SentOk;
      var c := subscribers[i];
      if c in failed {
        subscribers := subscribers[..i] + subscribers[i + 1..];
        next := i;
      } else {
        Send(c, event, index);
        MarkLive(c, index);
        next := i + 1;
      }
    }

    ghost method MarkLive(c: EventBus.Client, index: nat)
      requires SentOk() && c in feeds
      modifies this`feeds
      ensures SentOk() && feeds == old(feeds)[c := old(feeds)[c].(live := old(feeds)[c].live + [index])]
    {
      feeds := feeds[c := feeds[c].(live := feeds[c].live + [index])];
    }

    method SendLoop(event: E, ghost index: nat, failed: set<EventBus.Client>)
      requires Valid() && index < |ring.pushed| && ring.pushed[index] == event
      requires Distinct(subscribers) && forall c :: c in subscribers ==> c in feeds
      modifies this`subscribers, this`sent, this`feeds
      ensures Valid()
      ensures subscribers == EventBus.Without(old(subscribers), failed)
      ensures feeds == EventBus.SendAll(old(feeds), old(subscribers), failed, index)
    {
      hide EventBus.Without, EventBus.SendAll, EventBus.SendLive, StatusSocket.SentOk, Distinct;
      ghost var all := subscribers;
      ghost var d: nat := 0;
      var i: nat := 0;
      StartOfLoop(feeds, all, failed, index);
      while i < |subscribers|
        invariant Valid()
        invariant d <= |all| && i <= |subscribers|
        invariant subscribers[..i] == EventBus.Without(all[..d], failed)
        invariant subscribers[i..] == all[d..]
        invariant feeds == EventBus.SendAll(old(feeds), all[..d], failed, index)
        decreases |all| - d
      {
        assert subscribers[i] == subscribers[i..][0] == all[d];
        LoopStep(old(feeds), all, d, failed, index);
        ghost var before, k := subscribers, i;
        i := SendOrErase(i, event, index, failed);
        ListStep(before, subscribers, k, i, all, d, failed);
        d := d + 1;
      }
      assert subscribers[..i] == subscribers && all[..d] == all;
    }

    /** Second half of publish_event, under the subscribers' lock. */
    method BroadcastEvent(ghost p: EventBus.Publisher, event: E, failed: set<EventBus.Client>)
      requires Valid() && p in inflight && holder == EventBus.Nobody
      requires inflight[p] < |ring.pushed| && ring.pushed[inflight[p]] == event
      requires Distinct(subscribers) && forall c :: c in subscribers ==> c in feeds
      modifies this
      ensures Valid() && View() == EventBus.Next(old(View()), EventBus.Broadcast(p, failed))
    {
      hide EventBus.Without, EventBus.SendAll, StatusSocket.SentOk;
      ghost var e := inflight[p];
      SendLoop(event, e, failed);
      returned := returned + [e];
      inflight := inflight - {p};
    }

    /** SUBSCRIBE, as it takes the subscribers' lock. */
    method RegisterClient(c: EventBus.Client)
      requires Valid() && holder == EventBus.Nobody && c !in feeds
      modifies this
      ensures Valid() && View() == EventBus.Next(old(View()), EventBus.Register(c))
    {
      subscribers := subscribers + [c];
      sent := sent[c := []];
      holder := EventBus.Registered(c);
      feeds := feeds[c := EventBus.Feed([], [], |returned|, EventBus.Pending)];
    }

    /** Sends the events from position `first` on to one connection; the results of these sends are ignored. */
    method SendEvents(c: EventBus.Client, events: seq<E>, ghost first: nat, unsent: set<nat>)
      requires Valid() && c in feeds && first + |events| <= |ring.pushed|
      requires events == ring.pushed[first..first + |events|]
      modifies this`sent, this`feeds
      ensures Valid()
      ensures var f := old(feeds)[c];
              feeds == old(feeds)[c := f.(stream := f.stream
                                            + EventBus.Kept(EventBus.Range(first, first + |events|), unsent))]
    {
      hide StatusSocket.SentOk, EventBus.Range, EventBus.Kept;
      ghost var f := feeds[c];
      NothingKept(first, unsent);
      assert f.stream + [] == f.stream;
      for i := 0 to |events|
        invariant Valid() && c in feeds
        invariant feeds == old(feeds)[c := f.(stream := f.stream
                                                + EventBus.Kept(EventBus.Range(first, first + i), unsent))]
      {
        KeepOne(first, i, unsent);
        AppendKept(f.stream, EventBus.Kept(EventBus.Range(first, first + i), unsent), first + i);
        if i !in unsent {
          Send(c, events[i], first + i);
        }
      }
    }

    /** SUBSCRIBE, still holding that lock: reads the ring under its own lock and sends what it read. */
    method Replay(c: EventBus.Client, unsent: set<nat>)
      requires Valid() && holder == EventBus.Registered(c) && c in feeds
      modifies this
      ensures Valid() && View() == EventBus.Next(old(View()), EventBus.ReadRing(unsent))
    {
      hide StatusSocket.SentOk, EventBus.Kept;
      var events := ring.LastItems(REPLAY);
      SendEvents(c, events, EventBus.Oldest(|ring.pushed|, REPLAY), unsent);
      holder := EventBus.Replayed(c);
      MarkReplayed(c, unsent);
    }

    ghost method MarkReplayed(c: EventBus.Client, unsent: set<nat>)
      requires SentOk() && c in feeds
      modifies this`feeds
      ensures SentOk() && feeds == old(feeds)[c := old(feeds)[c].(replay := EventBus.Read(|ring.pushed|, unsent))]
    {
      feeds := feeds[c := feeds[c].(replay := EventBus.Read(|ring.pushed|, unsent))];
    }

    method ReleaseLock()
      requires Valid() && holder.Replayed?
      modifies this`holder
      ensures Valid() && View() == EventBus.Next(old(View()), EventBus.Release)
    {
      holder := EventBus.Nobody;
    }
  }

  lemma NothingKept(first: nat, unsent: set<nat>)
    ensures EventBus.Kept(EventBus.Range(first, first), unsent) == []
  {
  }

  lemma KeepOne(first: nat, i: nat, unsent: set<nat>)
    ensures EventBus.Kept(EventBus.Range(first, first + i + 1), unsent) ==
            EventBus.Kept(EventBus.Range(first, first + i), unsent) + if i in unsent then [] else [first + i]
  {
    var w := EventBus.Range(first, first + i + 1);
    assert w[..i] == EventBus.Range(first, first + i);
  }

  lemma AppendKept(a: seq<nat>, b: seq<nat>, e: nat)
    ensures a + (b + [e]) == a + b + [e] && b + [] == b
  {
  }

  lemma StartOfLoop(feeds: map<EventBus.Client, EventBus.Feed>, all: seq<EventBus.Client>, failed: set<EventBus.Client>,
                    e: nat)
    ensures EventBus.Without(all[..0], failed) == []
    ensures EventBus.SendAll(feeds, all[..0], failed, e) == feeds
  {
  }

  /** The d-th connection is sent the event, or is erased. */
  lemma LoopStep(feeds: map<EventBus.Client, EventBus.Feed>, all: seq<EventBus.Client>, d: nat,
                 failed: set<EventBus.Client>, e: nat)
    requires d < |all| && Distinct(all) && all[d] in feeds
    ensures var c := all[d];
            var before := EventBus.SendAll(feeds, all[..d], failed, e);
            && EventBus.Without(all[..d + 1], failed) == EventBus.Without(all[..d], failed) + (if c in failed then [] else [c])
            && c in before
            && EventBus.SendAll(feeds, all[..d + 1], failed, e) ==
               if c in failed then before else before[c := EventBus.SendLive(before[c], e)]
  {
    hide EventBus.SendLive;
    var c := all[d];
    assert all[..d + 1] == all[..d] + [c];
    assert all[..d + 1][..d] == all[..d];
    assert c !in all[..d];
  }

  lemma SplitErase<T>(s: seq<T>, i: nat)
    requires i < |s|
    ensures var r := s[..i] + s[i + 1..]; r[..i] == s[..i] && r[i..] == s[i..][1..]
    ensures s[..i + 1] == s[..i] + [s[i]] && s[i + 1..] == s[i..][1..]
  {
  }

  /** The list before the iterator holds those that are kept, the list from it on those still to come. */
  lemma ListStep(before: seq<EventBus.Client>, after: seq<EventBus.Client>, i: nat, next: nat, all: seq<EventBus.Client>,
                 d: nat, failed: set<EventBus.Client>)
    requires i < |before| && d < |all| && before[i] == all[d]
    requires before[..i] == EventBus.Without(all[..d], failed) && before[i..] == all[d..]
    requires if all[d] in failed then next == i && after == before[..i] + before[i + 1..]
             else next == i + 1 && after == before
    requires EventBus.Without(all[..d + 1], failed) ==
             EventBus.Without(all[..d], failed) + (if all[d] in failed then [] else [all[d]])
    ensures next <= |after| && after[..next] == EventBus.Without(all[..d + 1], failed) && after[next..] == all[d + 1..]
  {
    hide EventBus.Without;
    SplitErase(before, i);
    SplitErase(all, d);
  }
}
