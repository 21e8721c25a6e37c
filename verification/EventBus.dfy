/** Publishers and subscribers of the status socket as interleaved atomic steps. publish_event pushes under the ring's
    lock and then broadcasts under the subscribers' lock; SUBSCRIBE registers, reads the ring and sends the replay while
    it holds the subscribers' lock. Events are named by their position in push order. */
module EventBus {
  import opened Sequences
  import opened RoundRobin

  type Publisher = nat
  /** One accepted connection. */
  type Client = nat

  /** Who holds the subscribers' lock between steps, and how far it got. */
  datatype Holder = Nobody | Registered(client: Client) | Replayed(client: Client)

  /** A replay is read when `at` events have been pushed; `unsent` are the positions in it whose send fails. */
  datatype Replay = Pending | Read(at: nat, unsent: set<nat>)

  /** What one connection is sent: `stream` is all of it and `live` the part sent by broadcasts. When the connection
      registered, publish_event had returned `since` times. */
  datatype Feed = Feed(stream: seq<nat>, live: seq<nat>, since: nat, replay: Replay)

  /** `inflight` maps a publisher inside publish_event, past its push, to its event; `returned` lists the events whose
      publish_event has returned, in the order of their broadcasts. */
  datatype Bus = Bus(
    capacity: nat,
    pushes: nat,
    inflight: map<Publisher, nat>,
    returned: seq<nat>,
    subscribers: seq<Client>,
    holder: Holder,
    feeds: map<Client, Feed>)

  datatype Action =
    | Push(p: Publisher)
    | Broadcast(p: Publisher, failed: set<Client>)
    | Register(client: Client)
    | ReadRing(unsent: set<nat>)
    | Release
    | Drop(client: Client)

  function Init(capacity: nat): Bus {
    Bus(capacity, 0, map[], [], [], Nobody, map[])
  }

  function Range(lo: nat, hi: nat): (r: seq<nat>)
    ensures |r| == if lo <= hi then hi - lo else 0
    ensures forall i :: 0 <= i < |r| ==> r[i] == lo + i
  {
    if lo <= hi then seq(hi - lo, i requires 0 <= i < hi - lo => lo + i) else []
  }

  /** The oldest event still in the ring after `pushes` pushes. */
  function Oldest(pushes: nat, capacity: nat): nat {
    if pushes <= capacity then 0 else pushes - capacity
  }

  /** What is left of a list when the items at some positions are not sent. */
  function Kept(w: seq<nat>, unsent: set<nat>): seq<nat> {
    if w == [] then []
    else
      var n := |w| - 1;
      Kept(w[..n], unsent) + if n in unsent then [] else [w[n]]
  }

  /** What a replay sends: the events in the ring when it is read, less those whose send fails. */
  function ReplayOf(at: nat, capacity: nat, unsent: set<nat>): seq<nat> {
    Kept(Range(Oldest(at, capacity), at), unsent)
  }

  function Without(clients: seq<Client>, gone: set<Client>): (r: seq<Client>)
    ensures forall c :: c in r <==> c in clients && c !in gone
  {
    if clients == [] then []
    else
      var last := clients[|clients| - 1];
      Without(clients[..|clients| - 1], gone) + if last in gone then [] else [last]
  }

  function SendLive(f: Feed, e: nat): Feed {
    f.(stream := f.stream + [e], live := f.live + [e])
  }

  function SendAll(feeds: map<Client, Feed>, clients: seq<Client>, gone: set<Client>, e: nat): (r: map<Client, Feed>)
    ensures r.Keys == feeds.Keys
  {
    map c | c in feeds :: if c in clients && c !in gone then SendLive(feeds[c], e) else feeds[c]
  }

  predicate Enabled(b: Bus, a: Action) {
    match a
    case Push(p) => p !in b.inflight
    case Broadcast(p, _) => p in b.inflight && b.holder == Nobody
    case Register(c) => b.holder == Nobody && c !in b.feeds
    case ReadRing(_) => b.holder.Registered?
    case Release => b.holder.Replayed?
    case Drop(c) => b.holder == Nobody && c in b.subscribers
  }

  ghost predicate Wired(b: Bus) {
    b.holder.Registered? ==> b.holder.client in b.feeds
  }

  function Next(b: Bus, a: Action): Bus
    requires Enabled(b, a) && Wired(b)
  {
    match a
    case Push(p) => b.(pushes := b.pushes + 1, inflight := b.inflight[p := b.pushes])
    case Broadcast(p, failed) =>
      var e := b.inflight[p];
      b.(inflight := b.inflight - {p}, returned := b.returned + [e],
         subscribers := Without(b.subscribers, failed),
         feeds := SendAll(b.feeds, b.subscribers, failed, e))
    case Register(c) =>
      b.(subscribers := b.subscribers + [c], holder := Registered(c),
         feeds := b.feeds[c := Feed([], [], |b.returned|, Pending)])
    case ReadRing(unsent) =>
      var c := b.holder.client;
      var f := b.feeds[c];
      b.(holder := Replayed(c),
         feeds := b.feeds[c := f.(stream := f.stream + ReplayOf(b.pushes, b.capacity, unsent),
                                  replay := Read(b.pushes, unsent))])
    case Release => b.(holder := Nobody)
    case Drop(c) => b.(subscribers := Without(b.subscribers, {c}))
  }

  // ----- what every interleaving keeps -----

  /** A connection that is past its replay. */
  ghost predicate Served(b: Bus, c: Client) {
    c in b.feeds && b.feeds[c].replay.Read?
  }

  ghost predicate PublishersOk(pushes: nat, inflight: map<Publisher, nat>, returned: seq<nat>) {
    && (forall p :: p in inflight ==> inflight[p] < pushes && inflight[p] !in returned)
    && (forall p, q :: p in inflight && q in inflight && p != q ==> inflight[p] != inflight[q])
    && Distinct(returned) && (forall e :: e in returned ==> e < pushes)
    && (forall e: nat :: e < pushes ==> e in returned || exists p :: p in inflight && inflight[p] == e)
  }

  /** A connection was broadcast the events that returned since it registered, in that order and without a gap: all of them
      as long as it is subscribed. */
  ghost predicate LiveOk(f: Feed, returned: seq<nat>, subscribed: bool) {
    && f.since + |f.live| <= |returned| && f.live == returned[f.since..f.since + |f.live|]
    && (subscribed ==> f.since + |f.live| == |returned|)
  }

  ghost predicate FeedOk(f: Feed, capacity: nat, pushes: nat, returned: seq<nat>, subscribed: bool) {
    && LiveOk(f, returned, subscribed)
    && match f.replay
       case Pending => f.stream == f.live == []
       case Read(at, unsent) =>
         && at <= pushes && (forall e :: e in returned[..f.since] ==> e < at)
         && f.stream == ReplayOf(at, capacity, unsent) + f.live
  }

  ghost predicate FeedsOk(b: Bus) {
    forall c :: c in b.feeds ==> FeedOk(b.feeds[c], b.capacity, b.pushes, b.returned, c in b.subscribers)
  }

  ghost predicate Inv(b: Bus) {
    && Wired(b) && PublishersOk(b.pushes, b.inflight, b.returned)
    && Distinct(b.subscribers) && (forall c :: c in b.subscribers ==> c in b.feeds)
    && (forall c :: c in b.feeds ==> (b.feeds[c].replay.Pending? <==> b.holder == Registered(c)))
    && FeedsOk(b)
  }

  lemma InitInv(capacity: nat)
    ensures Inv(Init(capacity))
  {
  }

  lemma {:induction false} WithoutDistinct(clients: seq<Client>, gone: set<Client>)
    requires Distinct(clients)
    ensures Distinct(Without(clients, gone))
  {
    if clients != [] {
      WithoutDistinct(clients[..|clients| - 1], gone);
    }
  }

  lemma PushOk(pushes: nat, inflight: map<Publisher, nat>, returned: seq<nat>, p: Publisher)
    requires PublishersOk(pushes, inflight, returned) && p !in inflight
    ensures PublishersOk(pushes + 1, inflight[p := pushes], returned)
  {
    hide Distinct;
    var after := inflight[p := pushes];
    forall e: nat | e <= pushes && e !in returned
      ensures exists q :: q in after && after[q] == e
    {
      if e == pushes {
        assert after[p] == e;
      } else {
        var q :| q in inflight && inflight[q] == e;
        assert q in after && after[q] == e;
      }
    }
  }

  lemma ReturnOk(pushes: nat, inflight: map<Publisher, nat>, returned: seq<nat>, p: Publisher)
    requires PublishersOk(pushes, inflight, returned) && p in inflight
    ensures PublishersOk(pushes, inflight - {p}, returned + [inflight[p]])
  {
    DistinctAppend(returned, inflight[p]);
    hide Distinct;
    var after := inflight - {p};
    forall e: nat | e < pushes && e !in returned + [inflight[p]]
      ensures exists q :: q in after && after[q] == e
    {
      var q :| q in inflight && inflight[q] == e;
      assert q in after && after[q] == e;
    }
  }

  lemma SendLiveOk(f: Feed, returned: seq<nat>, e: nat)
    requires LiveOk(f, returned, true)
    ensures LiveOk(SendLive(f, e), returned + [e], true)
  {
    var n := f.since + |f.live|;
    assert (returned + [e])[f.since..n + 1] == returned[f.since..n] + [e];
  }

  lemma SkipLiveOk(f: Feed, returned: seq<nat>, e: nat, subscribed: bool)
    requires LiveOk(f, returned, subscribed)
    ensures LiveOk(f, returned + [e], false)
  {
    var n := f.since + |f.live|;
    assert (returned + [e])[f.since..n] == returned[f.since..n];
  }

  lemma SamePrefix(returned: seq<nat>, e: nat, n: nat)
    requires n <= |returned|
    ensures (returned + [e])[..n] == returned[..n]
  {
  }

  lemma LiveFeedOk(f: Feed, capacity: nat, pushes: nat, returned: seq<nat>, e: nat)
    requires FeedOk(f, capacity, pushes, returned, true) && f.replay.Read?
    ensures FeedOk(SendLive(f, e), capacity, pushes, returned + [e], true)
  {
    hide ReplayOf;
    SendLiveOk(f, returned, e);
    SamePrefix(returned, e, f.since);
    hide LiveOk;
    AppendAssoc(ReplayOf(f.replay.at, capacity, f.replay.unsent), f.live, e);
  }

  /** A connection that is not sent an event is no longer subscribed. */
  lemma IdleFeedOk(f: Feed, capacity: nat, pushes: nat, returned: seq<nat>, e: nat, subscribed: bool)
    requires FeedOk(f, capacity, pushes, returned, subscribed)
    ensures FeedOk(f, capacity, pushes, returned + [e], false)
    ensures FeedOk(f, capacity, pushes + 1, returned, subscribed)
  {
    hide ReplayOf;
    SkipLiveOk(f, returned, e, subscribed);
    SamePrefix(returned, e, f.since);
  }

  lemma ReplayFeedOk(f: Feed, capacity: nat, pushes: nat, returned: seq<nat>, subscribed: bool, unsent: set<nat>)
    requires FeedOk(f, capacity, pushes, returned, subscribed) && f.replay.Pending?
    requires forall e :: e in returned ==> e < pushes
    ensures FeedOk(f.(stream := f.stream + ReplayOf(pushes, capacity, unsent), replay := Read(pushes, unsent)),
                   capacity, pushes, returned, subscribed)
  {
    hide ReplayOf;
    var w := ReplayOf(pushes, capacity, unsent);
    assert [] + w == w + [];
    assert forall e :: e in returned[..f.since] ==> e in returned;
  }

  lemma FeedStep(b: Bus, a: Action, c: Client)
    requires Inv(b) && Enabled(b, a) && c in Next(b, a).feeds
    ensures var r := Next(b, a); FeedOk(r.feeds[c], r.capacity, r.pushes, r.returned, c in r.subscribers)
  {
    hide FeedOk, ReplayOf, Without, Distinct;
    if a.Register? && c == a.client {
      NewFeedOk(b.capacity, b.pushes, b.returned);
    } else {
      var f := b.feeds[c];
      assert FeedOk(f, b.capacity, b.pushes, b.returned, c in b.subscribers);
      match a
      case Push(_) => IdleFeedOk(f, b.capacity, b.pushes, b.returned, 0, c in b.subscribers);
      case Broadcast(p, failed) =>
        if c in b.subscribers && c !in failed {
          LiveFeedOk(f, b.capacity, b.pushes, b.returned, b.inflight[p]);
        } else {
          IdleFeedOk(f, b.capacity, b.pushes, b.returned, b.inflight[p], c in b.subscribers);
        }
      case Register(_) =>
      case ReadRing(unsent) =>
        if c == b.holder.client {
          ReplayFeedOk(f, b.capacity, b.pushes, b.returned, c in b.subscribers, unsent);
        }
      case Release =>
      case Drop(_) => FeedDropped(f, b.capacity, b.pushes, b.returned, c in b.subscribers);
    }
  }

  lemma NewFeedOk(capacity: nat, pushes: nat, returned: seq<nat>)
    ensures FeedOk(Feed([], [], |returned|, Pending), capacity, pushes, returned, true)
  {
  }

  lemma FeedDropped(f: Feed, capacity: nat, pushes: nat, returned: seq<nat>, subscribed: bool)
    requires FeedOk(f, capacity, pushes, returned, subscribed)
    ensures FeedOk(f, capacity, pushes, returned, false)
  {
  }

  lemma NextInv(b: Bus, a: Action)
    requires Inv(b) && Enabled(b, a)
    ensures Inv(Next(b, a))
  {
    hide FeedOk, Without, ReplayOf, PublishersOk;
    var r := Next(b, a);
    match a {
      case Push(p) => PushOk(b.pushes, b.inflight, b.returned, p);
      case Broadcast(p, failed) =>
        ReturnOk(b.pushes, b.inflight, b.returned, p);
        WithoutDistinct(b.subscribers, failed);
      case Register(_) =>
      case ReadRing(_) =>
      case Release =>
      case Drop(c) => WithoutDistinct(b.subscribers, {c});
    }
    forall c | c in r.feeds
      ensures FeedOk(r.feeds[c], r.capacity, r.pushes, r.returned, c in r.subscribers)
    {
      FeedStep(b, a, c);
    }
  }

  ghost predicate Runnable(b: Bus, run: seq<Action>)
    decreases |run|
  {
    run == [] || (Wired(b) && Enabled(b, run[0]) && Runnable(Next(b, run[0]), run[1..]))
  }

  ghost function After(b: Bus, run: seq<Action>): Bus
    requires Runnable(b, run)
    decreases |run|
  {
    if run == [] then b else After(Next(b, run[0]), run[1..])
  }

  lemma {:induction false} RunInv(b: Bus, run: seq<Action>)
    requires Inv(b) && Runnable(b, run)
    ensures Inv(After(b, run)) && After(b, run).capacity == b.capacity
    decreases |run|
  {
    hide Inv;
    if run != [] {
      NextInv(b, run[0]);
      RunInv(Next(b, run[0]), run[1..]);
    }
  }

  // ----- delivery -----

  lemma {:induction false} CountAppend(a: seq<nat>, b: seq<nat>, x: nat)
    ensures Count(a + b, x) == Count(a, x) + Count(b, x)
  {
    if b == [] {
      assert a + b == a;
    } else {
      assert (a + b)[..|a + b| - 1] == a + b[..|b| - 1];
      CountAppend(a, b[..|b| - 1], x);
    }
  }

  lemma {:induction false} CountDistinct(a: seq<nat>, x: nat)
    requires Distinct(a)
    ensures Count(a, x) == if x in a then 1 else 0
  {
    if a != [] {
      CountDistinct(a[..|a| - 1], x);
      assert a == a[..|a| - 1] + [a[|a| - 1]];
    }
  }

  lemma CountOne(x: nat, e: nat)
    ensures Count([x], e) == if x == e then 1 else 0
  {
    assert [x][..0] == [];
  }

  lemma KeptStep(lo: nat, hi: nat, unsent: set<nat>)
    requires lo < hi
    ensures Kept(Range(lo, hi), unsent) ==
            Kept(Range(lo, hi - 1), unsent) + if hi - lo - 1 in unsent then [] else [hi - 1]
  {
    var w := Range(lo, hi);
    assert w[..hi - lo - 1] == Range(lo, hi - 1);
    hide Range;
  }

  lemma KeptNone(lo: nat, unsent: set<nat>)
    ensures Kept(Range(lo, lo), unsent) == []
  {
  }

  lemma {:induction false} CountKept(lo: nat, hi: nat, unsent: set<nat>, e: nat)
    requires lo <= hi
    ensures Count(Kept(Range(lo, hi), unsent), e) == if lo <= e < hi && e - lo !in unsent then 1 else 0
    decreases hi
  {
    hide Kept, Range, Count;
    if lo == hi {
      KeptNone(lo, unsent);
      CountNone(e);
    } else {
      CountKept(lo, hi - 1, unsent, e);
      KeptStep(lo, hi, unsent);
      CountLast(Kept(Range(lo, hi - 1), unsent), hi - 1, hi - lo - 1 in unsent, e);
    }
  }

  lemma CountNone(e: nat)
    ensures Count([], e) == 0
  {
  }

  lemma CountLast(s: seq<nat>, x: nat, skipped: bool, e: nat)
    ensures Count(s + (if skipped then [] else [x]), e) == Count(s, e) + if !skipped && x == e then 1 else 0
  {
    hide Count;
    CountNone(e);
    CountOne(x, e);
    CountAppend(s, if skipped then [] else [x], e);
  }

  lemma FeedOf(b: Bus, c: Client)
    requires Inv(b) && c in b.feeds
    ensures FeedOk(b.feeds[c], b.capacity, b.pushes, b.returned, c in b.subscribers) && Distinct(b.returned)
  {
    hide FeedOk;
  }

  lemma SliceDistinct(s: seq<nat>, i: nat, j: nat)
    requires i <= j <= |s| && Distinct(s)
    ensures Distinct(s[i..j])
  {
  }

  lemma CountReplay(at: nat, capacity: nat, unsent: set<nat>, e: nat)
    ensures Count(ReplayOf(at, capacity, unsent), e) ==
            if e < at && at - (e + 1) < capacity && e - Oldest(at, capacity) !in unsent then 1 else 0
  {
    hide Kept, Range, Count;
    CountKept(Oldest(at, capacity), at, unsent, e);
  }

  lemma CountFeed(f: Feed, capacity: nat, pushes: nat, returned: seq<nat>, subscribed: bool, e: nat)
    requires FeedOk(f, capacity, pushes, returned, subscribed) && f.replay.Read? && Distinct(returned)
    ensures var at, unsent := f.replay.at, f.replay.unsent;
            Count(f.stream, e) ==
            (if e < at && at - (e + 1) < capacity && e - Oldest(at, capacity) !in unsent then 1 else 0)
            + (if e in f.live then 1 else 0)
  {
    hide Distinct, ReplayOf, Count, Oldest;
    var at, unsent := f.replay.at, f.replay.unsent;
    SliceDistinct(returned, f.since, f.since + |f.live|);
    CountAppend(ReplayOf(at, capacity, unsent), f.live, e);
    CountReplay(at, capacity, unsent, e);
    CountDistinct(f.live, e);
  }

  // ----- agreement -----

  lemma SegmentsAgree(s: seq<nat>, a: nat, b: nat, m: nat, n: nat, i: nat, j: nat, p: nat, q: nat)
    requires Distinct(s) && a + m <= |s| && b + n <= |s| && i < j < m && p < n && q < n
    requires s[a..a + m][i] == s[b..b + n][p] && s[a..a + m][j] == s[b..b + n][q]
    ensures p < q
  {
    assert s[a + i] == s[b + p] && s[a + j] == s[b + q];
  }

  /** The i-th broadcast to c is the p-th to d. */
  ghost predicate SentToBoth(b: Bus, c: Client, d: Client, i: nat, p: nat) {
    && c in b.feeds && d in b.feeds && i < |b.feeds[c].live| && p < |b.feeds[d].live|
    && b.feeds[c].live[i] == b.feeds[d].live[p]
  }

  /** All connections agree on one order, however many publishers there are: two broadcasts that both of them were sent
      reached them in the same order, which is the order in which their publish_event calls returned. */
  lemma SameOrder(capacity: nat, run: seq<Action>, c: Client, d: Client, i: nat, j: nat, p: nat, q: nat)
    requires Runnable(Init(capacity), run)
    requires SentToBoth(After(Init(capacity), run), c, d, i, p) && SentToBoth(After(Init(capacity), run), c, d, j, q) && i < j
    ensures p < q
    ensures var b := After(Init(capacity), run);
            var f := b.feeds[c];
            f.since + j < |b.returned| && f.live[i] == b.returned[f.since + i] && f.live[j] == b.returned[f.since + j]
  {
    hide Inv, Next, ReplayOf;
    InitInv(capacity);
    RunInv(Init(capacity), run);
    var b := After(Init(capacity), run);
    FeedOf(b, c);
    FeedOf(b, d);
    hide Distinct;
    var f, g := b.feeds[c], b.feeds[d];
    SegmentsAgree(b.returned, f.since, g.since, |f.live|, |g.live|, i, j, p, q);
  }

  // ----- one publisher -----

  /** A replay is read when nothing, or one event not yet broadcast, has been pushed since the registration. */
  ghost predicate ReadNear(f: Feed, returned: nat) {
    match f.replay
    case Pending => f.since == returned
    case Read(at, _) => f.since <= at <= f.since + 1
  }

  ghost predicate SoleInv(b: Bus, p: Publisher) {
    && Inv(b) && b.inflight.Keys <= {p}
    && b.returned == Range(0, |b.returned|)
    && b.pushes == |b.returned| + (if p in b.inflight then 1 else 0)
    && (forall c :: c in b.feeds ==> ReadNear(b.feeds[c], |b.returned|))
  }

  ghost predicate OnlyPublisher(run: seq<Action>, p: Publisher) {
    forall a :: a in run && (a.Push? || a.Broadcast?) ==> a.p == p
  }

  lemma RangeExtend(from: nat, to: nat)
    requires from <= to
    ensures Range(from, to) + [to] == Range(from, to + 1)
  {
  }

  /** The one event in flight is the next to return. */
  lemma SoleInflight(b: Bus, p: Publisher)
    requires SoleInv(b, p) && p in b.inflight
    ensures b.inflight[p] == |b.returned|
  {
    hide FeedsOk, Distinct, Range;
    RangeHas(|b.returned|, b.inflight[p]);
  }

  lemma RangeHas(n: nat, e: nat)
    ensures e < n ==> e in Range(0, n)
  {
    if e < n {
      assert Range(0, n)[e] == e;
    }
  }

  lemma SoleFeed(b: Bus, a: Action, p: Publisher, c: Client)
    requires SoleInv(b, p) && Enabled(b, a) && (a.Push? || a.Broadcast? ==> a.p == p) && c in Next(b, a).feeds
    ensures var r := Next(b, a); ReadNear(r.feeds[c], |r.returned|)
  {
    hide FeedsOk, PublishersOk, Without, ReplayOf, Distinct, Range;
  }

  lemma SoleStep(b: Bus, a: Action, p: Publisher)
    requires SoleInv(b, p) && Enabled(b, a) && (a.Push? || a.Broadcast? ==> a.p == p)
    ensures SoleInv(Next(b, a), p)
  {
    NextInv(b, a);
    if a.Broadcast? {
      SoleInflight(b, p);
      RangeExtend(0, |b.returned|);
    }
    hide ReadNear, PublishersOk, Without, ReplayOf, Distinct, FeedsOk, Range;
    var r := Next(b, a);
    forall c | c in r.feeds
      ensures ReadNear(r.feeds[c], |r.returned|)
    {
      SoleFeed(b, a, p, c);
    }
  }

  lemma {:induction false} SoleRun(b: Bus, run: seq<Action>, p: Publisher)
    requires SoleInv(b, p) && Runnable(b, run) && OnlyPublisher(run, p)
    ensures SoleInv(After(b, run), p)
    decreases |run|
  {
    hide Inv, ReadNear, Range;
    if run != [] {
      SoleStep(b, run[0], p);
      SoleRun(Next(b, run[0]), run[1..], p);
    }
  }

  lemma {:induction false} KeptAll(w: seq<nat>)
    ensures Kept(w, {}) == w
  {
    if w != [] {
      KeptAll(w[..|w| - 1]);
      SplitLast(w);
    }
  }

  ghost predicate Nondecreasing(s: seq<nat>) {
    forall i, j :: 0 <= i < j < |s| ==> s[i] <= s[j]
  }

  ghost predicate Below(s: seq<nat>, top: nat) {
    forall i :: 0 <= i < |s| ==> s[i] < top
  }

  lemma {:induction false} KeptOrdered(lo: nat, hi: nat, unsent: set<nat>)
    requires lo <= hi
    ensures Nondecreasing(Kept(Range(lo, hi), unsent)) && Below(Kept(Range(lo, hi), unsent), hi)
    decreases hi
  {
    hide Kept, Range;
    if lo == hi {
      KeptNone(lo, unsent);
    } else {
      KeptOrdered(lo, hi - 1, unsent);
      KeptStep(lo, hi, unsent);
    }
  }

  lemma JoinOrdered(a: seq<nat>, from: nat, to: nat)
    requires Nondecreasing(a) && Below(a, from + 1)
    ensures Nondecreasing(a + Range(from, to))
  {
  }

  lemma SliceOfRange(n: nat, from: nat, to: nat)
    requires from <= to <= n
    ensures Range(0, n)[from..to] == Range(from, to)
  {
  }

  /** The broadcasts of one publisher's events to one connection, and where they join its replay. */
  ghost predicate InOrder(f: Feed, capacity: nat)
    requires f.replay.Read?
  {
    var at, to := f.replay.at, f.since + |f.live|;
    && f.stream == ReplayOf(at, capacity, f.replay.unsent) + Range(f.since, to)
    && (f.replay.unsent == {} ==> f.stream == Range(Oldest(at, capacity), at) + Range(f.since, to))
    && f.since <= at <= f.since + 1
    && Nondecreasing(f.stream)
    && forall e: nat :: Count(f.stream, e) > 1 ==> e + 1 == at
  }

  lemma OnlyNewestTwice(f: Feed, capacity: nat, pushes: nat, n: nat, subscribed: bool, e: nat)
    requires FeedOk(f, capacity, pushes, Range(0, n), subscribed) && f.replay.Read? && ReadNear(f, n)
    ensures Count(f.stream, e) > 1 ==> e + 1 == f.replay.at
  {
    RangeDistinct(n);
    hide Count, Range, Distinct, ReplayOf, Oldest;
    var to := f.since + |f.live|;
    CountFeed(f, capacity, pushes, Range(0, n), subscribed, e);
    SliceOfRange(n, f.since, to);
    RangeAbove(f.since, to, e);
  }

  lemma RangeDistinct(n: nat)
    ensures Distinct(Range(0, n))
  {
  }

  lemma FeedInOrder(f: Feed, capacity: nat, pushes: nat, n: nat, subscribed: bool)
    requires FeedOk(f, capacity, pushes, Range(0, n), subscribed) && f.replay.Read? && ReadNear(f, n)
    ensures InOrder(f, capacity)
  {
    hide Count, Kept, Range, Nondecreasing, Below, Distinct;
    var at, unsent, to := f.replay.at, f.replay.unsent, f.since + |f.live|;
    forall e: nat
      ensures Count(f.stream, e) > 1 ==> e + 1 == at
    {
      OnlyNewestTwice(f, capacity, pushes, n, subscribed, e);
    }
    SliceOfRange(n, f.since, to);
    KeptOrdered(Oldest(at, capacity), at, unsent);
    BelowMore(Kept(Range(Oldest(at, capacity), at), unsent), at, f.since + 1);
    JoinOrdered(Kept(Range(Oldest(at, capacity), at), unsent), f.since, to);
    KeptAll(Range(Oldest(at, capacity), at));
  }

  lemma BelowMore(s: seq<nat>, a: nat, b: nat)
    requires Below(s, a) && a <= b
    ensures Below(s, b)
  {
  }

  lemma RangeAbove(from: nat, to: nat, e: nat)
    ensures e in Range(from, to) ==> from <= e
  {
  }

  lemma SoleInit(capacity: nat, p: Publisher)
    ensures SoleInv(Init(capacity), p)
  {
  }

  lemma SoleStream(b: Bus, p: Publisher, c: Client)
    requires SoleInv(b, p) && Served(b, c)
    ensures InOrder(b.feeds[c], b.capacity) && b.returned == Range(0, |b.returned|)
    ensures c in b.subscribers ==> b.feeds[c].since + |b.feeds[c].live| == |b.returned|
  {
    hide Inv, InOrder, ReadNear, Range, ReplayOf;
    FeedOf(b, c);
    FeedInOrder(b.feeds[c], b.capacity, b.pushes, |b.returned|, c in b.subscribers);
  }
}
