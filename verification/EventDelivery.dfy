/** What every subscriber is sent, told from the actions of the publishers and subscribers alone. */
module EventDelivery {
  import opened Sequences
  import opened RoundRobin
  import opened EventBus

  // ----- what a run says by itself -----

  /** How many events have been pushed. Events are numbered in the order of their pushes. */
  function Pushes(run: seq<Action>): nat {
    if run == [] then 0
    else Pushes(run[..|run| - 1]) + if run[|run| - 1].Push? then 1 else 0
  }

  /** The event that a publisher pushed last. */
  function LastPushed(run: seq<Action>, p: Publisher): nat {
    if run == [] then 0
    else if run[|run| - 1] == Push(p) then Pushes(run[..|run| - 1])
    else LastPushed(run[..|run| - 1], p)
  }

  /** The events whose publish_event has returned, in that order. */
  function Returned(run: seq<Action>): seq<nat> {
    if run == [] then []
    else
      var before := run[..|run| - 1];
      match run[|run| - 1]
      case Broadcast(p, _) => Returned(before) + [LastPushed(before, p)]
      case _ => Returned(before)
  }

  /** The action takes the client off the list: its connection is dropped, or a send to it fails. */
  ghost predicate Removes(a: Action, c: Client) {
    match a
    case Broadcast(_, failed) => c in failed
    case Drop(client) => client == c
    case _ => false
  }

  /** The client has registered and has not been removed since. */
  ghost predicate Subscribed(run: seq<Action>, c: Client) {
    run != [] &&
    (run[|run| - 1] == Register(c) || (Subscribed(run[..|run| - 1], c) && !Removes(run[|run| - 1], c)))
  }

  /** How many publish_event calls had returned when the client registered. */
  function Since(run: seq<Action>, c: Client): nat {
    if run == [] then 0
    else if run[|run| - 1] == Register(c) then |Returned(run[..|run| - 1])|
    else Since(run[..|run| - 1], c)
  }

  /** When the client registered. */
  function RegisteredAt(run: seq<Action>, c: Client): (r: nat)
    ensures r <= |run|
  {
    if run == [] then 0
    else if run[|run| - 1] == Register(c) then |run|
    else RegisteredAt(run[..|run| - 1], c)
  }

  /** The clients stand in the order of their registrations. */
  ghost predicate InTurn(run: seq<Action>, clients: seq<Client>) {
    forall i, j :: 0 <= i < j < |clients| ==> RegisteredAt(run, clients[i]) < RegisteredAt(run, clients[j])
  }

  /** How many had returned when it was removed, or have returned by now if it is still subscribed. */
  ghost function Until(run: seq<Action>, c: Client): nat {
    if run == [] then 0
    else if Subscribed(run, c) then |Returned(run)|
    else if Subscribed(run[..|run| - 1], c) then |Returned(run[..|run| - 1])|
    else Until(run[..|run| - 1], c)
  }

  /** The publisher has pushed an event and not yet broadcast it. */
  predicate Publishing(run: seq<Action>, p: Publisher) {
    run != [] &&
    match run[|run| - 1]
    case Push(q) => q == p || Publishing(run[..|run| - 1], p)
    case Broadcast(q, _) => q != p && Publishing(run[..|run| - 1], p)
    case _ => Publishing(run[..|run| - 1], p)
  }

  /** Who holds the subscribers' lock: the client that registered, until it releases it. */
  function HolderIn(run: seq<Action>): Holder {
    if run == [] then Nobody
    else
      match run[|run| - 1]
      case Register(c) => Registered(c)
      case ReadRing(_) =>
        (match HolderIn(run[..|run| - 1])
         case Registered(c) => Replayed(c)
         case h => h)
      case Release => Nobody
      case _ => HolderIn(run[..|run| - 1])
  }

  /** The read of the ring that followed the client's registration: how much had been pushed, and which sends failed. */
  function ReplayIn(run: seq<Action>, c: Client): Replay {
    if run == [] then Pending
    else
      var before := run[..|run| - 1];
      match run[|run| - 1]
      case ReadRing(unsent) =>
        if HolderIn(before) == Registered(c) then Read(Pushes(before), unsent) else ReplayIn(before, c)
      case _ => ReplayIn(before, c)
  }

  // ----- the bus follows the run -----

  ghost predicate FeedFollows(b: Bus, run: seq<Action>, c: Client) {
    && (c in b.subscribers <==> Subscribed(run, c))
    && (c !in b.feeds ==> ReplayIn(run, c) == Pending)
    && (c in b.feeds ==>
          && b.feeds[c].since == Since(run, c) && b.feeds[c].replay == ReplayIn(run, c)
          && b.feeds[c].since + |b.feeds[c].live| == Until(run, c))
  }

  ghost predicate Follows(b: Bus, run: seq<Action>) {
    && b.pushes == Pushes(run) && b.returned == Returned(run)
    && (forall p :: p in b.inflight <==> Publishing(run, p))
    && (forall p :: p in b.inflight ==> b.inflight[p] == LastPushed(run, p))
    && b.holder == HolderIn(run) && InTurn(run, b.subscribers)
    && forall c: Client :: FeedFollows(b, run, c)
  }

  lemma OneMore(run: seq<Action>, a: Action)
    ensures (run + [a])[..|run + [a]| - 1] == run && (run + [a])[|run + [a]| - 1] == a
  {
  }

  lemma CountsFollow(b: Bus, run: seq<Action>, a: Action)
    requires Inv(b) && Enabled(b, a) && Follows(b, run)
    ensures var r := Next(b, a);
            && r.pushes == Pushes(run + [a]) && r.returned == Returned(run + [a])
            && (forall p :: p in r.inflight <==> Publishing(run + [a], p))
            && (forall p :: p in r.inflight ==> r.inflight[p] == LastPushed(run + [a], p))
            && r.holder == HolderIn(run + [a])
  {
    OneMore(run, a);
    hide Inv, FeedFollows, Without, SendAll, ReplayOf;
  }

  lemma {:induction false} WithoutInTurn(run: seq<Action>, clients: seq<Client>, gone: set<Client>)
    requires InTurn(run, clients)
    ensures InTurn(run, Without(clients, gone))
  {
    hide RegisteredAt;
    if clients != [] {
      var n := |clients| - 1;
      WithoutInTurn(run, clients[..n], gone);
      forall i | 0 <= i < |Without(clients[..n], gone)|
        ensures RegisteredAt(run, Without(clients[..n], gone)[i]) < RegisteredAt(run, clients[n])
      {
        var c := Without(clients[..n], gone)[i];
        assert c in clients[..n];
        var k :| 0 <= k < n && clients[..n][k] == c;
        assert clients[k] == c;
      }
      hide Without;
    }
  }

  lemma RegisteredMore(run: seq<Action>, a: Action, c: Client)
    ensures RegisteredAt(run + [a], c) == if a == Register(c) then |run| + 1 else RegisteredAt(run, c)
  {
    OneMore(run, a);
  }

  lemma TurnsFollow(b: Bus, run: seq<Action>, a: Action)
    requires Inv(b) && Enabled(b, a) && InTurn(run, b.subscribers)
    ensures InTurn(run + [a], Next(b, a).subscribers)
  {
    hide PublishersOk, FeedsOk, Distinct, Without, SendAll, ReplayOf, RegisteredAt;
    forall c: Client
      ensures RegisteredAt(run + [a], c) == if a == Register(c) then |run| + 1 else RegisteredAt(run, c)
    {
      RegisteredMore(run, a, c);
    }
    match a
    case Broadcast(_, failed) => WithoutInTurn(run, b.subscribers, failed);
    case Drop(c) => WithoutInTurn(run, b.subscribers, {c});
    case _ =>
  }

  lemma UntilMore(run: seq<Action>, a: Action, c: Client)
    ensures Subscribed(run + [a], c) <==> a == Register(c) || (Subscribed(run, c) && !Removes(a, c))
    ensures Since(run + [a], c) == if a == Register(c) then |Returned(run)| else Since(run, c)
    ensures Until(run + [a], c) == if Subscribed(run + [a], c) then |Returned(run + [a])|
                                   else if Subscribed(run, c) then |Returned(run)| else Until(run, c)
    ensures |Returned(run + [a])| == |Returned(run)| + if a.Broadcast? then 1 else 0
    ensures ReplayIn(run + [a], c) ==
            if a.ReadRing? && HolderIn(run) == Registered(c) then Read(Pushes(run), a.unsent) else ReplayIn(run, c)
  {
    OneMore(run, a);
    hide Removes;
  }

  /** What an action does to one connection, as far as the bus is concerned. */
  lemma FeedAfter(b: Bus, a: Action, c: Client)
    requires Inv(b) && Enabled(b, a)
    ensures var r := Next(b, a);
            && (c in r.subscribers <==> a == Register(c) || (c in b.subscribers && !Removes(a, c)))
            && (c in r.feeds <==> a == Register(c) || c in b.feeds)
            && (a == Register(c) ==> r.feeds[c] == Feed([], [], |b.returned|, Pending) && c !in b.feeds)
            && (a != Register(c) && c in b.feeds ==>
                  && r.feeds[c].since == b.feeds[c].since
                  && |r.feeds[c].live| ==
                     |b.feeds[c].live| + (if a.Broadcast? && c in b.subscribers && c !in a.failed then 1 else 0)
                  && r.feeds[c].replay ==
                     if a.ReadRing? && b.holder == Registered(c) then Read(b.pushes, a.unsent) else b.feeds[c].replay)
            && (a.ReadRing? && b.holder == Registered(c) ==> c in b.feeds)
            && (c in b.subscribers ==> c in b.feeds)
  {
    hide Distinct, PublishersOk, FeedsOk, ReplayOf;
  }

  lemma FeedFollowsStep(b: Bus, run: seq<Action>, a: Action, c: Client)
    requires Inv(b) && Enabled(b, a) && Follows(b, run)
    ensures FeedFollows(Next(b, a), run + [a], c)
  {
    hide Distinct, PublishersOk, FeedsOk, Next, InTurn, Subscribed, Since, Until, ReplayIn, Returned, HolderIn;
    UntilMore(run, a, c);
    assert FeedFollows(b, run, c);
    UntilSubscribed(run, c);
    FeedAfter(b, a, c);
  }

  lemma UntilSubscribed(run: seq<Action>, c: Client)
    ensures Subscribed(run, c) ==> Until(run, c) == |Returned(run)|
  {
  }

  lemma FollowsStep(b: Bus, run: seq<Action>, a: Action)
    requires Inv(b) && Enabled(b, a) && Follows(b, run)
    ensures Follows(Next(b, a), run + [a])
  {
    hide PublishersOk, FeedsOk, Distinct, FeedFollows, Next, Pushes, Returned, LastPushed, Publishing, HolderIn, InTurn;
    CountsFollow(b, run, a);
    TurnsFollow(b, run, a);
    forall c: Client
      ensures FeedFollows(Next(b, a), run + [a], c)
    {
      FeedFollowsStep(b, run, a, c);
    }
  }

  lemma {:induction false} RunFollows(b: Bus, before: seq<Action>, run: seq<Action>)
    requires Inv(b) && Follows(b, before) && Runnable(b, run)
    ensures Follows(After(b, run), before + run)
    decreases |run|
  {
    hide Follows, Enabled, Next;
    if run == [] {
      assert before + [] == before;
    } else {
      FollowsStep(b, before, run[0]);
      NextInv(b, run[0]);
      RunFollows(Next(b, run[0]), before + [run[0]], run[1..]);
      assert before + [run[0]] + run[1..] == before + run;
    }
  }

  /** After every run the bus is as the actions say: in particular a client is on the list exactly if it has registered and
      has not been removed since. */
  lemma BusFollows(capacity: nat, run: seq<Action>)
    requires Runnable(Init(capacity), run)
    ensures Follows(After(Init(capacity), run), run) && Inv(After(Init(capacity), run))
    ensures After(Init(capacity), run).capacity == capacity
  {
    hide Next;
    InitInv(capacity);
    assert Follows(Init(capacity), []);
    RunFollows(Init(capacity), [], run);
    assert [] + run == run;
    RunInv(Init(capacity), run);
  }

  // ----- delivery -----

  /** What every client past its replay has been sent, in full: the replay that followed its registration, and then the
      events that returned from its registration until its removal, in that order. */
  lemma StreamIs(capacity: nat, run: seq<Action>, c: Client)
    requires Runnable(Init(capacity), run) && ReplayIn(run, c).Read?
    ensures c in After(Init(capacity), run).feeds
    ensures Since(run, c) <= Until(run, c) <= |Returned(run)| && Distinct(Returned(run))
    ensures After(Init(capacity), run).feeds[c].stream ==
            ReplayOf(ReplayIn(run, c).at, capacity, ReplayIn(run, c).unsent) + Returned(run)[Since(run, c)..Until(run, c)]
  {
    BusFollows(capacity, run);
    var b := After(Init(capacity), run);
    assert FeedFollows(b, run, c);
    FeedOf(b, c);
    hide Inv, Follows, Returned, Since, Until, ReplayIn, ReplayOf, Subscribed;
  }

  /** The replay sends the event: it was still in the ring when it was read, and its send did not fail. */
  ghost predicate Replays(capacity: nat, replay: Replay, e: nat)
    requires replay.Read?
  {
    e < replay.at && replay.at - (e + 1) < capacity && e - Oldest(replay.at, capacity) !in replay.unsent
  }

  /** How often an event was sent to a client: once if its replay sends it, and once more if it returned between the client's
      registration and its removal. */
  lemma TimesSent(capacity: nat, run: seq<Action>, c: Client, e: nat)
    requires Runnable(Init(capacity), run) && ReplayIn(run, c).Read?
    ensures c in After(Init(capacity), run).feeds && Since(run, c) <= Until(run, c) <= |Returned(run)|
    ensures Count(After(Init(capacity), run).feeds[c].stream, e) ==
            (if Replays(capacity, ReplayIn(run, c), e) then 1 else 0)
            + (if e in Returned(run)[Since(run, c)..Until(run, c)] then 1 else 0)
  {
    hide Since, Until, Returned, ReplayIn, ReplayOf, Count, After, Distinct;
    StreamIs(capacity, run, c);
    var replay := ReplayIn(run, c);
    var live := Returned(run)[Since(run, c)..Until(run, c)];
    SliceDistinct(Returned(run), Since(run, c), Until(run, c));
    CountAppend(ReplayOf(replay.at, capacity, replay.unsent), live, e);
    CountReplay(replay.at, capacity, replay.unsent, e);
    CountDistinct(live, e);
  }

  lemma SplitMember(s: seq<nat>, n: nat, e: nat)
    requires n <= |s| && Distinct(s)
    ensures e in s <==> e in s[..n] || e in s[n..]
    ensures !(e in s[..n] && e in s[n..])
  {
    assert s == s[..n] + s[n..];
  }

  /** In every interleaving of publishers and subscribers: an event that returns after a client's registration has been sent
      to that client, unless the client was removed; so has one that returned earlier, if it was still in the ring when the
      replay was read and its send there did not fail; and nobody is sent an event more than twice. */
  lemma Delivery(capacity: nat, run: seq<Action>, c: Client, e: nat)
    requires Runnable(Init(capacity), run) && ReplayIn(run, c).Read?
    ensures c in After(Init(capacity), run).feeds && Since(run, c) <= |Returned(run)|
    ensures var stream := After(Init(capacity), run).feeds[c].stream;
            && Count(stream, e) <= 2
            && (Replays(capacity, ReplayIn(run, c), e) ==> Count(stream, e) >= 1)
            && (Subscribed(run, c) && e in Returned(run)[Since(run, c)..] ==> Count(stream, e) >= 1)
  {
    UntilSubscribed(run, c);
    hide Since, Until, Returned, ReplayIn, Count, After, Subscribed, Replays;
    TimesSent(capacity, run, c, e);
  }

  /** The exception is exact: a returned event is missing from the stream of a subscribed client if and only if it had
      returned before the client registered and the replay does not send it. */
  lemma MissingIff(capacity: nat, run: seq<Action>, c: Client, e: nat)
    requires Runnable(Init(capacity), run) && ReplayIn(run, c).Read?
    requires Subscribed(run, c) && e in Returned(run)
    ensures c in After(Init(capacity), run).feeds && Since(run, c) <= |Returned(run)|
    ensures Count(After(Init(capacity), run).feeds[c].stream, e) == 0 <==>
            e in Returned(run)[..Since(run, c)] && !Replays(capacity, ReplayIn(run, c), e)
  {
    UntilSubscribed(run, c);
    hide Since, Until, Returned, ReplayIn, Count, After, Subscribed, Replays, Distinct;
    StreamIs(capacity, run, c);
    TimesSent(capacity, run, c, e);
    SplitMember(Returned(run), Since(run, c), e);
  }

  /** With one publisher every client's stream is its replay followed by events in push order: it never goes back, whatever
      sends of the replay fail. The broadcasts begin with the event after the replay, or with its newest, which is the only
      event that can come twice; and they go on to the last event that returned before the client was removed. */
  lemma SinglePublisherOrder(capacity: nat, run: seq<Action>, p: Publisher, c: Client)
    requires Runnable(Init(capacity), run) && OnlyPublisher(run, p) && ReplayIn(run, c).Read?
    ensures var b := After(Init(capacity), run);
            && c in b.feeds && b.feeds[c].replay == ReplayIn(run, c) && InOrder(b.feeds[c], capacity)
            && b.feeds[c].since == Since(run, c) && b.feeds[c].since + |b.feeds[c].live| == Until(run, c)
            && Returned(run) == Range(0, |Returned(run)|)
  {
    BusFollows(capacity, run);
    var b := After(Init(capacity), run);
    assert FeedFollows(b, run, c);
    hide Inv, Follows, Next, InOrder, Returned, Since, Until, ReplayIn, Subscribed, Range;
    InitInv(capacity);
    SoleInit(capacity, p);
    SoleRun(Init(capacity), run, p);
    SoleStream(b, p, c);
  }
}
