/** Watch delivery (pkg/fsm/watch.go) as a protocol: applying emits event batches into a bounded
    channel, a dispatcher fans each batch out to the registered watchers, and every subscription
    starts a replay of the event ring, all interleaved at will. An event is identified by its
    position in the stream of everything ever emitted. Without snapshot restores. */
module Watch {
  import opened LogTypes
  import opened Texts
  import opened KvModel
  import KvChangelog

  const EVENT_CHAN_SIZE: nat := 512

  type WatchId = nat

  /** Where a subscription's history replay is: `todo` was read from the ring, `sent` is done. */
  datatype Replay = NoReplay | Requested | Sending(todo: seq<nat>, sent: set<nat>, whole: bool)

  /** `delivered` counts, per stream position, the sends into the watcher's channel; `missed` are
      the positions its full channel, or its cancellation, lost. */
  datatype Watcher = Watcher(key: Text, prefix: bool, since: int, startRev: int, active: bool,
                             replay: Replay, delivered: multiset<nat>, missed: set<nat>)

  /** `queue` is the event channel, `inHand` the batch the dispatcher took from it, `lost` what did
      not fit the channel. */
  datatype Sys = Sys(stream: seq<Event>, revision: int, queue: seq<set<nat>>, inHand: set<nat>,
                     lost: set<nat>, watchers: map<WatchId, Watcher>)

  const START := Sys([], 0, [], {}, {}, map[])

  predicate Matches(w: Watcher, key: Text) {
    if w.prefix then w.key <= key else key == w.key
  }

  // ---------------------------------------------------------------------------
  // Steps

  datatype Step =
    | Emit(events: seq<Event>)
    | Take
    | Dispatch(full: set<WatchId>)
    | Subscribe(id: WatchId, key: Text, prefix: bool, since: int)
    | Load(id: WatchId)
    | Send(id: WatchId)
    | Cancel(id: WatchId)

  predicate CanSend(stream: seq<Event>, r: Replay) {
    r.Sending? && r.todo != [] && r.todo[0] < |stream|
  }

  predicate Enabled(s: Sys, a: Step) {
    match a
    case Emit(events) => KvChangelog.AllAt(events, s.revision + 1)
    case Take => s.inHand == {} && s.queue != []
    case Dispatch(_) => s.inHand != {}
    case Subscribe(id, _, _, _) => id !in s.watchers
    case Load(id) => id in s.watchers && s.watchers[id].replay == Requested
    case Send(id) => id in s.watchers && CanSend(s.stream, s.watchers[id].replay)
    case Cancel(id) => id in s.watchers
  }

  function Span(lo: nat, hi: nat): (ps: set<nat>)
    requires lo <= hi
    ensures forall p :: p in ps <==> lo <= p < hi
    decreases hi - lo
  {
    if lo == hi then {} else {lo} + Span(lo + 1, hi)
  }

  /** The positions of a batch a watcher wants live: newer than its registration, and matching. */
  function Wanted(stream: seq<Event>, w: Watcher, batch: set<nat>): set<nat> {
    set p | p in batch && p < |stream| && stream[p].revision > w.startRev && Matches(w, stream[p].key)
  }

  /** One watcher's share of a dispatched batch. */
  function Fed(stream: seq<Event>, w: Watcher, batch: set<nat>, full: bool): Watcher {
    var wanted := Wanted(stream, w, batch);
    if w.active && !full then w.(delivered := w.delivered + multiset(wanted)) else w.(missed := w.missed + wanted)
  }

  function FanOut(stream: seq<Event>, watchers: map<WatchId, Watcher>, batch: set<nat>, full: set<WatchId>): map<WatchId, Watcher> {
    map id | id in watchers :: Fed(stream, watchers[id], batch, id in full)
  }

  function Registered(s: Sys, key: Text, prefix: bool, since: int): Watcher {
    Watcher(key, prefix, since, s.revision, true,
            if since >= 0 && s.revision > since then Requested else NoReplay, multiset{}, {})
  }

  /** First stream position the ring still holds. */
  function RingStart(stream: seq<Event>): nat {
    if |stream| > HISTORY_SIZE then |stream| - HISTORY_SIZE else 0
  }

  predicate Distinct(ps: seq<nat>) {
    forall i, j :: 0 <= i < j < |ps| ==> ps[i] != ps[j]
  }

  predicate InRange(ps: seq<nat>, n: nat) {
    forall i :: 0 <= i < |ps| ==> ps[i] < n
  }

  /** Positions from lo on with a revision after `since`, ascending. */
  function Past(stream: seq<Event>, lo: nat, since: int): (ps: seq<nat>)
    requires lo <= |stream|
    ensures InRange(ps, |stream|)
    decreases |stream|
  {
    if lo == |stream| then [] else
      var n := |stream| - 1;
      Past(stream[..n], lo, since) + if stream[n].revision > since then [n] else []
  }

  lemma {:induction false} PastListsOnce(stream: seq<Event>, lo: nat, since: int)
    requires lo <= |stream|
    ensures var ps := Past(stream, lo, since);
            && (forall p :: p in ps <==> lo <= p < |stream| && stream[p].revision > since)
            && Distinct(ps)
    decreases |stream|
  {
    if lo < |stream| {
      var n := |stream| - 1;
      var front := Past(stream[..n], lo, since);
      PastListsOnce(stream[..n], lo, since);
      assert n !in front;
      assert forall p :: lo <= p < n ==> stream[..n][p] == stream[p];
    }
  }

  function Loaded(stream: seq<Event>, w: Watcher): Watcher {
    var past := Past(stream, RingStart(stream), w.since);
    var whole := forall p :: 0 <= p < RingStart(stream) ==> stream[p].revision <= w.since;
    w.(replay := Sending(past, {}, whole))
  }

  /** One iteration of the replay loop: positions after the registration are left to the live
      stream, and what does not match is skipped. */
  function Resent(stream: seq<Event>, w: Watcher): Watcher
    requires CanSend(stream, w.replay)
  {
    var p := w.replay.todo[0];
    var u := w.(replay := w.replay.(todo := w.replay.todo[1..], sent := w.replay.sent + {p}));
    if stream[p].revision <= w.startRev && Matches(w, stream[p].key) then
      u.(delivered := u.delivered + multiset{p})
    else u
  }

  function Act(s: Sys, a: Step): Sys
    requires Enabled(s, a)
  {
    match a
    case Emit(events) =>
      var batch := Span(|s.stream|, |s.stream| + |events|);
      var t := s.(stream := s.stream + events, revision := s.revision + 1);
      if events == [] then t
      else if |s.queue| < EVENT_CHAN_SIZE then t.(queue := s.queue + [batch])
      else t.(lost := s.lost + batch)
    case Take => s.(inHand := s.queue[0], queue := s.queue[1..])
    case Dispatch(full) => s.(inHand := {}, watchers := FanOut(s.stream, s.watchers, s.inHand, full))
    case Subscribe(id, key, prefix, since) => s.(watchers := s.watchers[id := Registered(s, key, prefix, since)])
    case Load(id) => s.(watchers := s.watchers[id := Loaded(s.stream, s.watchers[id])])
    case Send(id) => s.(watchers := s.watchers[id := Resent(s.stream, s.watchers[id])])
    case Cancel(id) => s.(watchers := s.watchers[id := s.watchers[id].(active := false)])
  }

  // ---------------------------------------------------------------------------
  // The manager's own loops

  function Positions(ps: seq<nat>): set<nat> {
    set p | p in ps
  }

  predicate GetsLive(stream: seq<Event>, w: Watcher, p: nat) {
    p in Wanted(stream, w, {p})
  }

  /** Of any stream the watcher gets live exactly the events after the revision whose key it named. */
  ghost predicate LiveAfter(w: Watcher, revision: int, key: Text, prefix: bool) {
    forall stream: seq<Event>, p: nat :: p < |stream| ==>
      (GetsLive(stream, w, p) <==>
         stream[p].revision > revision && if prefix then key <= stream[p].key else stream[p].key == key)
  }

  lemma LiveProbe(w: Watcher, revision: int, key: Text, prefix: bool, k: Text, r: int)
    requires LiveAfter(w, revision, key, prefix)
    ensures r > w.startRev && Matches(w, k) <==> r > revision && if prefix then key <= k else k == key
  {
    var stream := [Deletion(k, None, r)];
    assert GetsLive(stream, w, 0) <==> stream[0].revision > revision && if prefix then key <= stream[0].key else stream[0].key == key;
  }

  /** That, the replay due and the empty account leave no choice: the new watcher is the one the
      protocol's Subscribe step enters. */
  lemma RegisteredIs(s: Sys, w: Watcher, key: Text, prefix: bool, since: int)
    requires LiveAfter(w, s.revision, key, prefix) && w.active && w.since == since
    requires (w.replay == Requested <==> 0 <= since < s.revision) && !w.replay.Sending?
    requires w.delivered == multiset{} && w.missed == {}
    ensures w == Registered(s, key, prefix, since)
  {
    var late := if w.startRev < s.revision then s.revision + 1 else w.startRev + 1;
    LiveProbe(w, s.revision, key, prefix, key, late);
    LiveProbe(w, s.revision, key, prefix, key, w.startRev);
    LiveProbe(w, s.revision, key, prefix, key, s.revision);
    LiveProbe(w, s.revision, key, prefix, w.key, late);
    LiveProbe(w, s.revision, key, prefix, key + [0], late);
  }

  /** The positions of a batch that are after the watcher's registration and on a key it named. */
  ghost function Share(stream: seq<Event>, w: Watcher, batch: seq<nat>): set<nat> {
    set p | p in batch && p < |stream| && stream[p].revision > w.startRev
            && (if w.prefix then w.key <= stream[p].key else stream[p].key == w.key)
  }

  /** A subscribed watcher with room in its channel is sent its share of the batch, each event once;
      one that is gone or full is sent nothing and misses it. Nothing else about it changes. */
  ghost predicate Dispatched(stream: seq<Event>, w: Watcher, w': Watcher, batch: seq<nat>, full: bool) {
    if w.active && !full then w' == w.(delivered := w.delivered + multiset(Share(stream, w, batch)))
    else w' == w.(missed := w.missed + Share(stream, w, batch))
  }

  lemma FedDispatched(stream: seq<Event>, w: Watcher, batch: seq<nat>, full: bool)
    ensures Dispatched(stream, w, Fed(stream, w, Positions(batch), full), batch, full)
  {
    assert Wanted(stream, w, Positions(batch)) == Share(stream, w, batch);
  }

  class WatchManager {
    var watchers: map<WatchId, Watcher>

    /** subscribe: the revision is read and the watcher registered under one lock. Whatever is emitted
        up to that revision is never sent live to the new watcher, everything matching after it is,
        and a replay is due exactly when something between `since` and the revision may be missing. */
    method Register(revision: int, id: WatchId, key: Text, prefix: bool, since: int)
      requires id !in watchers
      modifies this
      ensures watchers.Keys == old(watchers).Keys + {id}
      ensures forall other :: other in old(watchers) ==> watchers[other] == old(watchers)[other]
      ensures LiveAfter(watchers[id], revision, key, prefix) && watchers[id].active
      ensures watchers[id].since == since && (watchers[id].replay == Requested <==> 0 <= since < revision)
      ensures !watchers[id].replay.Sending? && watchers[id].delivered == multiset{} && watchers[id].missed == {}
    {
      var startRev := revision;
      var replay := NoReplay;
      if since >= 0 && startRev > since {
        replay := Requested;
      }
      watchers := watchers[id := Watcher(key, prefix, since, startRev, true, replay, multiset{}, {})];
    }

    /** dispatch: the watchers are visited in an arbitrary order; `full` are those whose channel
        cannot take the batch. */
    method FanOutBatch(stream: seq<Event>, batch: seq<nat>, full: set<WatchId>)
      requires InRange(batch, |stream|) && Distinct(batch)
      modifies this
      ensures watchers == FanOut(stream, old(watchers), Positions(batch), full)
      ensures watchers.Keys == old(watchers).Keys
      ensures forall id :: id in watchers ==> Dispatched(stream, old(watchers)[id], watchers[id], batch, id in full)
    {
      var todo := watchers.Keys;
      while todo != {}
        invariant todo <= watchers.Keys == old(watchers).Keys
        invariant forall id :: id in todo ==> watchers[id] == old(watchers)[id]
        invariant forall id :: id in watchers && id !in todo ==>
                    watchers[id] == Fed(stream, old(watchers)[id], Positions(batch), id in full)
        decreases todo
      {
        var id :| id in todo;
        todo := todo - {id};
        var fed := Feed(stream, watchers[id], batch, id in full);
        watchers := watchers[id := fed];
      }
      forall id | id in watchers ensures Dispatched(stream, old(watchers)[id], watchers[id], batch, id in full) {
        FedDispatched(stream, old(watchers)[id], batch, id in full);
      }
    }
  }

  method Feed(stream: seq<Event>, w: Watcher, batch: seq<nat>, full: bool) returns (fed: Watcher)
    requires InRange(batch, |stream|) && Distinct(batch)
    ensures fed == Fed(stream, w, Positions(batch), full)
  {
    var matching := SelectLive(stream, w, batch);
    if w.active && !full {
      fed := w.(delivered := w.delivered + multiset(matching));
    } else {
      fed := w.(missed := w.missed + set p | p in matching);
    }
  }

  /** The events of a batch a watcher gets live. */
  method SelectLive(stream: seq<Event>, w: Watcher, batch: seq<nat>) returns (matching: seq<nat>)
    requires InRange(batch, |stream|) && Distinct(batch)
    ensures multiset(matching) == multiset(Wanted(stream, w, Positions(batch)))
    ensures (set p | p in matching) == Wanted(stream, w, Positions(batch))
  {
    matching := [];
    for i := 0 to |batch|
      invariant Distinct(matching) && forall p :: p in matching <==> p in Wanted(stream, w, Positions(batch[..i]))
    {
      assert batch[..i + 1] == batch[..i] + [batch[i]];
      assert batch[i] !in Positions(batch[..i]);
      assert batch[i] !in matching;
      var ev := stream[batch[i]];
      if ev.revision <= w.startRev {
        continue;
      }
      if Matches(w, ev.key) {
        matching := matching + [batch[i]];
      }
    }
    assert batch[..|batch|] == batch;
    DistinctCounts(matching, Wanted(stream, w, Positions(batch)));
  }

  lemma {:induction false} DistinctCounts(ps: seq<nat>, all: set<nat>)
    requires Distinct(ps) && forall p :: p in ps <==> p in all
    ensures multiset(ps) == multiset(all)
    decreases |ps|
  {
    if ps == [] {
      assert all == {};
    } else {
      var front, last := ps[..|ps| - 1], ps[|ps| - 1];
      assert ps == front + [last];
      DistinctCounts(front, all - {last});
      assert multiset(all) == multiset(all - {last}) + multiset{last};
    }
  }

  // ---------------------------------------------------------------------------
  // Invariant

  ghost predicate Pending(s: Sys, p: nat) {
    p in s.inHand || exists i :: 0 <= i < |s.queue| && p in s.queue[i]
  }

  predicate Below(ps: set<nat>, n: nat) {
    forall p :: p in ps ==> p < n
  }

  /** Batches are disjoint, and nothing is ahead of the revision. */
  ghost predicate Batched(s: Sys) {
    && (forall p :: 0 <= p < |s.stream| ==> s.stream[p].revision <= s.revision)
    && Below(s.inHand, |s.stream|) && Below(s.lost, |s.stream|) && s.inHand !! s.lost
    && (forall i :: 0 <= i < |s.queue| ==> Below(s.queue[i], |s.stream|) && s.queue[i] !! (s.inHand + s.lost))
    && (forall i, j :: 0 <= i < j < |s.queue| ==> s.queue[i] !! s.queue[j])
  }

  /** How often position p has been delivered to w: at most once, live or by replay. */
  ghost function Expected(s: Sys, w: Watcher, p: nat): nat {
    if p >= |s.stream| || !Matches(w, s.stream[p].key) then 0
    else if s.stream[p].revision > w.startRev then
      if Pending(s, p) || p in s.lost || p in w.missed then 0 else 1
    else if w.replay.Sending? && p in w.replay.sent then 1 else 0
  }

  ghost predicate Counted(s: Sys, w: Watcher) {
    && w.startRev <= s.revision
    && (forall p :: p in w.missed ==> p < |s.stream| && !Pending(s, p))
    && forall p: nat :: w.delivered[p] == Expected(s, w, p)
  }

  ghost predicate Replaying(s: Sys, w: Watcher) {
    && (w.replay == NoReplay <==> w.since < 0 || w.since >= w.startRev)
    && (w.replay.Sending? ==>
         var r := w.replay;
         && (forall p :: p in r.todo || p in r.sent ==> p < |s.stream| && s.stream[p].revision > w.since)
         && Distinct(r.todo)
         && (forall p :: p in r.todo ==> p !in r.sent)
         && (r.whole ==> forall p :: 0 <= p < |s.stream| && w.since < s.stream[p].revision <= w.startRev ==>
               p in r.todo || p in r.sent))
  }

  ghost predicate Inv(s: Sys) {
    Batched(s) && forall id :: id in s.watchers ==> Counted(s, s.watchers[id]) && Replaying(s, s.watchers[id])
  }

  // ---------------------------------------------------------------------------
  // Every step keeps it

  lemma EmitBatched(s: Sys, events: seq<Event>)
    requires Batched(s) && Enabled(s, Emit(events))
    ensures Batched(Act(s, Emit(events)))
  {
    var t := Act(s, Emit(events));
    forall p | 0 <= p < |t.stream| ensures t.stream[p].revision <= t.revision {
      assert p >= |s.stream| ==> t.stream[p] == events[p - |s.stream|];
    }
    assert forall i :: 0 <= i < |s.queue| ==> t.queue[i] == s.queue[i];
  }

  /** Old positions are as they were; new ones are pending or lost. */
  lemma EmitPending(s: Sys, events: seq<Event>, p: nat)
    requires Batched(s) && Enabled(s, Emit(events))
    ensures var t := Act(s, Emit(events));
            && (p < |s.stream| ==> (Pending(t, p) <==> Pending(s, p)) && (p in t.lost <==> p in s.lost))
            && (|s.stream| <= p < |t.stream| ==> Pending(t, p) || p in t.lost)
  {
    var t := Act(s, Emit(events));
    if Pending(s, p) && p !in s.inHand {
      var i :| 0 <= i < |s.queue| && p in s.queue[i];
      assert p in t.queue[i];
    }
    if events != [] && |s.queue| < EVENT_CHAN_SIZE && p >= |s.stream| {
      assert t.queue[|s.queue|] == Span(|s.stream|, |t.stream|);
    }
  }

  lemma EmitCounted(s: Sys, events: seq<Event>, w: Watcher)
    requires Batched(s) && Enabled(s, Emit(events)) && Counted(s, w) && Replaying(s, w)
    ensures Counted(Act(s, Emit(events)), w) && Replaying(Act(s, Emit(events)), w)
  {
    var t := Act(s, Emit(events));
    forall p: nat ensures w.delivered[p] == Expected(t, w, p) {
      EmitPending(s, events, p);
      assert p < |s.stream| ==> t.stream[p] == s.stream[p];
      assert |s.stream| <= p < |t.stream| ==> t.stream[p].revision == s.revision + 1;
    }
    forall p | p in w.missed ensures p < |t.stream| && !Pending(t, p) {
      EmitPending(s, events, p);
    }
  }

  lemma TakeSame(s: Sys, p: nat)
    requires Enabled(s, Take)
    ensures Pending(Act(s, Take), p) <==> Pending(s, p)
  {
    var t := Act(s, Take);
    if Pending(s, p) {
      var i :| 0 <= i < |s.queue| && p in s.queue[i];
      assert i > 0 ==> t.queue[i - 1] == s.queue[i];
    }
    if Pending(t, p) && p !in t.inHand {
      var i :| 0 <= i < |t.queue| && p in t.queue[i];
      assert s.queue[i + 1] == t.queue[i];
    }
  }

  lemma TakeInv(s: Sys)
    requires Inv(s) && Enabled(s, Take)
    ensures Inv(Act(s, Take))
  {
    var t := Act(s, Take);
    forall p: nat ensures Pending(t, p) <==> Pending(s, p) {
      TakeSame(s, p);
    }
    assert s.queue[0] !! (s.inHand + s.lost);
    assert forall i :: 0 <= i < |t.queue| ==> t.queue[i] == s.queue[i + 1] && s.queue[0] !! s.queue[i + 1];
    assert Batched(t);
    forall id | id in t.watchers ensures Counted(t, t.watchers[id]) && Replaying(t, t.watchers[id]) {
      var w := t.watchers[id];
      forall p: nat ensures w.delivered[p] == Expected(t, w, p) {
        assert w.delivered[p] == Expected(s, w, p);
      }
    }
  }

  lemma DispatchPending(s: Sys, full: set<WatchId>, p: nat)
    requires Batched(s) && Enabled(s, Dispatch(full))
    ensures Pending(Act(s, Dispatch(full)), p) <==> Pending(s, p) && p !in s.inHand
  {
    var t := Act(s, Dispatch(full));
    assert t.queue == s.queue;
  }

  lemma DispatchCounted(s: Sys, full: set<WatchId>, w: Watcher, id: WatchId)
    requires Batched(s) && Enabled(s, Dispatch(full)) && Counted(s, w) && Replaying(s, w)
    ensures Counted(Act(s, Dispatch(full)), Fed(s.stream, w, s.inHand, id in full))
    ensures Replaying(Act(s, Dispatch(full)), Fed(s.stream, w, s.inHand, id in full))
  {
    var t, u := Act(s, Dispatch(full)), Fed(s.stream, w, s.inHand, id in full);
    var wanted := Wanted(s.stream, w, s.inHand);
    forall p: nat ensures u.delivered[p] == Expected(t, u, p) {
      DispatchPending(s, full, p);
      assert p in wanted <==> p in multiset(wanted);
    }
    forall p | p in u.missed ensures p < |t.stream| && !Pending(t, p) {
      DispatchPending(s, full, p);
    }
  }

  lemma SubscribeCounted(s: Sys, key: Text, prefix: bool, since: int)
    requires Batched(s)
    ensures Counted(s, Registered(s, key, prefix, since)) && Replaying(s, Registered(s, key, prefix, since))
  {
  }

  lemma LoadCounted(s: Sys, w: Watcher)
    requires Counted(s, w) && Replaying(s, w) && w.replay == Requested
    ensures Counted(s, Loaded(s.stream, w)) && Replaying(s, Loaded(s.stream, w))
  {
    var u := Loaded(s.stream, w);
    PastListsOnce(s.stream, RingStart(s.stream), w.since);
    forall p: nat ensures u.delivered[p] == Expected(s, u, p) {
      assert Expected(s, u, p) == Expected(s, w, p);
    }
  }

  lemma SendCounted(s: Sys, w: Watcher)
    requires Counted(s, w) && CanSend(s.stream, w.replay) && w.replay.todo[0] !in w.replay.sent
    ensures Counted(s, Resent(s.stream, w))
  {
    var u, q := Resent(s.stream, w), w.replay.todo[0];
    forall p: nat ensures u.delivered[p] == Expected(s, u, p) {
      assert w.delivered[p] == Expected(s, w, p);
      assert p != q ==> u.delivered[p] == w.delivered[p];
    }
  }

  lemma SendReplaying(s: Sys, w: Watcher)
    requires Replaying(s, w) && CanSend(s.stream, w.replay)
    ensures Replaying(s, Resent(s.stream, w)) && w.replay.todo[0] !in w.replay.sent
  {
    var u, q := Resent(s.stream, w), w.replay.todo[0];
    assert w.replay.todo == [q] + u.replay.todo;
    assert forall p :: p in w.replay.todo <==> p == q || p in u.replay.todo;
    assert q !in u.replay.todo;
  }

  /** Nothing in a watcher's accounts depends on the other watchers. */
  lemma OthersKept(s: Sys, watchers: map<WatchId, Watcher>, w: Watcher)
    requires Counted(s, w) && Replaying(s, w)
    ensures Counted(s.(watchers := watchers), w) && Replaying(s.(watchers := watchers), w)
  {
    var t := s.(watchers := watchers);
    forall p: nat ensures Pending(t, p) <==> Pending(s, p) && Expected(t, w, p) == Expected(s, w, p) {
      assert t.queue == s.queue;
    }
  }

  lemma OneWatcherInv(s: Sys, id: WatchId, w: Watcher)
    requires Inv(s) && Counted(s, w) && Replaying(s, w)
    ensures Inv(s.(watchers := s.watchers[id := w]))
  {
    var t := s.(watchers := s.watchers[id := w]);
    forall o | o in t.watchers ensures Counted(t, t.watchers[o]) && Replaying(t, t.watchers[o]) {
      OthersKept(s, t.watchers, t.watchers[o]);
    }
  }

  lemma StepInv(s: Sys, a: Step)
    requires Inv(s) && Enabled(s, a)
    ensures Inv(Act(s, a))
  {
    var t := Act(s, a);
    match a
    case Emit(events) =>
      EmitBatched(s, events);
      forall id | id in s.watchers ensures Counted(t, s.watchers[id]) && Replaying(t, s.watchers[id]) {
        EmitCounted(s, events, s.watchers[id]);
      }
    case Take => TakeInv(s);
    case Dispatch(full) =>
      forall id | id in t.watchers ensures Counted(t, t.watchers[id]) && Replaying(t, t.watchers[id]) {
        DispatchCounted(s, full, s.watchers[id], id);
      }
    case Subscribe(id, key, prefix, since) =>
      SubscribeCounted(s, key, prefix, since);
      OneWatcherInv(s, id, Registered(s, key, prefix, since));
    case Load(id) =>
      LoadCounted(s, s.watchers[id]);
      OneWatcherInv(s, id, Loaded(s.stream, s.watchers[id]));
    case Send(id) =>
      SendReplaying(s, s.watchers[id]);
      SendCounted(s, s.watchers[id]);
      OneWatcherInv(s, id, Resent(s.stream, s.watchers[id]));
    case Cancel(id) =>
      CancelCounted(s, s.watchers[id]);
      OneWatcherInv(s, id, s.watchers[id].(active := false));
  }

  lemma CancelCounted(s: Sys, w: Watcher)
    requires Counted(s, w) && Replaying(s, w)
    ensures Counted(s, w.(active := false)) && Replaying(s, w.(active := false))
  {
    forall p: nat ensures Expected(s, w.(active := false), p) == Expected(s, w, p) {
    }
  }

  // ---------------------------------------------------------------------------
  // Runs

  ghost predicate IsRun(run: seq<Sys>, acts: seq<Step>) {
    && |run| == |acts| + 1 && run[0] == START
    && forall k :: 0 <= k < |acts| ==> Enabled(run[k], acts[k]) && run[k + 1] == Act(run[k], acts[k])
  }

  lemma {:induction false} RunInv(run: seq<Sys>, acts: seq<Step>, k: nat)
    requires IsRun(run, acts) && k < |run|
    ensures Inv(run[k])
    decreases k
  {
    if k > 0 {
      RunInv(run, acts, k - 1);
      StepInv(run[k - 1], acts[k - 1]);
    }
  }

  /** Over every interleaving, no event reaches a watcher twice, and none that it did not ask for. */
  lemma DeliveredAtMostOnce(run: seq<Sys>, acts: seq<Step>, k: nat, id: WatchId, p: nat)
    requires IsRun(run, acts) && k < |run| && id in run[k].watchers
    ensures var w := run[k].watchers[id];
            && w.delivered[p] <= 1
            && (w.delivered[p] == 1 ==> p < |run[k].stream| && Matches(w, run[k].stream[p].key))
            && (w.delivered[p] == 1 && w.since <= w.startRev ==> run[k].stream[p].revision > w.since)
  {
    RunInv(run, acts, k);
    var w := run[k].watchers[id];
    assert w.delivered[p] == Expected(run[k], w, p);
  }

  /** Everything emitted has been dispatched and this watcher has replayed all it read. */
  predicate Settled(s: Sys, w: Watcher) {
    && s.queue == [] && s.inHand == {}
    && (w.replay == NoReplay || (w.replay.Sending? && w.replay.todo == []))
  }

  /** Nothing meant for the watcher was dropped on the way: its share of every batch was sent, and the
      events that did not fit the event channel are all from before it came. */
  ghost predicate Spared(s: Sys, w: Watcher) {
    && w.active && w.missed == {}
    && forall p :: p in s.lost ==> p < |s.stream| && s.stream[p].revision <= w.startRev
  }

  /** While watcher id is registered, no dispatch finds its channel full, it is not cancelled, no emission
      finds the event channel full, and its replay is read while the ring still holds everything it
      asked for: nothing is hindered from reaching it. */
  ghost predicate Unhindered(run: seq<Sys>, acts: seq<Step>, id: WatchId)
    requires |run| == |acts| + 1
  {
    forall i :: 0 <= i < |acts| && id in run[i].watchers ==> LetsThrough(run[i], acts[i], id)
  }

  ghost predicate LetsThrough(s: Sys, a: Step, id: WatchId)
    requires id in s.watchers
  {
    match a
    case Dispatch(full) => id !in full
    case Cancel(o) => o != id
    case Emit(events) => events == [] || |s.queue| < EVENT_CHAN_SIZE
    case Load(o) => o == id ==>
        forall p :: 0 <= p && p + HISTORY_SIZE < |s.stream| ==> s.stream[p].revision <= s.watchers[id].since
    case _ => true
  }

  /** The watcher's replay, once read from the ring, has everything it asked for. */
  predicate Complete(w: Watcher) {
    w.replay.Sending? ==> w.replay.whole
  }

  lemma RegisteredSpared(s: Sys, key: Text, prefix: bool, since: int)
    requires Batched(s)
    ensures Spared(s, Registered(s, key, prefix, since)) && Complete(Registered(s, key, prefix, since))
  {
  }

  lemma EmitSpares(s: Sys, events: seq<Event>, w: Watcher)
    requires Spared(s, w) && Enabled(s, Emit(events)) && (events == [] || |s.queue| < EVENT_CHAN_SIZE)
    ensures Spared(Act(s, Emit(events)), w)
  {
  }

  lemma LoadedComplete(s: Sys, w: Watcher)
    requires forall p :: 0 <= p && p + HISTORY_SIZE < |s.stream| ==> s.stream[p].revision <= w.since
    ensures Complete(Loaded(s.stream, w))
  {
    forall p | 0 <= p < RingStart(s.stream) ensures s.stream[p].revision <= w.since {
      assert p + HISTORY_SIZE < |s.stream|;
    }
  }

  lemma StepSpares(s: Sys, a: Step, id: WatchId)
    requires Inv(s) && Enabled(s, a) && id in s.watchers && LetsThrough(s, a, id)
    requires Spared(s, s.watchers[id]) && Complete(s.watchers[id])
    ensures id in Act(s, a).watchers && Spared(Act(s, a), Act(s, a).watchers[id]) && Complete(Act(s, a).watchers[id])
  {
    match a
    case Emit(events) => EmitSpares(s, events, s.watchers[id]);
    case Load(o) =>
      if o == id {
        LoadedComplete(s, s.watchers[id]);
      }
    case _ =>
  }

  lemma {:induction false} UnhinderedSpares(run: seq<Sys>, acts: seq<Step>, k: nat, id: WatchId)
    requires IsRun(run, acts) && Unhindered(run, acts, id) && k < |run| && id in run[k].watchers
    ensures Spared(run[k], run[k].watchers[id]) && Complete(run[k].watchers[id])
    decreases k
  {
    if k > 0 {
      RunInv(run, acts, k - 1);
      if id in run[k - 1].watchers {
        UnhinderedSpares(run, acts, k - 1, id);
        StepSpares(run[k - 1], acts[k - 1], id);
      } else {
        Arrives(run[k - 1], acts[k - 1], id);
      }
    }
  }

  /** A watcher enters by subscribing, and has missed nothing yet. */
  lemma Arrives(s: Sys, a: Step, id: WatchId)
    requires Inv(s) && Enabled(s, a) && id !in s.watchers && id in Act(s, a).watchers
    ensures Spared(Act(s, a), Act(s, a).watchers[id]) && Complete(Act(s, a).watchers[id])
  {
    assert a.Subscribe? && a.id == id;
    RegisteredSpared(s, a.key, a.prefix, a.since);
  }

  /** From where a watcher is owed events: the revision it asked for if that lies between 0 and its
      registration, the registration otherwise. */
  function OwedAfter(w: Watcher): int {
    if 0 <= w.since < w.startRev then w.since else w.startRev
  }

  lemma SettledDelivered(s: Sys, w: Watcher, p: nat)
    requires Counted(s, w) && Replaying(s, w) && Settled(s, w) && Spared(s, w) && Complete(w) && p < |s.stream|
    ensures w.delivered[p] == if Matches(w, s.stream[p].key) && s.stream[p].revision > OwedAfter(w) then 1 else 0
  {
    assert w.delivered[p] == Expected(s, w, p);
  }

  /** A watcher that nothing was hindered from reaching has, when all is settled, received every matching
      event after the revision it is owed from, exactly once, and nothing else. */
  lemma DeliveredExactlyOnce(run: seq<Sys>, acts: seq<Step>, k: nat, id: WatchId, p: nat)
    requires IsRun(run, acts) && Unhindered(run, acts, id) && k < |run| && id in run[k].watchers
    requires Settled(run[k], run[k].watchers[id]) && p < |run[k].stream|
    ensures var w := run[k].watchers[id];
            w.delivered[p] == if Matches(w, run[k].stream[p].key) && run[k].stream[p].revision > OwedAfter(w) then 1 else 0
  {
    RunInv(run, acts, k);
    UnhinderedSpares(run, acts, k, id);
    SettledDelivered(run[k], run[k].watchers[id], p);
  }

  /** As long as a watcher is not settled some step towards it can be taken: the dispatcher takes the next
      batch or hands out the one it has, or the replay is read or sends its next event. */
  lemma UnsettledCanStep(run: seq<Sys>, acts: seq<Step>, k: nat, id: WatchId)
    requires IsRun(run, acts) && k < |run| && id in run[k].watchers && !Settled(run[k], run[k].watchers[id])
    ensures Enabled(run[k], Take) || Enabled(run[k], Dispatch({})) || Enabled(run[k], Load(id)) || Enabled(run[k], Send(id))
  {
    var w := run[k].watchers[id];
    if w.replay.Sending? && w.replay.todo != [] {
      ReplayCanProceed(run, acts, k, id);
    }
  }

  /** The replay goroutine never gets stuck on a position it cannot read. */
  lemma ReplayCanProceed(run: seq<Sys>, acts: seq<Step>, k: nat, id: WatchId)
    requires IsRun(run, acts) && k < |run| && id in run[k].watchers
    requires run[k].watchers[id].replay.Sending? && run[k].watchers[id].replay.todo != []
    ensures Enabled(run[k], Send(id))
  {
    RunInv(run, acts, k);
    assert run[k].watchers[id].replay.todo[0] in run[k].watchers[id].replay.todo;
  }

  // ---------------------------------------------------------------------------
  // The store behind it

  /** What the store emits is what Emit allows: one revision up, all events at it. */
  lemma StoreEmits(render: Render, s: Store, cmd: Command)
    ensures var s' := KvModel.Apply(render, s, cmd).0;
            || (s'.revision == s.revision && KvChangelog.Emitted(s, cmd) == [])
            || (s'.revision == s.revision + 1 && KvChangelog.AllAt(KvChangelog.Emitted(s, cmd), s.revision + 1))
  {
    KvChangelog.ExecuteTold(ViewOf(Clocked(s, cmd)), cmd);
  }

  /** The events at the given positions. */
  function At(stream: seq<Event>, ps: seq<nat>): seq<Event> {
    if ps == [] then [] else
      var n := |ps| - 1;
      At(stream, ps[..n]) + if ps[n] < |stream| then [stream[ps[n]]] else []
  }

  lemma AtSnoc(stream: seq<Event>, ps: seq<nat>, p: nat)
    requires p < |stream|
    ensures At(stream, ps + [p]) == At(stream, ps) + [stream[p]]
  {
    assert (ps + [p])[..|ps|] == ps;
  }

  lemma AfterSnoc(es: seq<Event>, e: Event, since: int)
    ensures KvChangelog.After(es + [e], since) == KvChangelog.After(es, since) + if e.revision > since then [e] else []
  {
    assert (es + [e])[..|es|] == es;
  }

  lemma {:induction false} SameAt(a: seq<Event>, b: seq<Event>, ps: seq<nat>)
    requires b <= a && InRange(ps, |b|)
    ensures At(a, ps) == At(b, ps)
    decreases |ps|
  {
    if ps != [] {
      SameAt(a, b, ps[..|ps| - 1]);
    }
  }

  lemma PastSnoc(stream: seq<Event>, e: Event, lo: nat, since: int)
    requires lo <= |stream|
    ensures Past(stream + [e], lo, since) == Past(stream, lo, since) + if e.revision > since then [|stream|] else []
  {
    assert (stream + [e])[..|stream|] == stream;
  }

  lemma HistoryStep(stream: seq<Event>, e: Event, lo: nat, since: int, ps: seq<nat>)
    requires lo <= |stream| && InRange(ps, |stream|) && At(stream, ps) == KvChangelog.After(stream[lo..], since)
    ensures At(stream + [e], ps + if e.revision > since then [|stream|] else [])
         == KvChangelog.After((stream + [e])[lo..], since)
  {
    SameAt(stream + [e], stream, ps);
    AfterSnoc(stream[lo..], e, since);
    assert (stream + [e])[lo..] == stream[lo..] + [e];
    if e.revision > since {
      AtSnoc(stream + [e], ps, |stream|);
    } else {
      assert ps + [] == ps;
    }
  }

  ghost predicate ReadsHistory(stream: seq<Event>, lo: nat, since: int)
    requires lo <= |stream|
  {
    At(stream, Past(stream, lo, since)) == KvChangelog.After(stream[lo..], since)
  }

  lemma HistoryOneMore(stream: seq<Event>, e: Event, lo: nat, since: int)
    requires lo <= |stream| && ReadsHistory(stream, lo, since)
    ensures ReadsHistory(stream + [e], lo, since)
  {
    PastSnoc(stream, e, lo, since);
    HistoryStep(stream, e, lo, since, Past(stream, lo, since));
  }

  lemma NoHistory(stream: seq<Event>, since: int)
    ensures ReadsHistory(stream, |stream|, since)
  {
    assert stream[|stream|..] == [];
  }

  /** What a replay reads is what GetHistory returns from the ring. */
  lemma {:induction false} PastIsHistory(stream: seq<Event>, lo: nat, since: int)
    requires lo <= |stream|
    ensures ReadsHistory(stream, lo, since)
    decreases |stream|
  {
    if lo == |stream| {
      NoHistory(stream, since);
    } else {
      var front, e := stream[..|stream| - 1], stream[|stream| - 1];
      assert front + [e] == stream;
      PastIsHistory(front, lo, since);
      HistoryOneMore(front, e, lo, since);
    }
  }
}
