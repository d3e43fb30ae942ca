/**
 The outbound side of a gateway: one queue per remote cluster, any number of streams that
 drain it, and the counters that throttle the intake.
 */
module Gateway {
  import opened Common
  import opened Messages
  import opened Ranks
  import opened Socket

  const MAX_PENDING_DATA_MSG := 128
  const MAX_PENDING_DATA_SIZE := 0x4000_0000

  /** The write side of one stream: its peer cluster and the message in progress. */
  datatype Slot = Slot(peer: nat, out: Option<Frame>, outPos: nat)

  datatype Outbound = Outbound(queues: seq<seq<Frame>>, slots: seq<Slot>, messages: int, size: int)

  ghost predicate ValidOutbound(o: Outbound) {
    && (forall s :: 0 <= s < |o.slots| ==> o.slots[s].peer < |o.queues| && ValidSlot(o.slots[s]))
    && (forall c, m :: 0 <= c < |o.queues| && m in o.queues[c] ==> WellFramed(Data, m))
  }

  ghost predicate ValidSlot(slot: Slot) {
    slot.out.Some? ==> WellFramed(Data, slot.out.value) && slot.outPos < |slot.out.value|
  }

  // ---- the atomic actions of the gateway ----

  /** The throttle of process_mpi_messages. */
  predicate MayAccept(o: Outbound) {
    o.messages < MAX_PENDING_DATA_MSG && o.size < MAX_PENDING_DATA_SIZE
  }

  function Accept(o: Outbound, m: Frame): Outbound
    requires WellFramed(Data, m) && GetClusterRank(DstPid(m)) < |o.queues|
  {
    var c := GetClusterRank(DstPid(m));
    o.(queues := o.queues[c := o.queues[c] + [m]],
       messages := Wrap64(o.messages + 1), size := Wrap64(o.size + |m|))
  }

  function Prepare(o: Outbound, s: nat): Outbound
    requires s < |o.slots| && o.slots[s].peer < |o.queues|
  {
    var slot := o.slots[s];
    var queue := o.queues[slot.peer];
    if slot.out.Some? || queue == [] then o
    else o.(queues := o.queues[slot.peer := queue[1..]],
            slots := o.slots[s := Slot(slot.peer, Some(queue[0]), 0)])
  }

  predicate MayWrite(o: Outbound, s: nat, n: nat) {
    s < |o.slots| && o.slots[s].out.Some? && o.slots[s].outPos + n <= |o.slots[s].out.value|
  }

  /** n bytes of the message in progress have gone out. */
  function Write(o: Outbound, s: nat, n: nat): Outbound
    requires MayWrite(o, s, n)
  {
    var Slot(peer, out, pos) := o.slots[s];
    if pos + n < |out.value| then o.(slots := o.slots[s := Slot(peer, out, pos + n)])
    else o.(slots := o.slots[s := Slot(peer, None, 0)],
            messages := Wrap64(o.messages - 1), size := Wrap64(o.size - |out.value|))
  }

  // ---- runs, with the history of what came in and what went out ----

  datatype Action = AcceptMessage(m: Frame) | PrepareSlot(s: nat) | WriteBytes(s: nat, n: nat)

  /**
   accepted: from MPI; finished[s]: completely written to stream s; streams[s]: its bytes so
   far; completed: completely written to any stream, in the order in which that happened.
   */
  datatype Trace = Trace(now: Outbound, accepted: seq<Frame>, finished: seq<seq<Frame>>, streams: seq<seq<byte>>,
                         completed: seq<Frame>)

  predicate Enabled(t: Trace, a: Action) {
    && |t.finished| == |t.streams| == |t.now.slots|
    && match a
       case AcceptMessage(m) =>
         MayAccept(t.now) && WellFramed(Data, m) && GetClusterRank(DstPid(m)) < |t.now.queues|
       case PrepareSlot(s) => s < |t.now.slots| && t.now.slots[s].peer < |t.now.queues|
       case WriteBytes(s, n) => 0 < n && MayWrite(t.now, s, n)
  }

  function Do(t: Trace, a: Action): Trace
    requires Enabled(t, a)
  {
    match a
    case AcceptMessage(m) => t.(now := Accept(t.now, m), accepted := t.accepted + [m])
    case PrepareSlot(s) => t.(now := Prepare(t.now, s))
    case WriteBytes(s, n) =>
      var Slot(_, out, pos) := t.now.slots[s];
      var done := pos + n == |out.value|;
      Trace(Write(t.now, s, n), t.accepted,
            if done then t.finished[s := t.finished[s] + [out.value]] else t.finished,
            t.streams[s := t.streams[s] + out.value[pos..pos + n]],
            if done then t.completed + [out.value] else t.completed)
  }

  /** A gateway that has just started: peers[s] is the cluster at the other end of stream s. */
  function Start(clusters: nat, peers: seq<nat>): Trace
    requires forall s :: 0 <= s < |peers| ==> peers[s] < clusters
  {
    Trace(Outbound(seq(clusters, _ => []), seq(|peers|, s requires 0 <= s < |peers| => Slot(peers[s], None, 0)), 0, 0),
          [], seq(|peers|, _ => []), seq(|peers|, _ => []), [])
  }

  ghost predicate Reaches(t: Trace, actions: seq<Action>, t': Trace)
    decreases |actions|
  {
    if actions == [] then t == t'
    else Enabled(t, actions[0]) && Reaches(Do(t, actions[0]), actions[1..], t')
  }

  // ---- conservation and back-pressure ----

  function Held(slot: Slot): seq<Frame> { if slot.out.Some? then [slot.out.value] else [] }

  function InProgress(slots: seq<Slot>): seq<seq<Frame>> {
    seq(|slots|, s requires 0 <= s < |slots| => Held(slots[s]))
  }

  /** The messages that have come in and are not yet completely written. */
  function Backlog(o: Outbound): seq<Frame> { Flatten(o.queues) + Flatten(InProgress(o.slots)) }

  /** Every accepted message is in exactly one place. */
  ghost predicate Conserved(t: Trace) {
    multiset(t.accepted) == multiset(Backlog(t.now)) + multiset(Flatten(t.finished))
  }

  /** The completed messages are those finished on one of the streams. */
  ghost predicate Recorded(t: Trace) {
    multiset(t.completed) == multiset(Flatten(t.finished))
  }

  function ToCluster(c: nat): Frame -> bool {
    m => |m| >= HEADER_SIZE && GetClusterRank(DstPid(m)) == c
  }

  ghost predicate AllTo(ms: seq<Frame>, c: nat) { forall i :: 0 <= i < |ms| ==> ToCluster(c)(ms[i]) }

  /** Every message is in the queue, or on a stream, to its own cluster. */
  ghost predicate Routed(t: Trace) {
    && |t.finished| == |t.now.slots|
    && (forall c :: 0 <= c < |t.now.queues| ==> AllTo(t.now.queues[c], c))
    && (forall s :: 0 <= s < |t.now.slots| ==>
          AllTo(Held(t.now.slots[s]), t.now.slots[s].peer) && AllTo(t.finished[s], t.now.slots[s].peer))
  }

  /** The counters are exact, and bounded by the throttle. */
  ghost predicate Accounted(o: Outbound) {
    && o.messages == |Backlog(o)| <= MAX_PENDING_DATA_MSG
    && o.size == |Flatten(Backlog(o))| < MAX_PENDING_DATA_SIZE + 0x1_0000_0000
  }

  /** What has been written to a stream is its finished messages and a part of the current one. */
  ghost predicate StreamsExact(t: Trace) {
    && |t.finished| == |t.streams| == |t.now.slots|
    && forall s :: 0 <= s < |t.streams| ==> t.streams[s] == Flatten(t.finished[s]) + WrittenPart(t.now.slots[s])
  }

  ghost function WrittenPart(slot: Slot): seq<byte> {
    if slot.out.Some? && slot.outPos <= |slot.out.value| then slot.out.value[..slot.outPos] else []
  }

  ghost predicate Inv(t: Trace) {
    ValidOutbound(t.now) && Conserved(t) && Accounted(t.now) && StreamsExact(t) && Recorded(t) && Routed(t)
  }

  // ---- what one action does to the backlog ----

  /** b is a with the messages ms added: as a multiset, in number and in total size. */
  ghost predicate Grown(b: seq<Frame>, a: seq<Frame>, ms: seq<Frame>) {
    && multiset(b) == multiset(a) + multiset(ms)
    && |b| == |a| + |ms|
    && |Flatten(b)| == |Flatten(a)| + |Flatten(ms)|
  }

  lemma GrownConcat(a: seq<Frame>, b: seq<Frame>)
    ensures Grown(a + b, a, b)
  {
    FlattenConcat(a, b);
  }

  /** Adding ms to one bin of a family adds ms to the whole. */
  lemma {:induction false} GrowBin(bins: seq<seq<Frame>>, k: nat, bin: seq<Frame>, ms: seq<Frame>)
    requires k < |bins| && Grown(bin, bins[k], ms)
    ensures Grown(Flatten(bins[k := bin]), Flatten(bins), ms)
  {
    var bins', rest := bins[k := bin], bins[1..];
    GrownConcat(bins[0], Flatten(rest));
    GrownConcat(bins'[0], Flatten(bins'[1..]));
    if k == 0 {
      assert bins'[1..] == rest;
      Regroup(multiset(bins[0]), multiset(ms), multiset(Flatten(rest)));
    } else {
      assert bins'[1..] == rest[k - 1 := bin];
      GrowBin(rest, k - 1, bin, ms);
      Regroup(multiset(bins[0]), multiset(Flatten(rest)), multiset(ms));
    }
  }

  lemma Regroup<T>(a: multiset<T>, b: multiset<T>, c: multiset<T>)
    ensures a + b + c == a + (b + c) && a + b + c == (a + c) + b
  {}

  lemma SlotBins(slots: seq<Slot>, s: nat, slot: Slot)
    requires s < |slots|
    ensures InProgress(slots[s := slot]) == InProgress(slots)[s := Held(slot)]
  {}

  lemma AcceptGrows(o: Outbound, m: Frame)
    requires WellFramed(Data, m) && GetClusterRank(DstPid(m)) < |o.queues|
    ensures Grown(Backlog(Accept(o, m)), Backlog(o), [m])
  {
    var c := GetClusterRank(DstPid(m));
    var q, p, q' := Flatten(o.queues), Flatten(InProgress(o.slots)), Flatten(Accept(o, m).queues);
    GrownConcat(o.queues[c], [m]);
    GrowBin(o.queues, c, o.queues[c] + [m], [m]);
    GrownConcat(q, p);
    GrownConcat(q', p);
    Regroup(multiset(q), multiset([m]), multiset(p));
  }

  lemma PrepareKeeps(o: Outbound, s: nat)
    requires s < |o.slots| && o.slots[s].peer < |o.queues|
    ensures Grown(Backlog(Prepare(o, s)), Backlog(o), [])
  {
    var slot, o' := o.slots[s], Prepare(o, s);
    var c := slot.peer;
    if o' != o {
      var m := o.queues[c][0];
      var q, p := Flatten(o.queues), Flatten(InProgress(o.slots));
      var q', p' := Flatten(o'.queues), Flatten(InProgress(o'.slots));
      assert Grown(o.queues[c], o'.queues[c], [m]) by {
        assert o.queues[c] == [m] + o.queues[c][1..];
        GrownConcat([m], o.queues[c][1..]);
      }
      assert o'.queues[c := o.queues[c]] == o.queues;
      GrowBin(o'.queues, c, o.queues[c], [m]);
      SlotBins(o.slots, s, o'.slots[s]);
      GrownConcat([], [m]);
      GrowBin(InProgress(o.slots), s, [m], [m]);
      GrownConcat(q, p);
      GrownConcat(q', p');
    }
  }

  lemma FinishShrinks(o: Outbound, s: nat, n: nat)
    requires MayWrite(o, s, n) && o.slots[s].outPos + n == |o.slots[s].out.value|
    ensures Grown(Backlog(o), Backlog(Write(o, s, n)), [o.slots[s].out.value])
  {
    var o', m := Write(o, s, n), o.slots[s].out.value;
    var bins, bins' := InProgress(o.slots), InProgress(o'.slots);
    SlotBins(o.slots, s, o'.slots[s]);
    assert bins'[s] == [] && bins'[s := [m]] == bins;
    GrownConcat([], [m]);
    GrowBin(bins', s, [m], [m]);
    var q := Flatten(o.queues);
    GrownConcat(q, Flatten(bins));
    GrownConcat(q, Flatten(bins'));
    Regroup(multiset(q), multiset(Flatten(bins')), multiset([m]));
  }

  lemma WriteKeeps(o: Outbound, s: nat, n: nat)
    requires MayWrite(o, s, n) && o.slots[s].outPos + n < |o.slots[s].out.value|
    ensures Backlog(Write(o, s, n)) == Backlog(o)
  {
    SlotBins(o.slots, s, Write(o, s, n).slots[s]);
    assert InProgress(o.slots)[s := Held(o.slots[s])] == InProgress(o.slots);
  }

  // ---- the invariant over runs ----

  lemma StreamsAfterWrite(t: Trace, s: nat, n: nat)
    requires StreamsExact(t) && Enabled(t, WriteBytes(s, n))
    ensures StreamsExact(Do(t, WriteBytes(s, n)))
  {
    var slot := t.now.slots[s];
    FlattenSnoc(t.finished[s], slot.out.value);
    WrittenOn(Flatten(t.finished[s]), slot.out.value, slot.outPos, n);
  }

  /** Written bytes extend the part of m that follows done, up to the whole of m. */
  lemma WrittenOn(done: seq<byte>, m: Frame, pos: nat, n: nat)
    requires pos + n <= |m|
    ensures done + m[..pos] + m[pos..pos + n] == done + m[..pos + n]
    ensures pos + n == |m| ==> done + m[..pos + n] == done + m == done + m + []
  {
    assert m[..pos] + m[pos..pos + n] == m[..pos + n];
    if pos + n == |m| { assert m[..pos + n] == m; }
  }

  lemma ActionKeepsStreams(t: Trace, a: Action)
    requires StreamsExact(t) && Enabled(t, a)
    ensures StreamsExact(Do(t, a))
  {
    if a.WriteBytes? { StreamsAfterWrite(t, a.s, a.n); }
  }

  lemma ActionKeepsValid(t: Trace, a: Action)
    requires ValidOutbound(t.now) && Enabled(t, a)
    ensures ValidOutbound(Do(t, a).now)
  {
    match a
    case AcceptMessage(m) => AcceptKeepsValid(t.now, m);
    case PrepareSlot(s) => PrepareKeepsValid(t.now, s);
    case WriteBytes(s, n) => WriteKeepsValid(t.now, s, n);
  }

  lemma AcceptKeepsValid(o: Outbound, m: Frame)
    requires ValidOutbound(o) && WellFramed(Data, m) && GetClusterRank(DstPid(m)) < |o.queues|
    ensures ValidOutbound(Accept(o, m))
  {
    var o' := Accept(o, m);
    forall c, x | 0 <= c < |o'.queues| && x in o'.queues[c] ensures WellFramed(Data, x) {
      if x != m { assert x in o.queues[c]; }
    }
  }

  lemma PrepareKeepsValid(o: Outbound, s: nat)
    requires ValidOutbound(o) && s < |o.slots| && o.slots[s].peer < |o.queues|
    ensures ValidOutbound(Prepare(o, s))
  {
    var o', queue := Prepare(o, s), o.queues[o.slots[s].peer];
    forall c, x | 0 <= c < |o'.queues| && x in o'.queues[c] ensures WellFramed(Data, x) { assert x in o.queues[c]; }
    if queue != [] { assert queue[0] in o.queues[o.slots[s].peer] && WellFramed(Data, queue[0]); }
    forall r | 0 <= r < |o'.slots| ensures o'.slots[r].peer < |o'.queues| && ValidSlot(o'.slots[r]) {
      assert ValidSlot(o.slots[r]);
    }
  }

  lemma WriteKeepsValid(o: Outbound, s: nat, n: nat)
    requires ValidOutbound(o) && MayWrite(o, s, n)
    ensures ValidOutbound(Write(o, s, n))
  {}

  lemma FlattenOne(m: Frame)
    ensures Flatten([m]) == m
  {
    FlattenSnoc([], m);
    assert [] + [m] == [m];
  }

  /** Counting a message in, under the throttle. */
  lemma CountIn(o: Outbound, o': Outbound, m: Frame)
    requires Accounted(o) && MayAccept(o) && WellFramed(Data, m) && Grown(Backlog(o'), Backlog(o), [m])
    requires o'.messages == Wrap64(o.messages + 1) && o'.size == Wrap64(o.size + |m|)
    ensures Accounted(o')
  {
    FlattenOne(m);
  }

  /** Counting a finished message out: no underflow, since it is part of the backlog. */
  lemma CountOut(o: Outbound, o': Outbound, m: Frame)
    requires Accounted(o) && Grown(Backlog(o), Backlog(o'), [m])
    requires o'.messages == Wrap64(o.messages - 1) && o'.size == Wrap64(o.size - |m|)
    ensures Accounted(o')
  {
    FlattenOne(m);
  }

  lemma FinishedGrows(t: Trace, s: nat, n: nat)
    requires Enabled(t, WriteBytes(s, n)) && t.now.slots[s].outPos + n == |t.now.slots[s].out.value|
    ensures multiset(Flatten(Do(t, WriteBytes(s, n)).finished))
            == multiset(Flatten(t.finished)) + multiset([t.now.slots[s].out.value])
  {
    var m := t.now.slots[s].out.value;
    GrownConcat(t.finished[s], [m]);
    GrowBin(t.finished, s, t.finished[s] + [m], [m]);
  }

  lemma FinishConserves(t: Trace, s: nat, n: nat)
    requires Conserved(t) && Enabled(t, WriteBytes(s, n))
    requires t.now.slots[s].outPos + n == |t.now.slots[s].out.value|
    ensures Conserved(Do(t, WriteBytes(s, n)))
  {
    var t', m := Do(t, WriteBytes(s, n)), t.now.slots[s].out.value;
    FinishShrinks(t.now, s, n);
    FinishedGrows(t, s, n);
    var b', f := multiset(Backlog(t'.now)), multiset(Flatten(t.finished));
    Regroup(b', multiset([m]), f);
    Regroup(b', f, multiset([m]));
  }

  lemma ActionKeepsRecorded(t: Trace, a: Action)
    requires Recorded(t) && Enabled(t, a)
    ensures Recorded(Do(t, a))
  {
    if a.WriteBytes? && t.now.slots[a.s].outPos + a.n == |t.now.slots[a.s].out.value| { FinishedGrows(t, a.s, a.n); }
  }

  lemma ActionKeepsRouted(t: Trace, a: Action)
    requires Routed(t) && Enabled(t, a)
    ensures Routed(Do(t, a))
  {
    var t' := Do(t, a);
    forall c | 0 <= c < |t'.now.queues| ensures AllTo(t'.now.queues[c], c) { assert AllTo(t.now.queues[c], c); }
    forall s | 0 <= s < |t'.now.slots|
      ensures AllTo(Held(t'.now.slots[s]), t'.now.slots[s].peer) && AllTo(t'.finished[s], t'.now.slots[s].peer)
    {
      assert AllTo(Held(t.now.slots[s]), t.now.slots[s].peer) && AllTo(t.finished[s], t.now.slots[s].peer);
      if a.PrepareSlot? && a.s == s { assert AllTo(t.now.queues[t.now.slots[s].peer], t.now.slots[s].peer); }
      if a.WriteBytes? && a.s == s { assert ToCluster(t.now.slots[s].peer)(Held(t.now.slots[s])[0]); }
    }
  }

  lemma FinishAccounts(o: Outbound, s: nat, n: nat)
    requires Accounted(o) && MayWrite(o, s, n) && o.slots[s].outPos + n == |o.slots[s].out.value|
    ensures Accounted(Write(o, s, n))
  {
    FinishShrinks(o, s, n);
    CountOut(o, Write(o, s, n), o.slots[s].out.value);
  }

  lemma WriteAccounts(t: Trace, s: nat, n: nat)
    requires Accounted(t.now) && Conserved(t) && Enabled(t, WriteBytes(s, n))
    ensures Accounted(Do(t, WriteBytes(s, n)).now) && Conserved(Do(t, WriteBytes(s, n)))
  {
    if t.now.slots[s].outPos + n == |t.now.slots[s].out.value| {
      FinishAccounts(t.now, s, n);
      FinishConserves(t, s, n);
    } else {
      WriteKeeps(t.now, s, n);
    }
  }

  lemma AcceptAccounts(t: Trace, m: Frame)
    requires Accounted(t.now) && Conserved(t) && Enabled(t, AcceptMessage(m))
    ensures Accounted(Accept(t.now, m)) && Conserved(Do(t, AcceptMessage(m)))
  {
    var t' := Do(t, AcceptMessage(m));
    AcceptGrows(t.now, m);
    CountIn(t.now, t'.now, m);
    Regroup(multiset(Backlog(t.now)), multiset([m]), multiset(Flatten(t.finished)));
  }

  lemma ActionKeepsInv(t: Trace, a: Action)
    requires Inv(t) && Enabled(t, a)
    ensures Inv(Do(t, a))
  {
    ActionKeepsValid(t, a);
    ActionKeepsStreams(t, a);
    ActionAccounts(t, a);
    ActionKeepsRecorded(t, a);
    ActionKeepsRouted(t, a);
  }

  lemma ActionAccounts(t: Trace, a: Action)
    requires Accounted(t.now) && Conserved(t) && Enabled(t, a)
    ensures Accounted(Do(t, a).now) && Conserved(Do(t, a))
  {
    match a
    case AcceptMessage(m) => AcceptAccounts(t, m);
    case PrepareSlot(s) => PrepareKeeps(t.now, s);
    case WriteBytes(s, n) => WriteAccounts(t, s, n);
  }

  lemma StartInv(clusters: nat, peers: seq<nat>)
    requires forall s :: 0 <= s < |peers| ==> peers[s] < clusters
    ensures Inv(Start(clusters, peers))
  {
    var t := Start(clusters, peers);
    FlattenEmpties(t.now.queues);
    FlattenEmpties(InProgress(t.now.slots));
    FlattenEmpties(t.finished);
  }

  lemma {:induction false} RunKeepsInv(t: Trace, actions: seq<Action>, t': Trace)
    requires Inv(t) && Reaches(t, actions, t')
    ensures Inv(t')
    decreases |actions|
  {
    if actions != [] {
      ActionKeepsInv(t, actions[0]);
      RunKeepsInv(Do(t, actions[0]), actions[1..], t');
    }
  }

  ghost predicate Bounded(ms: seq<Frame>, longest: nat) { forall i :: 0 <= i < |ms| ==> |ms[i]| <= longest }

  /** Writing only lowers the pending size. */
  lemma WriteLowersSize(o: Outbound, s: nat, n: nat)
    requires Accounted(o) && MayWrite(o, s, n)
    ensures Write(o, s, n).size <= o.size
  {
    if o.slots[s].outPos + n == |o.slots[s].out.value| {
      FinishShrinks(o, s, n);
      FlattenOne(o.slots[s].out.value);
    }
  }

  lemma ActionKeepsBound(t: Trace, a: Action, longest: nat)
    requires Accounted(t.now) && Enabled(t, a) && t.now.size < MAX_PENDING_DATA_SIZE + longest
    requires a.AcceptMessage? ==> |a.m| <= longest
    ensures Do(t, a).now.size < MAX_PENDING_DATA_SIZE + longest
  {
    if a.WriteBytes? { WriteLowersSize(t.now, a.s, a.n); }
  }

  /** The first action of a run accepts no message that is too long. */
  lemma FirstIsBounded(t: Trace, a: Action, rest: seq<Action>, t': Trace, longest: nat)
    requires Enabled(t, a) && Reaches(Do(t, a), rest, t') && Bounded(t'.accepted, longest)
    ensures a.AcceptMessage? ==> |a.m| <= longest
  {
    RunKeepsAccepted(Do(t, a), rest, t');
    if a.AcceptMessage? { assert t'.accepted[|t.accepted|] == a.m; }
  }

  lemma {:induction false} RunKeepsBound(t: Trace, actions: seq<Action>, t': Trace, longest: nat)
    requires Inv(t) && Reaches(t, actions, t') && t.now.size < MAX_PENDING_DATA_SIZE + longest
    requires Bounded(t'.accepted, longest)
    ensures t'.now.size < MAX_PENDING_DATA_SIZE + longest
    decreases |actions|
  {
    if actions != [] {
      FirstIsBounded(t, actions[0], actions[1..], t', longest);
      ActionKeepsBound(t, actions[0], longest);
      ActionKeepsInv(t, actions[0]);
      RunKeepsBound(Do(t, actions[0]), actions[1..], t', longest);
    }
  }

  lemma {:induction false} RunKeepsAccepted(t: Trace, actions: seq<Action>, t': Trace)
    requires Reaches(t, actions, t')
    ensures t.accepted <= t'.accepted
    decreases |actions|
  {
    if actions != [] { RunKeepsAccepted(Do(t, actions[0]), actions[1..], t'); }
  }

  /**
   In every run, with any number of streams per peer: no message is lost or duplicated, the
   unsigned counters are exact, at most 128 messages are pending, and their size stays
   below the limit plus the length of one message.
   */
  lemma GatewayConserves(clusters: nat, peers: seq<nat>, actions: seq<Action>, t: Trace, longest: nat)
    requires forall s :: 0 <= s < |peers| ==> peers[s] < clusters
    requires Reaches(Start(clusters, peers), actions, t)
    requires Bounded(t.accepted, longest)
    ensures multiset(t.accepted) == multiset(Backlog(t.now)) + multiset(Flatten(t.finished))
    ensures multiset(t.completed) == multiset(Flatten(t.finished))
    ensures t.now.messages == |Backlog(t.now)| <= 128
    ensures t.now.size == |Flatten(Backlog(t.now))| < 0x4000_0000 + longest
  {
    StartInv(clusters, peers);
    RunKeepsInv(Start(clusters, peers), actions, t);
    RunKeepsBound(Start(clusters, peers), actions, t, longest);
  }

  /**
   The throttle never closes early: in every state of every run, a well-framed message for a cluster
   can be accepted exactly if fewer than 128 messages with fewer than 2^30 bytes are pending.
   */
  lemma IntakeOpenIff(clusters: nat, peers: seq<nat>, actions: seq<Action>, t: Trace, m: Frame)
    requires forall s :: 0 <= s < |peers| ==> peers[s] < clusters
    requires Reaches(Start(clusters, peers), actions, t)
    requires WellFramed(Data, m) && GetClusterRank(DstPid(m)) < clusters
    ensures Enabled(t, AcceptMessage(m)) <==> |Backlog(t.now)| < 128 && |Flatten(Backlog(t.now))| < 0x4000_0000
  {
    StartInv(clusters, peers);
    RunKeepsInv(Start(clusters, peers), actions, t);
    RunKeepsClusters(Start(clusters, peers), actions, t);
  }

  lemma {:induction false} RunKeepsClusters(t: Trace, actions: seq<Action>, t': Trace)
    requires Reaches(t, actions, t')
    ensures |t'.now.queues| == |t.now.queues|
    decreases |actions|
  {
    if actions != [] {
      ActionKeepsPeers(t, actions[0]);
      RunKeepsClusters(Do(t, actions[0]), actions[1..], t');
    }
  }

  // ---- order ----

  /** The clusters to which the streams lead. */
  function Peers(o: Outbound): seq<nat> { seq(|o.slots|, s requires 0 <= s < |o.slots| => o.slots[s].peer) }

  ghost predicate AtMostOneStream(peers: seq<nat>, c: nat) {
    forall s, r :: 0 <= s < r < |peers| ==> peers[s] != c || peers[r] != c
  }

  ghost predicate SoleStream(peers: seq<nat>, s: nat, c: nat) {
    s < |peers| && peers[s] == c && forall r :: 0 <= r < |peers| && r != s ==> peers[r] != c
  }

  /** The messages for c have been completed in the order in which they were accepted. */
  ghost predicate InOrder(t: Trace, c: nat) {
    Filter(t.completed, ToCluster(c)) <= Filter(t.accepted, ToCluster(c))
  }

  /** What was accepted for c is, in order: finished on stream s, in progress there, queued. */
  ghost predicate OrderedOn(t: Trace, s: nat, c: nat) {
    && s < |t.finished| == |t.now.slots| && c < |t.now.queues|
    && Filter(t.accepted, ToCluster(c)) == t.finished[s] + Held(t.now.slots[s]) + t.now.queues[c]
    && Filter(t.completed, ToCluster(c)) == t.finished[s]
  }

  lemma FilterOne(ms: seq<Frame>, m: Frame, c: nat)
    ensures Filter(ms + [m], ToCluster(c))
            == if ToCluster(c)(m) then Filter(ms, ToCluster(c)) + [m] else Filter(ms, ToCluster(c))
  {
    FilterSnoc(ms, m, ToCluster(c));
  }

  lemma ActionKeepsPeers(t: Trace, a: Action)
    requires Enabled(t, a)
    ensures Peers(Do(t, a).now) == Peers(t.now) && |Do(t, a).now.queues| == |t.now.queues|
  {}

  /** A message that is completed on another stream is for another cluster. */
  lemma CompletedElsewhere(t: Trace, r: nat, c: nat)
    requires Routed(t) && r < |t.now.slots| && t.now.slots[r].out.Some? && t.now.slots[r].peer != c
    ensures !ToCluster(c)(t.now.slots[r].out.value)
  {
    assert AllTo(Held(t.now.slots[r]), t.now.slots[r].peer);
    assert ToCluster(t.now.slots[r].peer)(Held(t.now.slots[r])[0]);
  }

  /** Whatever the streams to other clusters, a sole stream to c keeps the order of the messages for c. */
  lemma ActionKeepsOrder(t: Trace, a: Action, s: nat, c: nat)
    requires Routed(t) && Enabled(t, a) && SoleStream(Peers(t.now), s, c) && OrderedOn(t, s, c)
    ensures OrderedOn(Do(t, a), s, c)
  {
    assert t.now.slots[s].peer == Peers(t.now)[s] == c;
    match a
    case AcceptMessage(m) => AcceptKeepsOrder(t, m, s, c);
    case PrepareSlot(r) => PrepareKeepsOrder(t, r, s, c);
    case WriteBytes(r, n) => WriteKeepsOrder(t, r, n, s, c);
  }

  lemma OneMoreQueued(accepted: seq<Frame>, m: Frame, c: nat, front: seq<Frame>, queue: seq<Frame>)
    requires Filter(accepted, ToCluster(c)) == front + queue && ToCluster(c)(m)
    ensures Filter(accepted + [m], ToCluster(c)) == front + (queue + [m])
  {
    FilterOne(accepted, m, c);
    LastInQueue(front, queue, m);
  }

  lemma LastInQueue<T>(front: seq<T>, queue: seq<T>, x: T)
    ensures front + queue + [x] == front + (queue + [x])
  {}

  lemma AcceptKeepsOrder(t: Trace, m: Frame, s: nat, c: nat)
    requires Enabled(t, AcceptMessage(m)) && OrderedOn(t, s, c)
    ensures OrderedOn(Do(t, AcceptMessage(m)), s, c)
  {
    if ToCluster(c)(m) {
      OneMoreQueued(t.accepted, m, c, t.finished[s] + Held(t.now.slots[s]), t.now.queues[c]);
    } else {
      FilterOne(t.accepted, m, c);
    }
  }

  lemma PrepareKeepsOrder(t: Trace, r: nat, s: nat, c: nat)
    requires Enabled(t, PrepareSlot(r)) && OrderedOn(t, s, c) && t.now.slots[s].peer == c
    requires SoleStream(Peers(t.now), s, c)
    ensures OrderedOn(Do(t, PrepareSlot(r)), s, c)
  {
    assert Peers(t.now)[r] == t.now.slots[r].peer;
    var queue := t.now.queues[c];
    if r == s && t.now.slots[s].out == None && queue != [] {
      assert t.finished[s] + [] + queue == t.finished[s] + [queue[0]] + queue[1..];
    }
  }

  lemma WriteKeepsOrder(t: Trace, r: nat, n: nat, s: nat, c: nat)
    requires Routed(t) && Enabled(t, WriteBytes(r, n)) && OrderedOn(t, s, c) && t.now.slots[s].peer == c
    requires SoleStream(Peers(t.now), s, c)
    ensures OrderedOn(Do(t, WriteBytes(r, n)), s, c)
  {
    assert Peers(t.now)[r] == t.now.slots[r].peer;
    if t.now.slots[r].outPos + n == |t.now.slots[r].out.value| {
      if r == s { FinishKeepsOrder(t, n, s, c); } else { FinishElsewhere(t, r, n, s, c); }
    }
  }

  /** The last bytes of a message for c. */
  lemma FinishKeepsOrder(t: Trace, n: nat, s: nat, c: nat)
    requires Routed(t) && Enabled(t, WriteBytes(s, n)) && OrderedOn(t, s, c) && t.now.slots[s].peer == c
    requires t.now.slots[s].outPos + n == |t.now.slots[s].out.value|
    ensures OrderedOn(Do(t, WriteBytes(s, n)), s, c)
  {
    var m := t.now.slots[s].out.value;
    assert AllTo(Held(t.now.slots[s]), c) && ToCluster(c)(Held(t.now.slots[s])[0]);
    FilterOne(t.completed, m, c);
    NothingHeld(t.finished[s] + [m], t.now.queues[c]);
  }

  lemma NothingHeld<T>(finished: seq<T>, queue: seq<T>)
    ensures finished + [] + queue == finished + queue
  {}

  /** The last bytes of a message for another cluster. */
  lemma FinishElsewhere(t: Trace, r: nat, n: nat, s: nat, c: nat)
    requires Routed(t) && Enabled(t, WriteBytes(r, n)) && OrderedOn(t, s, c) && r != s && t.now.slots[r].peer != c
    requires t.now.slots[r].outPos + n == |t.now.slots[r].out.value|
    ensures OrderedOn(Do(t, WriteBytes(r, n)), s, c)
  {
    CompletedElsewhere(t, r, c);
    FilterOne(t.completed, t.now.slots[r].out.value, c);
  }

  lemma {:induction false} RunKeepsOrder(t: Trace, actions: seq<Action>, t': Trace, s: nat, c: nat)
    requires Inv(t) && SoleStream(Peers(t.now), s, c) && OrderedOn(t, s, c) && Reaches(t, actions, t')
    ensures OrderedOn(t', s, c)
    decreases |actions|
  {
    if actions != [] {
      ActionKeepsInv(t, actions[0]);
      ActionKeepsPeers(t, actions[0]);
      ActionKeepsOrder(t, actions[0], s, c);
      RunKeepsOrder(Do(t, actions[0]), actions[1..], t', s, c);
    }
  }

  /** With a sole stream to c, whatever the other clusters have, messages for c keep their order at every stage. */
  lemma SoleStreamKeepsOrder(clusters: nat, peers: seq<nat>, actions: seq<Action>, t: Trace, s: nat, c: nat)
    requires forall r :: 0 <= r < |peers| ==> peers[r] < clusters
    requires SoleStream(peers, s, c) && Reaches(Start(clusters, peers), actions, t)
    ensures s < |t.finished| == |t.now.slots| && c < |t.now.queues|
    ensures Filter(t.accepted, ToCluster(c)) == t.finished[s] + Held(t.now.slots[s]) + t.now.queues[c]
    ensures Filter(t.completed, ToCluster(c)) == t.finished[s]
  {
    StartInv(clusters, peers);
    StartOrdered(clusters, peers, s, c);
    RunKeepsOrder(Start(clusters, peers), actions, t, s, c);
  }

  lemma StartOrdered(clusters: nat, peers: seq<nat>, s: nat, c: nat)
    requires forall r :: 0 <= r < |peers| ==> peers[r] < clusters
    ensures Peers(Start(clusters, peers).now) == peers
    ensures s < |peers| && c < clusters ==> OrderedOn(Start(clusters, peers), s, c)
  {
    assert [] + [] + [] == Filter<Frame>([], ToCluster(c));
  }

  ghost predicate NoStream(t: Trace, c: nat) {
    forall r :: 0 <= r < |t.now.slots| ==> Peers(t.now)[r] != c
  }

  lemma NoStreamStep(t: Trace, a: Action, c: nat)
    requires Routed(t) && Enabled(t, a) && NoStream(t, c)
    ensures NoStream(Do(t, a), c) && Filter(Do(t, a).completed, ToCluster(c)) == Filter(t.completed, ToCluster(c))
  {
    ActionKeepsPeers(t, a);
    if a.WriteBytes? {
      assert t.now.slots[a.s].peer == Peers(t.now)[a.s];
      CompletedElsewhere(t, a.s, c);
      FilterOne(t.completed, t.now.slots[a.s].out.value, c);
    }
  }

  /** Without any stream to c, no message for c is ever completed. */
  lemma {:induction false} NoStreamCompletesNone(t: Trace, actions: seq<Action>, t': Trace, c: nat)
    requires Inv(t) && Reaches(t, actions, t') && NoStream(t, c)
    ensures Filter(t'.completed, ToCluster(c)) == Filter(t.completed, ToCluster(c))
    decreases |actions|
  {
    if actions != [] {
      ActionKeepsInv(t, actions[0]);
      NoStreamStep(t, actions[0], c);
      NoStreamCompletesNone(Do(t, actions[0]), actions[1..], t', c);
    }
  }

  lemma AtMostOneKeepsOrder(clusters: nat, peers: seq<nat>, actions: seq<Action>, t: Trace, c: nat)
    requires forall r :: 0 <= r < |peers| ==> peers[r] < clusters
    requires AtMostOneStream(peers, c) && Reaches(Start(clusters, peers), actions, t)
    ensures InOrder(t, c)
  {
    if s :| 0 <= s < |peers| && peers[s] == c {
      assert SoleStream(peers, s, c);
      SoleStreamKeepsOrder(clusters, peers, actions, t, s, c);
    } else {
      StartInv(clusters, peers);
      StartOrdered(clusters, peers, 0, c);
      NoStreamCompletesNone(Start(clusters, peers), actions, t, c);
    }
  }

  lemma FirstThen(t: Trace, a: Action, rest: seq<Action>, t': Trace)
    requires Enabled(t, a) && Reaches(Do(t, a), rest, t')
    ensures Reaches(t, [a] + rest, t')
  {
    assert ([a] + rest)[1..] == rest;
  }

  /** A message for c, of either of two lengths. */
  function MessageTo(c: nat, long: bool): (m: Frame)
    requires c < MAX_CLUSTERS
    ensures WellFramed(Data, m) && ToCluster(c)(m) && |m| == DATA_MESSAGE_SIZE + if long then 1 else 0
  {
    CreateDataMessage(0, 0, SetPid(c, 0), 0, 0, 0, 0, 0, if long then [0] else [])
  }

  /** Two streams take one message each, and the second is completed first. */
  lemma Overtaken(t: Trace, s: nat, r: nat, c: nat, m1: Frame, m2: Frame) returns (later: seq<Action>, t': Trace)
    requires s < r < |t.now.slots| == |t.finished| == |t.streams| && c < |t.now.queues| && m2 != []
    requires t.now.slots[s] == t.now.slots[r] == Slot(c, None, 0) && t.now.queues[c] == [m1, m2]
    ensures Reaches(t, later, t') && t'.accepted == t.accepted && t'.completed == t.completed + [m2]
    ensures t'.streams == t.streams[r := t.streams[r] + m2] && forall x :: x in later ==> !x.AcceptMessage?
  {
    var t3 := Do(t, PrepareSlot(s));
    assert t3.now.queues[c] == [m2] && t3.now.slots[r] == Slot(c, None, 0);
    var t4 := Do(t3, PrepareSlot(r));
    assert t4.now.slots[r].out == Some(m2);
    t' := Do(t4, WriteBytes(r, |m2|));
    assert m2[0..0 + |m2|] == m2;
    FirstThen(t4, WriteBytes(r, |m2|), [], t');
    later := [WriteBytes(r, |m2|)] + [];
    FirstThen(t3, PrepareSlot(r), later, t');
    later := [PrepareSlot(r)] + later;
    FirstThen(t, PrepareSlot(s), later, t');
    later := [PrepareSlot(s)] + later;
  }

  lemma Reordered(m1: Frame, m2: Frame, c: nat)
    requires ToCluster(c)(m1) && ToCluster(c)(m2) && m1 != m2
    ensures !(Filter([m2], ToCluster(c)) <= Filter([m1, m2], ToCluster(c)))
  {
    FilterOne([], m1, c);
    FilterOne([m1], m2, c);
    FilterOne([], m2, c);
    assert [] + [m1] == [m1] && [m1] + [m2] == [m1, m2] && [] + [m2] == [m2];
  }

  ghost predicate BothAccepted(t0: Trace, m1: Frame, m2: Frame, t2: Trace) {
    && Enabled(t0, AcceptMessage(m1)) && Enabled(Do(t0, AcceptMessage(m1)), AcceptMessage(m2))
    && t2 == Do(Do(t0, AcceptMessage(m1)), AcceptMessage(m2))
  }

  /** Two messages for c are accepted, one after the other. */
  lemma TwoAccepted(clusters: nat, peers: seq<nat>, c: nat, m1: Frame, m2: Frame) returns (t2: Trace)
    requires forall r :: 0 <= r < |peers| ==> peers[r] < clusters
    requires WellFramed(Data, m1) && ToCluster(c)(m1) && WellFramed(Data, m2) && ToCluster(c)(m2) && c < clusters
    requires |m1| <= DATA_MESSAGE_SIZE + 1
    ensures BothAccepted(Start(clusters, peers), m1, m2, t2)
    ensures t2.now.queues[c] == [m1, m2] && t2.accepted == [m1, m2] && t2.completed == []
    ensures t2.now.slots == Start(clusters, peers).now.slots && |t2.now.queues| == clusters
    ensures |t2.now.slots| == |t2.finished| == |t2.streams| && forall s :: 0 <= s < |t2.streams| ==> t2.streams[s] == []
  {
    var t1 := Do(Start(clusters, peers), AcceptMessage(m1));
    assert t1.now.queues[c] == [] + [m1] == [m1] && t1.accepted == [m1];
    t2 := Do(t1, AcceptMessage(m2));
    assert [m1] + [m2] == [m1, m2];
  }

  /** Two messages for c are accepted, and the second is completed on stream r while the first waits on stream s. */
  lemma Raced(clusters: nat, peers: seq<nat>, s: nat, r: nat, c: nat, m1: Frame, m2: Frame)
    returns (t2: Trace, later: seq<Action>, t: Trace)
    requires forall r :: 0 <= r < |peers| ==> peers[r] < clusters
    requires s < r < |peers| && peers[s] == peers[r] == c
    requires WellFramed(Data, m1) && ToCluster(c)(m1) && WellFramed(Data, m2) && ToCluster(c)(m2)
    requires |m1| <= DATA_MESSAGE_SIZE + 1
    ensures BothAccepted(Start(clusters, peers), m1, m2, t2)
    ensures Reaches(t2, later, t) && forall x :: x in later ==> !x.AcceptMessage?
    ensures t.accepted == [m1, m2] && t.completed == [m2] && r < |t.streams| && t.streams[r] == m2
  {
    t2 := TwoAccepted(clusters, peers, c, m1, m2);
    later, t := Overtaken(t2, s, r, c, m1, m2);
    assert [] + m2 == m2 && [] + [m2] == [m2];
  }

  /** With two streams to c there is a run in which a later message for c is completed before an earlier one. */
  lemma TwoStreamsMayReorder(clusters: nat, peers: seq<nat>, s: nat, r: nat, c: nat)
    requires forall r :: 0 <= r < |peers| ==> peers[r] < clusters
    requires s < r < |peers| && peers[s] == peers[r] == c < MAX_CLUSTERS
    ensures exists actions, t :: Reaches(Start(clusters, peers), actions, t) && !InOrder(t, c)
  {
    var m1, m2 := MessageTo(c, false), MessageTo(c, true);
    var t2, later, t := Raced(clusters, peers, s, r, c, m1, m2);
    var actions := AcceptedThen(Start(clusters, peers), m1, m2, t2, later, t);
    Reordered(m1, m2, c);
  }

  lemma AcceptedThen(t0: Trace, m1: Frame, m2: Frame, t2: Trace, later: seq<Action>, t: Trace)
    returns (actions: seq<Action>)
    requires BothAccepted(t0, m1, m2, t2) && Reaches(t2, later, t)
    ensures Reaches(t0, actions, t)
  {
    FirstThen(Do(t0, AcceptMessage(m1)), AcceptMessage(m2), later, t);
    FirstThen(t0, AcceptMessage(m1), [AcceptMessage(m2)] + later, t);
    actions := [AcceptMessage(m1)] + ([AcceptMessage(m2)] + later);
  }

  /**
   Messages for c are completed in the order in which they were accepted, in every run, if and
   only if at most one stream leads to c. (A cluster rank fits its field of a PID.)
   */
  lemma OrderKeptIff(clusters: nat, peers: seq<nat>, c: nat)
    requires forall r :: 0 <= r < |peers| ==> peers[r] < clusters
    requires c < clusters <= MAX_CLUSTERS
    ensures (forall actions, t :: Reaches(Start(clusters, peers), actions, t) ==> InOrder(t, c))
            <==> AtMostOneStream(peers, c)
  {
    if AtMostOneStream(peers, c) {
      forall actions, t | Reaches(Start(clusters, peers), actions, t) ensures InOrder(t, c) {
        AtMostOneKeepsOrder(clusters, peers, actions, t, c);
      }
    } else {
      var s, r :| 0 <= s < r < |peers| && peers[s] == c && peers[r] == c;
      TwoStreamsMayReorder(clusters, peers, s, r, c);
    }
  }
}
