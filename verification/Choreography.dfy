/**
 Programs of sends and receives that are projections of one global script. Whatever the
 transport does (buffer a send, or make it wait for its receive), such programs never
 deadlock, always end, and deliver every message to the receive the script pairs it with.
 */
module Choreography {
  import opened Common

  /** One action of the script: of the sender (Send) or of the receiver (Recv). */
  datatype Act<T> = Send(src: nat, dst: nat, data: T) | Recv(src: nat, dst: nat)

  /** The same action as its process sees it. */
  datatype Op<T> = SendTo(dst: nat, data: T) | RecvFrom(src: nat)

  function Owner<T>(a: Act<T>): nat { if a.Send? then a.src else a.dst }

  function Local<T>(a: Act<T>): Op<T> { if a.Send? then SendTo(a.dst, a.data) else RecvFrom(a.src) }

  /** The part of the script that process p carries out. */
  function Program<T>(script: seq<Act<T>>, p: nat): seq<Op<T>> {
    if script == [] then []
    else (if Owner(script[0]) == p then [Local(script[0])] else []) + Program(script[1..], p)
  }

  /** What s sends to r in the script, in order, and how often r receives from s. */
  function Sent<T>(script: seq<Act<T>>, s: nat, r: nat): seq<T> {
    if script == [] then [] else Sent(script[..|script| - 1], s, r) + SentBy(script[|script| - 1], s, r)
  }

  function SentBy<T>(a: Act<T>, s: nat, r: nat): seq<T> {
    if a.Send? && a.src == s && a.dst == r then [a.data] else []
  }

  function Receives<T>(script: seq<Act<T>>, s: nat, r: nat): nat {
    if script == [] then 0 else Receives(script[..|script| - 1], s, r) + ReceivedBy(script[|script| - 1], s, r)
  }

  function ReceivedBy<T>(a: Act<T>, s: nat, r: nat): nat { if a.Recv? && a.src == s && a.dst == r then 1 else 0 }

  /** The receives of me from all ranks below j, in order. */
  function ReceiveOps<T>(me: nat, j: nat): seq<Op<T>> {
    if j == 0 then []
    else if j - 1 == me then ReceiveOps(me, j - 1)
    else ReceiveOps(me, j - 1) + [RecvFrom(j - 1)]
  }

  // ---- the transport ----

  /** What every process has left to do, the messages under way and those received, per pair. */
  datatype State<T> = State(todo: seq<seq<Op<T>>>, chan: map<(nat, nat), seq<T>>, got: map<(nat, nat), seq<T>>)

  function At<T>(m: map<(nat, nat), seq<T>>, s: nat, r: nat): seq<T> {
    if (s, r) in m then m[(s, r)] else []
  }

  datatype Step =
    | Post(p: nat)            // a send that the transport buffers
    | Take(p: nat)            // a receive of a buffered message
    | Meet(s: nat, r: nat)    // a send and its receive, at once

  ghost predicate Enabled<T>(st: State<T>, step: Step) {
    match step
    case Post(p) => p < |st.todo| && st.todo[p] != [] && st.todo[p][0].SendTo?
    case Take(p) =>
      p < |st.todo| && st.todo[p] != [] && st.todo[p][0].RecvFrom? && At(st.chan, st.todo[p][0].src, p) != []
    case Meet(s, r) =>
      && s < |st.todo| && r < |st.todo| && s != r && st.todo[s] != [] && st.todo[r] != []
      && st.todo[s][0].SendTo? && st.todo[s][0].dst == r && st.todo[r][0] == RecvFrom(s)
      && At(st.chan, s, r) == []
  }

  ghost function Do<T>(st: State<T>, step: Step): State<T>
    requires Enabled(st, step)
  {
    match step
    case Post(p) =>
      var op := st.todo[p][0];
      st.(todo := st.todo[p := st.todo[p][1..]],
          chan := st.chan[(p, op.dst) := At(st.chan, p, op.dst) + [op.data]])
    case Take(p) =>
      var s := st.todo[p][0].src;
      var c := At(st.chan, s, p);
      State(st.todo[p := st.todo[p][1..]], st.chan[(s, p) := c[1..]],
            st.got[(s, p) := At(st.got, s, p) + [c[0]]])
    case Meet(s, r) =>
      st.(todo := st.todo[s := st.todo[s][1..]][r := st.todo[r][1..]],
          got := st.got[(s, r) := At(st.got, s, r) + [st.todo[s][0].data]])
  }

  ghost function Start<T>(programs: seq<seq<Op<T>>>): State<T> { State(programs, map[], map[]) }

  ghost predicate Reaches<T>(st: State<T>, steps: seq<Step>, st': State<T>)
    decreases |steps|
  {
    if steps == [] then st == st'
    else Enabled(st, steps[0]) && Reaches(Do(st, steps[0]), steps[1..], st')
  }

  ghost predicate Finished<T>(st: State<T>) { forall p :: 0 <= p < |st.todo| ==> st.todo[p] == [] }

  // ---- scripts ----

  ghost predicate Among<T>(script: seq<Act<T>>, n: nat) {
    forall i :: 0 <= i < |script| ==> script[i].src < n && script[i].dst < n && script[i].src != script[i].dst
  }

  /** No message is received before it is sent. */
  ghost predicate Causal<T>(script: seq<Act<T>>) {
    forall k, s, r :: 0 <= k <= |script| ==> Receives(script[..k], s, r) <= |Sent(script[..k], s, r)|
  }

  /** Every send is followed at once by its receive. */
  ghost predicate Tight<T>(script: seq<Act<T>>) {
    && |script| % 2 == 0
    && forall i :: 0 <= i < |script| / 2 ==>
         script[2 * i].Send? && script[2 * i + 1] == Recv(script[2 * i].src, script[2 * i].dst)
  }

  ghost predicate Projected<T>(script: seq<Act<T>>, programs: seq<seq<Op<T>>>) {
    Among(script, |programs|) && forall p :: 0 <= p < |programs| ==> programs[p] == Program(script, p)
  }

  // ---- the invariant: every process is at some point cur[p] of the script ----

  ghost predicate AtPoint<T>(script: seq<Act<T>>, todo: seq<Op<T>>, p: nat, i: nat) {
    i <= |script| && todo == Program(script[i..], p)
  }

  /** What r has got from s, then what is under way, is what s has sent; and r got it by receiving. */
  ghost predicate PairOk<T>(got: seq<T>, chan: seq<T>, sent: seq<T>, receives: nat) {
    got + chan == sent && |got| == receives
  }

  ghost predicate PairAt<T>(script: seq<Act<T>>, st: State<T>, s: nat, r: nat, i: nat, j: nat)
    requires i <= |script| && j <= |script|
  {
    PairOk(At(st.got, s, r), At(st.chan, s, r), Sent(script[..i], s, r), Receives(script[..j], s, r))
  }

  ghost predicate Inv<T>(script: seq<Act<T>>, st: State<T>, cur: seq<nat>) {
    && Among(script, |st.todo|) && |cur| == |st.todo|
    && (forall p :: 0 <= p < |cur| ==> AtPoint(script, st.todo[p], p, cur[p]))
    && (forall s, r {:trigger PairAt(script, st, s, r, cur[s], cur[r])} ::
          0 <= s < |cur| && 0 <= r < |cur| ==> PairAt(script, st, s, r, cur[s], cur[r]))
  }

  /** Actions of others do not count for p. */
  lemma {:induction false} SkipOthers<T>(script: seq<Act<T>>, p: nat, i: nat, e: nat)
    requires i <= e <= |script| && forall k :: i <= k < e ==> Owner(script[k]) != p
    ensures Program(script[i..], p) == Program(script[e..], p)
    ensures forall r :: Sent(script[..e], p, r) == Sent(script[..i], p, r)
    ensures forall s :: Receives(script[..e], s, p) == Receives(script[..i], s, p)
    decreases e
  {
    if i < e {
      SkipOthers(script, p, i, e - 1);
      assert script[..e][..e - 1] == script[..e - 1];
      assert script[e - 1..][1..] == script[e..];
    }
  }

  /** The next action of a process that has one left. */
  lemma {:induction false} NextAct<T>(script: seq<Act<T>>, p: nat, i: nat) returns (e: nat)
    requires i <= |script| && Program(script[i..], p) != []
    ensures i <= e < |script| && Owner(script[e]) == p
    ensures forall k :: i <= k < e ==> Owner(script[k]) != p
    ensures Program(script[i..], p) == [Local(script[e])] + Program(script[e + 1..], p)
    decreases |script| - i
  {
    assert script[i..][1..] == script[i + 1..];
    if Owner(script[i]) == p {
      e := i;
    } else {
      e := NextAct(script, p, i + 1);
    }
  }

  /** What action e of p, the next one after point i, adds to what p has sent to r. */
  ghost predicate SentGrows<T>(script: seq<Act<T>>, p: nat, i: nat, e: nat, r: nat)
    requires i <= e < |script|
  {
    Sent(script[..e + 1], p, r) == Sent(script[..i], p, r) + SentBy(script[e], p, r)
  }

  ghost predicate ReceivesGrow<T>(script: seq<Act<T>>, p: nat, i: nat, e: nat, s: nat)
    requires i <= e < |script|
  {
    Receives(script[..e + 1], s, p) == Receives(script[..i], s, p) + ReceivedBy(script[e], s, p)
  }

  ghost predicate Advanced<T>(script: seq<Act<T>>, p: nat, i: nat, e: nat) {
    && i <= e < |script| && Owner(script[e]) == p
    && (forall r {:trigger SentGrows(script, p, i, e, r)} :: SentGrows(script, p, i, e, r))
    && (forall s {:trigger ReceivesGrow(script, p, i, e, s)} :: ReceivesGrow(script, p, i, e, s))
  }

  lemma Advance<T>(script: seq<Act<T>>, p: nat, i: nat) returns (e: nat)
    requires i <= |script| && Program(script[i..], p) != []
    ensures Advanced(script, p, i, e)
    ensures Program(script[i..], p) == [Local(script[e])] + Program(script[e + 1..], p)
  {
    e := NextAct(script, p, i);
    SkipOthers(script, p, i, e);
    assert script[..e + 1][..e] == script[..e];
    forall r ensures SentGrows(script, p, i, e, r) {
      assert Sent(script[..e], p, r) == Sent(script[..i], p, r);
    }
    forall s ensures ReceivesGrow(script, p, i, e, s) {
      assert Receives(script[..e], s, p) == Receives(script[..i], s, p);
    }
  }

  /** The point of one process moves past its next action. */
  lemma MoveOn<T>(script: seq<Act<T>>, st: State<T>, cur: seq<nat>, p: nat) returns (e: nat)
    requires Inv(script, st, cur) && p < |cur| && st.todo[p] != []
    ensures Advanced(script, p, cur[p], e) && st.todo[p][0] == Local(script[e])
    ensures AtPoint(script, st.todo[p][1..], p, e + 1)
  {
    assert AtPoint(script, st.todo[p], p, cur[p]);
    e := Advance(script, p, cur[p]);
  }

  lemma PairAfterPost<T>(got: seq<T>, chan: seq<T>, sent: seq<T>, receives: nat, x: T)
    requires PairOk(got, chan, sent, receives)
    ensures PairOk(got, chan + [x], sent + [x], receives)
  {
    assert got + (chan + [x]) == got + chan + [x];
  }

  lemma PairAfterTake<T>(got: seq<T>, chan: seq<T>, sent: seq<T>, receives: nat)
    requires PairOk(got, chan, sent, receives) && chan != []
    ensures PairOk(got + [chan[0]], chan[1..], sent, receives + 1)
  {
    assert got + [chan[0]] + chan[1..] == got + chan;
  }

  lemma SentKept<T>(script: seq<Act<T>>, cur: seq<nat>, p: nat, e: nat, s: nat, r: nat)
    requires p < |cur| && s < |cur| && cur[s] <= |script| && Advanced(script, p, cur[p], e)
    requires s == p ==> SentBy(script[e], s, r) == []
    ensures cur[p := e + 1][s] <= |script|
    ensures Sent(script[..cur[p := e + 1][s]], s, r) == Sent(script[..cur[s]], s, r)
  {
    if s == p { assert SentGrows(script, p, cur[p], e, r); }
  }

  lemma ReceivesKept<T>(script: seq<Act<T>>, cur: seq<nat>, p: nat, e: nat, s: nat, r: nat)
    requires p < |cur| && r < |cur| && cur[r] <= |script| && Advanced(script, p, cur[p], e)
    requires r == p ==> ReceivedBy(script[e], s, r) == 0
    ensures cur[p := e + 1][r] <= |script|
    ensures Receives(script[..cur[p := e + 1][r]], s, r) == Receives(script[..cur[r]], s, r)
  {
    if r == p { assert ReceivesGrow(script, p, cur[p], e, s); }
  }

  /** A pair that the action of p does not concern. */
  lemma OtherPair<T>(script: seq<Act<T>>, st: State<T>, st': State<T>, cur: seq<nat>, p: nat, e: nat, s: nat, r: nat)
    requires Inv(script, st, cur) && p < |cur| && s < |cur| && r < |cur| && Advanced(script, p, cur[p], e)
    requires At(st'.got, s, r) == At(st.got, s, r) && At(st'.chan, s, r) == At(st.chan, s, r)
    requires s == p ==> SentBy(script[e], s, r) == []
    requires r == p ==> ReceivedBy(script[e], s, r) == 0
    ensures var cur' := cur[p := e + 1];
            cur'[s] <= |script| && cur'[r] <= |script| && PairAt(script, st', s, r, cur'[s], cur'[r])
  {
    assert PairAt(script, st, s, r, cur[s], cur[r]);
    SentKept(script, cur, p, e, s, r);
    ReceivesKept(script, cur, p, e, s, r);
  }

  /** The pair on which a message is sent. */
  lemma PostedPair<T>(script: seq<Act<T>>, st: State<T>, p: nat, cur: seq<nat>, e: nat)
    requires Inv(script, st, cur) && Enabled(st, Post(p)) && Advanced(script, p, cur[p], e)
    requires st.todo[p][0] == Local(script[e]) && script[e].dst < |cur| && script[e].dst != p
    ensures var r := script[e].dst; PairAt(script, Do(st, Post(p)), p, r, e + 1, cur[r])
  {
    var r := script[e].dst;
    assert PairAt(script, st, p, r, cur[p], cur[r]);
    assert SentGrows(script, p, cur[p], e, r);
    PairAfterPost(At(st.got, p, r), At(st.chan, p, r), Sent(script[..cur[p]], p, r),
                  Receives(script[..cur[r]], p, r), script[e].data);
  }

  lemma PostKeepsInv<T>(script: seq<Act<T>>, st: State<T>, p: nat, cur: seq<nat>) returns (cur': seq<nat>)
    requires Inv(script, st, cur) && Enabled(st, Post(p))
    ensures Inv(script, Do(st, Post(p)), cur')
  {
    var e := MoveOn(script, st, cur, p);
    cur' := cur[p := e + 1];
    forall s, r | 0 <= s < |cur| && 0 <= r < |cur| ensures PairAt(script, Do(st, Post(p)), s, r, cur'[s], cur'[r]) {
      if (s, r) == (p, script[e].dst) {
        PostedPair(script, st, p, cur, e);
      } else {
        OtherPair(script, st, Do(st, Post(p)), cur, p, e, s, r);
      }
    }
  }

  /** The pair on which a message is received. */
  lemma TakenPair<T>(script: seq<Act<T>>, st: State<T>, p: nat, cur: seq<nat>, e: nat)
    requires Inv(script, st, cur) && Enabled(st, Take(p)) && Advanced(script, p, cur[p], e)
    requires st.todo[p][0] == Local(script[e]) && script[e].src < |cur| && script[e].src != p
    ensures var s := script[e].src; PairAt(script, Do(st, Take(p)), s, p, cur[s], e + 1)
  {
    var s := script[e].src;
    assert PairAt(script, st, s, p, cur[s], cur[p]);
    assert ReceivesGrow(script, p, cur[p], e, s);
    PairAfterTake(At(st.got, s, p), At(st.chan, s, p), Sent(script[..cur[s]], s, p), Receives(script[..cur[p]], s, p));
  }

  lemma TakeKeepsInv<T>(script: seq<Act<T>>, st: State<T>, p: nat, cur: seq<nat>) returns (cur': seq<nat>)
    requires Inv(script, st, cur) && Enabled(st, Take(p))
    ensures Inv(script, Do(st, Take(p)), cur')
  {
    var e := MoveOn(script, st, cur, p);
    cur' := cur[p := e + 1];
    forall s, r | 0 <= s < |cur| && 0 <= r < |cur| ensures PairAt(script, Do(st, Take(p)), s, r, cur'[s], cur'[r]) {
      if (s, r) == (script[e].src, p) {
        TakenPair(script, st, p, cur, e);
      } else {
        OtherPair(script, st, Do(st, Take(p)), cur, p, e, s, r);
      }
    }
  }

  /** The invariant looks at the messages under way only pair by pair. */
  lemma SameInv<T>(script: seq<Act<T>>, st: State<T>, st': State<T>, cur: seq<nat>)
    requires Inv(script, st, cur) && st'.todo == st.todo && st'.got == st.got
    requires forall s, r :: At(st'.chan, s, r) == At(st.chan, s, r)
    ensures Inv(script, st', cur)
  {
    forall s, r | 0 <= s < |cur| && 0 <= r < |cur| ensures PairAt(script, st', s, r, cur[s], cur[r]) {
      assert PairAt(script, st, s, r, cur[s], cur[r]);
    }
  }

  /** Handing a message over is sending it and then receiving it. */
  lemma MeetKeepsInv<T>(script: seq<Act<T>>, st: State<T>, s: nat, r: nat, cur: seq<nat>) returns (cur': seq<nat>)
    requires Inv(script, st, cur) && Enabled(st, Meet(s, r))
    ensures Inv(script, Do(st, Meet(s, r)), cur')
  {
    var mid := Do(st, Post(s));
    cur' := PostKeepsInv(script, st, s, cur);
    cur' := TakeKeepsInv(script, mid, r, cur');
    SameInv(script, Do(mid, Take(r)), Do(st, Meet(s, r)), cur');
  }

  lemma StepKeepsInv<T>(script: seq<Act<T>>, st: State<T>, step: Step, cur: seq<nat>) returns (cur': seq<nat>)
    requires Inv(script, st, cur) && Enabled(st, step)
    ensures Inv(script, Do(st, step), cur')
  {
    match step
    case Post(p) => cur' := PostKeepsInv(script, st, p, cur);
    case Take(p) => cur' := TakeKeepsInv(script, st, p, cur);
    case Meet(s, r) => cur' := MeetKeepsInv(script, st, s, r, cur);
  }

  lemma {:induction false} RunKeepsInv<T>(script: seq<Act<T>>, st: State<T>, steps: seq<Step>, st': State<T>,
                                          cur: seq<nat>) returns (cur': seq<nat>)
    requires Inv(script, st, cur) && Reaches(st, steps, st')
    ensures Inv(script, st', cur')
    decreases |steps|
  {
    cur' := cur;
    if steps != [] {
      cur' := StepKeepsInv(script, st, steps[0], cur);
      cur' := RunKeepsInv(script, Do(st, steps[0]), steps[1..], st', cur');
    }
  }

  lemma StartInv<T>(script: seq<Act<T>>, programs: seq<seq<Op<T>>>) returns (cur: seq<nat>)
    requires Projected(script, programs)
    ensures Inv(script, Start(programs), cur)
  {
    cur := seq(|programs|, _ => 0);
    assert script[0..] == script && script[..0] == [];
  }

  // ---- progress ----

  /** Action e has not been carried out. */
  ghost predicate Open<T>(script: seq<Act<T>>, cur: seq<nat>, e: nat)
    requires Among(script, |cur|) && e < |script|
  {
    cur[Owner(script[e])] <= e
  }

  /** The earliest open action, or |script| when there is none. */
  lemma {:induction false} EarliestOpen<T>(script: seq<Act<T>>, cur: seq<nat>, i: nat) returns (e: nat)
    requires Among(script, |cur|) && i <= |script|
    requires forall k :: 0 <= k < i ==> !Open(script, cur, k)
    ensures i <= e <= |script| && (e < |script| ==> Open(script, cur, e))
    ensures forall k :: 0 <= k < e ==> !Open(script, cur, k)
    decreases |script| - i
  {
    if i == |script| || Open(script, cur, i) { e := i; } else { e := EarliestOpen(script, cur, i + 1); }
  }

  /** Before the earliest open action, a process behind it has nothing to do. */
  lemma Caught<T>(script: seq<Act<T>>, cur: seq<nat>, e: nat, p: nat)
    requires Among(script, |cur|) && e <= |script| && p < |cur| && cur[p] <= e
    requires forall k :: 0 <= k < e ==> !Open(script, cur, k)
    ensures Program(script[cur[p]..], p) == Program(script[e..], p)
    ensures forall r :: Sent(script[..e], p, r) == Sent(script[..cur[p]], p, r)
    ensures forall s :: Receives(script[..e], s, p) == Receives(script[..cur[p]], s, p)
  {
    forall k | cur[p] <= k < e ensures Owner(script[k]) != p { assert !Open(script, cur, k); }
    SkipOthers(script, p, cur[p], e);
  }

  lemma {:induction false} CountsGrow<T>(script: seq<Act<T>>, i: nat, j: nat, s: nat, r: nat)
    requires i <= j <= |script|
    ensures |Sent(script[..i], s, r)| <= |Sent(script[..j], s, r)|
    ensures Receives(script[..i], s, r) <= Receives(script[..j], s, r)
    decreases j
  {
    if i < j {
      assert script[..j][..j - 1] == script[..j - 1];
      CountsGrow(script, i, j - 1, s, r);
    }
  }

  /** The owner of the earliest open action stands right before it. */
  lemma NextIsOpen<T>(script: seq<Act<T>>, st: State<T>, cur: seq<nat>, e: nat)
    requires Inv(script, st, cur) && e < |script| && Open(script, cur, e)
    requires forall k :: 0 <= k < e ==> !Open(script, cur, k)
    ensures var p := Owner(script[e]); st.todo[p] != [] && st.todo[p][0] == Local(script[e])
  {
    var p := Owner(script[e]);
    assert AtPoint(script, st.todo[p], p, cur[p]);
    Caught(script, cur, e, p);
  }

  lemma CountNext<T>(script: seq<Act<T>>, e: nat, s: nat, r: nat)
    requires e < |script|
    ensures Sent(script[..e + 1], s, r) == Sent(script[..e], s, r) + SentBy(script[e], s, r)
    ensures Receives(script[..e + 1], s, r) == Receives(script[..e], s, r) + ReceivedBy(script[e], s, r)
  {
    assert script[..e + 1][..e] == script[..e];
  }

  /** If the earliest open action is a receive, its message is under way. */
  lemma ReceiveIsReady<T>(script: seq<Act<T>>, st: State<T>, cur: seq<nat>, e: nat)
    requires Inv(script, st, cur) && Causal(script) && e < |script| && Open(script, cur, e) && script[e].Recv?
    requires forall k :: 0 <= k < e ==> !Open(script, cur, k)
    ensures Enabled(st, Take(script[e].dst))
  {
    var s, r := script[e].src, script[e].dst;
    NextIsOpen(script, st, cur, e);
    assert PairAt(script, st, s, r, cur[s], cur[r]);
    Caught(script, cur, e, r);
    CountNext(script, e, s, r);
    assert Receives(script[..e + 1], s, r) <= |Sent(script[..e + 1], s, r)|;
    if cur[s] <= e { Caught(script, cur, e, s); } else { CountsGrow(script, e, cur[s], s, r); }
    assert |At(st.got, s, r)| < |At(st.got, s, r) + At(st.chan, s, r)|;
  }

  /** Either all have finished, or the earliest open action shows how to go on. */
  lemma FinishedOrOpen<T>(script: seq<Act<T>>, st: State<T>, cur: seq<nat>) returns (e: nat)
    requires Inv(script, st, cur)
    ensures e <= |script| && (e < |script| ==> Open(script, cur, e))
    ensures forall k :: 0 <= k < e ==> !Open(script, cur, k)
    ensures e == |script| ==> Finished(st)
  {
    e := EarliestOpen(script, cur, 0);
    if e == |script| {
      forall p | 0 <= p < |cur| ensures st.todo[p] == [] {
        assert AtPoint(script, st.todo[p], p, cur[p]);
        Caught(script, cur, e, p);
        assert script[e..] == [];
      }
    }
  }

  /** With a transport that can buffer, a causal script never gets stuck. */
  lemma BufferedProgress<T>(script: seq<Act<T>>, programs: seq<seq<Op<T>>>, steps: seq<Step>, st: State<T>)
    requires Projected(script, programs) && Causal(script) && Reaches(Start(programs), steps, st) && !Finished(st)
    ensures exists step :: Enabled(st, step) && !step.Meet?
  {
    var cur := StartInv(script, programs);
    cur := RunKeepsInv(script, Start(programs), steps, st, cur);
    var e := FinishedOrOpen(script, st, cur);
    NextIsOpen(script, st, cur, e);
    if script[e].Recv? {
      ReceiveIsReady(script, st, cur, e);
    } else {
      assert Enabled(st, Post(script[e].src));
    }
  }

  lemma TightCount<T>(script: seq<Act<T>>, i: nat, s: nat, r: nat)
    requires Tight(script) && 2 * i + 2 <= |script|
    requires |Sent(script[..2 * i], s, r)| == Receives(script[..2 * i], s, r)
    ensures |Sent(script[..2 * i + 2], s, r)| == Receives(script[..2 * i + 2], s, r)
  {
    assert script[2 * i].Send? && script[2 * i + 1] == Recv(script[2 * i].src, script[2 * i].dst);
    CountNext(script, 2 * i, s, r);
    CountNext(script, 2 * i + 1, s, r);
  }

  lemma TightCounts<T>(script: seq<Act<T>>, i: nat, s: nat, r: nat)
    requires Tight(script) && 2 * i <= |script|
    ensures |Sent(script[..2 * i], s, r)| == Receives(script[..2 * i], s, r)
  {
    var ok := (k: nat) => 2 * k <= |script| && |Sent(script[..2 * k], s, r)| == Receives(script[..2 * k], s, r);
    forall k: nat | k < i && ok(k) ensures ok(k + 1) {
      TightCount(script, k, s, r);
      assert 2 * k + 2 == 2 * (k + 1);
    }
    Climb(ok, 0, i);
  }

  lemma TightCausal<T>(script: seq<Act<T>>)
    requires Tight(script)
    ensures Causal(script)
  {
    forall k, s, r | 0 <= k <= |script| ensures Receives(script[..k], s, r) <= |Sent(script[..k], s, r)| {
      var i := k / 2;
      TightCounts(script, i, s, r);
      if k == 2 * i + 1 {
        CountNext(script, 2 * i, s, r);
        assert script[2 * i].Send?;
      }
    }
  }

  lemma TightPair<T>(script: seq<Act<T>>, e: nat)
    requires Tight(script) && e < |script| && script[e].Send?
    ensures e % 2 == 0 && e + 1 < |script| && script[e + 1] == Recv(script[e].src, script[e].dst)
  {
    var i := e / 2;
    assert script[2 * i].Send? && script[2 * i + 1] == Recv(script[2 * i].src, script[2 * i].dst);
    assert e == 2 * i || e == 2 * i + 1;
  }

  /** If the earliest open action is a send of a tight script, its receive is waiting for it. */
  lemma SendIsAwaited<T>(script: seq<Act<T>>, st: State<T>, cur: seq<nat>, e: nat)
    requires Inv(script, st, cur) && Tight(script) && e < |script| && Open(script, cur, e) && script[e].Send?
    requires forall k :: 0 <= k < e ==> !Open(script, cur, k)
    ensures Enabled(st, Meet(script[e].src, script[e].dst))
  {
    var s, r := script[e].src, script[e].dst;
    TightPair(script, e);
    NextIsOpen(script, st, cur, e);
    NotPast(script, st, cur, e);
    ReceiverWaits(script, cur, e, r);
    assert AtPoint(script, st.todo[r], r, cur[r]);
    AllReceived(script, st, cur, e, s, r);
  }

  /** What was sent before the earliest open action has been received, if r has come as far. */
  lemma AllReceived<T>(script: seq<Act<T>>, st: State<T>, cur: seq<nat>, e: nat, s: nat, r: nat)
    requires Inv(script, st, cur) && Tight(script) && e < |script| && e % 2 == 0
    requires s < |cur| && r < |cur| && cur[s] <= e && cur[r] <= |script|
    requires Receives(script[..cur[r]], s, r) == Receives(script[..e], s, r)
    requires forall k :: 0 <= k < e ==> !Open(script, cur, k)
    ensures At(st.chan, s, r) == []
  {
    assert PairAt(script, st, s, r, cur[s], cur[r]);
    Caught(script, cur, e, s);
    TightCounts(script, e / 2, s, r);
    NothingLeftBetween(At(st.got, s, r), At(st.chan, s, r));
  }

  lemma NothingLeftBetween<T>(got: seq<T>, chan: seq<T>)
    ensures |got + chan| == |got| ==> chan == []
  {}

  /** The receiver has not gone past the receive that follows the earliest open send. */
  lemma NotPast<T>(script: seq<Act<T>>, st: State<T>, cur: seq<nat>, e: nat)
    requires Inv(script, st, cur) && Tight(script) && e + 1 < |script| && e % 2 == 0
    requires script[e].Send? && script[e + 1] == Recv(script[e].src, script[e].dst) && Open(script, cur, e)
    requires forall k :: 0 <= k < e ==> !Open(script, cur, k)
    ensures cur[script[e].dst] <= e + 1
  {
    assert AtPoint(script, st.todo[script[e].dst], script[e].dst, cur[script[e].dst]);
    var s, r := script[e].src, script[e].dst;
    ReceivedUpTo(script, st, cur, e, s, r);
    OneMoreReceive(script, e, s, r);
    if cur[r] >= e + 2 { CountsGrow(script, e + 2, cur[r], s, r); }
  }

  lemma ReceivedUpTo<T>(script: seq<Act<T>>, st: State<T>, cur: seq<nat>, e: nat, s: nat, r: nat)
    requires Inv(script, st, cur) && Tight(script) && e < |script| && e % 2 == 0
    requires s < |cur| && r < |cur| && cur[s] <= e && cur[r] <= |script|
    requires forall k :: 0 <= k < e ==> !Open(script, cur, k)
    ensures Receives(script[..cur[r]], s, r) <= Receives(script[..e], s, r)
  {
    assert PairAt(script, st, s, r, cur[s], cur[r]);
    ReceivedWasSent(At(st.got, s, r), At(st.chan, s, r), Sent(script[..cur[s]], s, r),
                    Receives(script[..cur[r]], s, r));
    Caught(script, cur, e, s);
    TightCounts(script, e / 2, s, r);
  }

  lemma OneMoreReceive<T>(script: seq<Act<T>>, e: nat, s: nat, r: nat)
    requires e + 1 < |script| && script[e].Send? && script[e + 1] == Recv(s, r)
    ensures Receives(script[..e + 2], s, r) == Receives(script[..e], s, r) + 1
  {
    CountNext(script, e, s, r);
    CountNext(script, e + 1, s, r);
  }

  lemma ReceivedWasSent<T>(got: seq<T>, chan: seq<T>, sent: seq<T>, receives: nat)
    requires PairOk(got, chan, sent, receives)
    ensures receives <= |sent|
  {}

  /** The receiver of the earliest open send has come as far as the receive that follows it. */
  lemma ReceiverWaits<T>(script: seq<Act<T>>, cur: seq<nat>, e: nat, r: nat)
    requires Among(script, |cur|) && e + 1 < |script| && r < |cur| && cur[r] <= e + 1
    requires script[e].Send? && script[e].dst == r && script[e + 1] == Recv(script[e].src, r)
    requires forall k :: 0 <= k < e ==> !Open(script, cur, k)
    ensures Program(script[cur[r]..], r) == [RecvFrom(script[e].src)] + Program(script[e + 2..], r)
    ensures Receives(script[..cur[r]], script[e].src, r) == Receives(script[..e], script[e].src, r)
  {
    forall k | cur[r] <= k < e + 1 ensures Owner(script[k]) != r {
      if k < e { assert !Open(script, cur, k); }
    }
    SkipOthers(script, r, cur[r], e + 1);
    assert script[e + 1..][1..] == script[e + 2..];
    assert script[..e + 1][..e] == script[..e];
  }

  /** Even if every send waits for its receive, a tight script never gets stuck. */
  lemma RendezvousProgress<T>(script: seq<Act<T>>, programs: seq<seq<Op<T>>>, steps: seq<Step>, st: State<T>)
    requires Projected(script, programs) && Tight(script) && Reaches(Start(programs), steps, st) && !Finished(st)
    ensures exists step :: Enabled(st, step) && !step.Post?
  {
    var cur := StartInv(script, programs);
    cur := RunKeepsInv(script, Start(programs), steps, st, cur);
    var e := FinishedOrOpen(script, st, cur);
    if script[e].Recv? {
      TightCausal(script);
      ReceiveIsReady(script, st, cur, e);
    } else {
      SendIsAwaited(script, st, cur, e);
    }
  }

  // ---- every run ends, and then everything has been delivered ----

  function Left<T>(todo: seq<seq<Op<T>>>): nat { |Flatten(todo)| }

  lemma ShrinkOne<T>(todo: seq<seq<Op<T>>>, p: nat)
    requires p < |todo| && todo[p] != []
    ensures Left(todo[p := todo[p][1..]]) == Left(todo) - 1
  {
    var todo' := todo[p := todo[p][1..]];
    FlattenSplit(todo, p);
    FlattenSplit(todo', p);
    assert todo'[..p] == todo[..p] && todo'[p + 1..] == todo[p + 1..];
  }

  /** A run has at most as many steps as there are actions. */
  lemma {:induction false} RunsEnd<T>(st: State<T>, steps: seq<Step>, st': State<T>)
    requires Reaches(st, steps, st')
    ensures |steps| + Left(st'.todo) <= Left(st.todo)
    decreases |steps|
  {
    if steps != [] {
      var mid := Do(st, steps[0]);
      match steps[0] {
        case Post(p) => ShrinkOne(st.todo, p);
        case Take(p) => ShrinkOne(st.todo, p);
        case Meet(s, r) =>
          ShrinkOne(st.todo, s);
          ShrinkOne(st.todo[s := st.todo[s][1..]], r);
      }
      RunsEnd(mid, steps[1..], st');
    }
  }

  /** A finished process has carried out all its actions. */
  lemma {:induction false} NothingLeft<T>(script: seq<Act<T>>, p: nat, i: nat)
    requires i <= |script| && Program(script[i..], p) == []
    ensures forall k :: i <= k < |script| ==> Owner(script[k]) != p
    decreases |script| - i
  {
    if i < |script| {
      assert script[i..][1..] == script[i + 1..];
      NothingLeft(script, p, i + 1);
    }
  }

  /** When all have finished, r has got from s exactly what the script says s sends to r. */
  lemma Delivered<T>(script: seq<Act<T>>, programs: seq<seq<Op<T>>>, steps: seq<Step>, st: State<T>, s: nat, r: nat)
    requires Projected(script, programs) && Reaches(Start(programs), steps, st) && Finished(st)
    requires s < |programs| && r < |programs| && Receives(script, s, r) == |Sent(script, s, r)|
    ensures At(st.got, s, r) == Sent(script, s, r) && At(st.chan, s, r) == []
  {
    var cur := StartInv(script, programs);
    RunKeepsSize(Start(programs), steps, st);
    cur := RunKeepsInv(script, Start(programs), steps, st, cur);
    assert PairAt(script, st, s, r, cur[s], cur[r]);
    assert AtPoint(script, st.todo[s], s, cur[s]) && AtPoint(script, st.todo[r], r, cur[r]);
    NothingLeft(script, s, cur[s]);
    NothingLeft(script, r, cur[r]);
    SkipOthers(script, s, cur[s], |script|);
    SkipOthers(script, r, cur[r], |script|);
    assert script[..|script|] == script;
  }

  lemma {:induction false} RunKeepsSize<T>(st: State<T>, steps: seq<Step>, st': State<T>)
    requires Reaches(st, steps, st')
    ensures |st'.todo| == |st.todo|
    decreases |steps|
  {
    if steps != [] { RunKeepsSize(Do(st, steps[0]), steps[1..], st'); }
  }

  // ---- scripts made of whole messages ----

  /** A message of the script: sent by src, and received by dst right then. */
  datatype Message<T> = Message(src: nat, dst: nat, data: T)

  function Script<T>(messages: seq<Message<T>>): seq<Act<T>> {
    if messages == [] then []
    else
      var m := messages[|messages| - 1];
      Script(messages[..|messages| - 1]) + [Send(m.src, m.dst, m.data), Recv(m.src, m.dst)]
  }

  /** What process p does for one message, and for a list of them. */
  function Part<T>(m: Message<T>, p: nat): seq<Op<T>> {
    if m.src == p then [SendTo(m.dst, m.data)] else if m.dst == p then [RecvFrom(m.src)] else []
  }

  function Parts<T>(messages: seq<Message<T>>, p: nat): seq<Op<T>> {
    if messages == [] then []
    else Parts(messages[..|messages| - 1], p) + Part(messages[|messages| - 1], p)
  }

  /** The data that goes from s to r. */
  function Between<T>(messages: seq<Message<T>>, s: nat, r: nat): seq<T> {
    if messages == [] then []
    else Between(messages[..|messages| - 1], s, r) + Carries(messages[|messages| - 1], s, r)
  }

  function Carries<T>(m: Message<T>, s: nat, r: nat): seq<T> {
    if m.src == s && m.dst == r then [m.data] else []
  }

  ghost predicate Addressed<T>(messages: seq<Message<T>>, n: nat) {
    forall i :: 0 <= i < |messages| ==> messages[i].src < n && messages[i].dst < n && messages[i].src != messages[i].dst
  }

  lemma OneMoreMessage<T>(a: seq<Message<T>>, m: Message<T>, p: nat, s: nat, r: nat)
    ensures Parts(a + [m], p) == Parts(a, p) + Part(m, p)
    ensures Between(a + [m], s, r) == Between(a, s, r) + Carries(m, s, r)
  {
    assert (a + [m])[..|a|] == a;
  }

  lemma {:induction false} ProgramConcat<T>(a: seq<Act<T>>, b: seq<Act<T>>, p: nat)
    ensures Program(a + b, p) == Program(a, p) + Program(b, p)
  {
    if a == [] {
      assert a + b == b;
    } else {
      assert (a + b)[1..] == a[1..] + b;
      ProgramConcat(a[1..], b, p);
      var first := if Owner(a[0]) == p then [Local(a[0])] else [];
      assert first + (Program(a[1..], p) + Program(b, p)) == first + Program(a[1..], p) + Program(b, p);
    }
  }

  lemma {:induction false} ScriptShape<T>(messages: seq<Message<T>>, n: nat)
    requires Addressed(messages, n)
    ensures |Script(messages)| == 2 * |messages| && Tight(Script(messages)) && Among(Script(messages), n)
    ensures forall p :: Program(Script(messages), p) == Parts(messages, p)
    ensures forall s, r :: Sent(Script(messages), s, r) == Between(messages, s, r)
  {
    if messages != [] {
      var m, front := messages[|messages| - 1], messages[..|messages| - 1];
      ScriptShape(front, n);
      var script, pair := Script(front), [Send(m.src, m.dst, m.data), Recv(m.src, m.dst)];
      PairKeepsTight(script, m);
      forall p ensures Program(script + pair, p) == Parts(messages, p) {
        ProgramConcat(script, pair, p);
        PairProgram(m, p);
      }
      forall s, r ensures Sent(script + pair, s, r) == Between(messages, s, r) {
        assert (script + pair)[..|script| + 1] == script + pair[..1];
        assert (script + pair[..1])[..|script|] == script;
      }
    }
  }

  lemma PairProgram<T>(m: Message<T>, p: nat)
    requires m.src != m.dst
    ensures Program([Send(m.src, m.dst, m.data), Recv(m.src, m.dst)], p) == Part(m, p)
  {
    var send, recv := Send(m.src, m.dst, m.data), Recv(m.src, m.dst);
    ProgramConcat([send], [recv], p);
    assert [send] + [recv] == [send, recv];
    assert forall a: Act<T> :: [a][1..] == [];
  }

  lemma PairKeepsTight<T>(script: seq<Act<T>>, m: Message<T>)
    requires Tight(script)
    ensures Tight(script + [Send(m.src, m.dst, m.data), Recv(m.src, m.dst)])
  {
    var script' := script + [Send(m.src, m.dst, m.data), Recv(m.src, m.dst)];
    forall i | 0 <= i < |script'| / 2
      ensures script'[2 * i].Send? && script'[2 * i + 1] == Recv(script'[2 * i].src, script'[2 * i].dst)
    {
      if i < |script| / 2 {
        assert script[2 * i].Send? && script[2 * i + 1] == Recv(script[2 * i].src, script[2 * i].dst);
      }
    }
  }

  /**
   Processes that carry out their parts of one list of messages never get stuck, not even
   when every send waits for its receive, and every run ends. Once it has, every process
   has received exactly the data meant for it (MessagesDelivered).
   */
  lemma MessagesComplete<T>(messages: seq<Message<T>>, programs: seq<seq<Op<T>>>, steps: seq<Step>, st: State<T>)
    requires Addressed(messages, |programs|)
    requires forall p :: 0 <= p < |programs| ==> programs[p] == Parts(messages, p)
    requires Reaches(Start(programs), steps, st)
    ensures |steps| <= Left(programs)
    ensures !Finished(st) ==> exists step :: Enabled(st, step) && !step.Post?
  {
    var script := Script(messages);
    ScriptShape(messages, |programs|);
    RunsEnd(Start(programs), steps, st);
    if !Finished(st) {
      RendezvousProgress(script, programs, steps, st);
    }
  }

  lemma MessagesDelivered<T>(messages: seq<Message<T>>, programs: seq<seq<Op<T>>>, steps: seq<Step>, st: State<T>,
                             s: nat, r: nat)
    requires Addressed(messages, |programs|) && s < |programs| && r < |programs|
    requires forall p :: 0 <= p < |programs| ==> programs[p] == Parts(messages, p)
    requires Reaches(Start(programs), steps, st) && Finished(st)
    ensures At(st.got, s, r) == Between(messages, s, r) && At(st.chan, s, r) == []
  {
    var script := Script(messages);
    ScriptShape(messages, |programs|);
    TightCounts(script, |script| / 2, s, r);
    assert script[..|script|] == script;
    Delivered(script, programs, steps, st, s, r);
  }
}
