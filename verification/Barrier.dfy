/**
 The wide-area Barrier: a local barrier, an exchange among the coordinators through
 coordinator 0, and a second local barrier, over any number of rounds.
 */
module Barrier {
  import opened Choreography
  import Broadcasts

  // ---- the exchange ----

  /** What the coordinator of cluster c does between the two local barriers. */
  function CoordinatorOps(c: nat, n: nat): seq<Op<()>> {
    if c == 0 then ReceiveOps(0, n) + Broadcasts.BcastOps(0, (), n) else [SendTo(0, ()), RecvFrom(0)]
  }

  /** The wide-area part of EMPI_Barrier on the process with global rank me. */
  method WaBarrier(me: nat, coordinators: seq<nat>) returns (ops: seq<Op<()>>)
    requires coordinators != []
    requires forall i, j :: 0 <= i < j < |coordinators| ==> coordinators[i] != coordinators[j]
    ensures forall c :: 0 <= c < |coordinators| && coordinators[c] == me ==> ops == CoordinatorOps(c, |coordinators|)
    ensures me !in coordinators ==> ops == []
  {
    ops := [];
    if me == coordinators[0] {
      for i := 1 to |coordinators|
        invariant ops == ReceiveOps(0, i)
      {
        ops := ops + [RecvFrom(i)];
      }
      var bcast := Broadcasts.MessagingBcast(0, |coordinators|, ());
      ops := ops + bcast;
    } else {
      for i := 1 to |coordinators|
        invariant forall c :: 0 <= c < i && coordinators[c] == me ==> ops == CoordinatorOps(c, |coordinators|)
        invariant me !in coordinators[..i] ==> ops == []
      {
        if me == coordinators[i] {
          ops := ops + [SendTo(0, ()), RecvFrom(0)];
        }
      }
    }
  }

  /** Coordinator 0 hears from 1, 2, ... and then tells 1, 2, ... */
  lemma {:induction false} RootOps(n: nat, k: nat)
    requires 0 < k <= n
    ensures |ReceiveOps<()>(0, k)| == k - 1 == |Broadcasts.BcastOps(0, (), k)|
    ensures forall i :: 0 <= i < k - 1 ==> ReceiveOps<()>(0, k)[i] == RecvFrom(i + 1)
    ensures forall i :: 0 <= i < k - 1 ==> Broadcasts.BcastOps(0, (), k)[i] == SendTo(i + 1, ())
  {
    if k > 1 { RootOps(n, k - 1); }
  }

  lemma RootOpAt(n: nat, s: nat)
    requires 0 < n && s < 2 * (n - 1)
    ensures |CoordinatorOps(0, n)| == 2 * (n - 1)
    ensures CoordinatorOps(0, n)[s] == if s < n - 1 then RecvFrom(s + 1) else SendTo(s - (n - 1) + 1, ())
  {
    RootOps(n, n);
  }

  // ---- any number of rounds ----

  /** The cluster of each process, and the coordinator of each cluster. */
  datatype Layout = Layout(cluster: seq<nat>, coordinators: seq<nat>)

  ghost predicate Valid(l: Layout) {
    && l.coordinators != []
    && (forall p :: 0 <= p < |l.cluster| ==> l.cluster[p] < |l.coordinators|)
    && (forall c :: 0 <= c < |l.coordinators| ==> l.coordinators[c] < |l.cluster| && l.cluster[l.coordinators[c]] == c)
  }

  /**
   clock[p] is 4k before process p has entered round k, 4k + 1 in its first local barrier,
   4k + 2 between the barriers and 4k + 3 in the second. step[c] counts what coordinator c
   has done of its exchange. The messages under way are empty; what is recorded of each is
   the round in which it was sent.
   */
  datatype State = State(clock: seq<nat>, step: seq<nat>, chan: map<(nat, nat), seq<nat>>)

  datatype Move = Enter(p: nat) | LeaveFirst(p: nat) | Exchange(c: nat) | EnterSecond(p: nat) | LeaveSecond(p: nat)

  ghost predicate WellSized(l: Layout, st: State) {
    Valid(l) && |st.clock| == |l.cluster| && |st.step| == |l.coordinators|
  }

  /** A local barrier lets p go once all processes of its cluster have come as far. */
  ghost predicate AllArrived(l: Layout, st: State, p: nat)
    requires WellSized(l, st) && p < |st.clock|
  {
    forall q :: 0 <= q < |st.clock| && l.cluster[q] == l.cluster[p] ==> st.clock[q] >= st.clock[p]
  }

  ghost predicate IsCoordinator(l: Layout, p: nat)
    requires Valid(l) && p < |l.cluster|
  {
    p == l.coordinators[l.cluster[p]]
  }

  ghost predicate Enabled(l: Layout, st: State, m: Move)
    requires WellSized(l, st)
  {
    match m
    case Enter(p) => p < |st.clock| && st.clock[p] % 4 == 0
    case LeaveFirst(p) => p < |st.clock| && st.clock[p] % 4 == 1 && AllArrived(l, st, p)
    case Exchange(c) =>
      && c < |st.step| && st.clock[l.coordinators[c]] % 4 == 2
      && st.step[c] < |CoordinatorOps(c, |st.step|)|
      && (var op := CoordinatorOps(c, |st.step|)[st.step[c]];
          op.RecvFrom? ==> At(st.chan, op.src, c) != [])
    case EnterSecond(p) =>
      && p < |st.clock| && st.clock[p] % 4 == 2
      && (IsCoordinator(l, p) ==> st.step[l.cluster[p]] == |CoordinatorOps(l.cluster[p], |st.step|)|)
    case LeaveSecond(p) => p < |st.clock| && st.clock[p] % 4 == 3 && AllArrived(l, st, p)
  }

  ghost function Tick(st: State, p: nat): State
    requires p < |st.clock|
  {
    st.(clock := st.clock[p := st.clock[p] + 1])
  }

  ghost function Do(l: Layout, st: State, m: Move): State
    requires WellSized(l, st) && Enabled(l, st, m)
  {
    match m
    case Exchange(c) =>
      var op := CoordinatorOps(c, |st.step|)[st.step[c]];
      var chan := if op.SendTo?
                  then st.chan[(c, op.dst) := At(st.chan, c, op.dst) + [st.clock[l.coordinators[c]] / 4]]
                  else st.chan[(op.src, c) := At(st.chan, op.src, c)[1..]];
      st.(step := st.step[c := st.step[c] + 1], chan := chan)
    case EnterSecond(p) =>
      if IsCoordinator(l, p) then Tick(st, p).(step := st.step[l.cluster[p] := 0]) else Tick(st, p)
    case Enter(p) => Tick(st, p)
    case LeaveFirst(p) => Tick(st, p)
    case LeaveSecond(p) => Tick(st, p)
  }

  ghost predicate Reaches(l: Layout, st: State, moves: seq<Move>, st': State)
    decreases |moves|
  {
    if moves == [] then st == st'
    else WellSized(l, st) && Enabled(l, st, moves[0]) && Reaches(l, Do(l, st, moves[0]), moves[1..], st')
  }

  ghost predicate Initial(l: Layout, st: State) {
    && WellSized(l, st) && st.chan == map[]
    && (forall p :: 0 <= p < |st.clock| ==> st.clock[p] == 0)
    && (forall c :: 0 <= c < |st.step| ==> st.step[c] == 0)
  }

  ghost predicate Entered(st: State, p: nat, round: nat)
    requires p < |st.clock|
  {
    st.clock[p] > 4 * round
  }

  ghost predicate Left(st: State, p: nat, round: nat)
    requires p < |st.clock|
  {
    st.clock[p] >= 4 * round + 4
  }

  // ---- the invariant ----

  /** How far a local barrier lets processes of one cluster drift apart. */
  ghost predicate Together(a: nat, b: nat) { b + 1 + a % 2 >= a }

  /** How often a coordinator has carried out the first k operations of its exchange, ever. */
  function Times(clock: nat, step: nat, k: nat): nat {
    clock / 4 + if clock % 4 == 3 || (clock % 4 == 2 && step >= k) then 1 else 0
  }

  /** Under way are the messages of the rounds from taken to put. */
  ghost predicate Span(chan: seq<nat>, taken: nat, put: nat) {
    taken <= put && |chan| == put - taken && forall i :: 0 <= i < |chan| ==> chan[i] == taken + i
  }

  ghost predicate StepOk(clock: nat, step: nat, total: nat) {
    step <= total && (clock % 4 != 2 ==> step == 0)
  }

  function Done(l: Layout, st: State, c: nat, k: nat): nat
    requires WellSized(l, st) && c < |st.step|
  {
    Times(st.clock[l.coordinators[c]], st.step[c], k)
  }

  /** The two channels between coordinator 0 and coordinator c. */
  ghost predicate Up(l: Layout, st: State, c: nat)
    requires WellSized(l, st) && 0 < c < |st.step|
  {
    Span(At(st.chan, c, 0), Done(l, st, 0, c), Done(l, st, c, 1))
  }

  ghost predicate Down(l: Layout, st: State, c: nat)
    requires WellSized(l, st) && 0 < c < |st.step|
  {
    Span(At(st.chan, 0, c), Done(l, st, c, 2), Done(l, st, 0, |st.step| - 1 + c))
  }

  ghost predicate Inv(l: Layout, st: State) {
    && WellSized(l, st)
    && (forall p, q {:trigger Together(st.clock[p], st.clock[q])} ::
          0 <= p < |st.clock| && 0 <= q < |st.clock| && l.cluster[p] == l.cluster[q] ==>
            Together(st.clock[p], st.clock[q]))
    && (forall c {:trigger l.coordinators[c]} :: 0 <= c < |st.step| ==>
          StepOk(st.clock[l.coordinators[c]], st.step[c], |CoordinatorOps(c, |st.step|)|))
    && (forall c {:trigger Up(l, st, c)} :: 0 < c < |st.step| ==> Up(l, st, c))
    && (forall c {:trigger Down(l, st, c)} :: 0 < c < |st.step| ==> Down(l, st, c))
  }

  lemma TotalOps(c: nat, n: nat)
    requires c < n
    ensures |CoordinatorOps(c, n)| == if c == 0 then 2 * (n - 1) else 2
  {
    RootOps(n, n);
  }

  /** Moving on between the phases of a call does not change what has been exchanged. */
  lemma TimesTick(clock: nat, step: nat, total: nat, k: nat)
    requires StepOk(clock, step, total) && 0 < k <= total && (clock % 4 == 2 ==> step == total)
    ensures Times(clock + 1, if clock % 4 == 2 then 0 else step, k) == Times(clock, step, k)
  {}

  lemma TimesExchange(clock: nat, step: nat, k: nat)
    requires clock % 4 == 2
    ensures Times(clock, step + 1, k) == Times(clock, step, k) + if step + 1 == k then 1 else 0
    ensures Times(clock, step, k) == clock / 4 + if step >= k then 1 else 0
  {}

  lemma SpanGrows(chan: seq<nat>, taken: nat, put: nat)
    requires Span(chan, taken, put)
    ensures Span(chan + [put], taken, put + 1)
  {}

  lemma SpanShrinks(chan: seq<nat>, taken: nat, put: nat)
    requires Span(chan, taken, put) && chan != []
    ensures chan[0] == taken && Span(chan[1..], taken + 1, put)
  {}

  lemma DoneTick(l: Layout, st: State, m: Move, c: nat, k: nat)
    requires Inv(l, st) && Enabled(l, st, m) && !m.Exchange? && c < |st.step|
    requires 0 < k <= |CoordinatorOps(c, |st.step|)|
    ensures WellSized(l, Do(l, st, m)) && Done(l, Do(l, st, m), c, k) == Done(l, st, c, k)
  {
    var q := l.coordinators[c];
    assert StepOk(st.clock[q], st.step[c], |CoordinatorOps(c, |st.step|)|);
    if m.p == q { TimesTick(st.clock[q], st.step[c], |CoordinatorOps(c, |st.step|)|, k); }
  }

  lemma TickKeepsTogether(l: Layout, st: State, m: Move, p: nat, q: nat)
    requires Inv(l, st) && Enabled(l, st, m) && !m.Exchange?
    requires p < |st.clock| && q < |st.clock| && l.cluster[p] == l.cluster[q]
    ensures var clock := Do(l, st, m).clock; |clock| == |st.clock| && Together(clock[p], clock[q])
  {
    var a, b := st.clock[p], st.clock[q];
    assert Together(a, b);
    if p == q { return; }
    if m.p == p {
      assert a % 2 == 1 ==> m.LeaveFirst? || m.LeaveSecond? by { OddPhases(a); }
      TickTogether(a, b);
    }
  }

  lemma OddPhases(clock: nat)
    ensures clock % 2 == 1 <==> clock % 4 == 1 || clock % 4 == 3
  {
    var q, r := clock / 4, clock % 4;
    OddRemainder(2 * q);
    OddRemainder(2 * q + 1);
    assert clock == 4 * q + r && (r == 0 || r == 1 || r == 2 || r == 3);
  }

  lemma OddRemainder(n: nat)
    ensures 2 * n % 2 == 0 && (2 * n + 1) % 2 == 1
  {}

  lemma TickTogether(a: nat, b: nat)
    requires Together(a, b) && (a % 2 == 1 ==> b >= a)
    ensures Together(a + 1, b)
  {}

  lemma TickKeepsStep(l: Layout, st: State, m: Move, c: nat)
    requires Inv(l, st) && Enabled(l, st, m) && !m.Exchange? && c < |st.step|
    ensures var st' := Do(l, st, m);
            WellSized(l, st') && StepOk(st'.clock[l.coordinators[c]], st'.step[c], |CoordinatorOps(c, |st.step|)|)
  {
    assert StepOk(st.clock[l.coordinators[c]], st.step[c], |CoordinatorOps(c, |st.step|)|);
  }

  lemma TickKeepsInv(l: Layout, st: State, m: Move)
    requires Inv(l, st) && Enabled(l, st, m) && !m.Exchange?
    ensures Inv(l, Do(l, st, m))
  {
    var st', n := Do(l, st, m), |st.step|;
    forall p, q | 0 <= p < |st'.clock| && 0 <= q < |st'.clock| && l.cluster[p] == l.cluster[q]
      ensures Together(st'.clock[p], st'.clock[q])
    {
      TickKeepsTogether(l, st, m, p, q);
    }
    forall c | 0 <= c < n ensures StepOk(st'.clock[l.coordinators[c]], st'.step[c], |CoordinatorOps(c, n)|) {
      TickKeepsStep(l, st, m, c);
    }
    forall c | 0 < c < n ensures Up(l, st', c) && Down(l, st', c) {
      TickKeepsUp(l, st, m, c);
      TickKeepsDown(l, st, m, c);
    }
  }

  lemma TickKeepsUp(l: Layout, st: State, m: Move, c: nat)
    requires Inv(l, st) && Enabled(l, st, m) && !m.Exchange? && 0 < c < |st.step|
    ensures WellSized(l, Do(l, st, m)) && Up(l, Do(l, st, m), c)
  {
    assert Up(l, st, c);
    TotalOps(0, |st.step|);
    TotalOps(c, |st.step|);
    DoneTick(l, st, m, 0, c);
    DoneTick(l, st, m, c, 1);
  }

  lemma TickKeepsDown(l: Layout, st: State, m: Move, c: nat)
    requires Inv(l, st) && Enabled(l, st, m) && !m.Exchange? && 0 < c < |st.step|
    ensures WellSized(l, Do(l, st, m)) && Down(l, Do(l, st, m), c)
  {
    assert Down(l, st, c);
    TotalOps(0, |st.step|);
    TotalOps(c, |st.step|);
    DoneTick(l, st, m, c, 2);
    DoneTick(l, st, m, 0, |st.step| - 1 + c);
  }

  /** What an exchange step changes: one counter, by one, and one channel. */
  lemma DoneExchange(l: Layout, st: State, c: nat, d: nat, k: nat)
    requires Inv(l, st) && Enabled(l, st, Exchange(c)) && d < |st.step|
    ensures var st' := Do(l, st, Exchange(c));
            && WellSized(l, st')
            && Done(l, st', d, k) == Done(l, st, d, k) + if d == c && st.step[c] + 1 == k then 1 else 0
    ensures d == c ==> Done(l, st, d, k) == st.clock[l.coordinators[c]] / 4 + if st.step[c] >= k then 1 else 0
  {
    if d == c { TimesExchange(st.clock[l.coordinators[c]], st.step[c], k); }
  }

  lemma ExchangeKeepsUp(l: Layout, st: State, c: nat, d: nat)
    requires Inv(l, st) && Enabled(l, st, Exchange(c)) && 0 < d < |st.step|
    ensures var st' := Do(l, st, Exchange(c)); WellSized(l, st') && Up(l, st', d)
  {
    var n := |st.step|;
    var chan := At(st.chan, d, 0);
    assert Up(l, st, d);
    DoneExchange(l, st, c, 0, d);
    DoneExchange(l, st, c, d, 1);
    if c == 0 {
      TotalOps(0, n);
      RootOpAt(n, st.step[0]);
      if st.step[0] == d - 1 { SpanShrinks(chan, Done(l, st, 0, d), Done(l, st, d, 1)); }
    } else if c == d && st.step[c] == 0 {
      SpanGrows(chan, Done(l, st, 0, d), Done(l, st, d, 1));
    }
  }

  lemma ExchangeKeepsDown(l: Layout, st: State, c: nat, d: nat)
    requires Inv(l, st) && Enabled(l, st, Exchange(c)) && 0 < d < |st.step|
    ensures var st' := Do(l, st, Exchange(c)); WellSized(l, st') && Down(l, st', d)
  {
    var n := |st.step|;
    var chan := At(st.chan, 0, d);
    assert Down(l, st, d);
    DoneExchange(l, st, c, d, 2);
    DoneExchange(l, st, c, 0, n - 1 + d);
    if c == 0 {
      TotalOps(0, n);
      RootOpAt(n, st.step[0]);
      if st.step[0] == n - 1 + d - 1 { SpanGrows(chan, Done(l, st, d, 2), Done(l, st, 0, n - 1 + d)); }
    } else if c == d && st.step[c] == 1 {
      SpanShrinks(chan, Done(l, st, d, 2), Done(l, st, 0, n - 1 + d));
    }
  }

  lemma ExchangeKeepsInv(l: Layout, st: State, c: nat)
    requires Inv(l, st) && Enabled(l, st, Exchange(c))
    ensures Inv(l, Do(l, st, Exchange(c)))
  {
    var st', n := Do(l, st, Exchange(c)), |st.step|;
    forall p, q | 0 <= p < |st'.clock| && 0 <= q < |st'.clock| && l.cluster[p] == l.cluster[q]
      ensures Together(st'.clock[p], st'.clock[q])
    {
      assert Together(st.clock[p], st.clock[q]);
    }
    forall d | 0 < d < n ensures Up(l, st', d) && Down(l, st', d) {
      ExchangeKeepsUp(l, st, c, d);
      ExchangeKeepsDown(l, st, c, d);
    }
  }

  lemma {:induction false} RunKeepsInv(l: Layout, st: State, moves: seq<Move>, st': State)
    requires Inv(l, st) && Reaches(l, st, moves, st')
    ensures Inv(l, st')
    decreases |moves|
  {
    if moves != [] {
      var m := moves[0];
      if m.Exchange? { ExchangeKeepsInv(l, st, m.c); } else { TickKeepsInv(l, st, m); }
      RunKeepsInv(l, Do(l, st, m), moves[1..], st');
    }
  }

  lemma InitialInv(l: Layout, st: State)
    requires Initial(l, st)
    ensures Inv(l, st)
  {}

  // ---- what the barrier guarantees ----

  /**
   Between two coordinators at most one message is under way in either direction. So no message can
   overtake another one, however many streams there are.
   */
  lemma OneUnderWay(l: Layout, init: State, moves: seq<Move>, st: State, c: nat)
    requires Initial(l, init) && Reaches(l, init, moves, st) && 0 < c < |st.step|
    ensures |At(st.chan, c, 0)| <= 1 && |At(st.chan, 0, c)| <= 1
  {
    InitialInv(l, init);
    RunKeepsInv(l, init, moves, st);
    assert Up(l, st, c) && Down(l, st, c);
    var p, q := l.coordinators[0], l.coordinators[c];
    TotalOps(0, |st.step|);
    TotalOps(c, |st.step|);
    assert StepOk(st.clock[p], st.step[0], 2 * (|st.step| - 1)) && StepOk(st.clock[q], st.step[c], 2);
    LaterIsNotMore(st.clock[p], st.step[0], c, |st.step| - 1 + c);
    LaterIsNotMore(st.clock[q], st.step[c], 1, 2);
  }

  /** A later operation of the exchange has been carried out as often as an earlier one, or once less. */
  lemma LaterIsNotMore(clock: nat, step: nat, k: nat, k': nat)
    requires k <= k'
    ensures Times(clock, step, k') <= Times(clock, step, k) <= Times(clock, step, k') + 1
  {}

  /** A process that is past round k was told so: its coordinator has finished the exchange of round k. */
  lemma OwnCoordinatorFinished(l: Layout, st: State, p: nat, round: nat)
    requires Inv(l, st) && p < |st.clock| && Left(st, p, round)
    ensures st.clock[l.coordinators[l.cluster[p]]] >= 4 * round + 3
  {
    var q := l.coordinators[l.cluster[p]];
    assert Together(st.clock[p], st.clock[q]);
    TogetherReaches(st.clock[p], st.clock[q], 2 * round + 2);
  }

  lemma TogetherReaches(a: nat, b: nat, n: nat)
    requires Together(a, b) && a >= 2 * n
    ensures b + 1 >= 2 * n
  {
    if a == 2 * n { OddRemainder(n); }
  }

  /** Coordinator 0 has then heard from every other coordinator. */
  lemma RootHeardAll(l: Layout, st: State, c: nat, d: nat, round: nat)
    requires Inv(l, st) && c < |st.step| && 0 < d < |st.step| && st.clock[l.coordinators[c]] >= 4 * round + 3
    ensures Done(l, st, 0, d) > round
  {
    if c > 0 {
      assert Down(l, st, c);
      assert Done(l, st, c, 2) > round;
    }
  }

  lemma EveryoneEntered(l: Layout, st: State, d: nat, q: nat, round: nat)
    requires Inv(l, st) && d < |st.step| && q < |st.clock| && l.cluster[q] == d
    requires st.clock[l.coordinators[d]] >= 4 * round + 2
    ensures Entered(st, q, round)
  {
    var p := l.coordinators[d];
    assert Together(st.clock[p], st.clock[q]);
    TogetherReaches(st.clock[p], st.clock[q], 2 * round + 1);
  }

  /** If coordinator c has finished its exchange of a round, every coordinator has begun its own. */
  lemma CoordinatorsBegan(l: Layout, st: State, c: nat, d: nat, round: nat)
    requires Inv(l, st) && c < |st.step| && d < |st.step| && st.clock[l.coordinators[c]] >= 4 * round + 3
    ensures st.clock[l.coordinators[d]] >= 4 * round + 2
  {
    if d > 0 {
      RootHeardAll(l, st, c, d, round);
      assert Up(l, st, d);
    } else if c > 0 {
      assert Down(l, st, c);
    }
  }

  /** No process leaves a round before every process of every cluster has entered it. */
  lemma BarrierSafe(l: Layout, init: State, moves: seq<Move>, st: State, p: nat, q: nat, round: nat)
    requires Initial(l, init) && Reaches(l, init, moves, st) && p < |st.clock| && q < |st.clock|
    requires Left(st, p, round)
    ensures Entered(st, q, round)
  {
    InitialInv(l, init);
    RunKeepsInv(l, init, moves, st);
    OwnCoordinatorFinished(l, st, p, round);
    CoordinatorsBegan(l, st, l.cluster[p], l.cluster[q], round);
    EveryoneEntered(l, st, l.cluster[q], q, round);
  }

  /** A message is only ever received in the round in which it was sent. */
  lemma RoundsNotConfused(l: Layout, init: State, moves: seq<Move>, st: State, c: nat)
    requires Initial(l, init) && Reaches(l, init, moves, st)
    requires WellSized(l, st) && Enabled(l, st, Exchange(c))
    ensures var op := CoordinatorOps(c, |st.step|)[st.step[c]];
            op.RecvFrom? ==> At(st.chan, op.src, c)[0] == st.clock[l.coordinators[c]] / 4
  {
    InitialInv(l, init);
    RunKeepsInv(l, init, moves, st);
    var s := st.step[c];
    if c == 0 {
      TotalOps(0, |st.step|);
      RootOpAt(|st.step|, s);
      if s < |st.step| - 1 {
        assert Up(l, st, s + 1);
        TimesExchange(st.clock[l.coordinators[0]], s, s + 1);
      }
    } else if s == 1 {
      assert Down(l, st, c);
      TimesExchange(st.clock[l.coordinators[c]], s, 2);
    }
  }

  // ---- the barrier does not get stuck ----

  ghost predicate AllPast(st: State, clock: nat) { forall q :: 0 <= q < |st.clock| ==> st.clock[q] >= clock }

  lemma TimesSmall(clock: nat, step: nat, k: nat, round: nat)
    requires clock >= 4 * round + 2 && Times(clock, step, k) <= round
    ensures clock == 4 * round + 2 && step < k
  {}

  /** Between the local barriers of round k, coordinator 0 or one it waits for can go on. */
  lemma RootCanMove(l: Layout, st: State, round: nat) returns (m: Move)
    requires Inv(l, st) && AllPast(st, 4 * round + 2) && st.clock[l.coordinators[0]] == 4 * round + 2
    ensures Enabled(l, st, m) && !m.Enter?
  {
    var n, s, p := |st.step|, st.step[0], l.coordinators[0];
    TotalOps(0, n);
    assert StepOk(st.clock[p], s, 2 * (n - 1));
    if s == 2 * (n - 1) { return EnterSecond(p); }
    RootOpAt(n, s);
    m := Exchange(0);
    if s < n - 1 && At(st.chan, s + 1, 0) == [] {
      var d := s + 1;
      assert Up(l, st, d);
      TimesExchange(st.clock[p], s, d);
      TimesSmall(st.clock[l.coordinators[d]], st.step[d], 1, round);
      m := Exchange(d);
    }
  }

  lemma CoordinatorCanMove(l: Layout, st: State, c: nat, round: nat) returns (m: Move)
    requires Inv(l, st) && AllPast(st, 4 * round + 2) && 0 < c < |st.step|
    requires st.clock[l.coordinators[c]] == 4 * round + 2
    ensures Enabled(l, st, m) && !m.Enter?
  {
    var s, p := st.step[c], l.coordinators[c];
    TotalOps(c, |st.step|);
    assert StepOk(st.clock[p], s, 2);
    if s == 2 { return EnterSecond(p); }
    m := Exchange(c);
    if s == 1 && At(st.chan, 0, c) == [] {
      assert Down(l, st, c);
      TimesExchange(st.clock[p], s, 2);
      TimesSmall(st.clock[l.coordinators[0]], st.step[0], |st.step| - 1 + c, round);
      m := RootCanMove(l, st, round);
    }
  }

  /** Once all have entered a round, as long as one has not left it, something other than entering can happen. */
  lemma BarrierProgress(l: Layout, init: State, moves: seq<Move>, st: State, p: nat, round: nat)
    requires Initial(l, init) && Reaches(l, init, moves, st) && p < |st.clock|
    requires (forall q :: 0 <= q < |st.clock| ==> Entered(st, q, round)) && !Left(st, p, round)
    ensures WellSized(l, st) && exists m :: Enabled(l, st, m) && !m.Enter?
  {
    InitialInv(l, init);
    RunKeepsInv(l, init, moves, st);
    forall q | 0 <= q < |st.clock| ensures st.clock[q] >= 4 * round + 1 { assert Entered(st, q, round); }
    var m: Move;
    if q :| 0 <= q < |st.clock| && st.clock[q] == 4 * round + 1 {
      m := FirstCanMove(l, st, q, round);
    } else if q :| 0 <= q < |st.clock| && st.clock[q] == 4 * round + 2 {
      m := BetweenCanMove(l, st, q, round);
    } else {
      m := SecondCanMove(l, st, p, round);
    }
  }

  lemma FirstCanMove(l: Layout, st: State, q: nat, round: nat) returns (m: Move)
    requires Inv(l, st) && AllPast(st, 4 * round + 1) && q < |st.clock| && st.clock[q] == 4 * round + 1
    ensures Enabled(l, st, m) && !m.Enter?
  {
    m := LeaveFirst(q);
  }

  lemma SecondCanMove(l: Layout, st: State, p: nat, round: nat) returns (m: Move)
    requires Inv(l, st) && AllPast(st, 4 * round + 3) && p < |st.clock| && st.clock[p] == 4 * round + 3
    ensures Enabled(l, st, m) && !m.Enter?
  {
    m := LeaveSecond(p);
  }

  lemma BetweenCanMove(l: Layout, st: State, q: nat, round: nat) returns (m: Move)
    requires Inv(l, st) && AllPast(st, 4 * round + 2) && q < |st.clock| && st.clock[q] == 4 * round + 2
    ensures Enabled(l, st, m) && !m.Enter?
  {
    var c := l.cluster[q];
    if q != l.coordinators[c] { return EnterSecond(q); }
    if c == 0 { m := RootCanMove(l, st, round); } else { m := CoordinatorCanMove(l, st, c, round); }
  }

  // ---- every round ends ----

  function Sum(f: nat -> nat, n: nat): nat { if n == 0 then 0 else Sum(f, n - 1) + f(n - 1) }

  lemma {:induction false} SumSame(f: nat -> nat, g: nat -> nat, n: nat)
    requires forall i: nat :: i < n ==> f(i) == g(i)
    ensures Sum(f, n) == Sum(g, n)
  {
    if n > 0 { SumSame(f, g, n - 1); }
  }

  lemma {:induction false} SumLess(f: nat -> nat, g: nat -> nat, n: nat, k: nat)
    requires k < n && f(k) == g(k) + 1 && forall i: nat :: i < n && i != k ==> f(i) == g(i)
    ensures Sum(f, n) == Sum(g, n) + 1
  {
    if k == n - 1 { SumSame(f, g, n - 1); } else { SumLess(f, g, n - 1, k); }
  }

  /** How many phases of its call a process has still to go through. */
  function PhasesLeft(clock: nat): nat { if clock % 4 == 0 then 0 else 4 - clock % 4 }

  /** How many operations of its exchange a coordinator has still to carry out. */
  function StepsLeft(clock: nat, step: nat, total: nat): nat {
    if (clock % 4 == 1 || clock % 4 == 2) && step <= total then total - step else 0
  }

  ghost function Phases(st: State): nat -> nat { (p: nat) => if p < |st.clock| then PhasesLeft(st.clock[p]) else 0 }

  ghost function Steps(l: Layout, st: State): nat -> nat
    requires WellSized(l, st)
  {
    (c: nat) =>
      if c < |st.step| && WellSized(l, st)
      then StepsLeft(st.clock[l.coordinators[c]], st.step[c], |CoordinatorOps(c, |st.step|)|)
      else 0
  }

  /** The moves that the calls under way still take. */
  ghost function WorkLeft(l: Layout, st: State): nat
    requires WellSized(l, st)
  {
    Sum(Phases(st), |st.clock|) + Sum(Steps(l, st), |st.step|)
  }

  lemma TickLessWork(l: Layout, st: State, m: Move)
    requires Inv(l, st) && Enabled(l, st, m) && !m.Enter? && !m.Exchange?
    ensures WellSized(l, Do(l, st, m)) && WorkLeft(l, st) == WorkLeft(l, Do(l, st, m)) + 1
  {
    var st' := Do(l, st, m);
    SumLess(Phases(st), Phases(st'), |st.clock|, m.p);
    forall c: nat | c < |st.step| ensures Steps(l, st)(c) == Steps(l, st')(c) { TickSameSteps(l, st, m, c); }
    SumSame(Steps(l, st), Steps(l, st'), |st.step|);
  }

  lemma TickSameSteps(l: Layout, st: State, m: Move, c: nat)
    requires Inv(l, st) && Enabled(l, st, m) && !m.Enter? && !m.Exchange? && c < |st.step|
    ensures WellSized(l, Do(l, st, m)) && Steps(l, st)(c) == Steps(l, Do(l, st, m))(c)
  {
    assert StepOk(st.clock[l.coordinators[c]], st.step[c], |CoordinatorOps(c, |st.step|)|);
  }

  lemma ExchangeLessWork(l: Layout, st: State, c: nat)
    requires Inv(l, st) && Enabled(l, st, Exchange(c))
    ensures WellSized(l, Do(l, st, Exchange(c))) && WorkLeft(l, st) == WorkLeft(l, Do(l, st, Exchange(c))) + 1
  {
    var st' := Do(l, st, Exchange(c));
    SumSame(Phases(st), Phases(st'), |st.clock|);
    SumLess(Steps(l, st), Steps(l, st'), |st.step|, c);
  }

  /** Every move other than entering takes one off the work that is left. */
  lemma {:induction false} RunLessWork(l: Layout, st: State, moves: seq<Move>, st': State)
    requires Inv(l, st) && Reaches(l, st, moves, st') && forall m :: m in moves ==> !m.Enter?
    ensures WellSized(l, st') && |moves| + WorkLeft(l, st') == WorkLeft(l, st)
    decreases |moves|
  {
    if moves != [] {
      var m := moves[0];
      if m.Exchange? {
        ExchangeLessWork(l, st, m.c);
        ExchangeKeepsInv(l, st, m.c);
      } else {
        TickLessWork(l, st, m);
        TickKeepsInv(l, st, m);
      }
      RunLessWork(l, Do(l, st, m), moves[1..], st');
    }
  }

  lemma {:induction false} PhasesBounded(st: State, n: nat)
    requires n <= |st.clock|
    ensures Sum(Phases(st), n) <= 3 * n
  {
    if n > 0 { PhasesBounded(st, n - 1); }
  }

  lemma {:induction false} StepsBounded(l: Layout, st: State, k: nat)
    requires WellSized(l, st) && k <= |st.step|
    ensures Sum(Steps(l, st), k) <= if k == 0 then 0 else 2 * (|st.step| - 1) + 2 * (k - 1)
  {
    if k > 0 {
      StepsBounded(l, st, k - 1);
      TotalOps(k - 1, |st.step|);
    }
  }

  /**
   Once all have entered a round, and until somebody enters another one, at most three moves per
   process and four per coordinator but one can follow; when no more can, everyone has left the round.
   */
  lemma RoundEnds(l: Layout, init: State, moves: seq<Move>, st: State, more: seq<Move>, st': State, round: nat)
    requires Initial(l, init) && Reaches(l, init, moves, st) && Reaches(l, st, more, st')
    requires (forall q :: 0 <= q < |st.clock| ==> Entered(st, q, round)) && forall m :: m in more ==> !m.Enter?
    ensures WellSized(l, st') && |more| <= 3 * |st.clock| + 4 * (|st.step| - 1)
    ensures (forall m :: Enabled(l, st', m) ==> m.Enter?) ==> forall p :: 0 <= p < |st'.clock| ==> Left(st', p, round)
  {
    InitialInv(l, init);
    RunKeepsInv(l, init, moves, st);
    RunLessWork(l, st, more, st');
    PhasesBounded(st, |st.clock|);
    StepsBounded(l, st, |st.step|);
    RunTogether(l, init, moves, st, more, st');
    ClocksAdvance(l, st, more, st');
    forall p | 0 <= p < |st'.clock| && !Left(st', p, round) ensures exists m :: Enabled(l, st', m) && !m.Enter? {
      forall q | 0 <= q < |st'.clock| ensures Entered(st', q, round) { assert Entered(st, q, round); }
      BarrierProgress(l, init, moves + more, st', p, round);
    }
  }

  lemma {:induction false} RunTogether(l: Layout, st: State, moves: seq<Move>, mid: State, more: seq<Move>, st': State)
    requires Reaches(l, st, moves, mid) && Reaches(l, mid, more, st')
    ensures Reaches(l, st, moves + more, st')
    decreases |moves|
  {
    if moves == [] {
      assert moves + more == more;
    } else {
      assert (moves + more)[1..] == moves[1..] + more;
      RunTogether(l, Do(l, st, moves[0]), moves[1..], mid, more, st');
    }
  }

  lemma {:induction false} ClocksAdvance(l: Layout, st: State, moves: seq<Move>, st': State)
    requires Reaches(l, st, moves, st')
    ensures |st'.clock| == |st.clock| && forall p :: 0 <= p < |st.clock| ==> st.clock[p] <= st'.clock[p]
    decreases |moves|
  {
    if moves != [] { ClocksAdvance(l, Do(l, st, moves[0]), moves[1..], st'); }
  }
}
