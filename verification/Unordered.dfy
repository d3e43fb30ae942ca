/**
 The same programs over channels that do not keep order, as several streams between two gateways
 provide them: which sequences of collective calls still get the right data.
 */
module Unordered {
  import opened Common
  import opened Choreography
  import opened Broadcasts
  import opened Calls

  // ---- the transport ----

  /** A step as before; or p receives message i of those under way to it, past the earlier ones. */
  datatype Move = InOrder(step: Step) | Overtake(p: nat, i: nat)

  ghost predicate CanMove<T>(st: State<T>, m: Move) {
    match m
    case InOrder(step) => Enabled(st, step)
    case Overtake(p, i) =>
      p < |st.todo| && st.todo[p] != [] && st.todo[p][0].RecvFrom? && i < |At(st.chan, st.todo[p][0].src, p)|
  }

  ghost function After<T>(st: State<T>, m: Move): State<T>
    requires CanMove(st, m)
  {
    match m
    case InOrder(step) => Do(st, step)
    case Overtake(p, i) =>
      var s := st.todo[p][0].src;
      var c := At(st.chan, s, p);
      State(st.todo[p := st.todo[p][1..]], st.chan[(s, p) := c[..i] + c[i + 1..]],
            st.got[(s, p) := At(st.got, s, p) + [c[i]]])
  }

  ghost predicate Leads<T>(st: State<T>, moves: seq<Move>, st': State<T>)
    decreases |moves|
  {
    if moves == [] then st == st'
    else CanMove(st, moves[0]) && Leads(After(st, moves[0]), moves[1..], st')
  }

  // ---- with at most one message under way nothing can be overtaken ----

  /** So far s has sent to r at most once more than it has heard from r, and r to s no more than it has heard. */
  ghost predicate InTurn<T>(script: seq<Act<T>>, s: nat, r: nat) {
    && |Sent(script, s, r)| <= Receives(script, r, s) + 1
    && |Sent(script, r, s)| <= Receives(script, s, r)
  }

  /** s asks and r answers: neither sends to the other again before it has heard from it. */
  ghost predicate Asks<T>(script: seq<Act<T>>, s: nat, r: nat) {
    forall k :: 0 <= k <= |script| ==> InTurn(script[..k], s, r)
  }

  /** Every pair exchanges one message only, or takes turns. */
  ghost predicate Calm<T>(script: seq<Act<T>>) {
    forall s, r {:trigger Sent(script, s, r)} ::
      |Sent(script, s, r)| <= 1 || Asks(script, s, r) || Asks(script, r, s)
  }

  lemma OneUnderWay<T>(script: seq<Act<T>>, st: State<T>, cur: seq<nat>, s: nat, r: nat)
    requires Inv(script, st, cur) && Calm(script) && s < |cur| && r < |cur|
    ensures |At(st.chan, s, r)| <= 1
  {
    assert AtPoint(script, st.todo[s], s, cur[s]) && AtPoint(script, st.todo[r], r, cur[r]);
    assert PairAt(script, st, s, r, cur[s], cur[r]) && PairAt(script, st, r, s, cur[r], cur[s]);
    SentIsPrefix(script, cur[s], s, r);
    assert |Sent(script, s, r)| <= 1 || Asks(script, s, r) || Asks(script, r, s);
    if Asks(script, s, r) {
      assert InTurn(script[..cur[s]], s, r) && InTurn(script[..cur[r]], s, r);
    } else if Asks(script, r, s) {
      assert InTurn(script[..cur[s]], r, s) && InTurn(script[..cur[r]], r, s);
    }
  }

  /** A receive out of order is then one in order. */
  lemma OnlyMessage<T>(script: seq<Act<T>>, st: State<T>, cur: seq<nat>, p: nat, i: nat)
    requires Inv(script, st, cur) && Calm(script) && CanMove(st, Overtake(p, i))
    ensures Enabled(st, Take(p)) && After(st, Overtake(p, i)) == Do(st, Take(p))
  {
    var e := MoveOn(script, st, cur, p);
    OneUnderWay(script, st, cur, script[e].src, p);
    var c := At(st.chan, script[e].src, p);
    assert i == 0 && c[..0] + c[1..] == c[1..];
  }

  lemma {:induction false} CalmIsOrdered<T>(script: seq<Act<T>>, st: State<T>, cur: seq<nat>, moves: seq<Move>,
                                              st': State<T>) returns (steps: seq<Step>)
    requires Inv(script, st, cur) && Calm(script) && Leads(st, moves, st')
    ensures Reaches(st, steps, st')
    decreases |moves|
  {
    if moves == [] {
      steps := [];
    } else {
      var step := if moves[0].InOrder? then moves[0].step else Take(moves[0].p);
      if moves[0].Overtake? { OnlyMessage(script, st, cur, moves[0].p, moves[0].i); }
      var cur' := StepKeepsInv(script, st, step, cur);
      var rest := CalmIsOrdered(script, Do(st, step), cur', moves[1..], st');
      steps := [step] + rest;
      assert steps[1..] == rest;
    }
  }

  // ---- a script is itself a run ----

  lemma {:induction false} StepsLast<T>(st: State<T>, steps: seq<Step>, mid: State<T>, step: Step)
    requires Reaches(st, steps, mid) && Enabled(mid, step)
    ensures Reaches(st, steps + [step], Do(mid, step))
    decreases |steps|
  {
    if steps == [] {
      assert [step][1..] == [];
    } else {
      assert (steps + [step])[1..] == steps[1..] + [step];
      StepsLast(Do(st, steps[0]), steps[1..], mid, step);
    }
  }

  /** Nothing is received that has not been sent. */
  ghost predicate Backed<T>(script: seq<Act<T>>) { forall s, r :: Receives(script, s, r) <= |Sent(script, s, r)| }

  /** Every process is at point i. */
  ghost predicate AllAt<T>(script: seq<Act<T>>, st: State<T>, i: nat) {
    && i <= |script| && Among(script, |st.todo|)
    && (forall p :: 0 <= p < |st.todo| ==> AtPoint(script, st.todo[p], p, i))
    && (forall s, r {:trigger PairAt(script, st, s, r, i, i)} ::
          0 <= s < |st.todo| && 0 <= r < |st.todo| ==> PairAt(script, st, s, r, i, i))
  }

  /** The step that carries out an action of the script. */
  function StepOf<T>(a: Act<T>): Step { if a.Send? then Post(a.src) else Take(a.dst) }

  lemma NextLocal<T>(script: seq<Act<T>>, i: nat, p: nat)
    requires i < |script|
    ensures Program(script[i..], p)
            == (if Owner(script[i]) == p then [Local(script[i])] else []) + Program(script[i + 1..], p)
  {
    assert script[i..][1..] == script[i + 1..];
  }

  /** The next action can be carried out, if it does not receive what has not been sent. */
  lemma NextIsEnabled<T>(script: seq<Act<T>>, st: State<T>, i: nat)
    requires AllAt(script, st, i) && i < |script|
    requires Backed(script[..i + 1])
    ensures var p := Owner(script[i]);
            && Enabled(st, StepOf(script[i])) && st.todo[p] == [Local(script[i])] + Program(script[i + 1..], p)
  {
    var a := script[i];
    var p := Owner(a);
    assert AtPoint(script, st.todo[p], p, i);
    NextLocal(script, i, p);
    if a.Recv? {
      assert PairAt(script, st, a.src, p, i, i);
      CountNext(script, i, a.src, p);
      assert Receives(script[..i + 1], a.src, p) <= |Sent(script[..i + 1], a.src, p)|;
    }
  }

  lemma NextPair<T>(script: seq<Act<T>>, st: State<T>, i: nat, s: nat, r: nat)
    requires AllAt(script, st, i) && i < |script| && Enabled(st, StepOf(script[i]))
    requires st.todo[Owner(script[i])][0] == Local(script[i]) && s < |st.todo| && r < |st.todo|
    ensures PairAt(script, Do(st, StepOf(script[i])), s, r, i + 1, i + 1)
  {
    var a := script[i];
    assert PairAt(script, st, s, r, i, i);
    CountNext(script, i, s, r);
    if a.src == s && a.dst == r {
      var got, chan := At(st.got, s, r), At(st.chan, s, r);
      if a.Send? {
        PairAfterPost(got, chan, Sent(script[..i], s, r), Receives(script[..i], s, r), a.data);
      } else {
        PairAfterTake(got, chan, Sent(script[..i], s, r), Receives(script[..i], s, r));
      }
    }
  }

  lemma NextAllAt<T>(script: seq<Act<T>>, st: State<T>, i: nat)
    requires AllAt(script, st, i) && i < |script|
    requires Backed(script[..i + 1])
    ensures Enabled(st, StepOf(script[i])) && AllAt(script, Do(st, StepOf(script[i])), i + 1)
  {
    NextIsEnabled(script, st, i);
    var st', j := Do(st, StepOf(script[i])), i + 1;
    forall p | 0 <= p < |st'.todo| ensures AtPoint(script, st'.todo[p], p, j) {
      assert AtPoint(script, st.todo[p], p, i);
      NextLocal(script, i, p);
    }
    forall s, r | 0 <= s < |st'.todo| && 0 <= r < |st'.todo| ensures PairAt(script, st', s, r, j, j) {
      NextPair(script, st, i, s, r);
    }
  }

  /** The first i actions of a script can be carried out one by one, if they receive only what they have sent. */
  lemma {:induction false} RunScript<T>(script: seq<Act<T>>, programs: seq<seq<Op<T>>>, i: nat)
    returns (steps: seq<Step>, st: State<T>)
    requires Projected(script, programs) && i <= |script|
    requires forall k :: 0 <= k <= i ==> Backed(script[..k])
    ensures Reaches(Start(programs), steps, st) && |st.todo| == |programs| && AllAt(script, st, i)
  {
    if i == 0 {
      steps, st := [], Start(programs);
      assert script[0..] == script && script[..0] == [];
    } else {
      var mid;
      steps, mid := RunScript(script, programs, i - 1);
      NextAllAt(script, mid, i - 1);
      StepsLast(Start(programs), steps, mid, StepOf(script[i - 1]));
      steps, st := steps + [StepOf(script[i - 1])], Do(mid, StepOf(script[i - 1]));
    }
  }

  // ---- one process goes first ----

  function Of<T>(p: nat): Act<T> -> bool { a => Owner(a) == p }
  function NotOf<T>(p: nat): Act<T> -> bool { a => Owner(a) != p }

  lemma {:induction false} ProgramOfFilter<T>(acts: seq<Act<T>>, keep: Act<T> -> bool, q: nat)
    requires forall a :: Owner(a) == q ==> keep(a)
    ensures Program(Filter(acts, keep), q) == Program(acts, q)
  {
    if acts != [] {
      ProgramOfFilter(acts[1..], keep, q);
      var rest := Filter(acts[1..], keep);
      if keep(acts[0]) {
        assert ([acts[0]] + rest)[1..] == rest;
      } else {
        assert [] + rest == rest;
      }
    }
  }

  lemma {:induction false} ProgramWithout<T>(acts: seq<Act<T>>, keep: Act<T> -> bool, q: nat)
    requires forall a :: Owner(a) == q ==> !keep(a)
    ensures Program(Filter(acts, keep), q) == []
  {
    if acts != [] {
      ProgramWithout(acts[1..], keep, q);
      var rest := Filter(acts[1..], keep);
      if keep(acts[0]) {
        assert ([acts[0]] + rest)[1..] == rest;
      } else {
        assert [] + rest == rest;
      }
    }
  }

  /** Letting p do all its actions first changes nothing for anyone. */
  lemma FirstTheOwn<T>(acts: seq<Act<T>>, p: nat, q: nat)
    ensures Program(Filter(acts, Of(p)) + Filter(acts, NotOf(p)), q) == Program(acts, q)
  {
    ProgramConcat(Filter(acts, Of(p)), Filter(acts, NotOf(p)), q);
    if q == p {
      ProgramOfFilter(acts, Of(p), q);
      ProgramWithout(acts, NotOf(p), q);
    } else {
      ProgramWithout(acts, Of(p), q);
      ProgramOfFilter(acts, NotOf(p), q);
    }
  }

  ghost predicate OwnCounts<T>(own: seq<Act<T>>, acts: seq<Act<T>>, p: nat, s: nat, r: nat) {
    && Sent(own, s, r) == (if s == p then Sent(acts, s, r) else [])
    && Receives(own, s, r) == if r == p then Receives(acts, s, r) else 0
  }

  lemma OwnCountsNext<T>(acts: seq<Act<T>>, a: Act<T>, p: nat, s: nat, r: nat)
    requires OwnCounts(Filter(acts, Of(p)), acts, p, s, r)
    ensures OwnCounts(Filter(acts + [a], Of(p)), acts + [a], p, s, r)
  {
    FilterSnoc(acts, a, Of(p));
    if Owner(a) == p {
      OwnCountsMore(acts, Filter(acts, Of(p)), a, p, s, r);
    } else {
      OwnCountsSame(acts, Filter(acts, Of(p)), a, p, s, r);
      assert Filter(acts, Of<T>(p)) + [] == Filter(acts, Of(p));
    }
  }

  lemma OwnCountsMore<T>(acts: seq<Act<T>>, own: seq<Act<T>>, a: Act<T>, p: nat, s: nat, r: nat)
    requires OwnCounts(own, acts, p, s, r) && Owner(a) == p
    ensures OwnCounts(own + [a], acts + [a], p, s, r)
  {
    OneMoreAct(acts, a, s, r);
    OneMoreAct(own, a, s, r);
  }

  lemma OwnCountsSame<T>(acts: seq<Act<T>>, own: seq<Act<T>>, a: Act<T>, p: nat, s: nat, r: nat)
    requires OwnCounts(own, acts, p, s, r) && Owner(a) != p
    ensures OwnCounts(own, acts + [a], p, s, r)
  {
    OneMoreAct(acts, a, s, r);
  }

  lemma {:induction false} CountsOfFilter<T>(acts: seq<Act<T>>, p: nat, s: nat, r: nat)
    ensures OwnCounts(Filter(acts, Of(p)), acts, p, s, r)
  {
    if acts != [] {
      var n := |acts| - 1;
      CountsOfFilter(acts[..n], p, s, r);
      OwnCountsNext(acts[..n], acts[n], p, s, r);
      assert acts[..n] + [acts[n]] == acts;
    }
  }

  // ---- two Allreduce calls ----

  /** The script of two calls and more, with process 0 going on to the second call as soon as it can. */
  function Hasty<T>(m1: seq<Message<T>>, m2: seq<Message<T>>): seq<Act<T>> {
    Sends(m1) + Filter(Recvs(m1) + Sends(m2), Of(0))
  }

  function Later<T>(m1: seq<Message<T>>, m2: seq<Message<T>>, rest: seq<Act<T>>): seq<Act<T>> {
    Filter(Recvs(m1) + Sends(m2), NotOf(0)) + (Recvs(m2) + rest)
  }

  /** Nobody notices. */
  lemma SamePrograms<T>(m1: seq<Message<T>>, m2: seq<Message<T>>, rest: seq<Act<T>>, q: nat)
    ensures Program(Hasty(m1, m2) + Later(m1, m2, rest), q) == Program(SendsFirst(m1) + (SendsFirst(m2) + rest), q)
  {
    var mid, tail := Recvs(m1) + Sends(m2), Recvs(m2) + rest;
    var own, others := Filter(mid, Of(0)), Filter(mid, NotOf(0));
    FirstTheOwn(mid, 0, q);
    Middle(Sends(m1), own, others, tail, q);
    ThreeParts(Sends(m1), mid, tail, q);
    Reassociated(m1, m2, rest);
  }

  lemma Middle<T>(a: seq<Act<T>>, b: seq<Act<T>>, c: seq<Act<T>>, d: seq<Act<T>>, q: nat)
    ensures Program(a + b + (c + d), q) == Program(a, q) + Program(b + c, q) + Program(d, q)
  {
    assert a + b + (c + d) == a + (b + c) + d;
    ThreeParts(a, b + c, d, q);
  }

  lemma ThreeParts<T>(a: seq<Act<T>>, b: seq<Act<T>>, c: seq<Act<T>>, q: nat)
    ensures Program(a + b + c, q) == Program(a, q) + Program(b, q) + Program(c, q)
  {
    ProgramConcat(a + b, c, q);
    ProgramConcat(a, b, q);
  }

  lemma Reassociated<T>(m1: seq<Message<T>>, m2: seq<Message<T>>, rest: seq<Act<T>>)
    ensures Sends(m1) + (Recvs(m1) + Sends(m2)) + (Recvs(m2) + rest) == SendsFirst(m1) + (SendsFirst(m2) + rest)
  {}

  /** What process 0 has sent to process 1 before that has received anything, and what may happen so far. */
  lemma HastyCounts<T>(m1: seq<Message<T>>, m2: seq<Message<T>>, s: nat, r: nat)
    ensures Sent(Hasty(m1, m2), 0, 1) == Between(m1, 0, 1) + Between(m2, 0, 1)
    ensures Receives(Hasty(m1, m2), 0, 1) == 0
    ensures Receives(Filter(Recvs(m1) + Sends(m2), Of(0)), s, r) <= |Sent(Sends(m1), s, r)|
  {
    var mid := Recvs(m1) + Sends(m2);
    MiddleCounts(m1, m2, 0, 1);
    MiddleCounts(m1, m2, s, r);
    CountsOfFilter(mid, 0, 0, 1);
    CountsOfFilter(mid, 0, s, r);
    SendsAlone(m1, 0, 1);
    SendsAlone(m1, s, r);
    CountsConcat(Sends(m1), Filter(mid, Of(0)), 0, 1);
  }

  lemma MiddleCounts<T>(m1: seq<Message<T>>, m2: seq<Message<T>>, s: nat, r: nat)
    ensures Sent(Recvs(m1) + Sends(m2), s, r) == Between(m2, s, r)
    ensures Receives(Recvs(m1) + Sends(m2), s, r) == |Between(m1, s, r)|
  {
    CountsConcat(Recvs(m1), Sends(m2), s, r);
    RecvsAlone(m1, s, r);
    SendsAlone(m2, s, r);
    assert [] + Between(m2, s, r) == Between(m2, s, r);
  }

  lemma HastyIsBacked<T>(m1: seq<Message<T>>, m2: seq<Message<T>>, k: nat)
    requires k <= |Hasty(m1, m2)|
    ensures Backed(Hasty(m1, m2)[..k])
  {
    forall s, r
      ensures Receives(Hasty(m1, m2)[..k], s, r) <= |Sent(Hasty(m1, m2)[..k], s, r)|
    {
      HastyCounts(m1, m2, s, r);
      SendsAlone(m1, s, r);
      ThenCausal(Sends(m1), Filter(Recvs(m1) + Sends(m2), Of(0)), k, s, r);
    }
  }

  lemma AmongFilter<T>(acts: seq<Act<T>>, keep: Act<T> -> bool, n: nat)
    requires Among(acts, n)
    ensures Among(Filter(acts, keep), n)
  {
    FilterMembers(acts, keep);
    var kept := Filter(acts, keep);
    forall i | 0 <= i < |kept| ensures kept[i].src < n && kept[i].dst < n && kept[i].src != kept[i].dst {
      assert kept[i] in acts;
    }
  }

  lemma HastyAmong<T>(m1: seq<Message<T>>, m2: seq<Message<T>>, rest: seq<Act<T>>, n: nat)
    requires Addressed(m1, n) && Addressed(m2, n) && Among(rest, n)
    ensures Among(Hasty(m1, m2) + Later(m1, m2, rest), n)
  {
    AmongFilter(Recvs(m1) + Sends(m2), Of(0), n);
    AmongFilter(Recvs(m1) + Sends(m2), NotOf(0), n);
  }

  lemma {:induction false} FirstReceive<T>(n: nat)
    requires n > 0
    ensures ReceiveOps<T>(1, n) != [] && ReceiveOps<T>(1, n)[0] == RecvFrom(0)
  {
    if n > 1 { FirstReceive<T>(n - 1); }
  }

  /** Process 1 has not received anything yet, and is to receive from process 0. */
  lemma OneIsWaiting<T>(xs: seq<T>, m2: seq<Message<T>>, rest: seq<Act<T>>)
    requires |xs| >= 2
    ensures var todo := Program(Later(AllMessages(xs), m2, rest), 1); todo != [] && todo[0] == RecvFrom(0)
  {
    var m1 := AllMessages(xs);
    ProgramConcat(Filter(Recvs(m1) + Sends(m2), NotOf(0)), Recvs(m2) + rest, 1);
    ProgramOfFilter(Recvs(m1) + Sends(m2), NotOf(0), 1);
    ProgramConcat(Recvs(m1), Sends(m2), 1);
    RecvsProgram(m1, 1);
    RecvsInAll(xs, 1);
    FirstReceive<T>(|xs|);
  }

  lemma {:induction false} StepsAreMoves<T>(st: State<T>, steps: seq<Step>, st': State<T>) returns (moves: seq<Move>)
    requires Reaches(st, steps, st')
    ensures Leads(st, moves, st')
    decreases |steps|
  {
    if steps == [] {
      moves := [];
    } else {
      var rest := StepsAreMoves(Do(st, steps[0]), steps[1..], st');
      moves := [InOrder(steps[0])] + rest;
      assert moves[1..] == rest;
    }
  }

  lemma {:induction false} MovesLast<T>(st: State<T>, moves: seq<Move>, mid: State<T>, m: Move)
    requires Leads(st, moves, mid) && CanMove(mid, m)
    ensures Leads(st, moves + [m], After(mid, m))
    decreases |moves|
  {
    if moves == [] {
      assert [m][1..] == [];
    } else {
      assert (moves + [m])[1..] == moves[1..] + [m];
      MovesLast(After(st, moves[0]), moves[1..], mid, m);
    }
  }

  /** At the end of the hasty part, both messages of process 0 are under way to process 1. */
  lemma BothUnderWay<T>(m1: seq<Message<T>>, m2: seq<Message<T>>, later: seq<Act<T>>, st: State<T>, x: T, y: T)
    requires AllAt(Hasty(m1, m2) + later, st, |Hasty(m1, m2)|) && |st.todo| >= 2
    requires Between(m1, 0, 1) == [x] && Between(m2, 0, 1) == [y]
    ensures At(st.got, 0, 1) == [] && At(st.chan, 0, 1) == [x, y] && st.todo[1] == Program(later, 1)
  {
    var i, script := |Hasty(m1, m2)|, Hasty(m1, m2) + later;
    assert script[..i] == Hasty(m1, m2) && script[i..] == later;
    assert AtPoint(script, st.todo[1], 1, i) && PairAt(script, st, 0, 1, i, i);
    HastyCounts(m1, m2, 0, 1);
    assert [x] + [y] == [x, y];
  }

  /** The script of a sequence of two calls and more, as the first, the second and the rest. */
  lemma CallsSplit<T>(xss: seq<seq<T>>)
    requires |xss| >= 2
    ensures Flatten(EagerCalls(xss))
            == SendsFirst(AllMessages(xss[0])) + (SendsFirst(AllMessages(xss[1])) + Flatten(EagerCalls(xss[2..])))
  {
    var calls := EagerCalls(xss);
    assert calls[1..][1..] == EagerCalls(xss[2..]);
  }

  lemma HastyProjected<T>(xss: seq<seq<T>>, n: nat)
    requires Rows(xss, n) && |xss| >= 2
    ensures var m1, m2, rest := AllMessages(xss[0]), AllMessages(xss[1]), Flatten(EagerCalls(xss[2..]));
            Projected(Hasty(m1, m2) + Later(m1, m2, rest), Repeated(xss, n))
  {
    var m1, m2, rest := AllMessages(xss[0]), AllMessages(xss[1]), Flatten(EagerCalls(xss[2..]));
    MessagesAddressed(xss[0], n, 0);
    MessagesAddressed(xss[1], n, 0);
    RepeatedIsSuccessive(xss, n);
    RepeatedIsSuccessive(xss[2..], n);
    CallsAreCall(EagerCalls(xss[2..]), n);
    HastyAmong(m1, m2, rest, n);
    SuccessiveIsProjected(EagerCalls(xss), n);
    CallsSplit(xss);
    forall p | 0 <= p < n ensures Repeated(xss, n)[p] == Program(Hasty(m1, m2) + Later(m1, m2, rest), p) {
      SamePrograms(m1, m2, rest, p);
    }
  }

  lemma OneBetween<T>(xs: seq<T>)
    requires |xs| >= 2
    ensures Between(AllMessages(xs), 0, 1) == [xs[0]]
  {
    BetweenInAll(xs, 0, 1);
  }

  /**
   With two calls and two coordinators, coordinator 1 may receive for the first call what
   coordinator 0 sends in the second.
   */
  lemma MayMix<T>(xss: seq<seq<T>>, n: nat) returns (moves: seq<Move>, st: State<T>)
    requires Rows(xss, n) && |xss| >= 2 && n >= 2
    ensures Leads(Start(Repeated(xss, n)), moves, st) && At(st.got, 0, 1) == [xss[1][0]]
  {
    var m1, m2, rest := AllMessages(xss[0]), AllMessages(xss[1]), Flatten(EagerCalls(xss[2..]));
    var hasty, later := Hasty(m1, m2), Later(m1, m2, rest);
    HastyProjected(xss, n);
    forall k | 0 <= k <= |hasty| ensures Backed((hasty + later)[..k]) {
      HastyIsBacked(m1, m2, k);
      assert (hasty + later)[..k] == hasty[..k];
    }
    var steps, mid := RunScript(hasty + later, Repeated(xss, n), |hasty|);
    OneBetween(xss[0]);
    OneBetween(xss[1]);
    BothUnderWay(m1, m2, later, mid, xss[0][0], xss[1][0]);
    OneIsWaiting(xss[0], m2, rest);
    moves := StepsAreMoves(Start(Repeated(xss, n)), steps, mid);
    MovesLast(Start(Repeated(xss, n)), moves, mid, Overtake(1, 1));
    moves, st := moves + [Overtake(1, 1)], After(mid, Overtake(1, 1));
    assert [] + [xss[1][0]] == [xss[1][0]];
  }

  // ---- the exact condition ----

  /** Everyone has got from everyone, in order, the data of the calls so far. */
  ghost predicate RightSoFar<T>(xss: seq<seq<T>>, n: nat, st: State<T>)
    requires Rows(xss, n)
  {
    forall s, r :: 0 <= s < n && 0 <= r < n && s != r ==> At(st.got, s, r) <= Due(xss, s)
  }

  ghost predicate AlwaysRight<T(!new)>(calls: nat, n: nat) {
    forall xss: seq<seq<T>>, moves, st: State<T> ::
      |xss| == calls && Rows(xss, n) && Leads(Start(Repeated(xss, n)), moves, st) ==> RightSoFar(xss, n, st)
  }

  lemma {:induction false} NoneSent<T>(script: seq<Act<T>>, n: nat, s: nat, r: nat)
    requires Among(script, n) && !(s < n && r < n && s != r)
    ensures Sent(script, s, r) == []
  {
    if script != [] {
      var a := script[|script| - 1];
      assert a.src < n && a.dst < n && a.src != a.dst;
      NoneSent(script[..|script| - 1], n, s, r);
    }
  }

  lemma FewAreCalm<T>(xss: seq<seq<T>>, n: nat)
    requires Rows(xss, n) && (|xss| < 2 || n < 2)
    ensures Calm(Flatten(EagerCalls(xss)))
  {
    RepeatedIsSuccessive(xss, n);
    CallsAreCall(EagerCalls(xss), n);
    forall s: nat, r: nat ensures |Sent(Flatten(EagerCalls(xss)), s, r)| <= 1 {
      if s < n && r < n && s != r {
        SentInCalls(EagerCalls(xss), s, r);
        EagerSendsDue(xss, n, s, r);
      } else {
        NoneSent(Flatten(EagerCalls(xss)), n, s, r);
      }
    }
  }

  lemma FewAreRight<T>(xss: seq<seq<T>>, n: nat, moves: seq<Move>, st: State<T>)
    requires Rows(xss, n) && (|xss| < 2 || n < 2) && Leads(Start(Repeated(xss, n)), moves, st)
    ensures RightSoFar(xss, n, st)
  {
    var script := Flatten(EagerCalls(xss));
    RepeatedIsSuccessive(xss, n);
    SuccessiveIsProjected(EagerCalls(xss), n);
    FewAreCalm(xss, n);
    var cur := StartInv(script, Repeated(xss, n));
    var steps := CalmIsOrdered(script, Start(Repeated(xss, n)), cur, moves, st);
    forall s, r | 0 <= s < n && 0 <= r < n && s != r ensures At(st.got, s, r) <= Due(xss, s) {
      CallsDeliver(EagerCalls(xss), n, steps, st, s, r);
      EagerSendsDue(xss, n, s, r);
    }
  }

  /**
   Over channels that do not keep order, a number of Allreduce calls in a row always get the right
   data exactly if there are fewer than two calls or fewer than two coordinators.
   */
  lemma OrderNeededIff<T(!new)>(calls: nat, n: nat, a: T, b: T)
    requires a != b
    ensures AlwaysRight<T>(calls, n) <==> calls < 2 || n < 2
  {
    if calls < 2 || n < 2 {
      forall xss: seq<seq<T>>, moves, st: State<T>
        | |xss| == calls && Rows(xss, n) && Leads(Start(Repeated(xss, n)), moves, st)
        ensures RightSoFar(xss, n, st)
      {
        FewAreRight(xss, n, moves, st);
      }
    } else {
      var xss := seq(calls, k => seq(n, _ => if k == 0 then a else b));
      var moves, st := MayMix(xss, n);
      assert At(st.got, 0, 1)[0] == b && Due(xss, 0)[0] == a;
      assert !(At(st.got, 0, 1) <= Due(xss, 0));
    }
  }

  // ---- taking turns is safe ----

  /** As much in one direction as in the other, and nothing left under way. */
  ghost predicate Even<T>(script: seq<Act<T>>, s: nat, r: nat) {
    |Sent(script, s, r)| == |Sent(script, r, s)| == Receives(script, s, r) == Receives(script, r, s)
  }

  lemma AsksConcat<T>(a: seq<Act<T>>, b: seq<Act<T>>, s: nat, r: nat)
    requires Asks(a, s, r) && Even(a, s, r) && Asks(b, s, r)
    ensures Asks(a + b, s, r)
  {
    forall k | 0 <= k <= |a + b| ensures InTurn((a + b)[..k], s, r) {
      if k <= |a| {
        assert (a + b)[..k] == a[..k];
      } else {
        assert (a + b)[..k] == a + b[..k - |a|];
        CountsConcat(a, b[..k - |a|], s, r);
        CountsConcat(a, b[..k - |a|], r, s);
      }
    }
  }

  lemma {:induction false} AsksInCalls<T>(calls: seq<seq<Act<T>>>, s: nat, r: nat)
    requires forall k :: 0 <= k < |calls| ==> Asks(calls[k], s, r) && Even(calls[k], s, r)
    ensures Asks(Flatten(calls), s, r)
  {
    if calls != [] {
      AsksInCalls(calls[1..], s, r);
      AsksConcat(calls[0], Flatten(calls[1..]), s, r);
    }
  }

  lemma AsksNext<T>(script: seq<Act<T>>, a: Act<T>, s: nat, r: nat)
    requires Asks(script, s, r) && InTurn(script + [a], s, r)
    ensures Asks(script + [a], s, r)
  {
    forall k | 0 <= k <= |script| + 1 ensures InTurn((script + [a])[..k], s, r) {
      if k <= |script| {
        assert (script + [a])[..k] == script[..k];
      } else {
        assert (script + [a])[..k] == script + [a];
      }
    }
  }

  /** What has gone between s and r when coordinator i has sent to those below j, both ways. */
  ghost predicate TurnCounts<T>(script: seq<Act<T>>, i: nat, j: nat, s: nat, r: nat) {
    var there, back := if s < i || (s == i && r < j) then 1 else 0, if r < i || (r == i && s < j) then 1 else 0;
    && |Sent(script, s, r)| == there == Receives(script, s, r)
    && |Sent(script, r, s)| == back == Receives(script, r, s)
  }

  lemma OneMoreTurn<T>(script: seq<Act<T>>, i: nat, j: nat, x: T, s: nat, r: nat)
    requires TurnCounts(script, i, j, s, r) && Asks(script, s, r) && s < r && i != j
    ensures var script' := script + [Send(i, j, x)] + [Recv(i, j)];
            TurnCounts(script', i, j + 1, s, r) && Asks(script', s, r)
  {
    var mid := script + [Send(i, j, x)];
    OneMoreAct(script, Send(i, j, x), s, r);
    OneMoreAct(script, Send(i, j, x), r, s);
    OneMoreAct(mid, Recv(i, j), s, r);
    OneMoreAct(mid, Recv(i, j), r, s);
    AsksNext(script, Send(i, j, x), s, r);
    AsksNext(mid, Recv(i, j), s, r);
  }

  ghost predicate TurnsOk<T>(xs: seq<T>, i: nat, j: nat, s: nat, r: nat)
    requires i <= |xs| && j <= |xs| && (j > 0 ==> i < |xs|)
  {
    var script := Script(Messages(xs, i, j));
    TurnCounts(script, i, j, s, r) && Asks(script, s, r)
  }

  lemma TurnsNext<T>(xs: seq<T>, i: nat, j: nat, s: nat, r: nat)
    requires i < |xs| && j < |xs| && s < r < |xs| && TurnsOk(xs, i, j, s, r)
    ensures TurnsOk(xs, i, j + 1, s, r)
  {
    MessagesNext(xs, i, j);
    if i == j {
      assert Messages(xs, i, j) + [] == Messages(xs, i, j);
    } else {
      ScriptSnoc(Messages(xs, i, j), Message(i, j, xs[i]));
      OneMoreTurn(Script(Messages(xs, i, j)), i, j, xs[i], s, r);
    }
  }

  lemma ScriptSnoc<T>(messages: seq<Message<T>>, m: Message<T>)
    ensures Script(messages + [m]) == Script(messages) + [Send(m.src, m.dst, m.data)] + [Recv(m.src, m.dst)]
  {
    assert (messages + [m])[..|messages|] == messages;
    var send, recv := [Send(m.src, m.dst, m.data)], [Recv(m.src, m.dst)];
    Regrouped(Script(messages), send, recv);
    assert send + recv == [Send(m.src, m.dst, m.data), Recv(m.src, m.dst)];
  }

  lemma TurnsOfSender<T>(xs: seq<T>, i: nat, s: nat, r: nat)
    requires i < |xs| && s < r < |xs| && TurnsOk(xs, i, 0, s, r)
    ensures TurnsOk(xs, i + 1, 0, s, r)
  {
    var n := |xs|;
    var ok := (j: nat) => j <= n && TurnsOk(xs, i, j, s, r);
    forall j: nat | j < n && ok(j) ensures ok(j + 1) { TurnsNext(xs, i, j, s, r); }
    Climb(ok, 0, n);
  }

  lemma AsksNothing<T>(s: nat, r: nat)
    ensures Asks<T>([], s, r)
  {
    var nothing: seq<Act<T>> := [];
    forall k | 0 <= k <= |nothing| ensures InTurn(nothing[..k], s, r) { assert nothing[..k] == nothing; }
  }

  lemma TurnsStart<T>(xs: seq<T>, s: nat, r: nat)
    requires s < r < |xs|
    ensures TurnsOk(xs, 0, 0, s, r)
  {
    assert Messages(xs, 0, 0) == [] && Script<T>([]) == [];
    AsksNothing<T>(s, r);
  }

  lemma TurnsInAll<T>(xs: seq<T>, s: nat, r: nat)
    requires s < r < |xs|
    ensures TurnsOk(xs, |xs|, 0, s, r)
  {
    var n := |xs|;
    var ok := (i: nat) => i <= n && TurnsOk(xs, i, 0, s, r);
    TurnsStart(xs, s, r);
    forall i: nat | i < n && ok(i) ensures ok(i + 1) { TurnsOfSender(xs, i, s, r); }
    Climb(ok, 0, n);
  }

  function TurnCalls<T>(xss: seq<seq<T>>): seq<seq<Act<T>>> {
    seq(|xss|, k requires 0 <= k < |xss| => Script(AllMessages(xss[k])))
  }

  /** What the coordinators do in a sequence of exchanges of groups: for each, what ExchangeGroups does. */
  ghost function RepeatedTurns<T>(xss: seq<seq<T>>, n: nat): seq<seq<Op<T>>>
    requires Rows(xss, n)
  {
    seq(n, p requires 0 <= p < n && Rows(xss, n) => Flatten(TurnsOf(xss, n, p)))
  }

  ghost function TurnsOf<T>(xss: seq<seq<T>>, n: nat, p: nat): seq<seq<Op<T>>>
    requires Rows(xss, n) && p < n
  {
    seq(|xss|, k requires 0 <= k < |xss| && Rows(xss, n) => TurnOps(p, xss[k][p], n, n))
  }

  lemma TurnsOfIsPart<T>(xss: seq<seq<T>>, n: nat, p: nat)
    requires Rows(xss, n) && p < n
    ensures TurnsOf(xss, n, p) == PartOf(TurnCalls(xss), p)
  {
    forall k | 0 <= k < |xss| ensures TurnsOf(xss, n, p)[k] == PartOf(TurnCalls(xss), p)[k] {
      TurnsAreParts(xss[k]);
      ScriptShape(AllMessages(xss[k]), n);
      assert TurnPrograms(xss[k])[p] == Parts(AllMessages(xss[k]), p);
    }
  }

  lemma TurnsAreSuccessive<T>(xss: seq<seq<T>>, n: nat)
    requires Rows(xss, n)
    ensures AreCalls(TurnCalls(xss), n) && RepeatedTurns(xss, n) == Successive(TurnCalls(xss), n)
  {
    forall k | 0 <= k < |xss| ensures IsCall(TurnCalls(xss)[k], n) {
      TurnsAreParts(xss[k]);
      MessagesAreCall(AllMessages(xss[k]), n);
    }
    forall p | 0 <= p < n ensures TurnsOf(xss, n, p) == PartOf(TurnCalls(xss), p) { TurnsOfIsPart(xss, n, p); }
  }

  lemma TurnsAreCalm<T>(xss: seq<seq<T>>, n: nat)
    requires Rows(xss, n)
    ensures Calm(Flatten(TurnCalls(xss)))
  {
    var script := Flatten(TurnCalls(xss));
    TurnsAreSuccessive(xss, n);
    CallsAreCall(TurnCalls(xss), n);
    forall s: nat, r: nat ensures |Sent(script, s, r)| <= 1 || Asks(script, s, r) || Asks(script, r, s) {
      if s < r < n {
        TurnsAsk(xss, n, s, r);
      } else if r < s < n {
        TurnsAsk(xss, n, r, s);
      } else {
        NoneSent(script, n, s, r);
      }
    }
  }

  lemma TurnsAsk<T>(xss: seq<seq<T>>, n: nat, s: nat, r: nat)
    requires Rows(xss, n) && s < r < n
    ensures Asks(Flatten(TurnCalls(xss)), s, r)
  {
    forall k | 0 <= k < |xss| ensures Asks(TurnCalls(xss)[k], s, r) && Even(TurnCalls(xss)[k], s, r) {
      TurnsInAll(xss[k], s, r);
    }
    AsksInCalls(TurnCalls(xss), s, r);
  }

  lemma {:induction false} TurnsSendDue<T>(xss: seq<seq<T>>, n: nat, s: nat, r: nat)
    requires Rows(xss, n) && s < n && r < n && s != r
    ensures Flatten(SentIn(TurnCalls(xss), s, r)) == Due(xss, s)
  {
    if xss != [] {
      TurnsSendDue(xss[1..], n, s, r);
      TurnsAreParts(xss[0]);
      ScriptShape(AllMessages(xss[0]), n);
      BetweenInAll(xss[0], s, r);
      assert SentIn(TurnCalls(xss), s, r)[1..] == SentIn(TurnCalls(xss[1..]), s, r);
      assert Due(xss, s) == [xss[0][s]] + Due(xss[1..], s);
    }
  }

  /**
   Coordinators that take turns, as in Allgatherv, get the right data in any number of calls, even
   over channels that do not keep order; and all of it once they have finished.
   */
  lemma TurnsAlwaysRight<T>(xss: seq<seq<T>>, n: nat, moves: seq<Move>, st: State<T>)
    requires Rows(xss, n) && Leads(Start(RepeatedTurns(xss, n)), moves, st)
    ensures RightSoFar(xss, n, st)
    ensures Finished(st) ==> forall s, r :: 0 <= s < n && 0 <= r < n && s != r ==> At(st.got, s, r) == Due(xss, s)
  {
    var script := Flatten(TurnCalls(xss));
    TurnsAreSuccessive(xss, n);
    SuccessiveIsProjected(TurnCalls(xss), n);
    TurnsAreCalm(xss, n);
    var cur := StartInv(script, RepeatedTurns(xss, n));
    var steps := CalmIsOrdered(script, Start(RepeatedTurns(xss, n)), cur, moves, st);
    forall s, r | 0 <= s < n && 0 <= r < n && s != r
      ensures At(st.got, s, r) <= Due(xss, s) && (Finished(st) ==> At(st.got, s, r) == Due(xss, s))
    {
      CallsDeliver(TurnCalls(xss), n, steps, st, s, r);
      TurnsSendDue(xss, n, s, r);
    }
  }
}
