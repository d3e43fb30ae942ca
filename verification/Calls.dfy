/**
 Collective operations called one after the other: every process carries out its part of each
 call in turn, and nothing separates the calls but the order of the messages per pair.
 */
module Calls {
  import opened Common
  import opened Choreography
  import opened Reduction
  import opened Clusters
  import opened Broadcasts
  import WideReduce

  // ---- any sequence of calls ----

  /** A script in which every message that is sent is received. */
  ghost predicate Balanced<T>(script: seq<Act<T>>) {
    forall s, r :: Receives(script, s, r) == |Sent(script, s, r)|
  }

  /** The script of a call among n processes. */
  ghost predicate IsCall<T>(script: seq<Act<T>>, n: nat) { Among(script, n) && Causal(script) && Balanced(script) }

  ghost predicate AreCalls<T>(calls: seq<seq<Act<T>>>, n: nat) {
    forall k :: 0 <= k < |calls| ==> IsCall(calls[k], n)
  }

  /** A call whose messages are received right after they are sent, as in the loops over pairs of ranks. */
  lemma MessagesAreCall<T>(messages: seq<Message<T>>, n: nat)
    requires Addressed(messages, n)
    ensures IsCall(Script(messages), n) && Tight(Script(messages))
  {
    var script := Script(messages);
    ScriptShape(messages, n);
    TightCausal(script);
    forall s, r ensures Receives(script, s, r) == |Sent(script, s, r)| {
      TightCounts(script, |script| / 2, s, r);
      assert script[..|script|] == script;
    }
  }

  /** A call in which everyone sends first. */
  lemma EagerIsCall<T>(xs: seq<T>)
    ensures IsCall(SendsFirst(AllMessages(xs)), |xs|)
  {
    var messages := AllMessages(xs);
    EagerIsProjected(xs);
    forall s, r ensures Receives(SendsFirst(messages), s, r) == |Sent(SendsFirst(messages), s, r)| {
      CountsConcat(Sends(messages), Recvs(messages), s, r);
      SendsAlone(messages, s, r);
      RecvsAlone(messages, s, r);
    }
  }

  lemma TwoCalls<T>(a: seq<Act<T>>, b: seq<Act<T>>, n: nat)
    requires IsCall(a, n) && IsCall(b, n)
    ensures IsCall(a + b, n)
  {
    forall s, r ensures Receives(a + b, s, r) == |Sent(a + b, s, r)| {
      CountsConcat(a, b, s, r);
      assert Receives(a, s, r) == |Sent(a, s, r)| && Receives(b, s, r) == |Sent(b, s, r)|;
    }
    forall k, s, r | 0 <= k <= |a + b| ensures Receives((a + b)[..k], s, r) <= |Sent((a + b)[..k], s, r)| {
      CausalAt(a, b, k, s, r);
    }
  }

  lemma CausalAt<T>(a: seq<Act<T>>, b: seq<Act<T>>, k: nat, s: nat, r: nat)
    requires Causal(a) && Balanced(a) && Causal(b) && k <= |a| + |b|
    ensures Receives((a + b)[..k], s, r) <= |Sent((a + b)[..k], s, r)|
  {
    if k <= |a| {
      assert (a + b)[..k] == a[..k];
    } else {
      assert (a + b)[..k] == a + b[..k - |a|];
      CountsConcat(a, b[..k - |a|], s, r);
      assert Receives(a, s, r) == |Sent(a, s, r)|;
    }
  }

  lemma NoCall<T>(n: nat)
    ensures IsCall<T>([], n)
  {}

  lemma {:induction false} CallsAreCall<T>(calls: seq<seq<Act<T>>>, n: nat)
    requires AreCalls(calls, n)
    ensures IsCall(Flatten(calls), n)
  {
    if calls == [] {
      NoCall<T>(n);
    } else {
      CallsAreCall(calls[1..], n);
      TwoCalls(calls[0], Flatten(calls[1..]), n);
    }
  }

  /** What p does in each call, and what s sends to r in each. */
  function PartOf<T>(calls: seq<seq<Act<T>>>, p: nat): seq<seq<Op<T>>> {
    seq(|calls|, k requires 0 <= k < |calls| => Program(calls[k], p))
  }

  function SentIn<T>(calls: seq<seq<Act<T>>>, s: nat, r: nat): seq<seq<T>> {
    seq(|calls|, k requires 0 <= k < |calls| => Sent(calls[k], s, r))
  }

  lemma {:induction false} ProgramOfCalls<T>(calls: seq<seq<Act<T>>>, p: nat)
    ensures Program(Flatten(calls), p) == Flatten(PartOf(calls, p))
  {
    if calls != [] {
      ProgramOfCalls(calls[1..], p);
      ProgramConcat(calls[0], Flatten(calls[1..]), p);
      assert PartOf(calls, p)[1..] == PartOf(calls[1..], p);
    }
  }

  lemma {:induction false} SentInCalls<T>(calls: seq<seq<Act<T>>>, s: nat, r: nat)
    ensures Sent(Flatten(calls), s, r) == Flatten(SentIn(calls, s, r))
  {
    if calls != [] {
      SentInCalls(calls[1..], s, r);
      CountsConcat(calls[0], Flatten(calls[1..]), s, r);
      assert SentIn(calls, s, r)[1..] == SentIn(calls[1..], s, r);
    }
  }

  /** Every process carries out its part of one call after the other. */
  function Successive<T>(calls: seq<seq<Act<T>>>, n: nat): seq<seq<Op<T>>> {
    seq(n, p requires p >= 0 => Flatten(PartOf(calls, p)))
  }

  lemma SuccessiveIsProjected<T>(calls: seq<seq<Act<T>>>, n: nat)
    requires AreCalls(calls, n)
    ensures Projected(Flatten(calls), Successive(calls, n))
  {
    CallsAreCall(calls, n);
    forall p | 0 <= p < n ensures Successive(calls, n)[p] == Program(Flatten(calls), p) { ProgramOfCalls(calls, p); }
  }

  /** Any sequence of calls completes if sends are buffered: it never gets stuck, and every run ends. */
  lemma CallsComplete<T>(calls: seq<seq<Act<T>>>, n: nat, steps: seq<Step>, st: State<T>)
    requires AreCalls(calls, n) && Reaches(Start(Successive(calls, n)), steps, st)
    ensures |steps| <= Left(Successive(calls, n))
    ensures !Finished(st) ==> exists step :: Enabled(st, step) && !step.Meet?
  {
    CallsAreCall(calls, n);
    SuccessiveIsProjected(calls, n);
    RunsEnd(Start(Successive(calls, n)), steps, st);
    if !Finished(st) { BufferedProgress(Flatten(calls), Successive(calls, n), steps, st); }
  }

  lemma TightThenTight<T>(a: seq<Act<T>>, b: seq<Act<T>>)
    requires Tight(a) && Tight(b)
    ensures Tight(a + b)
  {
    var ab := a + b;
    forall i | 0 <= i < |ab| / 2 ensures ab[2 * i].Send? && ab[2 * i + 1] == Recv(ab[2 * i].src, ab[2 * i].dst) {
      if i < |a| / 2 {
        assert a[2 * i].Send? && a[2 * i + 1] == Recv(a[2 * i].src, a[2 * i].dst);
      } else {
        var j := i - |a| / 2;
        assert ab[2 * i] == b[2 * j] && ab[2 * i + 1] == b[2 * j + 1];
        assert b[2 * j].Send? && b[2 * j + 1] == Recv(b[2 * j].src, b[2 * j].dst);
      }
    }
  }

  lemma {:induction false} TightCalls<T>(calls: seq<seq<Act<T>>>)
    requires forall k :: 0 <= k < |calls| ==> Tight(calls[k])
    ensures Tight(Flatten(calls))
  {
    if calls != [] {
      TightCalls(calls[1..]);
      TightThenTight(calls[0], Flatten(calls[1..]));
    }
  }

  /** If every call goes by immediate pairs, no buffering is needed either. */
  lemma TightCallsComplete<T>(calls: seq<seq<Act<T>>>, n: nat, steps: seq<Step>, st: State<T>)
    requires AreCalls(calls, n) && forall k :: 0 <= k < |calls| ==> Tight(calls[k])
    requires Reaches(Start(Successive(calls, n)), steps, st) && !Finished(st)
    ensures exists step :: Enabled(st, step) && !step.Post?
  {
    TightCalls(calls);
    SuccessiveIsProjected(calls, n);
    RendezvousProgress(Flatten(calls), Successive(calls, n), steps, st);
  }

  /** In every state of every run, what r has got from s is a prefix of what the script says s sends to r. */
  lemma GotIsPrefix<T>(script: seq<Act<T>>, programs: seq<seq<Op<T>>>, steps: seq<Step>, st: State<T>, s: nat, r: nat)
    requires Projected(script, programs) && Reaches(Start(programs), steps, st) && s < |programs| && r < |programs|
    ensures At(st.got, s, r) <= Sent(script, s, r)
  {
    var cur := StartInv(script, programs);
    RunKeepsSize(Start(programs), steps, st);
    cur := RunKeepsInv(script, Start(programs), steps, st, cur);
    assert AtPoint(script, st.todo[s], s, cur[s]) && AtPoint(script, st.todo[r], r, cur[r]);
    assert PairAt(script, st, s, r, cur[s], cur[r]);
    SentIsPrefix(script, cur[s], s, r);
    PrefixOfPrefix(At(st.got, s, r), At(st.chan, s, r), Sent(script, s, r));
  }

  lemma SentIsPrefix<T>(script: seq<Act<T>>, i: nat, s: nat, r: nat)
    requires i <= |script|
    ensures Sent(script[..i], s, r) <= Sent(script, s, r)
  {
    CountsConcat(script[..i], script[i..], s, r);
    assert script[..i] + script[i..] == script;
  }

  lemma PrefixOfPrefix<T>(a: seq<T>, b: seq<T>, c: seq<T>)
    requires a + b <= c
    ensures a <= c
  {}

  /**
   Whatever the calls, in every state of every run r has got from s, in order, the data of the
   first call, then that of the second, and so on; and all of it once the run has ended.
   */
  lemma CallsDeliver<T>(calls: seq<seq<Act<T>>>, n: nat, steps: seq<Step>, st: State<T>, s: nat, r: nat)
    requires AreCalls(calls, n) && Reaches(Start(Successive(calls, n)), steps, st) && s < n && r < n
    ensures At(st.got, s, r) <= Flatten(SentIn(calls, s, r))
    ensures Finished(st) ==> At(st.got, s, r) == Flatten(SentIn(calls, s, r)) && At(st.chan, s, r) == []
  {
    var script, programs := Flatten(calls), Successive(calls, n);
    CallsAreCall(calls, n);
    SuccessiveIsProjected(calls, n);
    SentInCalls(calls, s, r);
    GotIsPrefix(script, programs, steps, st, s, r);
    if Finished(st) {
      assert Receives(script, s, r) == |Sent(script, s, r)|;
      Delivered(script, programs, steps, st, s, r);
    }
  }

  // ---- Allreduce again and again ----

  /** xss[k][i]: what coordinator i contributes to call k. */
  ghost predicate Rows<T>(xss: seq<seq<T>>, n: nat) { forall k :: 0 <= k < |xss| ==> |xss[k]| == n }

  function EagerCalls<T>(xss: seq<seq<T>>): seq<seq<Act<T>>> {
    seq(|xss|, k requires 0 <= k < |xss| => SendsFirst(AllMessages(xss[k])))
  }

  /** What the coordinators do in all calls: for each, what WaAllreduce does. */
  ghost function Repeated<T>(xss: seq<seq<T>>, n: nat): seq<seq<Op<T>>>
    requires Rows(xss, n)
  {
    seq(n, p requires 0 <= p < n && Rows(xss, n) => Flatten(OpsOf(xss, n, p)))
  }

  ghost function OpsOf<T>(xss: seq<seq<T>>, n: nat, p: nat): seq<seq<Op<T>>>
    requires Rows(xss, n) && p < n
  {
    seq(|xss|, k requires 0 <= k < |xss| && Rows(xss, n) => BcastOps(p, xss[k][p], n) + ReceiveOps(p, n))
  }

  lemma RepeatedIsSuccessive<T>(xss: seq<seq<T>>, n: nat)
    requires Rows(xss, n)
    ensures AreCalls(EagerCalls(xss), n) && Repeated(xss, n) == Successive(EagerCalls(xss), n)
  {
    forall k | 0 <= k < |xss| ensures IsCall(EagerCalls(xss)[k], n) { EagerIsCall(xss[k]); }
    forall p | 0 <= p < n ensures OpsOf(xss, n, p) == PartOf(EagerCalls(xss), p) { OpsOfIsPart(xss, n, p); }
  }

  lemma OpsOfIsPart<T>(xss: seq<seq<T>>, n: nat, p: nat)
    requires Rows(xss, n) && p < n
    ensures OpsOf(xss, n, p) == PartOf(EagerCalls(xss), p)
  {
    forall k | 0 <= k < |xss| ensures OpsOf(xss, n, p)[k] == PartOf(EagerCalls(xss), p)[k] {
      EagerIsProjected(xss[k]);
      assert EagerPrograms(xss[k])[p] == Program(EagerCalls(xss)[k], p);
    }
  }

  /** What r should get from s: one value per call. */
  function Due<T>(xss: seq<seq<T>>, s: nat): seq<T>
    requires forall k :: 0 <= k < |xss| ==> s < |xss[k]|
  {
    seq(|xss|, k requires 0 <= k < |xss| && s < |xss[k]| => xss[k][s])
  }

  lemma {:induction false} EagerSendsDue<T>(xss: seq<seq<T>>, n: nat, s: nat, r: nat)
    requires Rows(xss, n) && s < n && r < n && s != r
    ensures Flatten(SentIn(EagerCalls(xss), s, r)) == Due(xss, s)
  {
    if xss != [] {
      EagerSendsDue(xss[1..], n, s, r);
      SentOnce(xss[0], s, r);
      assert SentIn(EagerCalls(xss), s, r)[1..] == SentIn(EagerCalls(xss[1..]), s, r);
      assert Due(xss, s) == [xss[0][s]] + Due(xss[1..], s);
    }
  }

  lemma SentOnce<T>(xs: seq<T>, s: nat, r: nat)
    requires s < |xs| && r < |xs| && s != r
    ensures Sent(SendsFirst(AllMessages(xs)), s, r) == [xs[s]]
  {
    var messages := AllMessages(xs);
    CountsConcat(Sends(messages), Recvs(messages), s, r);
    SendsAlone(messages, s, r);
    RecvsAlone(messages, s, r);
    BetweenInAll(xs, s, r);
    assert [xs[s]] + [] == [xs[s]];
  }

  /**
   Over channels that keep order, in any sequence of Allreduce calls every coordinator ends up with
   the result of each call. incomings[c][i] is what the receive from coordinator i delivers in call c.
   */
  lemma AllreducesDeliver<T(!new)>(op: (T, T) -> T, clusterOf: seq<nat>, clusters: nat, xss: seq<seq<T>>,
                                   partials: seq<seq<T>>, steps: seq<Step>, st: State<T>, k: nat,
                                   incomings: seq<seq<T>>, c: nat)
    requires Associative(op) && Commutative(op) && Populated(clusterOf, clusters) && |clusterOf| > 0 && k < clusters
    requires Rows(xss, |clusterOf|) && |partials| == |xss| == |incomings| && Rows(incomings, clusters) && c < |xss|
    requires forall j :: 0 <= j < |xss| ==> partials[j] == WideReduce.Partials(op, clusterOf, clusters, xss[j])
    requires Rows(partials, clusters)
    requires Reaches(Start(Repeated(partials, clusters)), steps, st) && Finished(st)
    requires forall i :: 0 <= i < clusters && i != k ==> At(st.got, i, k) == Due(incomings, i)
    ensures WideReduce.MergeOthers(op, incomings[c][k := partials[c][k]], k, clusters) == Fold(op, xss[c])
  {
    forall i | 0 <= i < clusters && i != k ensures incomings[c][i] == partials[c][i] {
      RepeatedIsSuccessive(partials, clusters);
      CallsDeliver(EagerCalls(partials), clusters, steps, st, i, k);
      EagerSendsDue(partials, clusters, i, k);
      assert Due(incomings, i)[c] == Due(partials, i)[c];
    }
    assert incomings[c][k := partials[c][k]] == partials[c];
    WideReduce.ReducesAll(op, clusterOf, clusters, xss[c], k);
  }
}
