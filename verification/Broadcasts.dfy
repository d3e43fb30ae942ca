/**
 The coordinators of n clusters broadcast one value each to all others. Taking turns (as
 Allgatherv does) needs no buffering; everyone broadcasting first (as Allreduce does) needs it.
 */
module Broadcasts {
  import opened Common
  import opened Choreography

  /** The sends of a broadcast by me to the coordinators below j. */
  function BcastOps<T>(me: nat, own: T, j: nat): seq<Op<T>> {
    if j == 0 then []
    else if j - 1 == me then BcastOps(me, own, j - 1)
    else BcastOps(me, own, j - 1) + [SendTo(j - 1, own)]
  }

  /** messaging_bcast: ops records the sends in the order they are made. */
  method MessagingBcast<T>(me: nat, n: nat, own: T) returns (ops: seq<Op<T>>)
    ensures ops == BcastOps(me, own, n)
  {
    ops := [];
    for i := 0 to n
      invariant ops == BcastOps(me, own, i)
    {
      if i != me { ops := ops + [SendTo(i, own)]; }
    }
  }

  /** The first i turns: in its own turn me broadcasts, in all others it receives. */
  function TurnOps<T>(me: nat, own: T, n: nat, i: nat): seq<Op<T>> {
    if i == 0 then []
    else TurnOps(me, own, n, i - 1) + (if i - 1 == me then BcastOps(me, own, n) else [RecvFrom(i - 1)])
  }

  // ---- the messages of all ----

  /** What the senders below i send, and what sender i sends to the receivers below j. */
  function Messages<T>(xs: seq<T>, i: nat, j: nat): seq<Message<T>>
    requires i <= |xs| && j <= |xs| && (j > 0 ==> i < |xs|)
    decreases i, j
  {
    if j == 0 then (if i == 0 then [] else Messages(xs, i - 1, |xs|))
    else if j - 1 == i then Messages(xs, i, j - 1)
    else Messages(xs, i, j - 1) + [Message(i, j - 1, xs[i])]
  }

  function AllMessages<T>(xs: seq<T>): seq<Message<T>> { Messages(xs, |xs|, 0) }

  lemma {:induction false} MessagesAddressed<T>(xs: seq<T>, i: nat, j: nat)
    requires i <= |xs| && j <= |xs| && (j > 0 ==> i < |xs|)
    ensures Addressed(Messages(xs, i, j), |xs|)
    decreases i, j
  {
    if j > 0 { MessagesAddressed(xs, i, j - 1); } else if i > 0 { MessagesAddressed(xs, i - 1, |xs|); }
  }

  /** What s has sent to r by then. */
  function Carried<T>(x: T, i: nat, j: nat, s: nat, r: nat): seq<T> {
    if s != r && (s < i || (s == i && r < j)) then [x] else []
  }

  ghost predicate BetweenOk<T>(xs: seq<T>, i: nat, j: nat, s: nat, r: nat)
    requires i <= |xs| && j <= |xs| && (j > 0 ==> i < |xs|) && s < |xs| && r < |xs|
  {
    Between(Messages(xs, i, j), s, r) == Carried(xs[s], i, j, s, r)
  }

  lemma BetweenNext<T>(xs: seq<T>, i: nat, j: nat, s: nat, r: nat)
    requires i < |xs| && j < |xs| && s < |xs| && r < |xs| && BetweenOk(xs, i, j, s, r)
    ensures BetweenOk(xs, i, j + 1, s, r)
  {
    if j != i { OneMoreMessage(Messages(xs, i, j), Message(i, j, xs[i]), 0, s, r); }
  }

  lemma BetweenForSender<T>(xs: seq<T>, i: nat, s: nat, r: nat)
    requires i < |xs| && s < |xs| && r < |xs| && BetweenOk(xs, i, 0, s, r)
    ensures BetweenOk(xs, i, |xs|, s, r)
  {
    var n := |xs|;
    var ok := (j: nat) => j <= n && BetweenOk(xs, i, j, s, r);
    forall j: nat | j < n && ok(j) ensures ok(j + 1) { BetweenNext(xs, i, j, s, r); }
    Climb(ok, 0, n);
  }

  lemma BetweenNextSender<T>(xs: seq<T>, i: nat, s: nat, r: nat)
    requires i < |xs| && s < |xs| && r < |xs| && BetweenOk(xs, i, |xs|, s, r)
    ensures BetweenOk(xs, i + 1, 0, s, r)
  {}

  lemma BetweenOfSender<T>(xs: seq<T>, i: nat, s: nat, r: nat)
    requires i < |xs| && s < |xs| && r < |xs| && BetweenOk(xs, i, 0, s, r)
    ensures BetweenOk(xs, i + 1, 0, s, r)
  {
    BetweenForSender(xs, i, s, r);
    BetweenNextSender(xs, i, s, r);
  }

  lemma BetweenInAll<T>(xs: seq<T>, s: nat, r: nat)
    requires s < |xs| && r < |xs|
    ensures BetweenOk(xs, |xs|, 0, s, r)
  {
    var n := |xs|;
    var ok := (i: nat) => i <= n && BetweenOk(xs, i, 0, s, r);
    forall i: nat | i < n && ok(i) ensures ok(i + 1) { BetweenOfSender(xs, i, s, r); }
    Climb(ok, 0, n);
  }

  // ---- taking turns ----

  /** What p does in turn i for the receivers below j. */
  function TurnPart<T>(xs: seq<T>, i: nat, j: nat, p: nat): seq<Op<T>>
    requires p < |xs|
  {
    if i == p then BcastOps(p, xs[p], j) else if p < j then [RecvFrom(i)] else []
  }

  ghost predicate PartsOk<T>(xs: seq<T>, i: nat, j: nat, p: nat)
    requires i <= |xs| && j <= |xs| && (j > 0 ==> i < |xs|) && p < |xs|
  {
    Parts(Messages(xs, i, j), p) == TurnOps(p, xs[p], |xs|, i) + TurnPart(xs, i, j, p)
  }

  lemma PartsNext<T>(xs: seq<T>, i: nat, j: nat, p: nat)
    requires i < |xs| && j < |xs| && p < |xs| && PartsOk(xs, i, j, p)
    ensures PartsOk(xs, i, j + 1, p)
  {
    if j != i { OneMoreMessage(Messages(xs, i, j), Message(i, j, xs[i]), p, 0, 0); }
  }

  lemma PartsForSender<T>(xs: seq<T>, i: nat, p: nat)
    requires i < |xs| && p < |xs| && PartsOk(xs, i, 0, p)
    ensures PartsOk(xs, i, |xs|, p)
  {
    var n := |xs|;
    var ok := (j: nat) => j <= n && PartsOk(xs, i, j, p);
    forall j: nat | j < n && ok(j) ensures ok(j + 1) { PartsNext(xs, i, j, p); }
    Climb(ok, 0, n);
  }

  lemma PartsNextSender<T>(xs: seq<T>, i: nat, p: nat)
    requires i < |xs| && p < |xs| && PartsOk(xs, i, |xs|, p)
    ensures PartsOk(xs, i + 1, 0, p)
  {}

  lemma PartsOfSender<T>(xs: seq<T>, i: nat, p: nat)
    requires i < |xs| && p < |xs| && PartsOk(xs, i, 0, p)
    ensures PartsOk(xs, i + 1, 0, p)
  {
    PartsForSender(xs, i, p);
    PartsNextSender(xs, i, p);
  }

  lemma PartsInAll<T>(xs: seq<T>, p: nat)
    requires p < |xs|
    ensures PartsOk(xs, |xs|, 0, p)
  {
    var n := |xs|;
    var ok := (i: nat) => i <= n && PartsOk(xs, i, 0, p);
    forall i: nat | i < n && ok(i) ensures ok(i + 1) { PartsOfSender(xs, i, p); }
    Climb(ok, 0, n);
  }

  ghost function TurnPrograms<T>(xs: seq<T>): seq<seq<Op<T>>> {
    seq(|xs|, p requires 0 <= p < |xs| => TurnOps(p, xs[p], |xs|, |xs|))
  }

  lemma TurnsAreParts<T>(xs: seq<T>)
    ensures Addressed(AllMessages(xs), |xs|)
    ensures forall p :: 0 <= p < |xs| ==> TurnPrograms(xs)[p] == Parts(AllMessages(xs), p)
  {
    MessagesAddressed(xs, |xs|, 0);
    forall p | 0 <= p < |xs| ensures TurnPrograms(xs)[p] == Parts(AllMessages(xs), p) {
      PartsInAll(xs, p);
    }
  }

  /** Taking turns never deadlocks, even if every send is a rendezvous, and every run ends. */
  lemma TurnsComplete<T>(xs: seq<T>, steps: seq<Step>, st: State<T>)
    requires Reaches(Start(TurnPrograms(xs)), steps, st)
    ensures |steps| <= Left(TurnPrograms(xs))
    ensures !Finished(st) ==> exists step :: Enabled(st, step) && !step.Post?
  {
    TurnsAreParts(xs);
    MessagesComplete(AllMessages(xs), TurnPrograms(xs), steps, st);
  }

  /** In the end everyone has the value of everyone else, exactly once. */
  lemma TurnsDeliver<T>(xs: seq<T>, steps: seq<Step>, st: State<T>, s: nat, r: nat)
    requires Reaches(Start(TurnPrograms(xs)), steps, st) && Finished(st) && s < |xs| && r < |xs| && s != r
    ensures At(st.got, s, r) == [xs[s]] && At(st.chan, s, r) == []
  {
    TurnsAreParts(xs);
    MessagesDelivered(AllMessages(xs), TurnPrograms(xs), steps, st, s, r);
    BetweenInAll(xs, s, r);
  }

  // ---- everyone broadcasts first ----

  /** All sends of a list of messages, and all its receives. */
  function Sends<T>(messages: seq<Message<T>>): seq<Act<T>> {
    seq(|messages|, i requires 0 <= i < |messages| => Send(messages[i].src, messages[i].dst, messages[i].data))
  }

  function Recvs<T>(messages: seq<Message<T>>): seq<Act<T>> {
    seq(|messages|, i requires 0 <= i < |messages| => Recv(messages[i].src, messages[i].dst))
  }

  lemma {:induction false} SendsAlone<T>(messages: seq<Message<T>>, s: nat, r: nat)
    ensures Sent(Sends(messages), s, r) == Between(messages, s, r) && Receives(Sends(messages), s, r) == 0
  {
    if messages != [] {
      var n := |messages| - 1;
      assert Sends(messages)[..n] == Sends(messages[..n]);
      SendsAlone(messages[..n], s, r);
    }
  }

  lemma {:induction false} RecvsAlone<T>(messages: seq<Message<T>>, s: nat, r: nat)
    ensures |Between(messages, s, r)| == Receives(Recvs(messages), s, r) && Sent(Recvs(messages), s, r) == []
  {
    if messages != [] {
      var n := |messages| - 1;
      assert Recvs(messages)[..n] == Recvs(messages[..n]);
      RecvsAlone(messages[..n], s, r);
    }
  }

  lemma OneMoreAct<T>(script: seq<Act<T>>, act: Act<T>, s: nat, r: nat)
    ensures Sent(script + [act], s, r) == Sent(script, s, r) + SentBy(act, s, r)
    ensures Receives(script + [act], s, r) == Receives(script, s, r) + ReceivedBy(act, s, r)
  {
    assert (script + [act])[..|script|] == script;
  }

  ghost predicate CountsAdd<T>(a: seq<Act<T>>, b: seq<Act<T>>, s: nat, r: nat) {
    && Sent(a + b, s, r) == Sent(a, s, r) + Sent(b, s, r)
    && Receives(a + b, s, r) == Receives(a, s, r) + Receives(b, s, r)
  }

  lemma Regrouped<T>(x: seq<T>, y: seq<T>, z: seq<T>)
    ensures x + y + z == x + (y + z)
  {}

  lemma CountsAddOne<T>(a: seq<Act<T>>, b: seq<Act<T>>, act: Act<T>, s: nat, r: nat)
    requires CountsAdd(a, b, s, r)
    ensures CountsAdd(a, b + [act], s, r)
  {
    OneMoreAct(a + b, act, s, r);
    OneMoreAct(b, act, s, r);
    Regrouped(a, b, [act]);
    Regrouped(Sent(a, s, r), Sent(b, s, r), SentBy(act, s, r));
  }

  lemma CountsConcat<T>(a: seq<Act<T>>, b: seq<Act<T>>, s: nat, r: nat)
    ensures CountsAdd(a, b, s, r)
  {
    var ok := (k: nat) => k <= |b| && CountsAdd(a, b[..k], s, r);
    assert a + b[..0] == a;
    forall k: nat | k < |b| && ok(k) ensures ok(k + 1) {
      CountsAddOne(a, b[..k], b[k], s, r);
      assert b[..k + 1] == b[..k] + [b[k]];
    }
    Climb(ok, 0, |b|);
    assert b[..|b|] == b;
  }

  function SendsFirst<T>(messages: seq<Message<T>>): seq<Act<T>> { Sends(messages) + Recvs(messages) }

  /** If a only sends, and sends all that b receives, then a followed by b is causal. */
  lemma ThenCausal<T>(a: seq<Act<T>>, b: seq<Act<T>>, k: nat, s: nat, r: nat)
    requires k <= |a| + |b| && Receives(a, s, r) == 0 && Receives(b, s, r) <= |Sent(a, s, r)|
    ensures Receives((a + b)[..k], s, r) <= |Sent((a + b)[..k], s, r)|
  {
    if k <= |a| {
      assert (a + b)[..k] == a[..k] && a[..|a|] == a;
      CountsGrow(a, k, |a|, s, r);
    } else {
      assert (a + b)[..k] == a + b[..k - |a|] && b[..|b|] == b;
      CountsConcat(a, b[..k - |a|], s, r);
      CountsGrow(b, k - |a|, |b|, s, r);
    }
  }

  /** The sends of p in a list of messages, and its receives. */
  function SendPart<T>(messages: seq<Message<T>>, p: nat): seq<Op<T>> {
    if messages == [] then []
    else SendPart(messages[..|messages| - 1], p) + SendOf(messages[|messages| - 1], p)
  }

  function SendOf<T>(m: Message<T>, p: nat): seq<Op<T>> { if m.src == p then [SendTo(m.dst, m.data)] else [] }

  function RecvPart<T>(messages: seq<Message<T>>, p: nat): seq<Op<T>> {
    if messages == [] then []
    else RecvPart(messages[..|messages| - 1], p) + RecvOf(messages[|messages| - 1], p)
  }

  function RecvOf<T>(m: Message<T>, p: nat): seq<Op<T>> { if m.dst == p then [RecvFrom(m.src)] else [] }

  lemma ProgramOfOne<T>(a: Act<T>, p: nat)
    ensures Program([a], p) == if Owner(a) == p then [Local(a)] else []
  {
    assert [a][1..] == [];
  }

  lemma {:induction false} SendsProgram<T>(messages: seq<Message<T>>, p: nat)
    ensures Program(Sends(messages), p) == SendPart(messages, p)
  {
    if messages != [] {
      var n := |messages| - 1;
      var a := Sends(messages);
      assert a == a[..n] + [a[n]] && a[..n] == Sends(messages[..n]);
      SendsProgram(messages[..n], p);
      ProgramConcat(a[..n], [a[n]], p);
      ProgramOfOne(a[n], p);
    }
  }

  lemma {:induction false} RecvsProgram<T>(messages: seq<Message<T>>, p: nat)
    ensures Program(Recvs(messages), p) == RecvPart(messages, p)
  {
    if messages != [] {
      var n := |messages| - 1;
      var a := Recvs(messages);
      assert a == a[..n] + [a[n]] && a[..n] == Recvs(messages[..n]);
      RecvsProgram(messages[..n], p);
      ProgramConcat(a[..n], [a[n]], p);
      ProgramOfOne(a[n], p);
    }
  }

  lemma PartNext<T>(a: seq<Message<T>>, m: Message<T>, p: nat)
    ensures SendPart(a + [m], p) == SendPart(a, p) + SendOf(m, p)
    ensures RecvPart(a + [m], p) == RecvPart(a, p) + RecvOf(m, p)
  {
    assert (a + [m])[..|a|] == a;
  }

  /** How far p has come in its broadcast. */
  function Reached(n: nat, i: nat, j: nat, p: nat): nat { if p < i then n else if p == i then j else 0 }

  /** How many senders p has had its turn to hear. */
  function Heard(i: nat, j: nat, p: nat): nat { if p < j then i + 1 else i }

  ghost predicate SendsOk<T>(xs: seq<T>, i: nat, j: nat, p: nat)
    requires i <= |xs| && j <= |xs| && (j > 0 ==> i < |xs|) && p < |xs|
  {
    SendPart(Messages(xs, i, j), p) == BcastOps(p, xs[p], Reached(|xs|, i, j, p))
  }

  ghost predicate RecvsOk<T>(xs: seq<T>, i: nat, j: nat, p: nat)
    requires i <= |xs| && j <= |xs| && (j > 0 ==> i < |xs|) && p < |xs|
  {
    RecvPart(Messages(xs, i, j), p) == ReceiveOps(p, Heard(i, j, p))
  }

  lemma BcastNext<T>(me: nat, own: T, j: nat)
    ensures BcastOps(me, own, j + 1)
            == if j == me then BcastOps(me, own, j) else BcastOps(me, own, j) + [SendTo(j, own)]
  {}

  lemma MessagesNext<T>(xs: seq<T>, i: nat, j: nat)
    requires i < |xs| && j < |xs|
    ensures Messages(xs, i, j + 1) == Messages(xs, i, j) + if j == i then [] else [Message(i, j, xs[i])]
  {
    assert Messages(xs, i, j) + [] == Messages(xs, i, j);
  }

  /** What one more message adds to the parts of p. */
  lemma PartsOfNext<T>(xs: seq<T>, i: nat, j: nat, p: nat)
    requires i < |xs| && j < |xs|
    ensures j == i ==> Messages(xs, i, j + 1) == Messages(xs, i, j)
    ensures j != i ==>
              var before, after, m := Messages(xs, i, j), Messages(xs, i, j + 1), Message(i, j, xs[i]);
              && SendPart(after, p) == SendPart(before, p) + SendOf(m, p)
              && RecvPart(after, p) == RecvPart(before, p) + RecvOf(m, p)
  {
    MessagesNext(xs, i, j);
    if j == i {
      assert Messages(xs, i, j) + [] == Messages(xs, i, j);
    } else {
      PartNext(Messages(xs, i, j), Message(i, j, xs[i]), p);
    }
  }

  lemma SendsNext<T>(xs: seq<T>, i: nat, j: nat, p: nat)
    requires i < |xs| && j < |xs| && p < |xs| && SendsOk(xs, i, j, p)
    ensures SendsOk(xs, i, j + 1, p)
  {
    PartsOfNext(xs, i, j, p);
    BcastNext(p, xs[p], j);
  }

  lemma RecvsNext<T>(xs: seq<T>, i: nat, j: nat, p: nat)
    requires i < |xs| && j < |xs| && p < |xs| && RecvsOk(xs, i, j, p)
    ensures RecvsOk(xs, i, j + 1, p)
  {
    PartsOfNext(xs, i, j, p);
    HearNext(p, i, xs[i]);
    if p == j {
      assert Heard(i, j, p) == i && Heard(i, j + 1, p) == i + 1;
    } else {
      assert Heard(i, j, p) == Heard(i, j + 1, p) && RecvOf(Message(i, j, xs[i]), p) == [];
      assert ReceiveOps<T>(p, Heard(i, j, p)) + [] == ReceiveOps(p, Heard(i, j, p));
    }
  }

  lemma HearNext<T>(me: nat, i: nat, x: T)
    ensures ReceiveOps<T>(me, i + 1) == if i == me then ReceiveOps(me, i) else ReceiveOps(me, i) + [RecvFrom(i)]
    ensures RecvOf(Message(i, me, x), me) == [RecvFrom(i)]
  {}

  lemma SendsForSender<T>(xs: seq<T>, i: nat, p: nat)
    requires i < |xs| && p < |xs| && SendsOk(xs, i, 0, p)
    ensures SendsOk(xs, i, |xs|, p)
  {
    var n := |xs|;
    var ok := (j: nat) => j <= n && SendsOk(xs, i, j, p);
    forall j: nat | j < n && ok(j) ensures ok(j + 1) { SendsNext(xs, i, j, p); }
    Climb(ok, 0, n);
  }

  lemma SendsNextSender<T>(xs: seq<T>, i: nat, p: nat)
    requires i < |xs| && p < |xs| && SendsOk(xs, i, |xs|, p)
    ensures SendsOk(xs, i + 1, 0, p)
  {}

  lemma SendsOfSender<T>(xs: seq<T>, i: nat, p: nat)
    requires i < |xs| && p < |xs| && SendsOk(xs, i, 0, p)
    ensures SendsOk(xs, i + 1, 0, p)
  {
    SendsForSender(xs, i, p);
    SendsNextSender(xs, i, p);
  }

  lemma SendsInAll<T>(xs: seq<T>, p: nat)
    requires p < |xs|
    ensures SendsOk(xs, |xs|, 0, p)
  {
    var n := |xs|;
    var ok := (i: nat) => i <= n && SendsOk(xs, i, 0, p);
    forall i: nat | i < n && ok(i) ensures ok(i + 1) { SendsOfSender(xs, i, p); }
    Climb(ok, 0, n);
  }

  lemma RecvsForSender<T>(xs: seq<T>, i: nat, p: nat)
    requires i < |xs| && p < |xs| && RecvsOk(xs, i, 0, p)
    ensures RecvsOk(xs, i, |xs|, p)
  {
    var n := |xs|;
    var ok := (j: nat) => j <= n && RecvsOk(xs, i, j, p);
    forall j: nat | j < n && ok(j) ensures ok(j + 1) { RecvsNext(xs, i, j, p); }
    Climb(ok, 0, n);
  }

  lemma RecvsNextSender<T>(xs: seq<T>, i: nat, p: nat)
    requires i < |xs| && p < |xs| && RecvsOk(xs, i, |xs|, p)
    ensures RecvsOk(xs, i + 1, 0, p)
  {}

  lemma RecvsOfSender<T>(xs: seq<T>, i: nat, p: nat)
    requires i < |xs| && p < |xs| && RecvsOk(xs, i, 0, p)
    ensures RecvsOk(xs, i + 1, 0, p)
  {
    RecvsForSender(xs, i, p);
    RecvsNextSender(xs, i, p);
  }

  lemma RecvsInAll<T>(xs: seq<T>, p: nat)
    requires p < |xs|
    ensures RecvsOk(xs, |xs|, 0, p)
  {
    var n := |xs|;
    var ok := (i: nat) => i <= n && RecvsOk(xs, i, 0, p);
    forall i: nat | i < n && ok(i) ensures ok(i + 1) { RecvsOfSender(xs, i, p); }
    Climb(ok, 0, n);
  }

  /** Everyone broadcasts, and then receives. */
  ghost function EagerPrograms<T>(xs: seq<T>): seq<seq<Op<T>>> {
    seq(|xs|, p requires 0 <= p < |xs| => BcastOps(p, xs[p], |xs|) + ReceiveOps(p, |xs|))
  }

  lemma EagerIsProjected<T>(xs: seq<T>)
    ensures var script := SendsFirst(AllMessages(xs));
            Projected(script, EagerPrograms(xs)) && Causal(script)
  {
    var messages := AllMessages(xs);
    MessagesAddressed(xs, |xs|, 0);
    var script := SendsFirst(messages);
    forall p | 0 <= p < |xs| ensures EagerPrograms(xs)[p] == Program(script, p) {
      ProgramConcat(Sends(messages), Recvs(messages), p);
      SendsProgram(messages, p);
      RecvsProgram(messages, p);
      SendsInAll(xs, p);
      RecvsInAll(xs, p);
    }
    forall k, s, r | 0 <= k <= |script| ensures Receives(script[..k], s, r) <= |Sent(script[..k], s, r)| {
      SendsAlone(messages, s, r);
      RecvsAlone(messages, s, r);
      ThenCausal(Sends(messages), Recvs(messages), k, s, r);
    }
  }

  /** With sends that are buffered, broadcasting first never deadlocks, and every run ends. */
  lemma EagerCompletes<T>(xs: seq<T>, steps: seq<Step>, st: State<T>)
    requires Reaches(Start(EagerPrograms(xs)), steps, st)
    ensures |steps| <= Left(EagerPrograms(xs))
    ensures !Finished(st) ==> exists step :: Enabled(st, step) && !step.Meet?
  {
    EagerIsProjected(xs);
    RunsEnd(Start(EagerPrograms(xs)), steps, st);
    if !Finished(st) {
      BufferedProgress(SendsFirst(AllMessages(xs)), EagerPrograms(xs), steps, st);
    }
  }

  lemma EagerDelivers<T>(xs: seq<T>, steps: seq<Step>, st: State<T>, s: nat, r: nat)
    requires Reaches(Start(EagerPrograms(xs)), steps, st) && Finished(st) && s < |xs| && r < |xs| && s != r
    ensures At(st.got, s, r) == [xs[s]] && At(st.chan, s, r) == []
  {
    var messages := AllMessages(xs);
    EagerIsProjected(xs);
    BetweenInAll(xs, s, r);
    CountsConcat(Sends(messages), Recvs(messages), s, r);
    SendsAlone(messages, s, r);
    RecvsAlone(messages, s, r);
    Delivered(SendsFirst(messages), EagerPrograms(xs), steps, st, s, r);
  }

  lemma {:induction false} FirstIsSend<T>(me: nat, own: T, n: nat)
    requires n >= 2
    ensures BcastOps(me, own, n) != [] && BcastOps(me, own, n)[0].SendTo?
    decreases n
  {
    if n > 2 {
      FirstIsSend(me, own, n - 1);
    } else {
      BcastNext(me, own, 0);
      BcastNext(me, own, 1);
    }
  }

  /**
   Without buffering, broadcasting first is stuck before its first step as soon as there are
   two clusters; with fewer there is nothing to do.
   */
  lemma EagerStuckIff<T>(xs: seq<T>)
    ensures var st := Start(EagerPrograms(xs));
            (!Finished(st) && forall step :: Enabled(st, step) ==> step.Post?) <==> |xs| >= 2
  {
    var st := Start(EagerPrograms(xs));
    if |xs| >= 2 {
      forall p | 0 <= p < |xs| ensures st.todo[p] != [] && st.todo[p][0].SendTo? { FirstIsSend(p, xs[p], |xs|); }
      assert st.todo[0] != [];
    } else {
      assert forall p :: 0 <= p < |xs| ==> p == 0 && BcastOps(p, xs[p], 1) == [] && ReceiveOps<T>(p, 1) == [];
    }
  }
}
