/** Operations on the source buffers of the player: one queue per buffer, and barriers across queues. */
module OperationQueue {
  datatype Kind = Video | Audio | AudioVideo

  /** An operation either leaves its buffer updating, or is over at once, or blocks its queue for a barrier. */
  datatype Op = Update(id: nat) | Immediate(id: nat) | Blocker(barrier: nat)

  /** One buffer: its queue, whether it exists and is updating; and, as history, every operation appended,
      finished and executed so far, in order. */
  datatype Lane = Lane(queue: seq<Op>, present: bool, updating: bool, appended: seq<Op>, finished: seq<Op>,
    executed: seq<Op>)

  const EMPTY := Lane([], false, false, [], [], [])

  datatype Lanes = Lanes(video: Lane, audio: Lane, audiovideo: Lane) {
    function Get(t: Kind): Lane {
      match t
      case Video => video
      case Audio => audio
      case AudioVideo => audiovideo
    }

    function Set(t: Kind, l: Lane): (r: Lanes)
      ensures r.Get(t) == l && forall u :: u != t ==> r.Get(u) == Get(u)
    {
      match t
      case Video => this.(video := l)
      case Audio => this.(audio := l)
      case AudioVideo => this.(audiovideo := l)
    }
  }

  /** A barrier: the buffers it blocks, those whose blocker has been executed, and whether its callback has run. */
  datatype Barrier = Barrier(kinds: seq<Kind>, resolved: set<Kind>, called: bool) {
    ghost predicate Ready() { !called && forall t :: t in kinds ==> t in resolved }
  }

  ghost predicate Distinct<T>(s: seq<T>) { forall i, j :: 0 <= i < j < |s| ==> s[i] != s[j] }

  /** Blockers stand in the order of their barriers, so none occurs twice. */
  ghost predicate Ordered(s: seq<Op>) {
    forall i, j :: 0 <= i < j < |s| && s[i].Blocker? && s[j].Blocker? ==> s[i].barrier < s[j].barrier
  }

  /** What is appended is finished, in order, or queued. */
  ghost predicate InOrder(l: Lane) { l.appended == l.finished + l.queue }

  /** The head of the queue, and nothing behind it, has been executed, once. */
  ghost predicate HeadStarted(l: Lane) {
    && (if l.present && l.queue != [] then l.executed == l.finished + [l.queue[0]] && !l.queue[0].Immediate?
        else l.executed == l.finished)
    && (l.updating <==> l.present && l.queue != [] && l.queue[0].Update?)
  }

  /** Between two operations: nothing is started that is not finished. */
  ghost predicate Between(l: Lane) { l.executed == l.finished && !l.updating && l.present }

  /** What a buffer and the barriers know of each other. */
  ghost predicate Agree(t: Kind, l: Lane, bs: seq<Barrier>) {
    && Ordered(l.appended)
    && (forall b: nat :: Blocker(b) in l.appended ==> b < |bs|)
    && (forall b :: 0 <= b < |bs| ==> AgreeOn(t, l, b, bs[b]))
  }

  ghost predicate AgreeOn(t: Kind, l: Lane, b: nat, bar: Barrier) {
    && (Blocker(b) in l.appended <==> t in bar.kinds)
    && (Blocker(b) in l.executed <==> t in bar.resolved)
    && (Blocker(b) in l.finished ==> bar.called)
  }

  /** The head of the queue has been executed and is over. */
  ghost predicate HeadOver(l: Lane, bs: seq<Barrier>) {
    && l.present && !l.updating && l.queue != [] && l.executed == l.finished + [l.queue[0]]
    && (l.queue[0].Blocker? ==> l.queue[0].barrier < |bs| && bs[l.queue[0].barrier].called)
  }

  /** Executing the head: a buffer starts to update, or a blocker tells its barrier. */
  function Start(l: Lane): Lane
    requires l.queue != []
  {
    l.(executed := l.executed + [l.queue[0]], updating := l.queue[0].Update?)
  }

  function Tell(t: Kind, op: Op, bs: seq<Barrier>): seq<Barrier> {
    if op.Blocker? && op.barrier < |bs| then
      bs[op.barrier := bs[op.barrier].(resolved := bs[op.barrier].resolved + {t})]
    else bs
  }

  function Shift(l: Lane): Lane
    requires l.queue != []
  {
    l.(queue := l.queue[1..], finished := l.finished + [l.queue[0]])
  }

  lemma StartKeeps(t: Kind, l: Lane, bs: seq<Barrier>)
    requires InOrder(l) && Between(l) && Agree(t, l, bs) && l.queue != []
    ensures InOrder(Start(l)) && Agree(t, Start(l), Tell(t, l.queue[0], bs)) && l.present
    ensures !l.queue[0].Immediate? ==> HeadStarted(Start(l))
    ensures l.queue[0].Immediate? ==> HeadOver(Start(l), bs)
  {
    hide Ordered;
    var op, l', bs' := l.queue[0], Start(l), Tell(t, l.queue[0], bs);
    assert op in l.appended;
    forall b | 0 <= b < |bs| ensures AgreeOn(t, l', b, bs'[b]) {
      assert AgreeOn(t, l, b, bs[b]);
    }
  }

  lemma ShiftKeeps(t: Kind, l: Lane, bs: seq<Barrier>)
    requires InOrder(l) && Agree(t, l, bs) && HeadOver(l, bs)
    ensures InOrder(Shift(l)) && Between(Shift(l)) && Agree(t, Shift(l), bs)
  {
    hide Ordered;
    forall b | 0 <= b < |bs| ensures AgreeOn(t, Shift(l), b, bs[b]) {
      assert AgreeOn(t, l, b, bs[b]);
    }
  }

  lemma OthersAgree(u: Kind, l: Lane, bs: seq<Barrier>, t: Kind, op: Op)
    requires u != t && Agree(u, l, bs)
    ensures Agree(u, l, Tell(t, op, bs))
  {
    hide Ordered;
    var bs' := Tell(t, op, bs);
    forall b | 0 <= b < |bs| ensures AgreeOn(u, l, b, bs'[b]) {
      assert AgreeOn(u, l, b, bs[b]);
    }
  }

  /** Barriers change only by hearing of executed blockers. */
  ghost predicate Heard(bs: seq<Barrier>, bs': seq<Barrier>) {
    |bs| == |bs'| && forall b :: 0 <= b < |bs| ==>
      bs'[b] == bs[b].(resolved := bs'[b].resolved) && bs[b].resolved <= bs'[b].resolved
  }

  class Controller {
    var lanes: Lanes
    var barriers: seq<Barrier>
    ghost var callbacks: seq<nat>

    ghost predicate LaneValid(t: Kind)
      reads this
    {
      InOrder(lanes.Get(t)) && HeadStarted(lanes.Get(t)) && Agree(t, lanes.Get(t), barriers)
    }

    ghost predicate Barriers()
      reads this
    {
      && (forall b :: 0 <= b < |barriers| ==> Distinct(barriers[b].kinds))
      && (forall b :: 0 <= b < |barriers| ==> (barriers[b].called <==> b in callbacks)) && Distinct(callbacks)
      && (forall b :: b in callbacks ==> b < |barriers|)
    }

    ghost predicate Core()
      reads this
    {
      Barriers() && forall t: Kind :: LaneValid(t)
    }

    /** A barrier whose callback has run holds no buffer any more. */
    ghost predicate Settled()
      reads this
    {
      forall b, t :: 0 <= b < |barriers| && barriers[b].called && t in barriers[b].kinds ==>
        Blocker(b) in lanes.Get(t).finished
    }

    ghost predicate Valid()
      reads this
    {
      Core() && Settled()
    }

    constructor ()
      ensures Valid() && lanes == Lanes(EMPTY, EMPTY, EMPTY) && barriers == [] && callbacks == []
    {
      lanes, barriers, callbacks := Lanes(EMPTY, EMPTY, EMPTY), [], [];
    }

    /** Starts the head of a queue; an operation that is over at once makes way for the next. */
    method ExecuteNext(t: Kind)
      requires Barriers() && (forall u :: u != t ==> LaneValid(u))
      requires InOrder(lanes.Get(t)) && Between(lanes.Get(t)) && Agree(t, lanes.Get(t), barriers)
      modifies this`lanes, this`barriers
      ensures Core() && Heard(old(barriers), barriers) && (old(Settled()) ==> Settled())
      ensures forall u :: u != t ==> lanes.Get(u) == old(lanes.Get(u))
      ensures lanes.Get(t).appended == old(lanes.Get(t).appended) && lanes.Get(t).present
      ensures old(lanes.Get(t).finished) <= lanes.Get(t).finished
      decreases |lanes.Get(t).queue|, 1
    {
      hide InOrder, Agree, Between, HeadStarted, HeadOver;
      var l := lanes.Get(t);
      if l.queue != [] {
        StartKeeps(t, l, barriers);
        ghost var ls, bs := lanes, barriers;
        lanes := lanes.Set(t, Start(l));
        barriers := Tell(t, l.queue[0], barriers);
        forall u | u != t ensures LaneValid(u) {
          assert old(LaneValid(u));
          OthersAgree(u, ls.Get(u), bs, t, l.queue[0]);
        }
        if l.queue[0].Immediate? {
          ShiftAndExecuteNext(t);
        }
      } else {
        NothingToStart(l);
      }
    }

    /** Drops the head of a queue, which is over, and starts the next operation. */
    method ShiftAndExecuteNext(t: Kind)
      requires Barriers() && (forall u :: u != t ==> LaneValid(u))
      requires InOrder(lanes.Get(t)) && HeadOver(lanes.Get(t), barriers) && Agree(t, lanes.Get(t), barriers)
      modifies this`lanes, this`barriers
      ensures Core() && Heard(old(barriers), barriers) && (old(Settled()) ==> Settled())
      ensures forall u :: u != t ==> lanes.Get(u) == old(lanes.Get(u))
      ensures lanes.Get(t).appended == old(lanes.Get(t).appended) && lanes.Get(t).present
      ensures old(lanes.Get(t).finished) + [old(lanes.Get(t).queue)[0]] <= lanes.Get(t).finished
      decreases |lanes.Get(t).queue|, 0
    {
      hide InOrder, Agree, Between, HeadStarted;
      var l := lanes.Get(t);
      ShiftKeeps(t, l, barriers);
      lanes := lanes.Set(t, Shift(l));
      assert forall u :: u != t ==> old(LaneValid(u)) ==> LaneValid(u);
      ExecuteNext(t);
    }

    // ---------- events ----------

    /** A new operation joins its queue; an empty queue of an existing buffer starts it at once. */
    method Append(op: Op, t: Kind)
      requires Valid() && !op.Blocker?
      modifies this`lanes, this`barriers
      ensures Valid() && Heard(old(barriers), barriers)
      ensures lanes.Get(t).appended == old(lanes.Get(t).appended) + [op]
      ensures forall u :: u != t ==> lanes.Get(u) == old(lanes.Get(u))
    {
      hide InOrder, Agree, HeadStarted;
      assert LaneValid(t);
      AppendKeeps(t, lanes.Get(t), op, barriers);
      Enqueue(op, t);
    }

    method Enqueue(op: Op, t: Kind)
      requires Barriers() && Settled() && (forall u :: u != t ==> LaneValid(u))
      requires InOrder(lanes.Get(t)) && HeadStarted(lanes.Get(t)) && Agree(t, Push(lanes.Get(t), op), barriers)
      modifies this`lanes, this`barriers
      ensures Valid() && Heard(old(barriers), barriers)
      ensures lanes.Get(t).appended == old(lanes.Get(t).appended) + [op]
      ensures forall u :: u != t ==> lanes.Get(u) == old(lanes.Get(u))
    {
      hide InOrder, Agree, HeadStarted, Between;
      PushKeeps(t, lanes.Get(t), op, barriers);
      lanes := lanes.Set(t, Push(lanes.Get(t), op));
      assert forall u :: u != t ==> old(LaneValid(u)) ==> LaneValid(u);
      if |lanes.Get(t).queue| == 1 && lanes.Get(t).present {
        ExecuteNext(t);
      }
    }

    /** A buffer has finished its update: its operation is over, the next one starts. */
    method OnUpdateEnd(t: Kind)
      requires Valid() && lanes.Get(t).updating
      modifies this`lanes, this`barriers
      ensures Valid() && Heard(old(barriers), barriers)
      ensures forall u :: u != t ==> lanes.Get(u) == old(lanes.Get(u))
      ensures lanes.Get(t).appended == old(lanes.Get(t).appended)
      ensures |old(lanes.Get(t).queue)| > 0 &&
        old(lanes.Get(t).finished) + [old(lanes.Get(t).queue)[0]] <= lanes.Get(t).finished
    {
      hide InOrder, Agree;
      assert LaneValid(t);
      lanes := lanes.Set(t, lanes.Get(t).(updating := false));
      SameHistory(t, old(lanes.Get(t)), lanes.Get(t), barriers);
      assert forall u :: u != t ==> old(LaneValid(u)) ==> LaneValid(u);
      ShiftAndExecuteNext(t);
    }

    /** Source buffers come into being, once; whatever was queued for them starts. */
    method CreateSourceBuffers(kinds: seq<Kind>)
      requires Valid() && Distinct(kinds) && forall t :: !lanes.Get(t).present
      modifies this`lanes, this`barriers
      ensures Valid() && Heard(old(barriers), barriers)
      ensures forall t :: lanes.Get(t).appended == old(lanes.Get(t).appended)
      ensures forall t :: lanes.Get(t).present <==> t in kinds
    {
      hide InOrder, Agree, HeadStarted, Between;
      for i := 0 to |kinds|
        invariant Valid() && Heard(old(barriers), barriers)
        invariant forall t :: lanes.Get(t).appended == old(lanes.Get(t).appended)
        invariant forall t :: lanes.Get(t).present <==> t in kinds[..i]
      {
        var t := kinds[i];
        label before:
        assert LaneValid(t) && t !in kinds[..i];
        lanes := lanes.Set(t, lanes.Get(t).(present := true));
        BecomesPresent(t, old@before(lanes.Get(t)), barriers);
        assert forall u :: u != t ==> old@before(LaneValid(u)) ==> LaneValid(u);
        ExecuteNext(t);
        assert kinds[..i + 1] == kinds[..i] + [t];
      }
      assert kinds[..|kinds|] == kinds;
    }

    /** Blocks several buffers: a blocker joins each of their queues. */
    method BlockBuffers(kinds: seq<Kind>) returns (b: nat)
      requires Valid() && Distinct(kinds)
      modifies this`lanes, this`barriers
      ensures Valid() && b == |old(barriers)| && |barriers| == b + 1
      ensures barriers[b].kinds == kinds && !barriers[b].called
      ensures forall t :: lanes.Get(t).appended == old(lanes.Get(t).appended) + if t in kinds then [Blocker(b)] else []
    {
      hide InOrder, Agree, HeadStarted;
      b := |barriers|;
      forall t ensures Agree(t, lanes.Get(t), barriers + [NEW_BARRIER]) {
        assert LaneValid(t);
        NewBarrier(t, lanes.Get(t), barriers);
      }
      assert b !in callbacks;
      barriers := barriers + [NEW_BARRIER];
      assert forall t :: old(LaneValid(t)) ==> LaneValid(t);
      for i := 0 to |kinds|
        invariant Valid() && |barriers| == b + 1
        invariant barriers[b].kinds == kinds[..i] && !barriers[b].called
        invariant forall t ::
          lanes.Get(t).appended == old(lanes.Get(t).appended) + if t in kinds[..i] then [Blocker(b)] else []
      {
        var t := kinds[i];
        assert kinds[..i + 1] == kinds[..i] + [t] && t !in kinds[..i];
        AppendBlocker(b, t);
      }
      assert kinds[..|kinds|] == kinds;
    }

    method AppendBlocker(b: nat, t: Kind)
      requires Valid() && b + 1 == |barriers| && t !in barriers[b].kinds && !barriers[b].called
      modifies this`lanes, this`barriers
      ensures Valid() && |barriers| == b + 1
      ensures barriers[b].kinds == old(barriers[b].kinds) + [t] && !barriers[b].called
      ensures lanes.Get(t).appended == old(lanes.Get(t).appended) + [Blocker(b)]
      ensures forall u :: u != t ==> lanes.Get(u) == old(lanes.Get(u))
    {
      hide InOrder, Agree, HeadStarted;
      ghost var ls, bs := lanes, barriers;
      barriers := barriers[b := barriers[b].(kinds := barriers[b].kinds + [t])];
      forall u | u != t ensures LaneValid(u) {
        assert old(LaneValid(u));
        OthersJoin(u, ls.Get(u), bs, b, t);
      }
      assert old(LaneValid(t));
      Joins(t, ls.Get(t), bs, b);
      Enqueue(Blocker(b), t);
    }

    /** All blockers of a barrier have been executed: its callback runs, then its buffers go on.
        Everything queued on a blocked buffer before the barrier has finished by then. */
    method RunBarrier(b: nat)
      requires Valid() && b < |barriers| && barriers[b].Ready()
      modifies this
      ensures Valid() && callbacks == old(callbacks) + [b] && |barriers| == |old(barriers)|
      ensures forall t :: t in barriers[b].kinds ==>
        old(lanes.Get(t).finished) + [Blocker(b)] <= old(lanes.Get(t).appended)
      ensures forall t :: lanes.Get(t).appended == old(lanes.Get(t).appended)
      ensures forall t :: t !in barriers[b].kinds ==> lanes.Get(t) == old(lanes.Get(t))
    {
      hide InOrder, Agree, HeadStarted, HeadOver, Lanes.Get;
      forall t ensures InOrder(lanes.Get(t)) && HeadStarted(lanes.Get(t)) && Agree(t, lanes.Get(t), barriers) {
        assert LaneValid(t);
      }
      AllHolding(lanes, barriers, b);
      var kinds := barriers[b].kinds;
      callbacks := callbacks + [b];
      barriers := barriers[b := barriers[b].(called := true)];
      ghost var called := barriers;
      for i := 0 to |kinds|
        invariant Core() && Heard(called, barriers) && callbacks == old(callbacks) + [b]
        invariant forall t :: lanes.Get(t).appended == old(lanes.Get(t).appended)
        invariant forall t :: t !in kinds[..i] ==> lanes.Get(t) == old(lanes.Get(t))
        invariant forall t :: old(lanes.Get(t).finished) <= lanes.Get(t).finished
        invariant forall t :: t in kinds[..i] ==> Blocker(b) in lanes.Get(t).finished
      {
        var t := kinds[i];
        assert kinds[..i + 1] == kinds[..i] + [t] && t !in kinds[..i];
        assert t in kinds && LaneValid(t);
        StillOver(lanes.Get(t), called, barriers);
        ghost var was := lanes.Get(t).finished;
        if !lanes.Get(t).updating {
          ShiftAndExecuteNext(t);
        }
        EndsIn(was, Blocker(b), lanes.Get(t).finished);
      }
      assert kinds[..|kinds|] == kinds;
    }
  }

  ghost predicate HeadIs(l: Lane, op: Op) { l.queue != [] && l.queue[0] == op }

  lemma EndsIn<T>(a: seq<T>, x: T, s: seq<T>)
    requires a + [x] <= s
    ensures x in s
  {
    assert s[|a|] == (a + [x])[|a|];
  }

  lemma StillOver(l: Lane, bs: seq<Barrier>, bs': seq<Barrier>)
    requires HeadOver(l, bs) && Heard(bs, bs')
    ensures HeadOver(l, bs')
  {
  }

  const NEW_BARRIER := Barrier([], {}, false)

  lemma NewBarrier(t: Kind, l: Lane, bs: seq<Barrier>)
    requires InOrder(l) && HeadStarted(l) && Agree(t, l, bs)
    ensures Agree(t, l, bs + [NEW_BARRIER])
  {
    var bs' := bs + [NEW_BARRIER];
    assert Blocker(|bs|) !in l.appended && Blocker(|bs|) !in l.executed;
    forall b | 0 <= b < |bs'| ensures AgreeOn(t, l, b, bs'[b]) {
      assert b < |bs| ==> AgreeOn(t, l, b, bs[b]);
    }
  }

  lemma OthersJoin(u: Kind, l: Lane, bs: seq<Barrier>, b: nat, t: Kind)
    requires Agree(u, l, bs) && b < |bs| && u != t
    ensures Agree(u, l, bs[b := bs[b].(kinds := bs[b].kinds + [t])])
  {
    var bs' := bs[b := bs[b].(kinds := bs[b].kinds + [t])];
    forall c | 0 <= c < |bs| ensures AgreeOn(u, l, c, bs'[c]) {
      assert AgreeOn(u, l, c, bs[c]);
    }
  }

  lemma Joins(t: Kind, l: Lane, bs: seq<Barrier>, b: nat)
    requires Agree(t, l, bs) && b + 1 == |bs| && t !in bs[b].kinds
    ensures Agree(t, Push(l, Blocker(b)), bs[b := bs[b].(kinds := bs[b].kinds + [t])])
  {
    var bs' := bs[b := bs[b].(kinds := bs[b].kinds + [t])];
    var l' := Push(l, Blocker(b));
    assert AgreeOn(t, l, b, bs[b]);
    forall i | 0 <= i < |l.appended| && l.appended[i].Blocker? ensures l.appended[i].barrier < b {
      assert l.appended[i] in l.appended && l.appended[i] == Blocker(l.appended[i].barrier);
    }
    forall c | 0 <= c < |bs| ensures AgreeOn(t, l', c, bs'[c]) {
      assert AgreeOn(t, l, c, bs[c]);
    }
  }

  lemma Called(t: Kind, l: Lane, bs: seq<Barrier>, b: nat)
    requires Agree(t, l, bs) && b < |bs|
    ensures Agree(t, l, bs[b := bs[b].(called := true)])
  {
    var bs' := bs[b := bs[b].(called := true)];
    forall c | 0 <= c < |bs| ensures AgreeOn(t, l, c, bs'[c]) {
      assert AgreeOn(t, l, c, bs[c]);
    }
  }

  /** A barrier that is ready stands at the head of each of its queues. */
  lemma Holding(t: Kind, l: Lane, bs: seq<Barrier>, b: nat)
    requires InOrder(l) && HeadStarted(l) && Agree(t, l, bs) && b < |bs| && t in bs[b].kinds && bs[b].Ready()
    ensures HeadOver(l, bs[b := bs[b].(called := true)]) && HeadIs(l, Blocker(b))
    ensures l.finished + [Blocker(b)] <= l.appended
  {
    assert AgreeOn(t, l, b, bs[b]);
    assert Blocker(b) in l.executed && Blocker(b) !in l.finished;
  }

  /** When a barrier that is ready is called, its blocker is over in each of its queues. */
  lemma AllHolding(ls: Lanes, bs: seq<Barrier>, b: nat)
    requires b < |bs| && bs[b].Ready()
    requires forall t :: InOrder(ls.Get(t)) && HeadStarted(ls.Get(t)) && Agree(t, ls.Get(t), bs)
    ensures forall t :: Agree(t, ls.Get(t), bs[b := bs[b].(called := true)])
    ensures forall t :: t in bs[b].kinds ==>
      && HeadIs(ls.Get(t), Blocker(b)) && HeadOver(ls.Get(t), bs[b := bs[b].(called := true)])
      && ls.Get(t).finished + [Blocker(b)] <= ls.Get(t).appended
  {
    hide InOrder, HeadStarted, Agree, HeadOver;
    forall t ensures Agree(t, ls.Get(t), bs[b := bs[b].(called := true)]) {
      Called(t, ls.Get(t), bs, b);
    }
    forall t | t in bs[b].kinds
      ensures HeadIs(ls.Get(t), Blocker(b)) && HeadOver(ls.Get(t), bs[b := bs[b].(called := true)])
      ensures ls.Get(t).finished + [Blocker(b)] <= ls.Get(t).appended
    {
      Holding(t, ls.Get(t), bs, b);
    }
  }

  /** When every buffer exists and none is updating, queued operations never wait in vain: some barrier is ready to
      run. */
  lemma NoDeadlock(c: Controller)
    requires c.Valid() && (forall t :: c.lanes.Get(t).present && !c.lanes.Get(t).updating)
    requires exists t :: c.lanes.Get(t).queue != []
    ensures exists b :: 0 <= b < |c.barriers| && c.barriers[b].Ready()
  {
    hide Agree;
    forall t ensures WaitsAt(c.lanes.Get(t), |c.barriers|) {
      assert c.LaneValid(t);
      Waiting(t, c.lanes.Get(t), c.barriers);
    }
    var t0 := EarliestHead(c.lanes);
    var b := HeadBarrier(c.lanes.Get(t0));
    assert c.LaneValid(t0) && WaitsAt(c.lanes.Get(t0), |c.barriers|);
    assert !c.barriers[b].called by {
      HeadUnfinished(t0, c.lanes.Get(t0), c.barriers, b);
    }
    forall t | t in c.barriers[b].kinds ensures t in c.barriers[b].resolved {
      assert c.LaneValid(t) && WaitsAt(c.lanes.Get(t), |c.barriers|);
      HeadIsEarliest(t, c.lanes.Get(t), c.barriers, b);
    }
  }

  lemma BecomesPresent(t: Kind, l: Lane, bs: seq<Barrier>)
    requires !l.present && InOrder(l) && HeadStarted(l) && Agree(t, l, bs)
    ensures var l' := l.(present := true); InOrder(l') && Between(l') && Agree(t, l', bs)
  {
    forall b | 0 <= b < |bs| ensures AgreeOn(t, l.(present := true), b, bs[b]) {
      assert AgreeOn(t, l, b, bs[b]);
    }
  }

  function Push(l: Lane, op: Op): Lane { l.(queue := l.queue + [op], appended := l.appended + [op]) }

  lemma AppendKeeps(t: Kind, l: Lane, op: Op, bs: seq<Barrier>)
    requires Agree(t, l, bs) && !op.Blocker?
    ensures Agree(t, Push(l, op), bs)
  {
    forall b | 0 <= b < |bs| ensures AgreeOn(t, Push(l, op), b, bs[b]) {
      assert AgreeOn(t, l, b, bs[b]);
    }
  }

  lemma PushKeeps(t: Kind, l: Lane, op: Op, bs: seq<Barrier>)
    requires InOrder(l) && HeadStarted(l)
    ensures InOrder(Push(l, op))
    ensures if |l.queue| == 0 && l.present then Between(Push(l, op)) else HeadStarted(Push(l, op))
  {
  }

  lemma SameHistory(t: Kind, l: Lane, l': Lane, bs: seq<Barrier>)
    requires l' == l.(updating := l'.updating) && InOrder(l) && Agree(t, l, bs)
    ensures InOrder(l') && Agree(t, l', bs)
  {
    forall b | 0 <= b < |bs| ensures AgreeOn(t, l', b, bs[b]) {
      assert AgreeOn(t, l, b, bs[b]);
    }
  }

  lemma NothingToStart(l: Lane)
    requires Between(l) && l.queue == []
    ensures HeadStarted(l) && l.present
  {
  }

  /** A queue that is not moving is empty or has a blocker at its head. */
  ghost predicate WaitsAt(l: Lane, n: nat) { l.queue == [] || (l.queue[0].Blocker? && l.queue[0].barrier < n) }

  lemma Waiting(t: Kind, l: Lane, bs: seq<Barrier>)
    requires InOrder(l) && HeadStarted(l) && Agree(t, l, bs) && l.present && !l.updating
    ensures WaitsAt(l, |bs|)
  {
    if l.queue != [] {
      assert l.queue[0] in l.appended;
    }
  }

  function HeadBarrier(l: Lane): nat { if l.queue != [] && l.queue[0].Blocker? then l.queue[0].barrier else 0 }

  /** The queue whose head belongs to the earliest barrier. */
  lemma EarliestHead(ls: Lanes) returns (t0: Kind)
    requires exists t :: ls.Get(t).queue != []
    ensures ls.Get(t0).queue != []
    ensures forall t :: ls.Get(t).queue != [] ==> HeadBarrier(ls.Get(t0)) <= HeadBarrier(ls.Get(t))
  {
    t0 :| ls.Get(t0).queue != [];
    if ls.video.queue != [] && HeadBarrier(ls.video) < HeadBarrier(ls.Get(t0)) {
      t0 := Video;
    }
    if ls.audio.queue != [] && HeadBarrier(ls.audio) < HeadBarrier(ls.Get(t0)) {
      t0 := Audio;
    }
    if ls.audiovideo.queue != [] && HeadBarrier(ls.audiovideo) < HeadBarrier(ls.Get(t0)) {
      t0 := AudioVideo;
    }
  }

  /** The head of a queue is not among the finished operations. */
  lemma HeadUnfinished(t: Kind, l: Lane, bs: seq<Barrier>, b: nat)
    requires InOrder(l) && Agree(t, l, bs) && b < |bs| && HeadIs(l, Blocker(b))
    ensures Blocker(b) !in l.finished && t in bs[b].kinds
  {
    assert AgreeOn(t, l, b, bs[b]);
    assert Blocker(b) in l.appended && l.appended[|l.finished|] == Blocker(b);
    forall i | 0 <= i < |l.finished| ensures l.finished[i] != Blocker(b) {
      assert l.appended[i] == l.finished[i];
    }
  }

  lemma HeadIsEarliest(t: Kind, l: Lane, bs: seq<Barrier>, b: nat)
    requires InOrder(l) && HeadStarted(l) && Agree(t, l, bs) && b < |bs| && l.present
    requires t in bs[b].kinds && !bs[b].called
    requires l.queue != [] ==> l.queue[0].Blocker? && b <= l.queue[0].barrier
    ensures t in bs[b].resolved
  {
    assert AgreeOn(t, l, b, bs[b]);
    var i :| 0 <= i < |l.queue| && l.queue[i] == Blocker(b);
    assert l.appended[|l.finished|] == l.queue[0] && l.appended[|l.finished| + i] == l.queue[i];
  }
}
