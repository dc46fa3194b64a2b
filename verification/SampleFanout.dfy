/** The camera's live samples and its viewers' sessions: streaming threads walk a locked list of source pairs
    while the main thread lets sessions and recordings come and go, and frees them. */
module SampleFanout {
  import opened Wrappers

  datatype Medium = Video | Audio

  /** A session embeds two pairs of sources: the one it sends from, and the one it records from. */
  datatype Slot = Send | Record

  datatype Pair = Pair(session: nat, slot: Slot)

  /** A list node points at a pair; `entry` numbers the registration it stands for. */
  datatype Node = Node(pair: Pair, entry: nat)

  /** What the pointers of a pair hold: whether they are set, the references still owned, and which registration
      these sources were made for. A pair can be given new sources while a node still points at it. */
  datatype Sources = Sources(set_: bool, refs: int, made: nat)

  const NO_SOURCES := Sources(false, 0, 0)

  function Made(entry: nat): Sources { Sources(true, 1, entry) }

  datatype Session = Session(freed: bool, inTable: bool, send: Sources, rec: Sources, pipeline: bool)

  const NEW_SESSION := Session(false, false, NO_SOURCES, NO_SOURCES, false)

  datatype Lock = Free | Main | Stream(medium: Medium, next: nat)

  /** What the main thread is doing to one session, and how far it has come. */
  datatype Op = Connecting | Starting | Stopping | ClosingSend | ClosingRecord | Freeing

  datatype Phase = Begin | WantLock | HoldLock | Edited | Released

  datatype Task = Idle | Task(op: Op, session: nat, phase: Phase)

  datatype Feed = Feed(video: seq<int>, audio: seq<int>) {
    function Get(m: Medium): seq<int> { if m == Video then video else audio }
    function Push(m: Medium, x: int): (f: Feed)
      ensures forall n :: f.Get(n) == if n == m then Get(n) + [x] else Get(n)
    {
      if m == Video then Feed(video + [x], audio) else Feed(video, audio + [x])
    }
  }

  datatype Cut = Cut(video: nat, audio: nat) {
    function Get(m: Medium): nat { if m == Video then video else audio }
  }

  /** One registration: where in the two feeds it was appended and removed, and what the sources made for it got. */
  datatype Entry = Entry(from: Cut, to: Option<Cut>, got: Feed)

  datatype State = State(sessions: seq<Session>, list: seq<Node>, lock: Lock, task: Task, recording: bool,
                         produced: Feed, entries: seq<Entry>)

  const INITIAL := State([], [], Free, Idle, false, Feed([], []), [])

  // ---------- the list ----------

  function Here(f: Feed): Cut { Cut(|f.video|, |f.audio|) }

  function AppendPair(st: State, p: Pair): State {
    st.(list := st.list + [Node(p, |st.entries|)],
        entries := st.entries + [Entry(Here(st.produced), None, Feed([], []))])
  }

  function IndexOf(list: seq<Node>, p: Pair): (i: nat)
    ensures i <= |list| && (i < |list| ==> list[i].pair == p) && forall j :: 0 <= j < i ==> list[j].pair != p
  {
    if list == [] || list[0].pair == p then 0 else 1 + IndexOf(list[1..], p)
  }

  /** Removes the first node of a pair, if there is one. */
  function RemovePair(st: State, p: Pair): State {
    var i := IndexOf(st.list, p);
    if i == |st.list| || st.list[i].entry >= |st.entries| then st
    else
      var e := st.list[i].entry;
      st.(list := st.list[..i] + st.list[i + 1..],
          entries := st.entries[e := st.entries[e].(to := Some(Here(st.produced)))])
  }

  // ---------- the main thread ----------

  function Drop(s: Sources): Sources { if s.set_ then s.(refs := s.refs - 1) else s }

  function Update(st: State, i: nat, s: Session): State
    requires i < |st.sessions|
  {
    st.(sessions := st.sessions[i := s])
  }

  function Phases(st: State, phase: Phase): State
    requires st.task.Task?
  {
    st.(task := st.task.(phase := phase))
  }

  /** The list edit in the middle of an operation. */
  function Edit(st: State, op: Op, i: nat): State {
    match op
    case Connecting => AppendPair(st, Pair(i, Send))
    case Starting => AppendPair(st, Pair(i, Record))
    case Stopping => RemovePair(st, Pair(i, Record))
    case ClosingSend => RemovePair(st, Pair(i, Send))
    case ClosingRecord => RemovePair(st, Pair(i, Record))
    case Freeing => st
  }

  /** What an operation does before it takes the lock. */
  function Prepare(st: State, op: Op, i: nat): State
    requires i < |st.sessions|
  {
    var s := st.sessions[i];
    match op
    case Connecting => Update(st, i, s.(send := Made(|st.entries|)))
    case Starting => Update(st, i, s.(rec := Made(|st.entries|), pipeline := true)).(recording := true)
    case Stopping => st.(recording := false)
    case ClosingRecord => st.(recording := false)
    case ClosingSend => st
    case Freeing => st
  }

  /** What an operation does after it has given the lock back, and what comes next. */
  function Conclude(st: State, op: Op, i: nat): State
    requires i < |st.sessions|
  {
    var s := st.sessions[i];
    match op
    case Connecting => Update(st, i, s.(inTable := true)).(task := Idle)
    case Starting => st.(task := Idle)
    case Stopping => Update(st, i, s.(rec := Drop(s.rec), pipeline := false)).(task := Idle)
    case ClosingSend =>
      Update(st, i, s.(send := Drop(s.send))).(task := Task(if s.pipeline then ClosingRecord else Freeing, i, Begin))
    case ClosingRecord =>
      Update(st, i, s.(rec := Drop(s.rec), pipeline := false)).(task := Task(Freeing, i, Begin))
    case Freeing => st
  }

  /** One step of the main thread inside an operation; it waits while a streaming thread holds the lock. */
  predicate MainCanStep(st: State) {
    && st.task.Task? && st.task.session < |st.sessions|
    && (st.task.phase == WantLock ==> st.lock == Free)
  }

  function MainStep(st: State): State
    requires MainCanStep(st)
  {
    var op, i := st.task.op, st.task.session;
    match st.task.phase
    case Begin =>
      if op == Freeing then Update(st, i, st.sessions[i].(freed := true)).(task := Idle)
      else Phases(Prepare(st, op, i), WantLock)
    case WantLock => Phases(st, HoldLock).(lock := Main)
    case HoldLock => Phases(Edit(st, op, i), Edited)
    case Edited => Phases(st, Released).(lock := Free)
    case Released => Conclude(st, op, i)
  }

  // ---------- what can happen ----------

  datatype Event =
    | Connect
    | StartRecord(session: nat)
    | StopRecord(session: nat)
    | Close(session: nat)
    | Continue
    | TakeSample(medium: Medium, sample: int)
    | PushOne
    | LeaveList

  predicate Connected(st: State, i: nat) { i < |st.sessions| && st.sessions[i].inTable }

  predicate CanHappen(st: State, e: Event) {
    match e
    case Connect => st.task == Idle
    case StartRecord(i) => st.task == Idle && Connected(st, i)
    case StopRecord(i) => st.task == Idle && Connected(st, i)
    case Close(i) => st.task == Idle && Connected(st, i)
    case Continue => MainCanStep(st)
    case TakeSample(_, _) => st.lock == Free
    case PushOne => st.lock.Stream? && st.lock.next < |st.list|
    case LeaveList => st.lock.Stream? && st.lock.next == |st.list|
  }

  function SourcesOf(s: Session, slot: Slot): Sources { if slot == Send then s.send else s.rec }

  /** The registration whose sources a pair holds now. */
  function Current(st: State, p: Pair): nat {
    if p.session < |st.sessions| then SourcesOf(st.sessions[p.session], p.slot).made else 0
  }

  /** A streaming thread gives its sample to the source that the pair at its node holds now. */
  function Deliver(st: State): State
    requires st.lock.Stream? && st.lock.next < |st.list|
  {
    var m, e := st.lock.medium, Current(st, st.list[st.lock.next].pair);
    var moved, feed := st.(lock := st.lock.(next := st.lock.next + 1)), st.produced.Get(m);
    if e < |st.entries| && feed != [] then
      moved.(entries := st.entries[e := st.entries[e].(got := st.entries[e].got.Push(m, feed[|feed| - 1]))])
    else moved
  }

  function Happen(st: State, e: Event): State
    requires CanHappen(st, e)
  {
    match e
    case Connect => st.(sessions := st.sessions + [NEW_SESSION], task := Task(Connecting, |st.sessions|, Begin))
    case StartRecord(i) => if st.recording then st else st.(task := Task(Starting, i, Begin))
    case StopRecord(i) => st.(task := Task(Stopping, i, Begin))
    case Close(i) => Update(st, i, st.sessions[i].(inTable := false)).(task := Task(ClosingSend, i, Begin))
    case Continue => MainStep(st)
    case TakeSample(m, x) => st.(lock := Stream(m, 0), produced := st.produced.Push(m, x))
    case PushOne => Deliver(st)
    case LeaveList => st.(lock := Free)
  }

  // ---------- what always holds ----------

  ghost predicate Listed(list: seq<Node>, p: Pair) { exists j :: 0 <= j < |list| && list[j].pair == p }

  ghost predicate Owns(s: Sources) { s.set_ && s.refs == 1 }

  /** The recording part of a session that no operation is working on. */
  ghost predicate RecordAtRest(s: Session, listed: bool) {
    if s.pipeline then listed && Owns(s.rec) else !listed
  }

  predicate BeforeEdit(phase: Phase) { phase == Begin || phase == WantLock || phase == HoldLock }

  /** A session, its two places in the list, and the operation at work on it, if any. */
  ghost predicate SessionOk(s: Session, sending: bool, recording: bool, task: Task) {
    match task
    case Idle =>
      if s.freed then !s.inTable && !sending && !recording && s.send.refs == 0 && !s.pipeline
      else s.inTable && sending && Owns(s.send) && RecordAtRest(s, recording)
    case Task(op, _, phase) =>
      && !s.freed
      && match op
         case Connecting =>
           && !s.inTable && !recording && !s.pipeline && (sending <==> !BeforeEdit(phase))
           && (if phase == Begin then s.send == NO_SOURCES else Owns(s.send))
         case Starting =>
           && s.inTable && sending && Owns(s.send) && (recording <==> !BeforeEdit(phase))
           && (if phase == Begin then !s.pipeline else s.pipeline && Owns(s.rec))
         case Stopping =>
           && s.inTable && sending && Owns(s.send)
           && (if s.pipeline then Owns(s.rec) && (recording <==> BeforeEdit(phase)) else !recording)
         case ClosingSend =>
           !s.inTable && Owns(s.send) && (sending <==> BeforeEdit(phase)) && RecordAtRest(s, recording)
         case ClosingRecord =>
           && !s.inTable && !sending && s.send.refs == 0 && s.pipeline && Owns(s.rec)
           && (recording <==> BeforeEdit(phase))
         case Freeing =>
           phase == Begin && !s.inTable && !sending && !recording && s.send.refs == 0 && !s.pipeline
  }

  function TaskOf(task: Task, i: nat): Task { if task.Task? && task.session == i then task else Idle }

  ghost predicate SessionFits(st: State, i: nat)
    requires i < |st.sessions|
  {
    SessionOk(st.sessions[i], Listed(st.list, Pair(i, Send)), Listed(st.list, Pair(i, Record)), TaskOf(st.task, i))
  }

  ghost predicate SessionsOk(st: State) { forall i: nat :: i < |st.sessions| ==> SessionFits(st, i) }

  /** No pair stands on the list twice. */
  ghost predicate Once(list: seq<Node>) { forall j, k :: 0 <= j < k < |list| ==> list[j].pair != list[k].pair }

  ghost predicate ListOk(st: State) {
    && Once(st.list)
    && (forall j :: 0 <= j < |st.list| ==> st.list[j].pair.session < |st.sessions| && st.list[j].entry < |st.entries|)
    && (forall j, k :: 0 <= j < k < |st.list| ==> st.list[j].entry != st.list[k].entry)
  }

  ghost predicate LockOk(st: State) {
    && (st.lock == Main <==> st.task.Task? && (st.task.phase == HoldLock || st.task.phase == Edited))
    && (st.lock.Stream? ==> st.lock.next <= |st.list| && st.produced.Get(st.lock.medium) != [])
    && (st.task.Task? ==> st.task.session < |st.sessions|)
  }

  /** The pair an operation works on. */
  function PairOf(op: Op, i: nat): Pair { Pair(i, if op == Connecting || op == ClosingSend then Send else Record) }

  predicate Adds(op: Op) { op == Connecting || op == Starting }

  /** Every node's pair holds the sources made for that node's registration, and so does a pair about to be added. */
  ghost predicate SourcesOk(st: State) {
    && (forall j :: 0 <= j < |st.list| ==> Current(st, st.list[j].pair) == st.list[j].entry)
    && (st.task.Task? && Adds(st.task.op) && (st.task.phase == WantLock || st.task.phase == HoldLock) ==>
          Current(st, PairOf(st.task.op, st.task.session)) == |st.entries|)
  }

  /** The newest sample of a medium, while it has not reached the j-th node. */
  function Pending(st: State, m: Medium, j: nat): nat {
    if st.lock.Stream? && st.lock.medium == m && st.lock.next <= j then 1 else 0
  }

  ghost predicate Slice(en: Entry, f: Feed, m: Medium, to: int) {
    en.from.Get(m) <= to <= |f.Get(m)| && en.got.Get(m) == f.Get(m)[en.from.Get(m)..to]
  }

  ghost predicate NodeOk(st: State, j: nat)
    requires j < |st.list|
  {
    var e := st.list[j].entry;
    && e < |st.entries| && st.entries[e].to == None
    && forall m :: Slice(st.entries[e], st.produced, m, |st.produced.Get(m)| - Pending(st, m, j))
  }

  ghost predicate ClosedOk(st: State, e: nat)
    requires e < |st.entries|
  {
    st.entries[e].to.Some? ==> forall m :: Slice(st.entries[e], st.produced, m, st.entries[e].to.value.Get(m))
  }

  ghost predicate OnList(list: seq<Node>, e: nat) { exists j :: 0 <= j < |list| && list[j].entry == e }

  ghost predicate EntriesOk(st: State) {
    && (forall j: nat :: j < |st.list| ==> NodeOk(st, j))
    && (forall e: nat :: e < |st.entries| ==> ClosedOk(st, e))
    && (forall e: nat :: e < |st.entries| && st.entries[e].to == None ==> OnList(st.list, e))
  }

  ghost predicate Inv(st: State) {
    SessionsOk(st) && ListOk(st) && LockOk(st) && SourcesOk(st) && EntriesOk(st)
  }

  /** The one thing asked of the outside: a start that is let through finds the session's pair not listed. */
  ghost predicate Fresh(st: State, e: Event) {
    e.StartRecord? && !st.recording ==> !Listed(st.list, Pair(e.session, Record))
  }

  // ---------- streaming threads ----------

  /** A streaming step leaves the sessions, the list and the main thread alone. */
  ghost predicate SameMain(st: State, st': State) {
    && st'.sessions == st.sessions && st'.list == st.list && st'.task == st.task && st'.recording == st.recording
    && |st'.entries| == |st.entries|
  }

  lemma MainUntouched(st: State, st': State)
    requires SessionsOk(st) && ListOk(st) && SourcesOk(st) && SameMain(st, st')
    ensures SessionsOk(st') && ListOk(st') && SourcesOk(st')
  {
    hide SessionOk, Listed;
    forall i: nat | i < |st'.sessions| ensures SessionFits(st', i) {
      assert SessionFits(st, i);
    }
  }

  lemma EntriesStay(st: State, st': State)
    requires EntriesOk(st) && st'.list == st.list && |st'.entries| == |st.entries|
    requires forall e :: 0 <= e < |st.entries| ==> st'.entries[e].to == st.entries[e].to
    requires forall j: nat :: j < |st.list| ==> NodeOk(st', j)
    requires forall e: nat :: e < |st.entries| ==> ClosedOk(st', e)
    ensures EntriesOk(st')
  {
    hide NodeOk, ClosedOk;
  }

  lemma SliceMore(en: Entry, f: Feed, m: Medium, x: int, n: Medium, to: int)
    requires Slice(en, f, n, to)
    ensures Slice(en, f.Push(m, x), n, to)
  {
  }

  lemma NodeEntry(st: State, j: nat)
    requires EntriesOk(st) && j < |st.list|
    ensures NodeOk(st, j)
  {
  }

  lemma ClosedEntry(st: State, e: nat)
    requires EntriesOk(st) && e < |st.entries|
    ensures ClosedOk(st, e)
  {
  }

  lemma TakeKeeps(st: State, m: Medium, x: int)
    requires Inv(st) && CanHappen(st, TakeSample(m, x))
    ensures Inv(Happen(st, TakeSample(m, x)))
  {
    hide SessionsOk, ListOk, SourcesOk, EntriesOk, Slice;
    var st' := Happen(st, TakeSample(m, x));
    MainUntouched(st, st');
    forall j: nat | j < |st.list| ensures NodeOk(st', j) {
      NodeEntry(st, j);
      var en := st.entries[st.list[j].entry];
      forall n ensures Slice(en, st'.produced, n, |st'.produced.Get(n)| - Pending(st', n, j)) {
        SliceMore(en, st.produced, m, x, n, |st.produced.Get(n)|);
      }
    }
    forall e: nat | e < |st.entries| ensures ClosedOk(st', e) {
      ClosedEntry(st, e);
      if st.entries[e].to.Some? {
        forall n ensures Slice(st.entries[e], st'.produced, n, st.entries[e].to.value.Get(n)) {
          SliceMore(st.entries[e], st.produced, m, x, n, st.entries[e].to.value.Get(n));
        }
      }
    }
    EntriesStay(st, st');
  }

  lemma SliceNext(en: Entry, f: Feed, m: Medium)
    requires f.Get(m) != [] && Slice(en, f, m, |f.Get(m)| - 1)
    ensures Slice(en.(got := en.got.Push(m, f.Get(m)[|f.Get(m)| - 1])), f, m, |f.Get(m)|)
  {
    var s := f.Get(m);
    assert s[en.from.Get(m)..|s| - 1] + [s[|s| - 1]] == s[en.from.Get(m)..|s|];
  }

  lemma SliceOther(en: Entry, f: Feed, m: Medium, x: int, n: Medium, to: int)
    requires n != m && Slice(en, f, n, to)
    ensures Slice(en.(got := en.got.Push(m, x)), f, n, to)
  {
  }

  lemma OtherEntries(st: State, j: nat, k: nat)
    requires ListOk(st) && j < |st.list| && k < |st.list| && j != k
    ensures st.list[j].entry != st.list[k].entry
  {
  }

  lemma HoldsItsSources(st: State, j: nat)
    requires SourcesOk(st) && j < |st.list|
    ensures Current(st, st.list[j].pair) == st.list[j].entry
  {
  }

  lemma DeliverKeeps(st: State)
    requires Inv(st) && CanHappen(st, PushOne)
    ensures Inv(Happen(st, PushOne))
  {
    hide SessionsOk, ListOk, SourcesOk, EntriesOk, Slice, Current;
    var st' := Happen(st, PushOne);
    var m, n := st.lock.medium, st.lock.next;
    HoldsItsSources(st, n);
    NodeEntry(st, n);
    MainUntouched(st, st');
    var e0 := st.list[n].entry;
    forall j: nat | j < |st.list| ensures NodeOk(st', j) {
      NodeEntry(st, j);
      if j == n {
        SliceNext(st.entries[e0], st.produced, m);
        var x := st.produced.Get(m)[|st.produced.Get(m)| - 1];
        forall o ensures Slice(st'.entries[e0], st'.produced, o, |st'.produced.Get(o)| - Pending(st', o, j)) {
          if o != m {
            SliceOther(st.entries[e0], st.produced, m, x, o, |st.produced.Get(o)|);
          }
        }
      } else {
        OtherEntries(st, j, n);
      }
    }
    forall e: nat | e < |st.entries| ensures ClosedOk(st', e) {
      ClosedEntry(st, e);
    }
    EntriesStay(st, st');
  }

  lemma LeaveKeeps(st: State)
    requires Inv(st) && CanHappen(st, LeaveList)
    ensures Inv(Happen(st, LeaveList))
  {
    hide SessionsOk, ListOk, SourcesOk, EntriesOk, Slice;
    var st' := Happen(st, LeaveList);
    MainUntouched(st, st');
    forall j: nat | j < |st.list| ensures NodeOk(st', j) {
      NodeEntry(st, j);
    }
    forall e: nat | e < |st.entries| ensures ClosedOk(st', e) {
      ClosedEntry(st, e);
    }
    EntriesStay(st, st');
  }

  // ---------- the list edits ----------

  lemma AppendLists(st: State, p: Pair, q: Pair)
    ensures Listed(AppendPair(st, p).list, q) <==> Listed(st.list, q) || q == p
  {
    var list' := AppendPair(st, p).list;
    if Listed(st.list, q) {
      var j :| 0 <= j < |st.list| && st.list[j].pair == q;
      assert list'[j].pair == q;
    }
    if q == p {
      assert list'[|st.list|].pair == q;
    }
  }

  lemma ListedCut(list: seq<Node>, i: nat, q: Pair)
    requires i < |list| && forall j :: 0 <= j < |list| && j != i ==> list[j].pair != list[i].pair
    ensures Listed(list[..i] + list[i + 1..], q) <==> Listed(list, q) && q != list[i].pair
  {
    var list' := list[..i] + list[i + 1..];
    if Listed(list, q) && q != list[i].pair {
      var j :| 0 <= j < |list| && list[j].pair == q;
      assert list'[if j < i then j else j - 1] == list[j];
    }
    if Listed(list', q) {
      var j :| 0 <= j < |list'| && list'[j].pair == q;
      assert list'[j] == list[if j < i then j else j + 1];
    }
  }

  lemma RemoveLists(st: State, p: Pair, q: Pair)
    requires ListOk(st)
    ensures Listed(RemovePair(st, p).list, q) <==> Listed(st.list, q) && q != p
  {
    var i := IndexOf(st.list, p);
    if i < |st.list| {
      ListedCut(st.list, i, q);
    }
  }

  /** An append keeps pairs single exactly when the pair was not on the list. */
  lemma AppendOnce(st: State, p: Pair)
    requires Once(st.list)
    ensures Once(AppendPair(st, p).list) <==> !Listed(st.list, p)
  {
    var list' := AppendPair(st, p).list;
    if j :| 0 <= j < |st.list| && st.list[j].pair == p {
      assert list'[j].pair == list'[|st.list|].pair;
    }
  }

  lemma AppendKeepsList(st: State, p: Pair)
    requires ListOk(st) && p.session < |st.sessions| && !Listed(st.list, p)
    ensures ListOk(AppendPair(st, p))
  {
    hide Once;
    AppendOnce(st, p);
  }

  lemma RemoveKeepsList(st: State, p: Pair)
    requires ListOk(st)
    ensures ListOk(RemovePair(st, p))
  {
  }

  /** An edit touches the list and the registrations only. */
  lemma EditShape(st: State, p: Pair)
    ensures AppendPair(st, p).(list := st.list, entries := st.entries) == st
    ensures RemovePair(st, p).(list := st.list, entries := st.entries) == st
    ensures |RemovePair(st, p).entries| == |st.entries|
  {
  }

  // ---------- the main thread's steps ----------

  /** A step that works on one session leaves the others as they were. */
  lemma OnlyOne(st: State, st': State, i: nat)
    requires SessionsOk(st) && i < |st.sessions| == |st'.sessions|
    requires forall k: nat :: k < |st.sessions| && k != i ==>
      st'.sessions[k] == st.sessions[k] && TaskOf(st'.task, k) == TaskOf(st.task, k)
    requires forall p: Pair :: p.session != i ==> (Listed(st'.list, p) <==> Listed(st.list, p))
    requires SessionFits(st', i)
    ensures SessionsOk(st')
  {
    hide SessionOk, Listed;
    forall k: nat | k < |st'.sessions| ensures SessionFits(st', k) {
      assert SessionFits(st, k);
    }
  }

  lemma SessionAt(st: State, i: nat)
    requires SessionsOk(st) && i < |st.sessions|
    ensures SessionFits(st, i)
  {
  }

  /** Between list edits the session at work moves from one legal shape to the next. */
  lemma SessionsStep(st: State)
    requires Inv(st) && MainCanStep(st) && st.task.phase != HoldLock
    ensures SessionsOk(MainStep(st))
  {
    hide SessionsOk, ListOk, SourcesOk, EntriesOk, Listed;
    SessionAt(st, st.task.session);
    OnlyOne(st, MainStep(st), st.task.session);
  }

  lemma EditLists(st: State, q: Pair)
    requires ListOk(st) && MainCanStep(st) && st.task.op != Freeing
    ensures var op, p := st.task.op, PairOf(st.task.op, st.task.session);
      Listed(Edit(st, op, st.task.session).list, q) <==>
        if Adds(op) then Listed(st.list, q) || q == p else Listed(st.list, q) && q != p
  {
    hide Listed, ListOk, AppendPair, RemovePair;
    AppendLists(st, PairOf(st.task.op, st.task.session), q);
    RemoveLists(st, PairOf(st.task.op, st.task.session), q);
  }

  lemma SessionsEdit(st: State)
    requires Inv(st) && MainCanStep(st) && st.task.phase == HoldLock
    ensures SessionsOk(MainStep(st))
  {
    hide SessionsOk, ListOk, SourcesOk, EntriesOk, Listed;
    var i := st.task.session;
    SessionAt(st, i);
    forall q: Pair ensures Listed(MainStep(st).list, q) <==> Listed(Edit(st, st.task.op, i).list, q) {
    }
    forall q: Pair | q.session != i ensures Listed(MainStep(st).list, q) <==> Listed(st.list, q) {
      EditLists(st, q);
    }
    EditLists(st, Pair(i, Send));
    EditLists(st, Pair(i, Record));
    OnlyOne(st, MainStep(st), i);
  }

  lemma SameList(st: State, st': State)
    requires ListOk(st) && st'.list == st.list
    requires |st'.sessions| >= |st.sessions| && |st'.entries| == |st.entries|
    ensures ListOk(st')
  {
  }

  lemma ListStep(st: State)
    requires Inv(st) && MainCanStep(st)
    ensures ListOk(MainStep(st))
  {
    hide SessionsOk, SourcesOk, EntriesOk, ListOk, AppendPair, RemovePair, Listed;
    var op, i := st.task.op, st.task.session;
    var p := PairOf(op, i);
    if st.task.phase == HoldLock {
      SessionAt(st, i);
      EditShape(st, p);
      if Adds(op) {
        AppendKeepsList(st, p);
      } else {
        RemoveKeepsList(st, p);
      }
      SameList(Edit(st, op, i), MainStep(st));
    } else {
      SameList(st, MainStep(st));
    }
  }

  lemma LockStep(st: State)
    requires Inv(st) && MainCanStep(st)
    ensures LockOk(MainStep(st))
  {
    hide SessionsOk, SourcesOk, EntriesOk, ListOk, AppendPair, RemovePair;
    SessionAt(st, st.task.session);
    EditShape(st, PairOf(st.task.op, st.task.session));
  }

  // ---------- a pair holds the sources made for its registration ----------

  lemma SameSources(st: State, st': State)
    requires SourcesOk(st) && st'.list == st.list
    requires forall j :: 0 <= j < |st.list| ==> Current(st', st.list[j].pair) == Current(st, st.list[j].pair)
    requires st'.task.Task? && Adds(st'.task.op) && (st'.task.phase == WantLock || st'.task.phase == HoldLock) ==>
      Current(st', PairOf(st'.task.op, st'.task.session)) == |st'.entries|
    ensures SourcesOk(st')
  {
    hide Current;
  }

  /** New sources go into a pair that no node points at. */
  lemma SourcesBegin(st: State)
    requires Inv(st) && MainCanStep(st) && st.task.phase == Begin && Adds(st.task.op)
    ensures SourcesOk(MainStep(st))
  {
    hide SessionsOk, SourcesOk, EntriesOk, ListOk;
    var i, p := st.task.session, PairOf(st.task.op, st.task.session);
    SessionAt(st, i);
    assert !Listed(st.list, p);
    forall j | 0 <= j < |st.list| ensures Current(MainStep(st), st.list[j].pair) == Current(st, st.list[j].pair) {
      assert st.list[j].pair != p;
    }
    SameSources(st, MainStep(st));
  }

  lemma SourcesAppend(st: State)
    requires SourcesOk(st) && MainCanStep(st) && st.task.phase == HoldLock && Adds(st.task.op)
    ensures SourcesOk(MainStep(st))
  {
  }

  lemma SourcesRemove(st: State)
    requires SourcesOk(st) && MainCanStep(st) && st.task.phase == HoldLock && !Adds(st.task.op)
    ensures SourcesOk(MainStep(st))
  {
  }

  lemma SourcesStep(st: State)
    requires Inv(st) && MainCanStep(st)
    ensures SourcesOk(MainStep(st))
  {
    hide SessionsOk, SourcesOk, EntriesOk, ListOk, AppendPair, RemovePair, Listed;
    if st.task.phase == Begin && Adds(st.task.op) {
      SourcesBegin(st);
    } else if st.task.phase == HoldLock {
      if Adds(st.task.op) {
        SourcesAppend(st);
      } else {
        SourcesRemove(st);
      }
    } else {
      if Adds(st.task.op) && st.task.phase == WantLock {
        SourcesPending(st);
      }
      SameSources(st, MainStep(st));
    }
  }

  lemma SourcesPending(st: State)
    requires SourcesOk(st) && st.task.Task? && Adds(st.task.op) && st.task.phase == WantLock
    ensures Current(st, PairOf(st.task.op, st.task.session)) == |st.entries|
  {
  }

  // ---------- registrations ----------

  /** No sample is on its way through the list, before or after. */
  ghost predicate NoneInTheList(st: State, st': State) { !st.lock.Stream? && !st'.lock.Stream? }

  lemma EntriesSame(st: State, st': State)
    requires EntriesOk(st) && st'.list == st.list && st'.entries == st.entries && st'.produced == st.produced
    requires st'.lock == st.lock || NoneInTheList(st, st')
    ensures EntriesOk(st')
  {
    hide Slice, EntriesOk;
    forall j: nat | j < |st.list| ensures NodeOk(st', j) {
      NodeEntry(st, j);
    }
    forall e: nat | e < |st.entries| ensures ClosedOk(st', e) {
      ClosedEntry(st, e);
    }
    EntriesStay(st, st');
  }

  lemma NodeMoves(st: State, j: nat, st': State, k: nat)
    requires j < |st.list| && k < |st'.list| && NodeOk(st, j) && NoneInTheList(st, st')
    requires st'.list[k] == st.list[j] && st'.produced == st.produced
    requires st.list[j].entry < |st'.entries| && st'.entries[st.list[j].entry] == st.entries[st.list[j].entry]
    ensures NodeOk(st', k)
  {
    hide Slice;
  }

  lemma OpenEntry(st: State, e: nat) returns (j: nat)
    requires EntriesOk(st) && e < |st.entries| && st.entries[e].to == None
    ensures j < |st.list| && st.list[j].entry == e
  {
    j :| j < |st.list| && st.list[j].entry == e;
  }

  lemma FreshSlice(f: Feed, m: Medium)
    ensures Slice(Entry(Here(f), None, Feed([], [])), f, m, |f.Get(m)|)
  {
  }

  lemma EntriesAre(st: State)
    requires forall j: nat :: j < |st.list| ==> NodeOk(st, j)
    requires forall e: nat :: e < |st.entries| ==> ClosedOk(st, e)
    requires forall e: nat :: e < |st.entries| && st.entries[e].to == None ==> OnList(st.list, e)
    ensures EntriesOk(st)
  {
    hide NodeOk, ClosedOk;
  }

  lemma AppendEntries(st: State, p: Pair)
    requires EntriesOk(st) && ListOk(st) && st.lock == Main
    ensures EntriesOk(AppendPair(st, p))
  {
    hide Slice, EntriesOk, ListOk;
    var st' := AppendPair(st, p);
    forall j: nat | j < |st'.list| ensures NodeOk(st', j) {
      if j < |st.list| {
        NodeEntry(st, j);
        NodeMoves(st, j, st', j);
      } else {
        forall m ensures Slice(st'.entries[|st.entries|], st.produced, m, |st.produced.Get(m)|) {
          FreshSlice(st.produced, m);
        }
      }
    }
    forall e: nat | e < |st'.entries| ensures ClosedOk(st', e) {
      if e < |st.entries| {
        ClosedEntry(st, e);
      }
    }
    forall e: nat | e < |st'.entries| && st'.entries[e].to == None ensures OnList(st'.list, e) {
      if e < |st.entries| {
        var j := OpenEntry(st, e);
        assert st'.list[j].entry == e;
      } else {
        assert st'.list[|st.list|].entry == e;
      }
    }
    EntriesAre(st');
  }

  lemma SliceClosed(st: State, j: nat)
    requires j < |st.list| && NodeOk(st, j) && st.lock == Main
    ensures forall m ::
      Slice(st.entries[st.list[j].entry].(to := Some(Here(st.produced))), st.produced, m, Here(st.produced).Get(m))
  {
    var en := st.entries[st.list[j].entry];
    forall m ensures Slice(en.(to := Some(Here(st.produced))), st.produced, m, Here(st.produced).Get(m)) {
      assert Slice(en, st.produced, m, |st.produced.Get(m)| - Pending(st, m, j));
    }
  }

  lemma RemoveEntries(st: State, p: Pair)
    requires EntriesOk(st) && ListOk(st) && st.lock == Main
    ensures EntriesOk(RemovePair(st, p))
  {
    hide Slice, EntriesOk, ListOk;
    var st', i := RemovePair(st, p), IndexOf(st.list, p);
    if i < |st.list| {
      var gone := st.list[i].entry;
      NodeEntry(st, i);
      SliceClosed(st, i);
      forall j: nat | j < |st'.list| ensures NodeOk(st', j) {
        var was := if j < i then j else j + 1;
        NodeEntry(st, was);
        OtherEntries(st, was, i);
        NodeMoves(st, was, st', j);
      }
      forall e: nat | e < |st'.entries| ensures ClosedOk(st', e) {
        ClosedEntry(st, e);
      }
      forall e: nat | e < |st'.entries| && st'.entries[e].to == None ensures OnList(st'.list, e) {
        var was := OpenEntry(st, e);
        assert st'.list[if was < i then was else was - 1].entry == e;
      }
      EntriesAre(st');
    }
  }

  lemma EntriesStep(st: State)
    requires Inv(st) && MainCanStep(st)
    ensures EntriesOk(MainStep(st))
  {
    hide SessionsOk, SourcesOk, ListOk, EntriesOk, AppendPair, RemovePair, Listed;
    var p := PairOf(st.task.op, st.task.session);
    SessionAt(st, st.task.session);
    EditShape(st, p);
    if st.task.phase == HoldLock {
      AppendEntries(st, p);
      RemoveEntries(st, p);
      EntriesSame(Edit(st, st.task.op, st.task.session), MainStep(st));
    } else {
      EntriesSame(st, MainStep(st));
    }
  }

  // ---------- the events ----------

  lemma ConnectKeeps(st: State)
    requires Inv(st) && CanHappen(st, Connect)
    ensures Inv(Happen(st, Connect))
  {
    hide SessionsOk, EntriesOk, ListOk, SourcesOk, Listed, SessionOk;
    var st' := Happen(st, Connect);
    EntriesSame(st, st');
    SameList(st, st');
    NewSources(st, st');
    NewSession(st, st');
  }

  lemma NewSources(st: State, st': State)
    requires SourcesOk(st) && ListOk(st) && st.task == Idle && st' == Happen(st, Connect)
    ensures SourcesOk(st')
  {
    SameSources(st, st');
  }

  lemma NewSession(st: State, st': State)
    requires SessionsOk(st) && ListOk(st) && st.task == Idle && st' == Happen(st, Connect)
    ensures SessionsOk(st')
  {
    hide SessionsOk, SessionOk;
    var n := |st.sessions|;
    assert !Listed(st.list, Pair(n, Send)) && !Listed(st.list, Pair(n, Record));
    forall i: nat | i < |st'.sessions| ensures SessionFits(st', i) {
      if i < n {
        SessionAt(st, i);
      } else {
        NewSessionOk(n);
      }
    }
    SessionsAre(st');
  }

  lemma NewSessionOk(n: nat)
    ensures SessionOk(NEW_SESSION, false, false, Task(Connecting, n, Begin))
  {
  }

  lemma SessionsAre(st: State)
    requires forall i: nat :: i < |st.sessions| ==> SessionFits(st, i)
    ensures SessionsOk(st)
  {
  }

  ghost predicate SessionCommand(e: Event) { e.StartRecord? || e.StopRecord? || e.Close? }

  /** A command that sets the main thread to work on a connected session, whichever session sends it. */
  lemma CommandKeeps(st: State, e: Event)
    requires Inv(st) && CanHappen(st, e) && Fresh(st, e) && SessionCommand(e)
    ensures Inv(Happen(st, e))
  {
    hide SessionsOk, EntriesOk, ListOk, SourcesOk, Listed;
    var st', i := Happen(st, e), e.session;
    SessionAt(st, i);
    EntriesSame(st, st');
    SameList(st, st');
    CommandSources(st, e);
    if st'.task != Idle {
      OnlyOne(st, st', i);
    }
  }

  lemma CommandSources(st: State, e: Event)
    requires SourcesOk(st) && CanHappen(st, e) && SessionCommand(e)
    ensures SourcesOk(Happen(st, e))
  {
    SameSources(st, Happen(st, e));
  }

  /** Every step of every thread keeps the invariant, if a start that is let through finds its pair not listed. */
  lemma StepKeeps(st: State, e: Event)
    requires Inv(st) && CanHappen(st, e) && Fresh(st, e)
    ensures Inv(Happen(st, e))
  {
    hide SessionsOk, EntriesOk, ListOk, SourcesOk, LockOk, Fresh;
    match e
    case Connect => ConnectKeeps(st);
    case StartRecord(_) => CommandKeeps(st, e);
    case StopRecord(_) => CommandKeeps(st, e);
    case Close(_) => CommandKeeps(st, e);
    case Continue =>
      if st.task.phase == HoldLock { SessionsEdit(st); } else { SessionsStep(st); }
      ListStep(st);
      LockStep(st);
      SourcesStep(st);
      EntriesStep(st);
    case TakeSample(m, x) => TakeKeeps(st, m, x);
    case PushOne => DeliverKeeps(st);
    case LeaveList => LeaveKeeps(st);
  }

  // ---------- runs ----------

  ghost predicate IsRun(st: State, events: seq<Event>)
    decreases events
  {
    events == [] || (CanHappen(st, events[0]) && IsRun(Happen(st, events[0]), events[1..]))
  }

  ghost function After(st: State, events: seq<Event>): State
    requires IsRun(st, events)
    decreases events
  {
    if events == [] then st else After(Happen(st, events[0]), events[1..])
  }

  /** Every start of the run that is let through finds its pair not listed. */
  ghost predicate FreshStarts(st: State, events: seq<Event>)
    requires IsRun(st, events)
    decreases events
  {
    events == [] || (Fresh(st, events[0]) && FreshStarts(Happen(st, events[0]), events[1..]))
  }

  lemma NobodyOk(st: State)
    requires |st.sessions| == 0 && |st.list| == 0 && |st.entries| == 0 && st.task == Idle && st.lock == Free
    ensures Inv(st)
  {
    hide SessionFits, NodeOk, ClosedOk;
    SessionsAre(st);
    EntriesAre(st);
  }

  lemma InitialOk()
    ensures Inv(INITIAL)
  {
    NobodyOk(INITIAL);
  }

  /** The invariant holds after every run with fresh starts, in every interleaving. */
  lemma {:induction false} RunKeeps(st: State, events: seq<Event>)
    requires Inv(st) && IsRun(st, events) && FreshStarts(st, events)
    ensures Inv(After(st, events))
    decreases events
  {
    hide Inv, CanHappen, Happen, Fresh;
    if events == [] {
    } else {
      StepKeeps(st, events[0]);
      RunKeeps(Happen(st, events[0]), events[1..]);
    }
  }

  /** Whatever runs: a pair on the list lies in a session that is not freed, and still owns its sources. */
  lemma ListedPairsLive(events: seq<Event>, j: nat)
    requires IsRun(INITIAL, events) && FreshStarts(INITIAL, events) && j < |After(INITIAL, events).list|
    ensures PairLives(After(INITIAL, events), j)
  {
    hide Inv, IsRun, After, PairLives;
    InitialOk();
    RunKeeps(INITIAL, events);
    ListedLive(After(INITIAL, events), j);
  }

  ghost predicate PairLives(st: State, j: nat)
    requires j < |st.list|
  {
    var p := st.list[j].pair;
    p.session < |st.sessions| && !st.sessions[p.session].freed && Owns(SourcesOf(st.sessions[p.session], p.slot))
  }

  lemma ListedLive(st: State, j: nat)
    requires Inv(st) && j < |st.list|
    ensures PairLives(st, j)
  {
    hide SourcesOk, EntriesOk, LockOk, Once;
    var p := st.list[j].pair;
    SessionAt(st, p.session);
    assert Listed(st.list, p);
    assert p == if p.slot == Send then Pair(p.session, Send) else Pair(p.session, Record);
  }

  // ---------- what each registration receives ----------

  /** The samples of one medium that streaming threads took to the list in a run. */
  function Taken(events: seq<Event>, m: Medium): seq<int> {
    if events == [] then []
    else (if events[0].TakeSample? && events[0].medium == m then [events[0].sample] else []) + Taken(events[1..], m)
  }

  /** Registrations only accumulate; one that was removed is never touched again. */
  ghost predicate Grows(st: State, st': State) {
    && |st.entries| <= |st'.entries|
    && (forall e :: 0 <= e < |st.entries| ==> st'.entries[e].from == st.entries[e].from)
    && (forall e :: 0 <= e < |st.entries| && st.entries[e].to.Some? ==> st'.entries[e] == st.entries[e])
  }

  lemma ListedIsOpen(st: State, j: nat)
    requires EntriesOk(st) && j < |st.list|
    ensures st.list[j].entry < |st.entries| && st.entries[st.list[j].entry].to == None
  {
    NodeEntry(st, j);
  }

  lemma MainGrows(st: State)
    requires Inv(st) && MainCanStep(st)
    ensures Grows(st, MainStep(st)) && MainStep(st).produced == st.produced
  {
    hide SessionsOk, EntriesOk, SourcesOk, ListOk, LockOk;
    var p := PairOf(st.task.op, st.task.session);
    if IndexOf(st.list, p) < |st.list| {
      ListedIsOpen(st, IndexOf(st.list, p));
    }
  }

  lemma StepGrows(st: State, e: Event)
    requires Inv(st) && CanHappen(st, e)
    ensures Grows(st, Happen(st, e))
    ensures forall m :: Happen(st, e).produced.Get(m) == st.produced.Get(m) + Taken([e], m)
  {
    hide SessionsOk, EntriesOk, SourcesOk, ListOk, MainStep, Current;
    if e == Continue {
      MainGrows(st);
    } else if e == PushOne {
      HoldsItsSources(st, st.lock.next);
      ListedIsOpen(st, st.lock.next);
    }
  }

  lemma {:induction false} RunGrows(st: State, events: seq<Event>)
    requires Inv(st) && IsRun(st, events) && FreshStarts(st, events)
    ensures Grows(st, After(st, events))
    ensures forall m :: After(st, events).produced.Get(m) == st.produced.Get(m) + Taken(events, m)
    decreases events
  {
    hide Inv, CanHappen, Happen, Fresh;
    if events == [] {
    } else {
      StepKeeps(st, events[0]);
      StepGrows(st, events[0]);
      RunGrows(Happen(st, events[0]), events[1..]);
      forall m ensures Taken(events, m) == Taken([events[0]], m) + Taken(events[1..], m) {
        assert Taken([], m) == [];
      }
    }
  }

  /** Registration `e` is on the list, and no thread is on its way to it with a sample of this medium. */
  ghost predicate Settled(st: State, m: Medium, e: nat) {
    OnList(st.list, e) && !(st.lock.Stream? && st.lock.medium == m)
  }

  lemma SettledHas(st: State, m: Medium, e: nat)
    requires Inv(st) && Settled(st, m, e)
    ensures e < |st.entries| && Slice(st.entries[e], st.produced, m, |st.produced.Get(m)|)
  {
    hide SessionsOk, EntriesOk, SourcesOk, ListOk, LockOk, Slice;
    var j: nat :| j < |st.list| && st.list[j].entry == e;
    NodeEntry(st, j);
  }

  /** While it stays listed, the sources made for a registration receive exactly the samples taken meanwhile: in order,
      once each, none left out. */
  lemma ReceivesWhileListed(before: seq<Event>, during: seq<Event>, m: Medium, e: nat)
    requires IsRun(INITIAL, before) && FreshStarts(INITIAL, before)
    requires IsRun(After(INITIAL, before), during) && FreshStarts(After(INITIAL, before), during)
    requires Settled(After(INITIAL, before), m, e) && Settled(After(After(INITIAL, before), during), m, e)
    ensures var st, st' := After(INITIAL, before), After(After(INITIAL, before), during);
      && e < |st.entries| <= |st'.entries|
      && st'.entries[e].got.Get(m) == st.entries[e].got.Get(m) + Taken(during, m)
  {
    hide Inv, IsRun, After, Settled, FreshStarts;
    InitialOk();
    RunKeeps(INITIAL, before);
    var st := After(INITIAL, before);
    RunKeeps(st, during);
    RunGrows(st, during);
    SettledHas(st, m, e);
    SettledHas(After(st, during), m, e);
  }

  /** Once removed, a registration's sources have received exactly the samples taken between its append and its removal,
      and never more. */
  lemma ReceivedWhenRemoved(before: seq<Event>, during: seq<Event>, e: nat)
    requires IsRun(INITIAL, before) && FreshStarts(INITIAL, before)
    requires IsRun(After(INITIAL, before), during) && FreshStarts(After(INITIAL, before), during)
    requires e < |After(INITIAL, before).entries| && After(INITIAL, before).entries[e].to.Some?
    ensures var st, st' := After(INITIAL, before), After(After(INITIAL, before), during);
      && e < |st'.entries| && st'.entries[e] == st.entries[e]
      && forall m :: Slice(st.entries[e], st.produced, m, st.entries[e].to.value.Get(m))
  {
    hide Inv, IsRun, After, Slice, FreshStarts;
    InitialOk();
    RunKeeps(INITIAL, before);
    var st := After(INITIAL, before);
    RunGrows(st, during);
    InvEntries(st);
    ClosedEntry(st, e);
  }

  lemma InvEntries(st: State)
    requires Inv(st)
    ensures EntriesOk(st)
  {
  }
}
