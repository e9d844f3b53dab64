/** Edge-triggered readiness of one descriptor entry (`per_fd_data`): registering, dispatching,
    cancelling, closing and recycling, against a kernel that reports an edge once.

    One step is one critical section under `fd_lock`, one system call or one atomic access.
    Each operation carries the phase machine of OperationPhase; holding the slot of its
    direction is what `Held` means there. */
module EpollReadiness {
  import opened OperationPhase
  import opened Behaviors

  type Id = nat

  datatype Bit = In | Out | Err | Hup
  type Dir = b: Bit | b in {In, Out} witness In

  datatype Slot = Empty | Of(id: Id)

  datatype Entry = Entry(events: set<Bit>, readyEvents: set<Bit>, inOp: Slot, outOp: Slot) {
    function At(d: Dir): Slot { if d == In then inOp else outOp }

    function With(d: Dir, slot: Slot): Entry {
      if d == In then this.(inOp := slot) else this.(outOp := slot)
    }
  }

  /** The kernel's side: what is readable or writable now, which directions are watched, and
      which have an edge that no `epoll_wait` has fetched. */
  datatype Kernel = Kernel(level: set<Bit>, interest: set<Bit>, edge: set<Bit>)

  /** `blocked`: the last system call of `do_start` returned EAGAIN. */
  datatype IoOp = IoOp(op: Op, dir: Dir, blocked: bool)

  /** A fetched event, as the dispatch loop will look at it for one direction. */
  datatype Fetched = Fetched(dir: Dir, bits: set<Bit>)

  datatype State = State(
    ops: seq<IoOp>,
    entry: Entry,
    kernel: Kernel,
    batch: seq<Fetched>,  // fetched for this entry, not yet dispatched; some may be stale
    open: bool)

  const NO_ENTRY := Entry({}, {}, Empty, Empty)

  predicate Init(s: State) {
    && (forall i | 0 <= i < |s.ops| :: s.ops[i].op == FRESH && !s.ops[i].blocked)
    && s.entry == NO_ENTRY && s.kernel.interest == {} && s.kernel.edge == {} && s.batch == [] && !s.open
  }

  // ---- the kernel ----

  /** New data or space: an edge, if the direction is watched. */
  predicate Rises(s: State, s': State, d: Dir) {
    s' == s.(kernel := s.kernel.(level := s.kernel.level + {d},
                                 edge := if d in s.kernel.interest then s.kernel.edge + {d} else s.kernel.edge))
  }

  predicate Falls(s: State, s': State, d: Dir) {
    s' == s.(kernel := s.kernel.(level := s.kernel.level - {d}))
  }

  /** `epoll_wait` reports the edges that are still true, and possibly more. */
  predicate Fetches(s: State, s': State, e: set<Bit>) {
    && s.kernel.edge * s.kernel.level <= e <= s.kernel.interest + {Err, Hup}
    && s' == s.(kernel := s.kernel.(edge := {}), batch := s.batch + [Fetched(In, e), Fetched(Out, e)])
  }

  /** `epoll_ctl` ADD or MOD re-polls the level. */
  function Controlled(k: Kernel, ev: set<Bit>): Kernel {
    k.(interest := ev, edge := (k.edge + k.level) * ev)
  }

  // ---- starting an operation ----

  /** A new operation of a direction may begin only when none is starting or waiting there. */
  predicate DirectionFree(s: State, d: Dir) {
    && s.entry.At(d) == Empty
    && forall j | 0 <= j < |s.ops| :: s.ops[j].dir == d ==> s.ops[j].op.starter != Registering
  }

  predicate Starts(s: State, s': State, i: Id) {
    && i < |s.ops| && s.open && Enabled(s.ops[i].op, Start) && DirectionFree(s, s.ops[i].dir)
    && s' == s.(ops := s.ops[i := s.ops[i].(op := Step(s.ops[i].op, Start))])
  }

  /** The system call of `do_start` would block: the descriptor is not ready at this moment. */
  predicate Blocks(s: State, s': State, i: Id) {
    && i < |s.ops| && s.ops[i].op.starter == Registering && !s.ops[i].blocked
    && s.ops[i].dir !in s.kernel.level
    && s' == s.(ops := s.ops[i := s.ops[i].(blocked := true)])
  }

  /** The system call completes or fails, or `epoll_ctl` failed. */
  predicate CompletesInStart(s: State, s': State, i: Id) {
    && i < |s.ops| && Enabled(s.ops[i].op, CompleteInStart)
    && s' == s.(ops := s.ops[i := s.ops[i].(op := Step(s.ops[i].op, CompleteInStart), blocked := false)])
  }

  function Watched(d: Dir): set<Bit> { {d, Err, Hup} }

  /** The mask `register_event` asks for: its own direction and those with a waiting operation. */
  function Mask(e: Entry, d: Dir): set<Bit> {
    {d} + (if e.inOp != Empty then {In} else {}) + (if e.outOp != Empty then {Out} else {})
  }

  /** `register_event` answers `ready`: an edge was recorded while no operation claimed it. */
  predicate RegistersReady(s: State, s': State, i: Id) {
    && i < |s.ops| && s.ops[i].op.starter == Registering && s.ops[i].blocked
    && var d := s.ops[i].dir;
      && s.entry.readyEvents * Watched(d) != {}
      && s' == s.(entry := s.entry.(readyEvents := s.entry.readyEvents - Watched(d)),
                  ops := s.ops[i := s.ops[i].(blocked := false)])
  }

  /** `register_event` answers `armed`; `epoll_ctl` is skipped when the mask does not change. */
  predicate RegistersArmed(s: State, s': State, i: Id) {
    && i < |s.ops| && Enabled(s.ops[i].op, Register) && s.ops[i].blocked
    && var d := s.ops[i].dir;
      && s.entry.readyEvents * Watched(d) == {} && s.entry.At(d) == Empty
      && var ev := Mask(s.entry, d);
        s' == s.(entry := s.entry.(events := ev).With(d, Of(i)),
                 kernel := if ev == s.entry.events then s.kernel else Controlled(s.kernel, ev),
                 ops := s.ops[i := s.ops[i].(op := Step(s.ops[i].op, Register), blocked := false)])
  }

  // ---- taking an operation out of its slot ----

  function TakenBack(o: IoOp): IoOp { o.(op := TakenByBackend(o.op)) }

  /** The slot of one direction is emptied, and whoever was there is to be published. */
  function Emptied(s: State, d: Dir): State {
    var slot := s.entry.At(d);
    s.(entry := s.entry.With(d, Empty),
       ops := if slot.Of? && slot.id < |s.ops| then s.ops[slot.id := TakenBack(s.ops[slot.id])] else s.ops)
  }

  /** One direction of one event in the dispatch loop.  `done` is what `perform` returns: false
      only for EAGAIN, when the descriptor is not ready. */
  predicate Dispatches(s: State, s': State, done: bool) {
    && s.batch != []
    && var d, hit := s.batch[0].dir, s.batch[0].bits * Watched(s.batch[0].dir);
      && (!done ==> d !in s.kernel.level)
      && s' ==
         if hit == {} then s.(batch := s.batch[1..])
         else if s.entry.At(d) == Empty
         then s.(batch := s.batch[1..], entry := s.entry.(readyEvents := s.entry.readyEvents + hit))
         else if !done then s.(batch := s.batch[1..])
         else Emptied(s.(batch := s.batch[1..]), d)
  }

  /** `io_object::cancel` */
  predicate CancelsBoth(s: State, s': State) {
    s' == Emptied(Emptied(s, In), Out)
  }

  /** `cancel_op`: the slot is cleared only when it still holds this very operation. */
  predicate CancelsOp(s: State, s': State, i: Id, act: Act) {
    && i < |s.ops| && CancelPending(s.ops[i].op, act)
    && var d := s.ops[i].dir;
      && act.taken == (s.entry.At(d) == Of(i))
      && s' == s.(entry := if act.taken then s.entry.With(d, Empty) else s.entry,
                  ops := s.ops[i := s.ops[i].(op := AfterCancel(s.ops[i].op, act))])
  }

  // ---- closing and recycling ----

  /** `close`, called when nothing is waiting or starting. */
  predicate Closes(s: State, s': State) {
    && s.open && DirectionFree(s, In) && DirectionFree(s, Out)
    && s' == s.(entry := s.entry.(events := {}), kernel := s.kernel.(interest := {}, edge := {}), open := false)
  }

  /** `new_epoll_data` hands the entry to another descriptor, in whatever state that one is. */
  predicate Recycles(s: State, s': State, level: set<Bit>) {
    && !s.open
    && s' == s.(entry := NO_ENTRY, kernel := Kernel(level, {}, {}), open := true)
  }

  /** Every step that touches only an operation's phase: arming, publishing, posting, stop
      requests, and the end of the operation. */
  predicate IsPhaseStep(act: Act) {
    act in {PublishDirect, Arm, PublishDeferred, Rearm, PostFromStart, CallStop, PublishCancel, PostFromCancel,
            PublishBackend, PostFromBackend, Finish} || act.Defer?
  }

  predicate PhaseSteps(s: State, s': State, i: Id, act: Act) {
    && i < |s.ops| && IsPhaseStep(act) && Enabled(s.ops[i].op, act)
    && s' == s.(ops := s.ops[i := s.ops[i].(op := Step(s.ops[i].op, act))])
  }

  datatype Event =
    | Rise(d: Dir) | Fall(d: Dir) | Fetch(e: set<Bit>)
    | StartOp(i: Id) | Block(i: Id) | CompleteAtOnce(i: Id) | FindReady(i: Id) | ArmOp(i: Id)
    | Dispatch(done: bool) | CancelBoth | CancelOp(i: Id, act: Act)
    | Close | Recycle(level: set<Bit>) | PhaseStep(i: Id, act: Act)

  predicate Happens(s: State, s': State, e: Event) {
    match e
    case Rise(d) => Rises(s, s', d)
    case Fall(d) => Falls(s, s', d)
    case Fetch(bits) => Fetches(s, s', bits)
    case StartOp(i) => Starts(s, s', i)
    case Block(i) => Blocks(s, s', i)
    case CompleteAtOnce(i) => CompletesInStart(s, s', i)
    case FindReady(i) => RegistersReady(s, s', i)
    case ArmOp(i) => RegistersArmed(s, s', i)
    case Dispatch(done) => Dispatches(s, s', done)
    case CancelBoth => CancelsBoth(s, s')
    case CancelOp(i, act) => CancelsOp(s, s', i, act)
    case Close => Closes(s, s')
    case Recycle(level) => Recycles(s, s', level)
    case PhaseStep(i, act) => PhaseSteps(s, s', i, act)
  }

  ghost predicate Next(s: State, s': State) {
    exists e :: Happens(s, s', e)
  }

  // ---- the invariant ----

  /** An edge of `d` is still to come: pending in the kernel, or fetched and not dispatched. */
  predicate EdgeToCome(s: State, d: Dir) {
    d in s.kernel.edge || exists k | 0 <= k < |s.batch| :: s.batch[k].dir == d && d in s.batch[k].bits
  }

  /** A waiting operation whose descriptor is ready has an edge to come; an operation that has
      seen EAGAIN and is about to register has one, or finds it recorded, or changes the mask. */
  predicate Watching(s: State, d: Dir) {
    && (s.entry.At(d) != Empty ==> d in s.kernel.interest && (d in s.kernel.level ==> EdgeToCome(s, d)))
    && (SomeoneBlocked(s, d) && d in s.kernel.level && d in s.kernel.interest ==>
          EdgeToCome(s, d) || d in s.entry.readyEvents)
  }

  predicate SomeoneBlocked(s: State, d: Dir) {
    exists i | 0 <= i < |s.ops| :: s.ops[i].dir == d && s.ops[i].blocked
  }

  /** What one operation says about its slot. */
  predicate Placed(o: IoOp, isHeld: bool, open: bool) {
    && Inv(o.op)
    && (isHeld <==> o.op.token == Held)
    && (o.blocked ==> o.op.starter == Registering)
    && (o.op.starter == Registering ==> open)
  }

  predicate AllPlaced(s: State) {
    forall i | 0 <= i < |s.ops| :: Placed(s.ops[i], s.entry.At(s.ops[i].dir) == Of(i), s.open)
  }

  /** At most one operation per direction is starting, and then nobody waits there. */
  predicate Exclusive(s: State) {
    && (forall i, j | 0 <= i < j < |s.ops| ::
          s.ops[i].op.starter == Registering && s.ops[j].op.starter == Registering ==> s.ops[i].dir != s.ops[j].dir)
    && (forall i | 0 <= i < |s.ops| :: s.ops[i].op.starter == Registering ==> s.entry.At(s.ops[i].dir) == Empty)
  }

  predicate SlotsValid(s: State) {
    forall d: Dir | d in {In, Out} ::
      s.entry.At(d).Of? ==> s.open && s.entry.At(d).id < |s.ops| && s.ops[s.entry.At(d).id].dir == d
  }

  predicate Good(s: State) {
    && AllPlaced(s) && Exclusive(s) && SlotsValid(s)
    && s.kernel.interest == s.entry.events <= {In, Out}
    && Watching(s, In) && Watching(s, Out)
  }

  // ---- each event, seen from an operation ----

  lemma PhasePlaced(o: IoOp, act: Act, held: bool, open: bool)
    requires Placed(o, held, open) && IsPhaseStep(act) && Enabled(o.op, act)
    ensures Placed(o.(op := Step(o.op, act)), held, open)
    ensures Step(o.op, act).starter == Registering <==> o.op.starter == Registering
  {
    hide Inv;
    InvHolds(o.op, act);
  }

  lemma StartPlaced(o: IoOp, held: bool)
    requires Placed(o, held, true) && Enabled(o.op, Start)
    ensures Placed(o.(op := Step(o.op, Start)), held, true)
  {
    InvHolds(o.op, Start);
  }

  lemma CompletePlaced(o: IoOp, held: bool, open: bool)
    requires Placed(o, held, open) && Enabled(o.op, CompleteInStart)
    ensures Placed(o.(op := Step(o.op, CompleteInStart), blocked := false), held, open)
  {
    InvHolds(o.op, CompleteInStart);
  }

  lemma ArmPlaced(o: IoOp, held: bool, open: bool)
    requires Placed(o, held, open) && Enabled(o.op, Register)
    ensures Placed(o.(op := Step(o.op, Register), blocked := false), true, open)
  {
    InvHolds(o.op, Register);
  }

  lemma TakenBackPlaced(o: IoOp, open: bool)
    requires Placed(o, true, open)
    ensures Placed(TakenBack(o), false, open) && !o.blocked
    ensures TakenBack(o).op.starter != Registering && o.op.starter != Registering
  {
    InvHolds(o.op, TakeBack);
  }

  lemma CancelPlaced(o: IoOp, act: Act, held: bool, open: bool)
    requires Placed(o, held, open) && CancelPending(o.op, act) && act.taken == held
    ensures Placed(o.(op := AfterCancel(o.op, act)), held && !act.taken, open)
    ensures AfterCancel(o.op, act).starter != Registering && o.op.starter != Registering
  {
    hide Inv;
    CancelIsStep(o.op, act);
    InvHolds(o.op, act);
    if o.op.canceller == CallCancel {
      CancelConsistent(o.op);
    }
  }

  lemma CancelConsistent(o: Op)
    requires Inv(o) && o.canceller == CallCancel
    ensures o.starter == Started
  {
  }

  // ---- each event, seen from the whole state ----

  /** Only operation `i` changed, if any, and the other operations keep their slots. */
  predicate OnlyAt(s: State, s': State, i: Id) {
    && i < |s.ops| == |s'.ops| && s'.open == s.open && s'.ops[i].dir == s.ops[i].dir
    && (forall j | 0 <= j < |s.ops| && j != i ::
      && s'.ops[j] == s.ops[j]
      && (s'.entry.At(s.ops[j].dir) == Of(j) <==> s.entry.At(s.ops[j].dir) == Of(j)))
  }

  lemma PlacedAt(s: State, s': State, i: Id)
    requires AllPlaced(s) && OnlyAt(s, s', i)
    requires Placed(s'.ops[i], s'.entry.At(s'.ops[i].dir) == Of(i), s'.open)
    ensures AllPlaced(s')
  {
    hide Placed;
    forall j | 0 <= j < |s'.ops|
      ensures Placed(s'.ops[j], s'.entry.At(s'.ops[j].dir) == Of(j), s'.open)
    {
      if j != i {
        assert Placed(s.ops[j], s.entry.At(s.ops[j].dir) == Of(j), s.open);
      }
    }
  }

  lemma KernelKeeps(s: State, s': State, e: Event)
    requires Good(s) && (e.Rise? || e.Fall? || e.Fetch?) && Happens(s, s', e)
    ensures Good(s')
  {
    hide Placed;
    if e.Fetch? {
      assert s'.batch[|s.batch|] == Fetched(In, e.e) && s'.batch[|s.batch| + 1] == Fetched(Out, e.e);
      assert forall k | 0 <= k < |s.batch| :: s'.batch[k] == s.batch[k];
    }
  }

  lemma PhaseStepKeeps(s: State, s': State, i: Id, act: Act)
    requires Good(s) && PhaseSteps(s, s', i, act)
    ensures Good(s')
  {
    hide Placed, Step, Enabled, IsPhaseStep;
    PhasePlaced(s.ops[i], act, s.entry.At(s.ops[i].dir) == Of(i), s.open);
    PlacedAt(s, s', i);
    SameBlocked(s, s');
  }

  lemma SameBlocked(s: State, s': State)
    requires |s'.ops| == |s.ops| && s'.entry == s.entry && s'.kernel == s.kernel && s'.batch == s.batch
    requires forall j | 0 <= j < |s.ops| :: s'.ops[j].dir == s.ops[j].dir && (s'.ops[j].blocked ==> s.ops[j].blocked)
    requires Watching(s, In) && Watching(s, Out)
    ensures Watching(s', In) && Watching(s', Out)
  {
  }

  lemma StartKeeps(s: State, s': State, i: Id)
    requires Good(s) && Starts(s, s', i)
    ensures Good(s')
  {
    hide Placed;
    StartPlaced(s.ops[i], s.entry.At(s.ops[i].dir) == Of(i));
    PlacedAt(s, s', i);
    SameBlocked(s, s');
  }

  lemma BlockKeeps(s: State, s': State, i: Id)
    requires Good(s) && Blocks(s, s', i)
    ensures Good(s')
  {
    hide Inv;
    PlacedAt(s, s', i);
  }

  lemma CompleteKeeps(s: State, s': State, i: Id)
    requires Good(s) && CompletesInStart(s, s', i)
    ensures Good(s')
  {
    hide Placed;
    CompletePlaced(s.ops[i], s.entry.At(s.ops[i].dir) == Of(i), s.open);
    PlacedAt(s, s', i);
    SameBlocked(s, s');
  }

  /** Nobody is blocked in the direction of an operation that is being registered, except it. */
  lemma BlockedAlone(s: State, i: Id, j: Id)
    requires AllPlaced(s) && Exclusive(s) && i < |s.ops| && j < |s.ops|
    requires s.ops[i].op.starter == Registering && s.ops[j].blocked && s.ops[j].dir == s.ops[i].dir
    ensures i == j
  {
    hide Inv;
    assert Placed(s.ops[j], s.entry.At(s.ops[j].dir) == Of(j), s.open);
  }

  lemma UnblockPlaced(o: IoOp, held: bool, open: bool)
    requires Placed(o, held, open)
    ensures Placed(o.(blocked := false), held, open)
  {
  }

  /** A recorded edge goes to the one operation that is being registered in its direction; what is
      recorded for the other direction stays. */
  lemma FindReadyKeeps(s: State, s': State, i: Id)
    requires Good(s) && RegistersReady(s, s', i)
    ensures Good(s') && s'.entry.readyEvents * Watched(s.ops[i].dir) == {}
    ensures forall j | 0 <= j < |s.ops| && s.ops[j].blocked && s.ops[j].dir == s.ops[i].dir :: j == i
    ensures forall d: Dir | d != s.ops[i].dir :: d in s'.entry.readyEvents <==> d in s.entry.readyEvents
  {
    hide Placed;
    UnblockPlaced(s.ops[i], s.entry.At(s.ops[i].dir) == Of(i), s.open);
    PlacedAt(s, s', i);
    forall j | 0 <= j < |s.ops| && s.ops[j].blocked && s.ops[j].dir == s.ops[i].dir
      ensures j == i
    {
      BlockedAlone(s, i, j);
    }
  }

  lemma ArmWatches(s: State, s': State, i: Id)
    requires Good(s) && RegistersArmed(s, s', i)
    ensures Watching(s', In) && Watching(s', Out)
    ensures s'.kernel.interest == s'.entry.events <= {In, Out}
  {
    var d := s.ops[i].dir;
    forall j | 0 <= j < |s.ops| && s'.ops[j].blocked
      ensures s.ops[j].dir != d && s.entry.At(s.ops[j].dir) == Empty
    {
      hide Inv, Watching;
      assert Placed(s.ops[j], s.entry.At(s.ops[j].dir) == Of(j), s.open);
      if s.ops[j].dir == d {
        BlockedAlone(s, i, j);
      }
    }
    hide Placed;
    assert SomeoneBlocked(s, d);
  }

  lemma ArmSlots(s: State, s': State, i: Id)
    requires Good(s) && RegistersArmed(s, s', i)
    ensures SlotsValid(s') && Exclusive(s')
  {
    hide Watching, Inv, Step, Enabled, Controlled, Mask;
    assert Placed(s.ops[i], s.entry.At(s.ops[i].dir) == Of(i), s.open);
    RegisterStarter(s.ops[i].op);
    forall j | 0 <= j < |s.ops| && s'.ops[j].op.starter == Registering
      ensures s'.ops[j] == s.ops[j] && s.ops[j].dir != s.ops[i].dir && s.entry.At(s.ops[j].dir) == Empty
    {
      assert j != i;
    }
    forall e: Dir
      ensures s'.entry.At(e) == if e == s.ops[i].dir then Of(i) else s.entry.At(e)
    {
    }
  }

  lemma ArmKeeps(s: State, s': State, i: Id)
    requires Good(s) && RegistersArmed(s, s', i)
    ensures Good(s')
  {
    ArmWatches(s, s', i);
    ArmSlots(s, s', i);
    hide Placed, Watching, Exclusive, SlotsValid, Step, Enabled, Controlled, Mask;
    ArmPlaced(s.ops[i], s.entry.At(s.ops[i].dir) == Of(i), s.open);
    PlacedAt(s, s', i);
  }

  lemma RegisterStarter(o: Op)
    requires Enabled(o, Register)
    ensures Step(o, Register).starter == TryArm && o.starter == Registering
  {
  }

  lemma TakenBackSame(o: IoOp)
    ensures TakenBack(o).dir == o.dir && TakenBack(o).blocked == o.blocked
  {
  }

  /** Emptying a slot leaves the rest as it was. */
  lemma EmptiedSame(s: State, d: Dir)
    requires AllPlaced(s) && SlotsValid(s)
    ensures var s' := Emptied(s, d);
      && |s'.ops| == |s.ops| && s'.entry == s.entry.With(d, Empty)
      && s' == s.(entry := s'.entry, ops := s'.ops)
      && (forall j | 0 <= j < |s.ops| :: s'.ops[j].dir == s.ops[j].dir && s'.ops[j].blocked == s.ops[j].blocked)
      && (forall j | 0 <= j < |s.ops| ::
            s'.ops[j].op.starter == Registering <==> s.ops[j].op.starter == Registering)
  {
    hide Placed, TakenBack;
    if s.entry.At(d).Of? {
      var i := s.entry.At(d).id;
      assert Placed(s.ops[i], s.entry.At(s.ops[i].dir) == Of(i), s.open);
      TakenBackPlaced(s.ops[i], s.open);
      TakenBackSame(s.ops[i]);
    }
  }

  lemma EmptiedPlaced(s: State, d: Dir)
    requires AllPlaced(s) && SlotsValid(s)
    ensures AllPlaced(Emptied(s, d))
  {
    hide Placed, TakenBack;
    var s' := Emptied(s, d);
    if s.entry.At(d).Of? {
      var i := s.entry.At(d).id;
      assert Placed(s.ops[i], s.entry.At(s.ops[i].dir) == Of(i), s.open);
      TakenBackPlaced(s.ops[i], s.open);
      TakenBackSame(s.ops[i]);
      assert OnlyAt(s, s', i);
      hide AllPlaced;
      PlacedAt(s, s', i);
    }
  }

  lemma EmptiedKeeps(s: State, d: Dir)
    requires Good(s)
    ensures Good(Emptied(s, d))
  {
    EmptiedPlaced(s, d);
    EmptiedSame(s, d);
    hide AllPlaced, Emptied;
  }

  /** An event that is not reported to the direction, or that finds it not ready, may be dropped. */
  lemma DroppedKeeps(s: State, s': State)
    requires Good(s) && s.batch != [] && s' == s.(batch := s.batch[1..])
    requires s.batch[0].dir in s.batch[0].bits ==> s.batch[0].dir !in s.kernel.level
    ensures Good(s')
  {
    hide Placed;
    assert forall k | 0 < k < |s.batch| :: s.batch[k] == s'.batch[k - 1];
  }

  lemma RecordedKeeps(s: State, s': State)
    requires Good(s) && s.batch != [] && s.entry.At(s.batch[0].dir) == Empty
    requires s' == s.(batch := s.batch[1..],
                      entry := s.entry.(readyEvents := s.entry.readyEvents + s.batch[0].bits * Watched(s.batch[0].dir)))
    ensures Good(s')
  {
    hide Placed;
    assert forall k | 0 < k < |s.batch| :: s.batch[k] == s'.batch[k - 1];
  }

  /** Once the slot is empty, nothing waits for the event any more. */
  lemma TakenKeeps(s: State, s': State)
    requires Good(s) && s.batch != [] && s.entry.At(s.batch[0].dir) != Empty
    requires s' == Emptied(s.(batch := s.batch[1..]), s.batch[0].dir)
    ensures Good(s')
  {
    var d, m := s.batch[0].dir, Emptied(s, s.batch[0].dir);
    EmptiedKeeps(s, d);
    assert s' == m.(batch := m.batch[1..]) && m.batch == s.batch && m.entry.At(d) == Empty;
    NobodyBlocked(s, d);
    EmptiedSame(s, d);
    assert !SomeoneBlocked(m, d) by {
      hide Emptied, Good;
    }
    hide Emptied;
    IdleDropKeeps(m, s');
  }

  lemma IdleDropKeeps(s: State, s': State)
    requires Good(s) && s.batch != [] && s' == s.(batch := s.batch[1..])
    requires s.entry.At(s.batch[0].dir) == Empty && !SomeoneBlocked(s, s.batch[0].dir)
    ensures Good(s')
  {
    hide Placed;
    assert forall k | 0 < k < |s.batch| :: s.batch[k] == s'.batch[k - 1];
  }

  lemma NobodyBlocked(s: State, d: Dir)
    requires AllPlaced(s) && Exclusive(s) && s.entry.At(d) != Empty
    ensures !SomeoneBlocked(s, d)
  {
    hide Inv;
    forall j | 0 <= j < |s.ops| && s.ops[j].dir == d
      ensures !s.ops[j].blocked
    {
      assert Placed(s.ops[j], s.entry.At(s.ops[j].dir) == Of(j), s.open);
    }
  }

  lemma DispatchKeeps(s: State, s': State, done: bool)
    requires Good(s) && Dispatches(s, s', done)
    ensures Good(s')
  {
    hide Good, Emptied;
    var d, hit := s.batch[0].dir, s.batch[0].bits * Watched(s.batch[0].dir);
    assert d in hit <==> d in s.batch[0].bits;
    if hit == {} || (s.entry.At(d) != Empty && !done) {
      DroppedKeeps(s, s');
    } else if s.entry.At(d) == Empty {
      RecordedKeeps(s, s');
    } else {
      TakenKeeps(s, s');
    }
  }

  /** Whoever is in the slot is taken out, to be published; everybody else stays as he is. */
  lemma EmptiedTakes(s: State, d: Dir)
    requires Good(s)
    ensures var s' := Emptied(s, d);
      && |s'.ops| == |s.ops| && s'.entry == s.entry.With(d, Empty)
      && (forall i | 0 <= i < |s.ops| ::
            if s.entry.At(d) == Of(i)
            then s'.ops[i].op.publisher == BackendPublish && s'.ops[i].op.token == Taken(false)
            else s'.ops[i] == s.ops[i])
  {
    hide Placed, Watching, Exclusive;
  }

  /** What `cancel` must do: both slots are empty, and exactly those who were in one are to be published. */
  predicate BothTaken(s: State, s': State) {
    && |s'.ops| == |s.ops| && s'.entry.inOp == s'.entry.outOp == Empty && s'.entry.readyEvents == s.entry.readyEvents
    && (forall i | 0 <= i < |s.ops| ::
          if s.entry.inOp == Of(i) || s.entry.outOp == Of(i)
          then s'.ops[i].op.publisher == BackendPublish && s'.ops[i].op.token == Taken(false)
          else s'.ops[i] == s.ops[i])
  }

  lemma CancelBothKeeps(s: State, s': State)
    requires Good(s) && CancelsBoth(s, s')
    ensures Good(s') && BothTaken(s, s')
  {
    hide Good, Emptied;
    EmptiedKeeps(s, In);
    EmptiedKeeps(Emptied(s, In), Out);
    EmptiedTakes(s, In);
    EmptiedTakes(Emptied(s, In), Out);
  }

  lemma CancelOpAllPlaced(s: State, s': State, i: Id, act: Act)
    requires Good(s) && CancelsOp(s, s', i, act)
    ensures AllPlaced(s') && AfterCancel(s.ops[i].op, act).starter != Registering
    ensures s.ops[i].op.starter != Registering
  {
    hide Placed, AfterCancel, CancelPending, Watching;
    CancelPlaced(s.ops[i], act, s.entry.At(s.ops[i].dir) == Of(i), s.open);
    PlacedAt(s, s', i);
  }

  lemma CancelOpWatches(s: State, s': State, i: Id, act: Act)
    requires Good(s) && CancelsOp(s, s', i, act)
    ensures Watching(s', In) && Watching(s', Out)
  {
    hide AllPlaced, Exclusive, SlotsValid, AfterCancel, CancelPending;
  }

  lemma CancelOpKeeps(s: State, s': State, i: Id, act: Act)
    requires Good(s) && CancelsOp(s, s', i, act)
    ensures Good(s') && forall d: Dir | s.entry.At(d) != Of(i) :: s'.entry.At(d) == s.entry.At(d)
  {
    hide AllPlaced, Watching, AfterCancel;
    CancelOpAllPlaced(s, s', i, act);
    CancelOpWatches(s, s', i, act);
    assert forall e: Dir :: s'.entry.At(e) == if act.taken && e == s.ops[i].dir then Empty else s.entry.At(e);
  }

  lemma CloseKeeps(s: State, s': State)
    requires Good(s) && (Closes(s, s') || exists level :: Recycles(s, s', level))
    ensures Good(s')
  {
    hide Inv;
    forall j | 0 <= j < |s.ops|
      ensures Placed(s'.ops[j], s'.entry.At(s'.ops[j].dir) == Of(j), s'.open) && !s.ops[j].blocked
    {
      assert Placed(s.ops[j], s.entry.At(s.ops[j].dir) == Of(j), s.open);
    }
  }

  lemma GoodHolds(s: State, s': State)
    requires Good(s) && Next(s, s')
    ensures Good(s')
  {
    hide Good, Starts, Blocks, CompletesInStart, RegistersReady, RegistersArmed, Dispatches, CancelsBoth, CancelsOp,
         Closes, Recycles, PhaseSteps, Rises, Falls, Fetches;
    var e :| Happens(s, s', e);
    match e
    case Rise(_) => KernelKeeps(s, s', e);
    case Fall(_) => KernelKeeps(s, s', e);
    case Fetch(_) => KernelKeeps(s, s', e);
    case StartOp(i) => StartKeeps(s, s', i);
    case Block(i) => BlockKeeps(s, s', i);
    case CompleteAtOnce(i) => CompleteKeeps(s, s', i);
    case FindReady(i) => FindReadyKeeps(s, s', i);
    case ArmOp(i) => ArmKeeps(s, s', i);
    case Dispatch(done) => DispatchKeeps(s, s', done);
    case CancelBoth => CancelBothKeeps(s, s');
    case CancelOp(i, act) => CancelOpKeeps(s, s', i, act);
    case Close => CloseKeeps(s, s');
    case Recycle(_) => CloseKeeps(s, s');
    case PhaseStep(i, act) => PhaseStepKeeps(s, s', i, act);
  }

  lemma GoodAtFirst(s: State)
    requires Init(s)
    ensures Good(s)
  {
  }

  /** A waiting operation is never forgotten: while its direction is ready, an edge that will
      reach the dispatch loop is pending in the kernel or already fetched. */
  predicate NeverLost(s: State) {
    forall d: Dir | d in {In, Out} ::
      s.entry.At(d).Of? ==> d in s.kernel.interest && (d in s.kernel.level ==> EdgeToCome(s, d))
  }

  /** Each operation is taken back, published and posted at most once, by one party. */
  predicate PublishedOnce(s: State) {
    forall i | 0 <= i < |s.ops| ::
      var o, held := s.ops[i].op, s.entry.At(s.ops[i].dir) == Of(i);
      && Owed(o) <= 1 && (held ==> Owed(o) == 0 && o.posts == 0)
      && o.posts <= 1 && (o.posts == 1 ==> o.phase == Completed && Owed(o) == 0)
      && (AtRest(o) ==> o.posts == if held then 0 else 1)
      // a stop request that has been delivered has taken it out of its slot
      && (AtRest(o) && o.canceller == Returned ==> !held)
  }

  lemma GoodIsPublishedOnce(s: State)
    requires Good(s)
    ensures PublishedOnce(s)
  {
    forall i | 0 <= i < |s.ops|
      ensures Placed(s.ops[i], s.entry.At(s.ops[i].dir) == Of(i), s.open)
      ensures AtRest(s.ops[i].op) ==>
                s.ops[i].op.posts == if s.entry.At(s.ops[i].dir) == Of(i) then 0 else 1
      ensures AtRest(s.ops[i].op) && s.ops[i].op.canceller == Returned ==> s.ops[i].op.token != Held
    {
      if AtRest(s.ops[i].op) {
        RestIsDecided(s.ops[i].op);
        if s.ops[i].op.canceller == Returned {
          StopIsHeard(s.ops[i].op);
        }
      }
    }
  }

  lemma GoodInRun(run: seq<State>, k: nat)
    requires IsRun(Init, Next, run) && k < |run|
    ensures Good(run[k])
  {
    forall s | Init(s)
      ensures Good(s)
    {
      GoodAtFirst(s);
    }
    forall s, s' | Good(s) && Next(s, s')
      ensures Good(s')
    {
      GoodHolds(s, s');
    }
    AlongRun(Init, Next, Good, run);
  }

  /** In every state of every interleaving, including after closing and recycling. */
  lemma ReadinessIsNeverLost(run: seq<State>, k: nat)
    requires IsRun(Init, Next, run) && k < |run|
    ensures NeverLost(run[k]) && PublishedOnce(run[k])
  {
    GoodInRun(run, k);
    GoodIsPublishedOnce(run[k]);
  }

  // ---- what is to come does come ----

  /** `events[k]` leads from `run[k]` to `run[k + 1]`. */
  predicate Traced(run: seq<State>, events: seq<Event>) {
    |run| == |events| + 1 && forall k | 0 <= k < |events| :: Happens(run[k], run[k + 1], events[k])
  }

  lemma TraceStep(run: seq<State>, events: seq<Event>, k: nat)
    requires Traced(run, events) && k < |run| - 1
    ensures |run| == |events| + 1 && Happens(run[k], run[k + 1], events[k])
  {
  }

  function DispatchCount(events: seq<Event>): nat {
    if events == [] then 0 else (if events[0].Dispatch? then 1 else 0) + DispatchCount(events[1..])
  }

  lemma CountNext(events: seq<Event>, a: nat, b: nat)
    requires a < b <= |events|
    ensures DispatchCount(events[a..b]) == (if events[a].Dispatch? then 1 else 0) + DispatchCount(events[a + 1..b])
  {
    assert events[a..b][1..] == events[a + 1..b];
  }

  predicate ReadyThroughout(run: seq<State>, a: nat, b: nat, d: Dir) {
    a <= b < |run| && forall k | a <= k <= b :: d in run[k].kernel.level
  }

  lemma ReadyAt(run: seq<State>, a: nat, b: nat, d: Dir, k: nat)
    requires ReadyThroughout(run, a, b, d) && a <= k <= b
    ensures k < |run| && d in run[k].kernel.level && ReadyThroughout(run, k, b, d)
  {
  }

  /** An operation that was taken out of its slot never gets back into one. */
  predicate IsOut(s: State, i: Id) {
    i < |s.ops| && s.ops[i].op.token.Taken?
  }

  lemma TokenSteps(o: Op, act: Act)
    requires Inv(o) && Enabled(o, act) && o.token.Taken?
    ensures act !in {Register, CompleteInStart, TakeBack} && Step(o, act).token.Taken?
  {
  }

  lemma CancelledStaysOut(o: Op, act: Act)
    requires CancelPending(o, act) && o.token.Taken?
    ensures AfterCancel(o, act).token.Taken?
  {
  }

  lemma EmptiedStaysOut(s: State, d: Dir, i: Id)
    requires IsOut(s, i)
    ensures IsOut(Emptied(s, d), i)
  {
  }

  lemma StaysOut(s: State, s': State, e: Event, i: Id)
    requires Good(s) && Happens(s, s', e) && IsOut(s, i)
    ensures IsOut(s', i)
  {
    hide Inv, Step, Enabled, AfterCancel, CancelPending, Watching, Exclusive, Emptied;
    assert Placed(s.ops[i], s.entry.At(s.ops[i].dir) == Of(i), s.open);
    match e
    case StartOp(j) => if j == i { TokenSteps(s.ops[i].op, Start); }
    case CompleteAtOnce(j) => if j == i { TokenSteps(s.ops[i].op, CompleteInStart); }
    case ArmOp(j) => if j == i { TokenSteps(s.ops[i].op, Register); }
    case PhaseStep(j, act) => if j == i { TokenSteps(s.ops[i].op, act); }
    case CancelOp(j, act) => if j == i { CancelledStaysOut(s.ops[i].op, act); }
    case Dispatch(_) => EmptiedStaysOut(s.(batch := s.batch[1..]), s.batch[0].dir, i);
    case CancelBoth =>
      EmptiedStaysOut(s, In, i);
      EmptiedStaysOut(Emptied(s, In), Out, i);
    case _ =>
  }

  lemma OutOfSlot(s: State, i: Id, d: Dir)
    requires Good(s) && IsOut(s, i)
    ensures s.entry.At(d) != Of(i)
  {
    hide Inv;
    assert Placed(s.ops[i], s.entry.At(s.ops[i].dir) == Of(i), s.open);
  }

  /** A step either leaves an operation in its slot or takes it out for good. */
  lemma SlotSteps(s: State, s': State, e: Event, i: Id, d: Dir)
    requires Good(s) && Happens(s, s', e) && s.entry.At(d) == Of(i)
    ensures i < |s'.ops| && (s'.entry.At(d) == Of(i) || IsOut(s', i))
  {
    hide Inv, Step, Enabled, Watching;
    assert Placed(s.ops[i], s.entry.At(s.ops[i].dir) == Of(i), s.open);
  }

  /** An edge of `d` is among the next `m` events of the batch. */
  predicate EdgeWithin(s: State, d: Dir, m: nat) {
    exists k | 0 <= k < |s.batch| && k < m :: s.batch[k].dir == d && d in s.batch[k].bits
  }

  /** Every dispatch brings the edge nearer, and the one that meets it takes the operation. */
  lemma EdgeComesNearer(s: State, s': State, e: Event, i: Id, d: Dir, m: nat)
    requires Good(s) && Happens(s, s', e) && d in s.kernel.level
    requires s.entry.At(d) == Of(i) && s'.entry.At(d) == Of(i) && EdgeWithin(s, d, m)
    ensures if e.Dispatch? then m > 0 && EdgeWithin(s', d, m - 1) else EdgeWithin(s', d, m)
  {
    hide Placed, Good, Step, Enabled, AfterCancel, CancelPending;
    var k :| 0 <= k < |s.batch| && k < m && s.batch[k].dir == d && d in s.batch[k].bits;
    if e.Dispatch? {
      assert d in s.batch[k].bits * Watched(s.batch[k].dir);
      if k == 0 {
        assert false;
      }
      assert s'.batch[k - 1] == s.batch[k];
    } else {
      assert s'.batch[k] == s.batch[k];
    }
  }

  lemma {:induction false} BatchIsDispatched(run: seq<State>, events: seq<Event>, a: nat, b: nat, i: Id, d: Dir, m: nat)
    requires IsRun(Init, Next, run) && Traced(run, events) && ReadyThroughout(run, a, b, d) && a <= b <= |events|
    requires IsOut(run[a], i) || (run[a].entry.At(d) == Of(i) && EdgeWithin(run[a], d, m))
    requires DispatchCount(events[a..b]) >= m
    ensures IsOut(run[b], i)
    decreases b - a
  {
    hide Good, Happens, IsOut, EdgeWithin, Traced, ReadyThroughout, DispatchCount, Next, Init;
    ReadyAt(run, a, b, d, a);
    if a == b {
      NothingCounted(events, a);
      NothingWithin(run[a], d);
    } else {
      GoodInRun(run, a);
      TraceStep(run, events, a);
      ReadyAt(run, a, b, d, a + 1);
      CountNext(events, a, b);
      var rest := if events[a].Dispatch? && m > 0 then m - 1 else m;
      if IsOut(run[a], i) {
        StaysOut(run[a], run[a + 1], events[a], i);
      } else {
        SlotSteps(run[a], run[a + 1], events[a], i, d);
        if !IsOut(run[a + 1], i) {
          EdgeComesNearer(run[a], run[a + 1], events[a], i, d, m);
        }
      }
      BatchIsDispatched(run, events, a + 1, b, i, d, rest);
    }
  }

  lemma NothingCounted(events: seq<Event>, a: nat)
    requires a <= |events|
    ensures DispatchCount(events[a..a]) == 0
  {
  }

  lemma NothingWithin(s: State, d: Dir)
    ensures !EdgeWithin(s, d, 0)
  {
  }

  /** `epoll_wait` puts every edge to come, if its direction is still ready, into the batch. */
  lemma FetchDelivers(s: State, s': State, e: Event, d: Dir)
    requires Good(s) && Happens(s, s', e) && e.Fetch? && s.entry.At(d).Of? && d in s.kernel.level
    ensures EdgeWithin(s', d, |s'.batch|)
  {
    hide Placed;
    if d in s.kernel.edge {
      var k := if d == In then |s.batch| else |s.batch| + 1;
      assert s'.batch[k] == Fetched(d, e.e);
    } else {
      var k :| 0 <= k < |s.batch| && s.batch[k].dir == d && d in s.batch[k].bits;
      assert s'.batch[k] == s.batch[k];
    }
  }

  lemma {:induction false} InSlotOrOut(run: seq<State>, events: seq<Event>, a: nat, b: nat, i: Id, d: Dir)
    requires IsRun(Init, Next, run) && Traced(run, events) && a <= b < |run|
    requires run[a].entry.At(d) == Of(i) || IsOut(run[a], i)
    ensures run[b].entry.At(d) == Of(i) || IsOut(run[b], i)
    decreases b - a
  {
    hide Good, Happens, IsOut, Traced, Next, Init;
    if a < b {
      GoodInRun(run, a);
      TraceStep(run, events, a);
      if IsOut(run[a], i) {
        StaysOut(run[a], run[a + 1], events[a], i);
      } else {
        SlotSteps(run[a], run[a + 1], events[a], i, d);
      }
      InSlotOrOut(run, events, a + 1, b, i, d);
    }
  }

  /** What is to come does come, in every run and whatever else happens in between: while the
      direction of a waiting operation stays ready, one `epoll_wait` (at `f`) and as many dispatches
      as the batch then holds take the operation out of its slot, for good, so that it is published. */
  lemma EdgeIsDelivered(run: seq<State>, events: seq<Event>, a: nat, f: nat, b: nat, i: Id, d: Dir)
    requires IsRun(Init, Next, run) && Traced(run, events)
    requires a <= f < b < |run| && run[a].entry.At(d) == Of(i) && ReadyThroughout(run, a, b, d)
    requires events[f].Fetch? && DispatchCount(events[f + 1..b]) >= |run[f + 1].batch|
    ensures i < |run[b].ops| && run[b].entry.At(d) != Of(i)
    ensures var o := run[b].ops[i].op; o.token.Taken? && o.posts + Owed(o) + Posting(o) == 1
  {
    hide Traced, Happens, IsOut, EdgeWithin, Good, ReadyThroughout, DispatchCount, Next, Init;
    InSlotOrOut(run, events, a, f, i, d);
    GoodInRun(run, f);
    TraceStep(run, events, f);
    ReadyAt(run, a, b, d, f);
    if IsOut(run[f], i) {
      StaysOut(run[f], run[f + 1], events[f], i);
    } else {
      FetchDelivers(run[f], run[f + 1], events[f], d);
      SlotSteps(run[f], run[f + 1], events[f], i, d);
    }
    ReadyAt(run, a, b, d, f + 1);
    BatchIsDispatched(run, events, f + 1, b, i, d, |run[f + 1].batch|);
    GoodInRun(run, b);
    OutOfSlot(run[b], i, d);
    OutIsPublished(run[b], i);
  }

  /** An operation that was taken out is still to be published, or to be posted, or has been. */
  lemma OutIsPublished(s: State, i: Id)
    requires Good(s) && IsOut(s, i)
    ensures i < |s.ops| && s.ops[i].op.token.Taken?
    ensures s.ops[i].op.posts + Owed(s.ops[i].op) + Posting(s.ops[i].op) == 1
  {
    assert Placed(s.ops[i], s.entry.At(s.ops[i].dir) == Of(i), s.open);
  }

  /** In every run, `cancel` leaves nobody waiting. */
  lemma CancelTakesBoth(run: seq<State>, k: nat)
    requires IsRun(Init, Next, run) && k < |run| - 1 && Happens(run[k], run[k + 1], CancelBoth)
    ensures BothTaken(run[k], run[k + 1])
  {
    GoodInRun(run, k);
    CancelBothKeeps(run[k], run[k + 1]);
  }

  /** `register_event` always has an answer: in every state of every run an operation that is being
      registered finds the slot of its direction empty, as the code asserts, and either a recorded
      edge or its place in the slot. */
  lemma RegistrationGoesOn(run: seq<State>, k: nat, i: Id) returns (e: Event, s': State)
    requires IsRun(Init, Next, run) && k < |run| && i < |run[k].ops| && run[k].ops[i].blocked
    ensures run[k].entry.At(run[k].ops[i].dir) == Empty
    ensures (e == FindReady(i) || e == ArmOp(i)) && Happens(run[k], s', e)
  {
    GoodInRun(run, k);
    e, s' := Answer(run[k], i);
  }

  lemma Answer(s: State, i: Id) returns (e: Event, s': State)
    requires Good(s) && i < |s.ops| && s.ops[i].blocked
    ensures s.entry.At(s.ops[i].dir) == Empty
    ensures (e == FindReady(i) || e == ArmOp(i)) && Happens(s, s', e)
  {
    hide Inv, Watching;
    var o, d := s.ops[i], s.ops[i].dir;
    assert Placed(o, s.entry.At(d) == Of(i), s.open);
    if s.entry.readyEvents * Watched(d) != {} {
      e := FindReady(i);
      s' := s.(entry := s.entry.(readyEvents := s.entry.readyEvents - Watched(d)),
               ops := s.ops[i := o.(blocked := false)]);
    } else {
      var ev := Mask(s.entry, d);
      e := ArmOp(i);
      s' := s.(entry := s.entry.(events := ev).With(d, Of(i)),
               kernel := if ev == s.entry.events then s.kernel else Controlled(s.kernel, ev),
               ops := s.ops[i := o.(op := Step(o.op, Register), blocked := false)]);
    }
  }

  /** In every state of every run, a started operation that has not finished has a next step of its
      own, or it waits in its slot and can be asked to stop. */
  lemma OperationGoesOn(run: seq<State>, k: nat, i: Id) returns (e: Event, s': State)
    requires IsRun(Init, Next, run) && k < |run| && i < |run[k].ops|
    requires run[k].ops[i].op.starter != NotStarted && !run[k].ops[i].op.finished
    ensures Happens(run[k], s', e) && Concerns(e, i)
    ensures var o := run[k].ops[i]; IsWaiting(o.op) ==> run[k].entry.At(o.dir) == Of(i) && e == PhaseStep(i, CallStop)
  {
    GoodInRun(run, k);
    e, s' := OperationStep(run[k], i);
  }

  /** Of the operation `i` itself. */
  predicate Concerns(e: Event, i: Id) {
    (e.Block? || e.CompleteAtOnce? || e.FindReady? || e.ArmOp? || e.CancelOp? || e.PhaseStep?) && e.i == i
  }

  lemma OperationStep(s: State, i: Id) returns (e: Event, s': State)
    requires Good(s) && i < |s.ops| && s.ops[i].op.starter != NotStarted && !s.ops[i].op.finished
    ensures Happens(s, s', e) && Concerns(e, i)
    ensures IsWaiting(s.ops[i].op) ==> s.entry.At(s.ops[i].dir) == Of(i) && e == PhaseStep(i, CallStop)
  {
    hide Inv, Step, Enabled, AfterCancel, Watching, Exclusive, SlotsValid;
    var o, d := s.ops[i], s.ops[i].dir;
    assert Placed(o, s.entry.At(d) == Of(i), s.open);
    var act := NextAct(o.op);
    if IsPhaseStep(act) {
      e, s' := PhaseStep(i, act), s.(ops := s.ops[i := o.(op := Step(o.op, act))]);
    } else if act.CancelDeferredNow? || act.CancelNow? {
      e := CancelOp(i, act);
      s' := s.(entry := if act.taken then s.entry.With(d, Empty) else s.entry,
               ops := s.ops[i := o.(op := AfterCancel(o.op, act))]);
    } else if o.blocked {
      e, s' := Answer(s, i);
    } else if d in s.kernel.level {
      e := CompleteAtOnce(i);
      s' := s.(ops := s.ops[i := o.(op := Step(o.op, CompleteInStart), blocked := false)]);
    } else {
      e, s' := Block(i), s.(ops := s.ops[i := o.(blocked := true)]);
    }
  }

  lemma NextAct(o: Op) returns (act: Act)
    requires Inv(o) && o.starter != NotStarted && !o.finished
    ensures IsPhaseStep(act) || act.CancelDeferredNow? || act.CancelNow? || act == Register
    ensures Enabled(o, act)
    ensures act.CancelDeferredNow? || act.CancelNow? ==> CancelPending(o, act) && act.taken == (o.token == Held)
    ensures IsWaiting(o) ==> act == CallStop
    ensures act == Register ==> o.starter == Registering && Enabled(o, CompleteInStart)
  {
    act := SomebodyGoesOn(o);
    if IsWaiting(o) {
      act := CallStop;
    }
  }

  // ---- what may happen at any time ----

  /** Any operations, and any level of the first descriptor. */
  lemma CanStart(dirs: seq<Dir>, level: set<Bit>) returns (s: State)
    ensures Init(s) && |s.ops| == |dirs| && s.kernel.level == level
    ensures forall i | 0 <= i < |dirs| :: s.ops[i].dir == dirs[i]
  {
    s := State(seq(|dirs|, i requires 0 <= i < |dirs| => IoOp(FRESH, dirs[i], false)), NO_ENTRY,
               Kernel(level, {}, {}), [], false);
  }

  lemma EdgesAreWatched(run: seq<State>, k: nat)
    requires IsRun(Init, Next, run) && k < |run|
    ensures run[k].kernel.edge <= run[k].kernel.interest
  {
    AlongRun(Init, Next, (s: State) => s.kernel.edge <= s.kernel.interest, run);
  }

  /** In every state of every run `epoll_wait` can be called and reports all edges that are still true;
      an event that was fetched can be dispatched, whatever the system call then finds. */
  lemma FetchAndDispatch(run: seq<State>, k: nat, done: bool)
    requires IsRun(Init, Next, run) && k < |run|
    ensures exists s' :: Happens(run[k], s', Fetch(run[k].kernel.edge * run[k].kernel.level))
    ensures run[k].batch != [] && (done || run[k].batch[0].dir !in run[k].kernel.level) ==>
              exists s' :: Happens(run[k], s', Dispatch(done))
  {
    EdgesAreWatched(run, k);
    var s := run[k];
    var e := s.kernel.edge * s.kernel.level;
    assert Happens(s, s.(kernel := s.kernel.(edge := {}), batch := s.batch + [Fetched(In, e), Fetched(Out, e)]),
                   Fetch(e));
    if s.batch != [] && (done || s.batch[0].dir !in s.kernel.level) {
      var d, hit := s.batch[0].dir, s.batch[0].bits * Watched(s.batch[0].dir);
      var t := s.(batch := s.batch[1..]);
      var s' := if hit == {} then t
                else if s.entry.At(d) == Empty
                then t.(entry := s.entry.(readyEvents := s.entry.readyEvents + hit))
                else if !done then t
                else Emptied(t, d);
      assert Happens(s, s', Dispatch(done));
    }
  }

  /** A direction is free again when nobody there has anything left to do. */
  lemma FreeWhenFinished(run: seq<State>, k: nat, d: Dir)
    requires IsRun(Init, Next, run) && k < |run|
    requires forall j | 0 <= j < |run[k].ops| && run[k].ops[j].dir == d ::
               run[k].ops[j].op.starter == NotStarted || run[k].ops[j].op.finished
    ensures DirectionFree(run[k], d)
  {
    GoodInRun(run, k);
    var s := run[k];
    forall j | 0 <= j < |s.ops| && s.ops[j].dir == d
      ensures s.ops[j].op.starter != Registering && s.entry.At(d) != Of(j)
    {
      assert Placed(s.ops[j], s.entry.At(d) == Of(j), s.open);
    }
  }

  /** Readiness comes and goes, `cancel` may be called at any time, and an operation may start on an open
      descriptor whose direction is free; one that nobody uses may be closed, and its entry recycled. */
  lemma UsersMayAct(s: State, d: Dir, i: Id, level: set<Bit>)
    ensures exists s' :: Happens(s, s', Rise(d)) && d in s'.kernel.level
    ensures exists s' :: Happens(s, s', Fall(d)) && d !in s'.kernel.level
    ensures Happens(s, Emptied(Emptied(s, In), Out), CancelBoth)
    ensures i < |s.ops| && s.open && s.ops[i].op.starter == NotStarted && DirectionFree(s, s.ops[i].dir) ==>
              exists s' :: Happens(s, s', StartOp(i))
    ensures s.open && DirectionFree(s, In) && DirectionFree(s, Out) ==> exists s' :: Happens(s, s', Close) && !s'.open
    ensures !s.open ==> exists s' :: Happens(s, s', Recycle(level)) && s'.open && s'.kernel.level == level
  {
    var edge := if d in s.kernel.interest then s.kernel.edge + {d} else s.kernel.edge;
    assert Happens(s, s.(kernel := s.kernel.(level := s.kernel.level + {d}, edge := edge)), Rise(d));
    assert Happens(s, s.(kernel := s.kernel.(level := s.kernel.level - {d})), Fall(d));
    if i < |s.ops| && s.open && s.ops[i].op.starter == NotStarted && DirectionFree(s, s.ops[i].dir) {
      assert Happens(s, s.(ops := s.ops[i := s.ops[i].(op := Step(s.ops[i].op, Start))]), StartOp(i));
    }
    if s.open && DirectionFree(s, In) && DirectionFree(s, Out) {
      var kernel := s.kernel.(interest := {}, edge := {});
      assert Happens(s, s.(entry := s.entry.(events := {}), kernel := kernel, open := false), Close);
    }
    assert s.open || Happens(s, s.(entry := NO_ENTRY, kernel := Kernel(level, {}, {}), open := true), Recycle(level));
  }
}
