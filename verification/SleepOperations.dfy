/** Any number of sleep operations on one loop: the phase machine of each, the timer heap that
    holds them, the chain of ready timers, and the queue the consumer drains.

    A state is what one atomic step leaves behind; any party of any operation may take the
    next step.  The timers with `inHeap` are the contents that TimerQueues.TimerQueue keeps,
    the queue is the sequence that OpQueues keeps. */
module SleepOperations {
  import opened OperationPhase
  import opened Behaviors
  import opened Sequences

  type Id = nat

  /** The `next_` link of a node: null, a successor in the chain of ready timers, or in the
      hands of the op queue. */
  datatype Link = Null | To(id: Id) | Queued

  datatype Outcome = Pending | Value | Stopped

  /** `marking` is the stretch of `do_cancel` between a removal that took the timer off the heap and
      the write of `canceled_`. */
  datatype Timer = Timer(
    op: Op, deadline: int, inHeap: bool, next: Link, marking: bool, canceled: bool, outcome: Outcome)

  /** In `publish_pending`: Publishing has cleared the link and is about to exchange the phase. */
  datatype Consumer = Idle | Publishing(id: Id) | Posting(id: Id)

  datatype State = State(
    timers: seq<Timer>,
    now: int,
    cursor: Link,        // `op` in `publish_pending`: the next to be published
    consumer: Consumer,
    queue: seq<Id>,
    ready: seq<Id>)      // auxiliary: taken off the heap, not yet published

  predicate Init(s: State) {
    && (forall i | 0 <= i < |s.timers| :: 
      s.timers[i] == Timer(FRESH, s.timers[i].deadline, false, Null, false, false, Pending))
    && s.cursor == Null && s.consumer == Idle && s.queue == [] && s.ready == []
  }

  // ---- the steps ----

  /** The steps of `start` and `request_cancel` that touch only the operation's own phase. */
  predicate IsLocal(act: Act) {
    act in {Start, Arm, PublishDeferred, Rearm, CallStop, PublishCancel} || act.Defer?
  }

  predicate Ticks(s: State, s': State, to: int) {
    s.now <= to && s' == s.(now := to)
  }

  /** `do_cancel` publishes only after it has written `canceled_`. */
  predicate Locally(s: State, s': State, i: Id, act: Act) {
    && i < |s.timers| && IsLocal(act) && Enabled(s.timers[i].op, act)
    && (act in {PublishDeferred, PublishCancel} ==> !s.timers[i].marking)
    && s' == s.(timers := s.timers[i := s.timers[i].(op := Step(s.timers[i].op, act))])
  }

  /** `do_start` */
  predicate Adds(s: State, s': State, i: Id) {
    && i < |s.timers| && Enabled(s.timers[i].op, Register)
    && s' == s.(timers := s.timers[i := s.timers[i].(op := Step(s.timers[i].op, Register), inHeap := true)])
  }

  /** The removal in `do_cancel`, by the starter or by the stop callback. */
  predicate Removes(s: State, s': State, i: Id, act: Act) {
    && i < |s.timers| && CancelPending(s.timers[i].op, act) && act.taken == s.timers[i].inHeap
    && s' == s.(timers := s.timers[i := Removed(s.timers[i], act)])
  }

  function Removed(t: Timer, act: Act): Timer
    requires CancelPending(t.op, act)
  {
    t.(op := AfterCancel(t.op, act), inHeap := false, marking := t.marking || act.taken)
  }

  /** `canceled_ = true`, before the publish. */
  predicate Marks(s: State, s': State, i: Id) {
    && i < |s.timers| && s.timers[i].marking
    && s' == s.(timers := s.timers[i := s.timers[i].(marking := false, canceled := true)])
  }

  /** `immediately_post`, by the starter or by the stop callback. */
  predicate Posts(s: State, s': State, i: Id, act: Act) {
    && i < |s.timers| && act in {PostFromStart, PostFromCancel} && Enabled(s.timers[i].op, act)
    && s' == s.(timers := s.timers[i := s.timers[i].(op := Step(s.timers[i].op, act), next := Queued)],
                queue := s.queue + [i])
  }

  /** The position of `x` in `xs`. */
  function Position(xs: seq<Id>, x: Id): (p: nat)
    requires x in xs
    ensures p < |xs| && xs[p] == x
  {
    if xs[0] == x then 0 else 1 + Position(xs[1..], x)
  }

  /** Where the link of `i` leads in the chain `xs`: to the element behind it, if any. */
  function ChainLink(xs: seq<Id>, i: Id): Link
    requires i in xs
  {
    var p := Position(xs, i);
    if p + 1 < |xs| then To(xs[p + 1]) else Null
  }

  /** A due timer once it is off the heap and on the list of ready timers. */
  function Listed(t: Timer, i: Id, xs: seq<Id>): Timer
    requires i in xs
  {
    t.(op := TakenByBackend(t.op), inHeap := false, next := ChainLink(xs, i))
  }

  function HeadOf(xs: seq<Id>): Link { if xs == [] then Null else To(xs[0]) }

  /** `take_ready_timers`: exactly the due timers, in deadline order. */
  predicate Takes(s: State, s': State, taken: seq<Id>) {
    && s.consumer == Idle && s.cursor == Null && Distinct(taken) && |s'.timers| == |s.timers|
    && (forall i | 0 <= i < |s.timers| :: i in taken <==> s.timers[i].inHeap && s.timers[i].deadline <= s.now)
    && (forall k | 0 <= k < |taken| :: taken[k] < |s.timers|)
    && (forall k, l | 0 <= k < l < |taken| :: s.timers[taken[k]].deadline <= s.timers[taken[l]].deadline)
    && (forall i | 0 <= i < |s.timers| ::
          s'.timers[i] == if i in taken then Listed(s.timers[i], i, taken) else s.timers[i])
    && s' == s.(timers := s'.timers, cursor := HeadOf(taken), ready := taken)
  }

  /** One round of `publish_pending` first reads and clears the link ... */
  predicate ClearsLink(s: State, s': State) {
    && s.consumer == Idle && s.cursor.To? && s.cursor.id < |s.timers|
    && var i := s.cursor.id;
      s' == s.(timers := s.timers[i := s.timers[i].(next := Null)], cursor := s.timers[i].next,
               consumer := Publishing(i), ready := Without(s.ready, i))
  }

  /** ... and then exchanges the phase. */
  predicate PublishesReady(s: State, s': State) {
    && s.consumer.Publishing? && s.consumer.id < |s.timers|
    && var i := s.consumer.id;
      var o := PublishedByBackend(s.timers[i].op);
      s' == s.(timers := s.timers[i := s.timers[i].(op := o)],
               consumer := if o.publisher == BackendPost then Posting(i) else Idle)
  }

  predicate PostsReady(s: State, s': State) {
    && s.consumer.Posting? && s.consumer.id < |s.timers|
    && var i := s.consumer.id;
      s' == s.(timers := s.timers[i := s.timers[i].(op := PostedByBackend(s.timers[i].op), next := Queued)],
               queue := s.queue + [i], consumer := Idle)
  }

  /** `consume`: dequeue, then `finish`, which completes the receiver as `canceled_` says. */
  predicate Consumes(s: State, s': State) {
    && s.consumer == Idle && s.cursor == Null && s.queue != [] && s.queue[0] < |s.timers|
    && var i, t := s.queue[0], s.timers[s.queue[0]];
      && Enabled(t.op, Finish)
      && s' == s.(timers := s.timers[i := Finished(t)], queue := s.queue[1..])
  }

  function Finished(t: Timer): Timer
    requires Enabled(t.op, Finish)
  {
    t.(op := Step(t.op, Finish), next := Null, outcome := if t.canceled then Stopped else Value)
  }

  datatype Event =
    | Tick(to: int) | Local(i: Id, act: Act) | AddTimer(i: Id) | RemoveTimer(i: Id, act: Act) | MarkCanceled(i: Id)
    | PostOp(i: Id, act: Act)
    | TakeReady(taken: seq<Id>) | ClearLink | PublishReady | PostReady | Consume

  predicate Happens(s: State, s': State, e: Event) {
    match e
    case Tick(to) => Ticks(s, s', to)
    case Local(i, act) => Locally(s, s', i, act)
    case AddTimer(i) => Adds(s, s', i)
    case RemoveTimer(i, act) => Removes(s, s', i, act)
    case MarkCanceled(i) => Marks(s, s', i)
    case PostOp(i, act) => Posts(s, s', i, act)
    case TakeReady(taken) => Takes(s, s', taken)
    case ClearLink => ClearsLink(s, s')
    case PublishReady => PublishesReady(s, s')
    case PostReady => PostsReady(s, s')
    case Consume => Consumes(s, s')
  }

  ghost predicate Next(s: State, s': State) {
    exists e :: Happens(s, s', e)
  }

  // ---- the invariant ----

  /** Where the loop has an operation: on the ready chain, in the hands of `publish_pending`, or queued. */
  datatype Spot = Spot(ready: bool, publishing: bool, posting: bool, queued: bool)

  function SpotOf(s: State, i: Id): Spot {
    Spot(i in s.ready, s.consumer == Publishing(i), s.consumer == Posting(i), i in s.queue)
  }

  /** What one operation says about its place in heap, chain and queue, and about `canceled_`. */
  predicate Placed(t: Timer, at: Spot) {
    && Inv(t.op)
    && t.op.token != Direct
    && (t.inHeap <==> t.op.token == Held)
    && (at.ready || at.publishing <==> t.op.publisher == BackendPublish) && !(at.ready && at.publishing)
    && (at.posting <==> t.op.publisher == BackendPost)
    && (at.queued <==> t.op.posts == 1 && !t.op.finished)
    && (t.marking ==> t.op.token == Taken(true))
    && (t.marking ==> t.op.starter == DeferredPublish || t.op.canceller == CancelPublish)
    && (t.canceled <==> t.op.token == Taken(true) && !t.marking)
    && t.outcome == (if !t.op.finished then Pending else if t.canceled then Stopped else Value)
  }

  predicate AllPlaced(s: State) {
    forall i | 0 <= i < |s.timers| :: Placed(s.timers[i], SpotOf(s, i))
  }

  /** Different timers, the earliest first. */
  predicate InOrder(s: State, xs: seq<Id>) {
    && Distinct(xs) && (forall k | 0 <= k < |xs| :: xs[k] < |s.timers|)
    && (forall k, l | 0 <= k < l < |xs| :: s.timers[xs[k]].deadline <= s.timers[xs[l]].deadline)
  }

  predicate Listing(s: State) {
    && InOrder(s, s.ready) && s.cursor == HeadOf(s.ready) && Distinct(s.queue)
    && (forall k | 0 <= k < |s.queue| :: s.queue[k] < |s.timers|)
    && (s.consumer != Idle ==> s.consumer.id < |s.timers|)
  }

  /** The links: the ready chain in order, `Queued` exactly in the queue, null elsewhere. */
  predicate Linked(s: State) {
    forall i | 0 <= i < |s.timers| :: s.timers[i].next == LinkOf(s.ready, s.queue, i)
  }

  function LinkOf(ready: seq<Id>, queue: seq<Id>, i: Id): Link {
    if i in queue then Queued else if i in ready then ChainLink(ready, i) else Null
  }

  predicate Good(s: State) {
    AllPlaced(s) && Listing(s) && Linked(s)
  }

  /** Only the operation `i` changed. */
  predicate OnlyAt(s: State, s': State, i: Id) {
    && i < |s.timers| == |s'.timers|
    && (forall j | 0 <= j < |s.timers| && j != i ::
      s'.timers[j] == s.timers[j] && SpotOf(s', j) == SpotOf(s, j))
  }

  lemma PlacedAt(s: State, s': State, i: Id)
    requires AllPlaced(s) && OnlyAt(s, s', i)
    requires Placed(s'.timers[i], SpotOf(s', i))
    ensures AllPlaced(s')
  {
    hide Placed, SpotOf;
  }

  // each event, seen from the operation it happens to

  lemma LocalEffects(o: Op, act: Act)
    requires IsLocal(act) && Enabled(o, act)
    ensures var o' := Step(o, act);
      && o'.token == o.token && o'.publisher == o.publisher && o'.posts == o.posts && o'.finished == o.finished
      && (o.starter == DeferredPublish && act != PublishDeferred ==> o'.starter == DeferredPublish)
      && (o.canceller == CancelPublish && act != PublishCancel ==> o'.canceller == CancelPublish)
  {
  }

  lemma LocalPlaced(t: Timer, act: Act, at: Spot)
    requires Placed(t, at) && IsLocal(act) && Enabled(t.op, act)
    requires act in {PublishDeferred, PublishCancel} ==> !t.marking
    ensures Placed(t.(op := Step(t.op, act)), at)
  {
    hide Inv, Step, Enabled, IsLocal;
    InvHolds(t.op, act);
    LocalEffects(t.op, act);
  }

  lemma AddPlaced(t: Timer, at: Spot)
    requires Placed(t, at) && Enabled(t.op, Register)
    ensures Placed(t.(op := Step(t.op, Register), inHeap := true), at)
  {
    hide Inv;
    InvHolds(t.op, Register);
    Unregistered(t.op);
  }

  lemma Unregistered(o: Op)
    requires Inv(o) && Enabled(o, Register)
    ensures o.token == Absent && o.canceller != CancelPublish
  {
  }

  /** What `remove` answers, and what `do_cancel` then has left to do. */
  lemma RemovePlaced(t: Timer, act: Act, at: Spot)
    requires Placed(t, at) && CancelPending(t.op, act) && act.taken == t.inHeap
    ensures act.taken <==> t.op.token == Held
    ensures Placed(Removed(t, act), at)
  {
    hide Inv, Step, Enabled;
    CancelIsStep(t.op, act);
    InvHolds(t.op, act);
    HeldIsWaiting(t.op);
  }

  lemma HeldIsWaiting(o: Op)
    requires Inv(o)
    ensures o.token == Held ==> o.publisher == Waiting && o.posts == 0 && !o.finished
  {
  }

  lemma MarkPlaced(t: Timer, at: Spot)
    requires Placed(t, at) && t.marking
    ensures Placed(t.(marking := false, canceled := true), at)
  {
    hide Inv;
    MarkingIsOwed(t, at);
  }

  /** While `canceled_` is still to be written the operation is neither published nor posted. */
  lemma MarkingIsOwed(t: Timer, at: Spot)
    requires Placed(t, at)
    ensures t.marking ==> t.op.phase != Completed && t.op.posts == 0 && !t.op.finished
  {
    PhaseAssertions(t.op);
  }

  lemma PostPlaced(t: Timer, act: Act, at: Spot)
    requires Placed(t, at) && act in {PostFromStart, PostFromCancel} && Enabled(t.op, act)
    ensures !at.ready && !at.queued && Placed(t.(op := Step(t.op, act), next := Queued), at.(queued := true))
  {
    InvHolds(t.op, act);
  }

  lemma TakePlaced(t: Timer, i: Id, xs: seq<Id>, at: Spot)
    requires Placed(t, at) && t.inHeap && i in xs
    ensures !at.ready && !at.queued && Placed(Listed(t, i, xs), at.(ready := true))
  {
    InvHolds(t.op, TakeBack);
  }

  lemma ClearPlaced(t: Timer, at: Spot)
    requires Placed(t, at) && at.ready
    ensures !at.publishing && !at.posting && !at.queued
    ensures Placed(t.(next := Null), at.(ready := false, publishing := true))
  {
  }

  lemma PublishPlaced(t: Timer, at: Spot)
    requires Placed(t, at) && at.publishing
    ensures !at.ready && !at.posting && !at.queued
    ensures var o := PublishedByBackend(t.op);
      Placed(t.(op := o), at.(publishing := false, posting := o.publisher == BackendPost))
  {
    InvHolds(t.op, PublishBackend);
  }

  lemma PostReadyPlaced(t: Timer, at: Spot)
    requires Placed(t, at) && at.posting
    ensures !at.ready && !at.queued
    ensures Placed(t.(op := PostedByBackend(t.op), next := Queued), at.(posting := false, queued := true))
  {
    InvHolds(t.op, PostFromBackend);
  }

  /** By the time an operation finishes, whoever removed it has written `canceled_`. */
  lemma FinishPlaced(t: Timer, at: Spot)
    requires Placed(t, at) && Enabled(t.op, Finish)
    ensures !at.ready && !t.marking && Placed(Finished(t), at.(queued := false))
  {
    InvHolds(t.op, Finish);
    MarkingIsOwed(t, at);
  }

  // each event, seen from the whole

  lemma LocalKeeps(s: State, s': State, i: Id, act: Act)
    requires Good(s) && Locally(s, s', i, act)
    ensures Good(s')
  {
    hide Placed, Step, Enabled, IsLocal, Distinct;
    LocalPlaced(s.timers[i], act, SpotOf(s, i));
    PlacedAt(s, s', i);
  }

  lemma AddKeeps(s: State, s': State, i: Id)
    requires Good(s) && Adds(s, s', i)
    ensures Good(s')
  {
    hide Placed, Step, Enabled, Distinct;
    AddPlaced(s.timers[i], SpotOf(s, i));
    PlacedAt(s, s', i);
  }

  lemma RemoveKeeps(s: State, s': State, i: Id, act: Act)
    requires Good(s) && Removes(s, s', i, act)
    ensures Good(s') && OnlyAt(s, s', i) && !s'.timers[i].inHeap && s'.timers[i].next == s.timers[i].next
    ensures act.taken <==> s.timers[i].op.token == Held
    ensures var o, o' := s.timers[i].op, s'.timers[i].op;
      && o'.token == (if act.taken then Taken(true) else o.token)
      && s'.timers[i].marking == (act.taken || s.timers[i].marking)
      && o'.phase == o.phase && o'.posts == o.posts
  {
    hide Placed, Distinct;
    RemovePlaced(s.timers[i], act, SpotOf(s, i));
    PlacedAt(s, s', i);
  }

  lemma MarkKeeps(s: State, s': State, i: Id)
    requires Good(s) && Marks(s, s', i)
    ensures Good(s') && s.timers[i].op.token == Taken(true) && s.timers[i].op.phase != Completed
  {
    hide Placed, Distinct;
    MarkPlaced(s.timers[i], SpotOf(s, i));
    MarkingIsOwed(s.timers[i], SpotOf(s, i));
    MarkedIsTaken(s.timers[i], SpotOf(s, i));
    PlacedAt(s, s', i);
  }

  lemma MarkedIsTaken(t: Timer, at: Spot)
    requires Placed(t, at)
    ensures t.marking || t.canceled <==> t.op.token == Taken(true)
  {
  }

  /** A node that is posted has a null link: it is in neither chain. */
  lemma PostKeeps(s: State, s': State, i: Id, act: Act)
    requires Good(s) && Posts(s, s', i, act)
    ensures s.timers[i].next == Null && Good(s')
  {
    hide Placed, Step, Enabled;
    PostPlaced(s.timers[i], act, SpotOf(s, i));
    PlacedAt(s, s', i);
  }

  lemma RestOfChain(xs: seq<Id>, i: Id)
    requires xs != [] && Distinct(xs) && i in xs[1..]
    ensures ChainLink(xs, i) == ChainLink(xs[1..], i)
  {
    assert xs[0] != i;
  }

  lemma FirstLink(xs: seq<Id>)
    requires xs != []
    ensures ChainLink(xs, xs[0]) == HeadOf(xs[1..]) && Without(xs, xs[0]) == xs[1..]
  {
  }

  lemma ClearLinkKeeps(s: State, s': State)
    requires Good(s) && ClearsLink(s, s')
    ensures Good(s')
  {
    hide Placed, ChainLink;
    var i := s.cursor.id;
    FirstLink(s.ready);
    ClearPlaced(s.timers[i], SpotOf(s, i));
    assert s.ready == [i] + s.ready[1..] && i !in s.ready[1..];
    PlacedAt(s, s', i);
    forall j | j in s.ready[1..]
      ensures ChainLink(s.ready, j) == ChainLink(s.ready[1..], j)
    {
      RestOfChain(s.ready, j);
    }
  }

  /** When the consumer publishes, the link is clear and the operation off the chain. */
  lemma PublishReadyKeeps(s: State, s': State)
    requires Good(s) && PublishesReady(s, s')
    ensures s.timers[s.consumer.id].next == Null && s.consumer.id !in s.ready && Good(s')
  {
    hide Placed, PublishedByBackend, Distinct;
    var i := s.consumer.id;
    PublishPlaced(s.timers[i], SpotOf(s, i));
    PlacedAt(s, s', i);
  }

  lemma PostReadyKeeps(s: State, s': State)
    requires Good(s) && PostsReady(s, s')
    ensures s.timers[s.consumer.id].next == Null && Good(s')
  {
    hide Placed, PostedByBackend;
    var i := s.consumer.id;
    PostReadyPlaced(s.timers[i], SpotOf(s, i));
    PlacedAt(s, s', i);
  }

  lemma ConsumeKeeps(s: State, s': State)
    requires Good(s) && Consumes(s, s')
    ensures Good(s')
  {
    hide Placed, Step, Enabled;
    var i := s.queue[0];
    FinishPlaced(s.timers[i], SpotOf(s, i));
    assert i !in s.queue[1..];
    assert s.queue == [i] + s.queue[1..];
    PlacedAt(s, s', i);
  }

  /** Nothing that is taken is early, and nothing that is left is due. */
  lemma TakeReadyKeeps(s: State, s': State, taken: seq<Id>)
    requires Good(s) && Takes(s, s', taken)
    ensures Good(s')
    ensures forall i | 0 <= i < |s.timers| && s.timers[i].inHeap && !s'.timers[i].inHeap ::
              s.timers[i].deadline <= s.now
    ensures forall i | 0 <= i < |s'.timers| && s'.timers[i].inHeap :: s'.now < s'.timers[i].deadline
  {
    hide Placed, ChainLink;
    forall i | 0 <= i < |s.timers|
      ensures Placed(s'.timers[i], SpotOf(s', i))
      ensures i in taken ==> i !in s.queue
    {
      if i in taken {
        TakePlaced(s.timers[i], i, taken, SpotOf(s, i));
      }
    }
  }

  lemma TickKeeps(s: State, s': State, to: int)
    requires Good(s) && Ticks(s, s', to)
    ensures Good(s')
  {
    hide Placed;
  }

  lemma GoodHolds(s: State, s': State)
    requires Good(s) && Next(s, s')
    ensures Good(s')
  {
    hide Good, Ticks, Locally, Adds, Removes, Marks, Posts, Takes, ClearsLink, PublishesReady, PostsReady, Consumes;
    var e :| Happens(s, s', e);
    match e
    case Tick(to) => TickKeeps(s, s', to);
    case Local(i, act) => LocalKeeps(s, s', i, act);
    case AddTimer(i) => AddKeeps(s, s', i);
    case RemoveTimer(i, act) => RemoveKeeps(s, s', i, act);
    case MarkCanceled(i) => MarkKeeps(s, s', i);
    case PostOp(i, act) => PostKeeps(s, s', i, act);
    case TakeReady(taken) => TakeReadyKeeps(s, s', taken);
    case ClearLink => ClearLinkKeeps(s, s');
    case PublishReady => PublishReadyKeeps(s, s');
    case PostReady => PostReadyKeeps(s, s');
    case Consume => ConsumeKeeps(s, s');
  }

  lemma GoodAtFirst(s: State)
    requires Init(s)
    ensures Good(s)
  {
  }

  // ---- no sleep ends early ----

  /** Whatever left the heap without being cancelled was due. */
  predicate OnTime(s: State) {
    forall i | 0 <= i < |s.timers| :: s.timers[i].op.token == Taken(false) ==> s.timers[i].deadline <= s.now
  }

  lemma TokenKept(o: Op, act: Act)
    requires Enabled(o, act) && act != TakeBack && Step(o, act).token == Taken(false)
    ensures o.token == Taken(false)
  {
  }

  lemma TokenCancelled(o: Op, act: Act)
    requires CancelPending(o, act) && AfterCancel(o, act).token == Taken(false)
    ensures o.token == Taken(false)
  {
  }

  lemma OnTimeHolds(s: State, s': State)
    requires OnTime(s) && Next(s, s')
    ensures OnTime(s')
  {
    hide Step, Enabled, AfterCancel, CancelPending, Distinct, ChainLink;
    var e :| Happens(s, s', e);
    forall i | 0 <= i < |s'.timers| && s'.timers[i].op.token == Taken(false)
      ensures s'.timers[i].deadline <= s'.now
    {
      match e
      case Local(j, act) => if j == i { TokenKept(s.timers[i].op, act); }
      case AddTimer(j) => if j == i { TokenKept(s.timers[i].op, Register); }
      case RemoveTimer(j, act) => if j == i { TokenCancelled(s.timers[i].op, act); }
      case PostOp(j, act) => if j == i { TokenKept(s.timers[i].op, act); }
      case Consume => if s.queue[0] == i { TokenKept(s.timers[i].op, Finish); }
      case _ =>
    }
  }

  /** What the code owes its users, for one operation in one state. */
  ghost predicate Sound(s: State, i: Id)
    requires i < |s.timers|
  {
    var t := s.timers[i];
    // posted at most once, and only when completed
    && t.op.posts <= 1 && (t.op.posts == 1 ==> t.op.phase == Completed)
    // whoever is about to post it finds a null link
    && (t.op.starter == StarterPost || t.op.canceller == CancelPost || s.consumer in {Publishing(i), Posting(i)} ==>
          t.next == Null)
    // posted and not yet finished is the same as being in the queue, where it is once
    && (i in s.queue <==> t.op.posts == 1 && !t.op.finished)
    && (forall k, l | 0 <= k < l < |s.queue| :: s.queue[k] != s.queue[l])
    // `canceled_` is written, if at all, before the publish
    && (t.marking ==> t.op.phase != Completed && !t.canceled)
    // it finishes stopped exactly when `timer_queue_.remove` returned true
    && (t.op.finished ==> (t.outcome == Stopped <==> t.op.token == Taken(true)) && t.outcome != Pending)
    // and otherwise not before its deadline
    && (t.outcome == Value ==> t.deadline <= s.now)
    // once it is out of the heap and every party has come to rest, it has been posted
    && (AtRest(t.op) && !t.inHeap ==> t.op.posts == 1)
    // and in the heap it is armed, so that a later publish will post it
    && (AtRest(t.op) && t.inHeap ==> t.op.phase == Armed && t.op.posts == 0)
    // a stop request that has been delivered has taken it out of the heap
    && (AtRest(t.op) && t.op.canceller == Returned ==> !t.inHeap && t.op.posts == 1)
    // after `finish` no party takes another step on it
    && (t.op.finished ==> forall act :: !Enabled(t.op, act))
  }

  lemma ValueIsOnTime(s: State, i: Id)
    requires Good(s) && OnTime(s) && i < |s.timers|
    ensures s.timers[i].outcome == Value ==> s.timers[i].deadline <= s.now
  {
    hide Linked, Listing, Inv;
    var t := s.timers[i];
    assert Placed(t, SpotOf(s, i));
    MarkingIsOwed(t, SpotOf(s, i));
    if t.op.finished {
      FinishedTokens(t.op);
    }
  }

  lemma FinishedTokens(o: Op)
    requires Inv(o) && o.finished
    ensures o.token.Taken? || o.token == Direct
  {
  }

  lemma GoodIsSound(s: State, i: Id)
    requires Good(s) && OnTime(s) && i < |s.timers|
    ensures Sound(s, i)
  {
    hide OnTime;
    var t := s.timers[i];
    ValueIsOnTime(s, i);
    assert Placed(t, SpotOf(s, i));
    MarkingIsOwed(t, SpotOf(s, i));
    if AtRest(t.op) {
      RestIsDecided(t.op);
      if t.op.canceller == Returned {
        StopIsHeard(t.op);
      }
    }
    if t.op.finished {
      forall act
        ensures !Enabled(t.op, act)
      {
        FinishedIsUntouched(t.op, act);
      }
    }
  }

  lemma GoodInRun(run: seq<State>, k: nat)
    requires IsRun(Init, Next, run) && k < |run|
    ensures Good(run[k]) && OnTime(run[k])
  {
    forall s | Init(s)
      ensures Good(s) && OnTime(s)
    {
      GoodAtFirst(s);
    }
    forall s, s' | Next(s, s')
      ensures Good(s) ==> Good(s')
      ensures OnTime(s) ==> OnTime(s')
    {
      if Good(s) {
        GoodHolds(s, s');
      }
      if OnTime(s) {
        OnTimeHolds(s, s');
      }
    }
    AlongRun(Init, Next, Good, run);
    AlongRun(Init, Next, OnTime, run);
  }

  /** In every state of every interleaving, every sleep operation is sound. */
  lemma EverySleepIsSound(run: seq<State>, k: nat, i: Id)
    requires IsRun(Init, Next, run) && k < |run| && i < |run[k].timers|
    ensures Sound(run[k], i)
  {
    GoodInRun(run, k);
    GoodIsSound(run[k], i);
  }

  /** A step of the consumer, or of the stop callback of the operation at the front of the queue,
      which the consumer waits for before it may destroy the callback. */
  predicate IsOnward(s: State, e: Event) {
    || e in {ClearLink, PublishReady, PostReady, Consume}
    || (s.queue != [] && (e == Local(s.queue[0], Defer(false)) || e == RemoveTimer(s.queue[0], CancelNow(false))))
  }

  /** In every state of every run the consumer goes on: what it has taken it can publish and post, and
      the front of the queue it can finish, once the stop callback there, if it runs, is through. */
  lemma ConsumerGoesOn(run: seq<State>, k: nat) returns (e: Event, s': State)
    requires IsRun(Init, Next, run) && k < |run|
    requires run[k].cursor != Null || run[k].consumer != Idle || run[k].queue != []
    ensures IsOnward(run[k], e) && Happens(run[k], s', e)
  {
    GoodInRun(run, k);
    if run[k].consumer == Idle && run[k].cursor == Null {
      e, s' := FrontGoesOn(run[k]);
    } else {
      e, s' := ChainGoesOn(run[k]);
    }
  }

  lemma ChainGoesOn(s: State) returns (e: Event, s': State)
    requires Good(s) && (s.cursor != Null || s.consumer != Idle)
    ensures IsOnward(s, e) && Happens(s, s', e)
  {
    hide Linked, Placed, PublishedByBackend, PostedByBackend, Distinct;
    match s.consumer
    case Posting(i) =>
      e := PostReady;
      s' := s.(timers := s.timers[i := s.timers[i].(op := PostedByBackend(s.timers[i].op), next := Queued)],
               queue := s.queue + [i], consumer := Idle);
    case Publishing(i) =>
      var o := PublishedByBackend(s.timers[i].op);
      e := PublishReady;
      s' := s.(timers := s.timers[i := s.timers[i].(op := o)],
               consumer := if o.publisher == BackendPost then Posting(i) else Idle);
    case Idle =>
      var i := s.cursor.id;
      e := ClearLink;
      s' := s.(timers := s.timers[i := s.timers[i].(next := Null)], cursor := s.timers[i].next,
               consumer := Publishing(i), ready := Without(s.ready, i));
  }

  lemma FrontGoesOn(s: State) returns (e: Event, s': State)
    requires Good(s) && s.cursor == Null && s.consumer == Idle && s.queue != []
    ensures IsOnward(s, e) && Happens(s, s', e)
  {
    hide Linked, Placed, Distinct;
    var i, t := s.queue[0], s.timers[s.queue[0]];
    QueuedCanFinish(t, SpotOf(s, i));
    match t.op.canceller
    case TryDefer =>
      e, s' := Local(i, Defer(false)), s.(timers := s.timers[i := t.(op := Step(t.op, Defer(false)))]);
    case CallCancel =>
      e, s' := RemoveTimer(i, CancelNow(false)), s.(timers := s.timers[i := Removed(t, CancelNow(false))]);
    case _ =>
      e, s' := Consume, s.(timers := s.timers[i := Finished(t)], queue := s.queue[1..]);
  }

  lemma QueuedCanFinish(t: Timer, at: Spot)
    requires Placed(t, at) && at.queued
    ensures !t.inHeap && (t.op.canceller !in {TryDefer, CallCancel} ==> Enabled(t.op, Finish))
  {
  }

  // ---- taking is possible ----

  lemma {:induction false} PutInOrder(s: State, xs: seq<Id>, i: Id) returns (ys: seq<Id>)
    requires InOrder(s, xs) && i < |s.timers| && i !in xs
    ensures InOrder(s, ys) && forall j: Id :: j in ys <==> j == i || j in xs
  {
    if xs == [] || s.timers[i].deadline <= s.timers[xs[0]].deadline {
      ys := [i] + xs;
      PutFirst(s, i, xs);
    } else {
      DistinctRest(xs);
      var zs := PutInOrder(s, xs[1..], i);
      ys := [xs[0]] + zs;
      assert forall j | j in xs[1..] :: s.timers[xs[0]].deadline <= s.timers[j].deadline;
      PutFirst(s, xs[0], zs);
    }
  }

  lemma PutFirst(s: State, x: Id, zs: seq<Id>)
    requires InOrder(s, zs) && x < |s.timers| && x !in zs
    requires forall j | j in zs :: j < |s.timers| && s.timers[x].deadline <= s.timers[j].deadline
    ensures InOrder(s, [x] + zs)
  {
    var ys := [x] + zs;
    assert forall k | 0 < k < |ys| :: ys[k] == zs[k - 1] && ys[k] in zs;
  }

  lemma {:induction false} DueInOrder(s: State, n: nat) returns (xs: seq<Id>)
    requires n <= |s.timers|
    ensures InOrder(s, xs)
    ensures forall j: Id :: j in xs <==> j < n && s.timers[j].inHeap && s.timers[j].deadline <= s.now
  {
    xs := [];
    if n > 0 {
      xs := DueInOrder(s, n - 1);
      if s.timers[n - 1].inHeap && s.timers[n - 1].deadline <= s.now {
        xs := PutInOrder(s, xs, n - 1);
      }
    }
  }

  /** Between two rounds of publishing the consumer can take what is due, all of it. */
  lemma DueCanBeTaken(s: State) returns (taken: seq<Id>, s': State)
    requires s.consumer == Idle && s.cursor == Null
    ensures Happens(s, s', TakeReady(taken))
    ensures forall i | 0 <= i < |s.timers| && s.timers[i].inHeap && s.timers[i].deadline <= s.now ::
      i in taken && s'.timers[i].op.publisher == BackendPublish
  {
    hide Distinct;
    taken := DueInOrder(s, |s.timers|);
    var timers := seq(|s.timers|, i requires 0 <= i < |s.timers| =>
                                    if i in taken then Listed(s.timers[i], i, taken) else s.timers[i]);
    s' := s.(timers := timers, cursor := HeadOf(taken), ready := taken);
  }

  /** So a waiting sleep ends in time: once the clock has come to its deadline, it is taken next. */
  lemma EndsInTime(s: State, i: Id) returns (s1: State, taken: seq<Id>, s2: State)
    requires i < |s.timers| && s.timers[i].inHeap && s.consumer == Idle && s.cursor == Null
    ensures s1.now == (if s.now < s.timers[i].deadline then s.timers[i].deadline else s.now)
    ensures Happens(s, s1, Tick(s1.now)) && Happens(s1, s2, TakeReady(taken)) && i in taken
  {
    s1 := s.(now := if s.now < s.timers[i].deadline then s.timers[i].deadline else s.now);
    taken, s2 := DueCanBeTaken(s1);
  }

  /** Any number of sleeps, with any deadlines, and any clock to start from. */
  lemma CanStart(deadlines: seq<int>, now: int) returns (s: State)
    ensures Init(s) && s.now == now && |s.timers| == |deadlines|
    ensures forall i | 0 <= i < |deadlines| :: s.timers[i].deadline == deadlines[i]
  {
    s := State(seq(|deadlines|, i requires 0 <= i < |deadlines| =>
                                  Timer(FRESH, deadlines[i], false, Null, false, false, Pending)),
               now, Null, Idle, [], []);
  }

  // ---- every sleep goes on ----

  /** Of the operation `i` itself. */
  predicate Concerns(e: Event, i: Id) {
    (e.Local? || e.AddTimer? || e.RemoveTimer? || e.MarkCanceled? || e.PostOp?) && e.i == i
  }

  /** In every state of every run, a sleep that has not finished has a next step of its own, or the
      consumer has one, or it waits in the heap: then it can be asked to stop, and taken once it is due. */
  lemma SleepGoesOn(run: seq<State>, k: nat, i: Id) returns (e: Event, s': State)
    requires IsRun(Init, Next, run) && k < |run| && i < |run[k].timers| && !run[k].timers[i].op.finished
    ensures Happens(run[k], s', e) && (Concerns(e, i) || IsOnward(run[k], e))
    ensures var o := run[k].timers[i].op; IsWaiting(o) ==> run[k].timers[i].inHeap && e == Local(i, CallStop)
  {
    GoodInRun(run, k);
    e, s' := SleepStep(run[k], i);
  }

  lemma SleepStep(s: State, i: Id) returns (e: Event, s': State)
    requires Good(s) && i < |s.timers| && !s.timers[i].op.finished
    ensures Happens(s, s', e) && (Concerns(e, i) || IsOnward(s, e))
    ensures IsWaiting(s.timers[i].op) ==> s.timers[i].inHeap && e == Local(i, CallStop)
  {
    hide Inv, Linked, Step, Enabled, Distinct, AfterCancel;
    var t := s.timers[i];
    assert Placed(t, SpotOf(s, i));
    var act := NextAct(t.op);
    if t.marking {
      MarkingIsOwed(t, SpotOf(s, i));
      e, s' := MarkCanceled(i), s.(timers := s.timers[i := t.(marking := false, canceled := true)]);
    } else if IsLocal(act) {
      e, s' := Local(i, act), s.(timers := s.timers[i := t.(op := Step(t.op, act))]);
    } else if act == Register {
      e, s' := AddTimer(i), s.(timers := s.timers[i := t.(op := Step(t.op, Register), inHeap := true)]);
    } else if act in {PostFromStart, PostFromCancel} {
      e := PostOp(i, act);
      s' := s.(timers := s.timers[i := t.(op := Step(t.op, act), next := Queued)], queue := s.queue + [i]);
    } else if act.CancelDeferredNow? || act.CancelNow? {
      e, s' := RemoveTimer(i, act), s.(timers := s.timers[i := Removed(t, act)]);
    } else if s.consumer == Idle && s.cursor == Null {
      e, s' := FrontGoesOn(s);
    } else {
      e, s' := ChainGoesOn(s);
    }
  }

  /** The next act of a started or not yet started operation. */
  lemma NextAct(o: Op) returns (act: Act)
    requires Inv(o) && o.token != Direct && !o.finished
    ensures Enabled(o, act) && act !in {CompleteInStart, PublishDirect, TakeBack}
    ensures act.CancelDeferredNow? || act.CancelNow? ==> CancelPending(o, act) && act.taken == (o.token == Held)
    ensures IsWaiting(o) ==> act == CallStop
    ensures act == PublishBackend ==> o.publisher == BackendPublish
    ensures act == PostFromBackend ==> o.publisher == BackendPost
    ensures act == Finish ==> o.posts == 1
  {
    if o.starter == NotStarted {
      act := Start;
    } else {
      act := SomebodyGoesOn(o);
      if IsWaiting(o) {
        act := CallStop;
      }
    }
  }
}
