/** Waiting for one signal number: the phase machine of each wait, the waiting list they register
    on, and the delivery that empties the list but lets go of its lock between waiters.

    One step is one critical section or one atomic access.  The lists are the sequences that
    WaitingLists.SignalList keeps; posting an operation is `deliver` here. */
module SignalWait {
  import opened OperationPhase
  import opened Behaviors
  import opened Sequences

  type Id = nat

  /** `result_`, and what the receiver is told. */
  datatype Result = Unset | Signal | Canceled | Failed(errno: nat)

  datatype Wait = Wait(op: Op, result: Result, outcome: Result)

  /** Where `pop_all` is: at a waiter, with the first of the rest already claimed. */
  datatype Walk = Idle | At(current: Id, rest: seq<Id>)

  datatype State = State(
    waits: seq<Wait>,
    delivered: bool,      // the list head is null
    attached: seq<Id>,    // otherwise it is the first of these, or the list itself
    walk: Walk)

  predicate Init(s: State) {
    && (forall i | 0 <= i < |s.waits| :: s.waits[i] == Wait(FRESH, Unset, Unset))
    && !s.delivered && s.attached == [] && s.walk == Idle
  }

  // ---- the steps of a single wait ----

  /** Destroying the stop callback waits for one that runs on another thread. */
  predicate CallbackIdle(o: Op) { o.canceller in {NotCalled, Returned} }

  predicate IsLocal(act: Act) {
    act in {Start, PublishDirect, Arm, PublishDeferred, Rearm, PostFromStart, CallStop, PublishCancel, PostFromCancel,
            PublishBackend, PostFromBackend} || act.Defer?
  }

  predicate CanStep(o: Op, act: Act) {
    && IsLocal(act) && Enabled(o, act)
    // `deliver` destroys the callback first, so no callback starts after it
    && (act in {PostFromStart, PostFromBackend} ==> CallbackIdle(o))
    && (act == CallStop ==> o.posts == 0)
  }

  /** `finish` writes the result before it exchanges the phase; `deliver` reads it. */
  function Stepped(w: Wait, act: Act): Wait
    requires CanStep(w.op, act)
  {
    Wait(Step(w.op, act),
         if act in {PublishDeferred, PublishCancel} then Canceled
         else if act == PublishBackend then Signal
         else w.result,
         if act in {PostFromStart, PostFromCancel, PostFromBackend} then w.result else w.outcome)
  }

  predicate Locally(s: State, s': State, i: Id, act: Act) {
    && i < |s.waits| && CanStep(s.waits[i].op, act)
    && s' == s.(waits := s.waits[i := Stepped(s.waits[i], act)])
  }

  // ---- the waiting list ----

  function Added(w: Wait): Wait
    requires Enabled(w.op, Register)
  {
    w.(op := Step(w.op, Register))
  }

  predicate Adds(s: State, s': State, i: Id) {
    && i < |s.waits| && Enabled(s.waits[i].op, Register) && !s.delivered
    && s' == s.(waits := s.waits[i := Added(s.waits[i])], attached := [i] + s.attached)
  }

  function Refused(w: Wait, r: Result): Wait
    requires Enabled(w.op, CompleteInStart)
  {
    w.(op := Step(w.op, CompleteInStart), result := r)
  }

  /** After delivery `add` answers the signal number; otherwise the signal may be unavailable, or
      `sigaction` may fail for the first waiter. */
  predicate Refuses(s: State, s': State, i: Id, r: Result) {
    && i < |s.waits| && Enabled(s.waits[i].op, CompleteInStart)
    && ((r == Signal && s.delivered) || r.Failed?)
    && s' == s.(waits := s.waits[i := Refused(s.waits[i], r)])
  }

  /** The waiters that `remove` still takes off. */
  predicate Removable(s: State, i: Id) {
    i in s.attached || (s.walk.At? && s.walk.rest != [] && i in s.walk.rest[1..])
  }

  function WithoutRest(walk: Walk, i: Id): Walk {
    if walk.At? && walk.rest != [] then walk.(rest := [walk.rest[0]] + Without(walk.rest[1..], i)) else walk
  }

  predicate Removes(s: State, s': State, i: Id, act: Act) {
    && i < |s.waits| && CancelPending(s.waits[i].op, act) && act.taken == Removable(s, i)
    && s' == s.(waits := s.waits[i := s.waits[i].(op := AfterCancel(s.waits[i].op, act))],
                attached := Without(s.attached, i), walk := WithoutRest(s.walk, i))
  }

  function Claimed(w: Wait): Wait { w.(op := TakenByBackend(w.op)) }

  /** The signal has been caught: the list is emptied, its first two waiters are claimed. */
  predicate Detaches(s: State, s': State) {
    && s.walk == Idle && |s'.waits| == |s.waits|
    && (forall i | 0 <= i < |s.waits| ::
          s'.waits[i] == if i in s.attached[..if |s.attached| < 2 then |s.attached| else 2]
                         then Claimed(s.waits[i]) else s.waits[i])
    && s' == s.(waits := s'.waits, delivered := true, attached := [],
                walk := if s.attached == [] then Idle else At(s.attached[0], s.attached[1..]))
  }

  /** The current waiter is through; the lock is taken again and the next but one claimed. */
  predicate Advances(s: State, s': State) {
    && s.walk.At? && s.walk.current < |s.waits| && s.waits[s.walk.current].op.publisher == Gone
    && |s'.waits| == |s.waits|
    && (forall i | 0 <= i < |s.waits| ::
          s'.waits[i] == if |s.walk.rest| > 1 && i == s.walk.rest[1] then Claimed(s.waits[i]) else s.waits[i])
    && s' == s.(waits := s'.waits,
                walk := if s.walk.rest == [] then Idle else At(s.walk.rest[0], s.walk.rest[1..]))
  }

  datatype Event =
    | Local(i: Id, act: Act) | Add(i: Id) | Refuse(i: Id, r: Result) | Remove(i: Id, act: Act) | Detach | Advance

  /** Only the delivery publishes for the backend, and only the waiter it is at. */
  predicate Happens(s: State, s': State, e: Event) {
    match e
    case Local(i, act) =>
      Locally(s, s', i, act) && (act in {PublishBackend, PostFromBackend} ==> s.walk.At? && s.walk.current == i)
    case Add(i) => Adds(s, s', i)
    case Refuse(i, r) => Refuses(s, s', i, r)
    case Remove(i, act) => Removes(s, s', i, act)
    case Detach => Detaches(s, s')
    case Advance => Advances(s, s')
  }

  ghost predicate Next(s: State, s': State) {
    exists e :: Happens(s, s', e)
  }

  // ---- the invariant ----

  /** Where a wait stands with the delivery. */
  datatype Place = OnList | IsNext | IsCurrent | Elsewhere

  function PlaceOf(s: State, i: Id): Place {
    if Removable(s, i) then OnList
    else if s.walk.At? && s.walk.rest != [] && s.walk.rest[0] == i then IsNext
    else if s.walk.At? && s.walk.current == i then IsCurrent
    else Elsewhere
  }

  predicate ResultFits(token: Token, r: Result) {
    match token
    case Taken(canceled) => r == if canceled then Canceled else Signal
    case Direct => r == Signal || r.Failed?
    case _ => false
  }

  predicate Placed(w: Wait, place: Place) {
    && Inv(w.op) && !w.op.finished
    && (w.op.token == Held <==> place == OnList)
    && (place == IsNext ==> w.op.publisher == BackendPublish)
    && (place == IsCurrent ==> w.op.publisher != Waiting)
    && (place in {OnList, Elsewhere} ==> w.op.publisher in {Waiting, Gone})
    && (w.op.phase == Completed || w.op.token == Direct ==> ResultFits(w.op.token, w.result))
    && w.outcome == (if w.op.posts == 0 then Unset else w.result)
    && (w.op.posts == 1 ==> CallbackIdle(w.op))
  }

  predicate AllPlaced(s: State) {
    forall i | 0 <= i < |s.waits| :: Placed(s.waits[i], PlaceOf(s, i))
  }

  predicate Listing(s: State) {
    && Distinct(s.attached) && (forall i | i in s.attached :: i < |s.waits|)
    && (s.delivered ==> s.attached == [])
    && (s.walk.At? ==> s.delivered && s.walk.current < |s.waits| && Distinct(s.walk.rest)
                       && s.walk.current !in s.walk.rest && forall i | i in s.walk.rest :: i < |s.waits|)
  }

  predicate Good(s: State) {
    AllPlaced(s) && Listing(s)
  }

  // ---- each step, seen from the wait ----

  lemma LocalPlaced(w: Wait, act: Act, place: Place)
    requires Placed(w, place) && CanStep(w.op, act)
    requires act in {PublishBackend, PostFromBackend} ==> place == IsCurrent
    ensures Placed(Stepped(w, act), place)
  {
    hide Inv, Consistent;
    InvHolds(w.op, act);
    PublishedTokens(w.op);
  }

  /** Who publishes tells how the operation was taken back. */
  lemma PublishedTokens(o: Op)
    requires Inv(o)
    ensures o.starter == DeferredPublish || o.canceller == CancelPublish ==> o.token == Taken(true)
    ensures o.publisher == BackendPublish ==> o.token == Taken(false)
    ensures o.starter == DirectPublish ==> o.token == Direct
    ensures o.phase == Completed ==> o.token.Taken? || o.token == Direct
    ensures o.posts == 1 ==> o.phase == Completed
    ensures o.starter == StarterPost || o.canceller == CancelPost || o.publisher == BackendPost ==>
              o.phase == Completed && o.posts == 0
    ensures Owed(o) > 0 ==> o.phase != Completed && o.posts == 0
  {
  }

  lemma AddPlaced(w: Wait, place: Place)
    requires Placed(w, place) && Enabled(w.op, Register)
    ensures place == Elsewhere && Placed(Added(w), OnList)
  {
    InvHolds(w.op, Register);
  }

  lemma RefusePlaced(w: Wait, r: Result, place: Place)
    requires Placed(w, place) && Enabled(w.op, CompleteInStart) && (r == Signal || r.Failed?)
    ensures place == Elsewhere && Placed(Refused(w, r), place)
    ensures Refused(w, r).result == r && Refused(w, r).op.starter == DirectPublish && Refused(w, r).op.posts == 0
  {
    InvHolds(w.op, CompleteInStart);
  }

  lemma RemovePlaced(w: Wait, act: Act, place: Place)
    requires Placed(w, place) && CancelPending(w.op, act) && act.taken == (place == OnList)
    ensures Placed(w.(op := AfterCancel(w.op, act)), if act.taken then Elsewhere else place)
    ensures act.taken <==> w.op.token == Held
    ensures act.taken ==> AfterCancel(w.op, act).token == Taken(true)
  {
    hide Inv, Step, Enabled, AfterCancel;
    CancelIsStep(w.op, act);
    InvHolds(w.op, act);
    PublishedTokens(w.op);
    PublishedTokens(AfterCancel(w.op, act));
    CancelNotPosted(w.op, act);
    if act.taken {
      HeldIsUnpublished(w.op);
    }
  }

  lemma CancelNotPosted(o: Op, act: Act)
    requires Inv(o) && CancelPending(o, act) && (o.posts == 1 ==> CallbackIdle(o))
    ensures o.posts == 0
    ensures AfterCancel(o, act).phase == o.phase
  {
  }

  lemma HeldIsUnpublished(o: Op)
    requires Inv(o) && o.token == Held
    ensures o.publisher == Waiting && o.phase != Completed && o.posts == 0
  {
  }

  lemma ClaimPlaced(w: Wait, place: Place)
    requires Placed(w, OnList) && place in {IsNext, IsCurrent}
    ensures Placed(Claimed(w), place)
  {
    hide Inv;
    HeldIsUnpublished(w.op);
    InvHolds(w.op, TakeBack);
  }

  lemma NextPlaced(w: Wait)
    requires Placed(w, IsNext)
    ensures Placed(w, IsCurrent)
  {
  }

  lemma CurrentPlaced(w: Wait)
    requires Placed(w, IsCurrent) && w.op.publisher == Gone
    ensures Placed(w, Elsewhere)
  {
    assert Consistent(w.op);
  }

  // ---- each step, seen from the list ----

  /** Only the wait `i` changed, and the others kept their places. */
  predicate OnlyAt(s: State, s': State, i: Id) {
    && i < |s.waits| == |s'.waits|
    && (forall j | 0 <= j < |s.waits| && j != i :: s'.waits[j] == s.waits[j] && PlaceOf(s', j) == PlaceOf(s, j))
  }

  lemma PlacedAt(s: State, s': State, i: Id)
    requires AllPlaced(s) && OnlyAt(s, s', i) && Placed(s'.waits[i], PlaceOf(s', i))
    ensures AllPlaced(s')
  {
    hide Placed;
  }

  lemma LocalKeeps(s: State, s': State, i: Id, act: Act)
    requires Good(s) && Happens(s, s', Local(i, act))
    ensures Good(s')
  {
    hide Placed, Stepped, CanStep, Distinct;
    if act in {PublishBackend, PostFromBackend} {
      CurrentIs(s);
    }
    LocalPlaced(s.waits[i], act, PlaceOf(s, i));
    PlacedAt(s, s', i);
  }

  lemma CurrentIs(s: State)
    requires Listing(s) && s.walk.At?
    ensures PlaceOf(s, s.walk.current) == IsCurrent
    ensures s.walk.rest != [] ==> PlaceOf(s, s.walk.rest[0]) == IsNext
    ensures |s.walk.rest| > 1 ==> PlaceOf(s, s.walk.rest[1]) == OnList
  {
    assert |s.walk.rest| > 1 ==> s.walk.rest[1..][0] == s.walk.rest[1];
    assert s.walk.rest != [] ==> s.walk.rest == [s.walk.rest[0]] + s.walk.rest[1..];
  }

  lemma AddKeeps(s: State, s': State, i: Id)
    requires Good(s) && Adds(s, s', i)
    ensures Good(s')
  {
    hide Placed, Added;
    AddPlaced(s.waits[i], PlaceOf(s, i));
    PlacedAt(s, s', i);
  }

  /** An `add` that is refused has registered nothing: `start` itself publishes, with that result. */
  lemma RefuseKeeps(s: State, s': State, i: Id, r: Result)
    requires Good(s) && Refuses(s, s', i, r)
    ensures Good(s') && PlaceOf(s, i) == PlaceOf(s', i) == Elsewhere
    ensures s'.waits[i].result == r && s'.waits[i].op.starter == DirectPublish && s'.waits[i].op.posts == 0
  {
    hide Placed, Refused, Distinct;
    RefusePlaced(s.waits[i], r, PlaceOf(s, i));
    PlacedAt(s, s', i);
  }

  /** Taking a waiter off either list moves nobody else. */
  lemma RemoveLists(s: State, s': State, i: Id)
    requires Listing(s) && i < |s.waits| == |s'.waits|
    requires s'.attached == Without(s.attached, i) && s'.walk == WithoutRest(s.walk, i) && s'.delivered == s.delivered
    ensures Listing(s')
    ensures PlaceOf(s', i) == if Removable(s, i) then Elsewhere else PlaceOf(s, i)
    ensures forall j | j != i :: PlaceOf(s', j) == PlaceOf(s, j)
  {
    hide Distinct;
    WithoutDistinct(s.attached, i);
    if s.walk.At? && s.walk.rest != [] {
      WithoutBehind(s.walk.rest, i);
    }
  }

  /** Taking an element out behind the first. */
  lemma WithoutBehind(xs: seq<Id>, i: Id)
    requires Distinct(xs) && xs != []
    ensures var ys := [xs[0]] + Without(xs[1..], i);
      && Distinct(ys) && ys[1..] == Without(xs[1..], i) && i !in ys[1..] && xs[0] !in xs[1..]
      && (forall j | j in ys :: j in xs)
      && (forall j | j != i :: j in ys[1..] <==> j in xs[1..])
  {
    DistinctRest(xs);
    WithoutDistinct(xs[1..], i);
    var zs := Without(xs[1..], i);
    hide Without;
    assert ([xs[0]] + zs)[1..] == zs;
    assert forall j | j in zs :: j in xs[1..];
  }

  /** A cancellation answers true exactly for a waiter that no delivery has claimed; it takes that
      waiter off its list, and no other. */
  lemma RemoveKeeps(s: State, s': State, i: Id, act: Act)
    requires Good(s) && Removes(s, s', i, act)
    ensures Good(s')
    ensures act.taken <==> s.waits[i].op.token == Held
    ensures act.taken ==> s'.waits[i].op.token == Taken(true)
    ensures PlaceOf(s', i) == if act.taken then Elsewhere else PlaceOf(s, i)
    ensures forall j | j != i :: PlaceOf(s', j) == PlaceOf(s, j)
  {
    hide Placed, AfterCancel, CancelPending, Listing, WithoutRest, Removable;
    assert PlaceOf(s, i) == OnList <==> Removable(s, i);
    RemovePlaced(s.waits[i], act, PlaceOf(s, i));
    RemoveLists(s, s', i);
    PlacedAt(s, s', i);
  }

  /** The places of `xs` once it is the chain of a delivery. */
  lemma WalkPlaces(s: State, xs: seq<Id>)
    requires Distinct(xs) && s.attached == [] && s.walk == if xs == [] then Idle else At(xs[0], xs[1..])
    ensures |xs| > 0 ==> PlaceOf(s, xs[0]) == IsCurrent
    ensures |xs| > 1 ==> PlaceOf(s, xs[1]) == IsNext && xs[1] != xs[0]
    ensures forall i | i !in xs :: PlaceOf(s, i) == Elsewhere
    ensures |xs| > 1 ==> forall i | i in xs && i != xs[0] && i != xs[1] :: PlaceOf(s, i) == OnList
  {
    if xs != [] {
      assert xs == [xs[0]] + xs[1..];
      if |xs| > 1 {
        assert xs[1..][0] == xs[1] && xs[1..] == [xs[1]] + xs[1..][1..];
      }
    }
  }

  lemma WalkLists(s: State, xs: seq<Id>)
    requires Distinct(xs) && s.attached == [] && s.walk == if xs == [] then Idle else At(xs[0], xs[1..])
    requires s.delivered && forall i | i in xs :: i < |s.waits|
    ensures Listing(s)
  {
    if xs != [] {
      assert xs[0] in xs && forall i | i in xs[1..] :: i in xs;
    }
  }

  /** Who is in the first two. */
  lemma FirstTwo(xs: seq<Id>, i: Id)
    ensures i in xs[..if |xs| < 2 then |xs| else 2] <==> (|xs| > 0 && i == xs[0]) || (|xs| > 1 && i == xs[1])
  {
  }

  lemma DetachKeeps(s: State, s': State)
    requires Good(s) && Detaches(s, s')
    ensures Good(s')
  {
    hide Placed, Claimed, Distinct;
    WalkPlaces(s', s.attached);
    WalkLists(s', s.attached);
    forall i | 0 <= i < |s.waits|
      ensures Placed(s'.waits[i], PlaceOf(s', i))
    {
      assert Placed(s.waits[i], PlaceOf(s, i));
      FirstTwo(s.attached, i);
      if i in s.attached {
        assert PlaceOf(s, i) == OnList;
        hide PlaceOf;
        if i == s.attached[0] || (|s.attached| > 1 && i == s.attached[1]) {
          ClaimPlaced(s.waits[i], PlaceOf(s', i));
        } else {
          assert |s.attached| > 1;
        }
      }
    }
  }

  lemma AdvanceKeeps(s: State, s': State)
    requires Good(s) && Advances(s, s')
    ensures Good(s')
  {
    hide Placed, Claimed, Distinct;
    CurrentIs(s);
    var rest := s.walk.rest;
    WalkPlaces(s', rest);
    WalkLists(s', rest);
    forall i | 0 <= i < |s.waits|
      ensures Placed(s'.waits[i], PlaceOf(s', i))
    {
      assert Placed(s.waits[i], PlaceOf(s, i));
      if i == s.walk.current {
        CurrentPlaced(s.waits[i]);
      } else if |rest| > 0 && i == rest[0] {
        NextPlaced(s.waits[i]);
      } else if |rest| > 1 && i == rest[1] {
        ClaimPlaced(s.waits[i], IsNext);
      } else {
        assert i in rest <==> rest != [] && i in rest[1..];
      }
    }
  }

  lemma GoodHolds(s: State, s': State)
    requires Good(s) && Next(s, s')
    ensures Good(s')
  {
    hide Good, Locally, Adds, Refuses, Removes, Detaches, Advances;
    var e :| Happens(s, s', e);
    match e
    case Local(i, act) => LocalKeeps(s, s', i, act);
    case Add(i) => AddKeeps(s, s', i);
    case Refuse(i, r) => RefuseKeeps(s, s', i, r);
    case Remove(i, act) => RemoveKeeps(s, s', i, act);
    case Detach => DetachKeeps(s, s');
    case Advance => AdvanceKeeps(s, s');
  }

  lemma GoodAtFirst(s: State)
    requires Init(s)
    ensures Good(s)
  {
  }

  // ---- what waiting for a signal promises ----

  /** The delivery is over: whoever registered before it has been claimed or has withdrawn. */
  predicate Over(s: State) { s.delivered && s.walk == Idle }

  ghost predicate Sound(s: State, i: Id)
    requires i < |s.waits|
  {
    var w := s.waits[i];
    // delivered at most once, and told what really happened: the signal if the delivery took it,
    // or it came too late; stopped if a stop request took it; an error only if it never registered
    && w.op.posts <= 1
    && (w.op.posts == 0 ==> w.outcome == Unset)
    && (w.op.posts == 1 ==> ResultFits(w.op.token, w.outcome))
    // at rest it is on the list and armed, or with the delivery that will come to it, or has been
    // told
    && (AtRest(w.op) ==> w.op.posts == if PlaceOf(s, i) == OnList then 0 else 1)
    && (AtRest(w.op) && PlaceOf(s, i) == OnList ==> w.op.phase == Armed)
    // a stop request that has been delivered has taken it off the list
    && (AtRest(w.op) && w.op.canceller == Returned ==> PlaceOf(s, i) != OnList && w.op.posts == 1)
    // once the delivery is over nobody is left behind
    && (Over(s) && AtRest(w.op) ==> w.op.posts == 1)
    // after it has been told, no party takes another step on it
    && (w.op.posts == 1 ==> forall act :: !CanStep(w.op, act))
  }

  lemma ToldIsUntouched(o: Op, act: Act)
    requires Inv(o) && o.posts == 1 && CallbackIdle(o)
    ensures !CanStep(o, act)
  {
  }

  lemma GoodIsSound(s: State, i: Id)
    requires Good(s) && i < |s.waits|
    ensures Sound(s, i)
  {
    hide Inv, CanStep, Distinct;
    var w := s.waits[i];
    assert Placed(w, PlaceOf(s, i));
    PublishedTokens(w.op);
    PostsBounded(w.op);
    if AtRest(w.op) {
      RestIsDecided(w.op);
      if w.op.canceller == Returned {
        StopIsHeard(w.op);
      }
    }
    if w.op.posts == 1 {
      forall act
        ensures !CanStep(w.op, act)
      {
        ToldIsUntouched(w.op, act);
      }
    }
  }

  lemma PostsBounded(o: Op)
    requires Inv(o)
    ensures o.posts <= 1
  {
  }

  lemma GoodInRun(run: seq<State>, k: nat)
    requires IsRun(Init, Next, run) && k < |run|
    ensures Good(run[k])
  {
    forall s | Init(s)
      ensures Good(s)
    {
      GoodAtFirst(s);
    }
    forall s, s' | Good(s) && Next(s, s')
      ensures Good(s')
    {
      GoodHolds(s, s');
    }
    AlongRun(Init, Next, Good, run);
  }

  /** In every state of every interleaving, every wait is sound. */
  lemma EveryWaitIsSound(run: seq<State>, k: nat, i: Id)
    requires IsRun(Init, Next, run) && k < |run| && i < |run[k].waits|
    ensures Sound(run[k], i)
  {
    GoodInRun(run, k);
    GoodIsSound(run[k], i);
  }

  /** A step of the delivery at its current waiter `i`, or of the stop callback of that waiter, which
      the delivery waits for before it tells it. */
  predicate IsOnward(i: Id, e: Event) {
    || e == Advance || e == Local(i, PublishBackend) || e == Local(i, PostFromBackend)
    || e == Local(i, Defer(false)) || e == Remove(i, CancelNow(false))
  }

  /** In every state of every run a delivery goes on: it can publish the waiter it is at, tell it once
      its stop callback, if it runs, is through, and then come to the next. */
  lemma DeliveryGoesOn(run: seq<State>, k: nat) returns (e: Event, s': State)
    requires IsRun(Init, Next, run) && k < |run| && run[k].walk.At?
    ensures IsOnward(run[k].walk.current, e) && Happens(run[k], s', e)
  {
    GoodInRun(run, k);
    e, s' := DeliveryStep(run[k]);
  }

  lemma DeliveryStep(s: State) returns (e: Event, s': State)
    requires Good(s) && s.walk.At?
    ensures IsOnward(s.walk.current, e) && Happens(s, s', e)
  {
    hide Inv, Distinct;
    var i, w, rest := s.walk.current, s.waits[s.walk.current], s.walk.rest;
    CurrentIs(s);
    assert Placed(w, PlaceOf(s, i));
    if w.op.publisher == Gone {
      e := Advance;
      var waits := seq(|s.waits|, j requires 0 <= j < |s.waits| =>
                                    if |rest| > 1 && j == rest[1] then Claimed(s.waits[j]) else s.waits[j]);
      s' := s.(waits := waits, walk := if rest == [] then Idle else At(rest[0], rest[1..]));
    } else if w.op.publisher == BackendPost && !CallbackIdle(w.op) {
      CallbackOfClaimed(w.op);
      if w.op.canceller == TryDefer {
        e, s' := Local(i, Defer(false)), s.(waits := s.waits[i := Stepped(w, Defer(false))]);
      } else {
        e := Remove(i, CancelNow(false));
        s' := s.(waits := s.waits[i := w.(op := AfterCancel(w.op, CancelNow(false)))],
                 attached := Without(s.attached, i), walk := WithoutRest(s.walk, i));
      }
    } else {
      var act := if w.op.publisher == BackendPublish then PublishBackend else PostFromBackend;
      e, s' := Local(i, act), s.(waits := s.waits[i := Stepped(w, act)]);
    }
  }

  lemma CallbackOfClaimed(o: Op)
    requires Inv(o) && o.publisher == BackendPost
    ensures o.canceller in {NotCalled, TryDefer, CallCancel, Returned}
  {
  }

  /** A signal that is caught while no delivery is under way starts one, which claims the first two
      waiters and reaches everybody who is on the list. */
  lemma SignalIsDelivered(s: State) returns (s': State)
    requires Good(s) && s.walk == Idle
    ensures Happens(s, s', Detach)
    ensures s'.delivered && if s.attached == [] then s'.walk == Idle else s'.walk == At(s.attached[0], s.attached[1..])
    ensures s.attached != [] ==>
              s.attached[0] < |s'.waits| && s'.waits[s.attached[0]].op.publisher == BackendPublish
  {
    hide Placed, Distinct;
    var first := s.attached[..if |s.attached| < 2 then |s.attached| else 2];
    var waits := seq(|s.waits|, i requires 0 <= i < |s.waits| =>
                                  if i in first then Claimed(s.waits[i]) else s.waits[i]);
    s' := s.(waits := waits, delivered := true, attached := [],
             walk := if s.attached == [] then Idle else At(s.attached[0], s.attached[1..]));
    if s.attached != [] {
      assert s.attached[0] in s.attached && first[0] == s.attached[0];
    }
  }

  /** In every state of every run, a wait that has not been told has a next step of its own, or the
      delivery that has claimed it has one, or it is on the list and can be asked to stop. */
  lemma WaitGoesOn(run: seq<State>, k: nat, i: Id) returns (e: Event, s': State)
    requires IsRun(Init, Next, run) && k < |run| && i < |run[k].waits| && run[k].waits[i].op.posts == 0
    ensures Happens(run[k], s', e)
    ensures Concerns(e, i) || (run[k].walk.At? && IsOnward(run[k].walk.current, e))
    ensures var o := run[k].waits[i].op; IsWaiting(o) ==> Removable(run[k], i) && e == Local(i, CallStop)
  {
    GoodInRun(run, k);
    e, s' := WaitStep(run[k], i);
  }

  /** Of the wait `i` itself. */
  predicate Concerns(e: Event, i: Id) {
    (e.Local? || e.Add? || e.Refuse? || e.Remove?) && e.i == i
  }

  lemma WaitStep(s: State, i: Id) returns (e: Event, s': State)
    requires Good(s) && i < |s.waits| && s.waits[i].op.posts == 0
    ensures Happens(s, s', e) && (Concerns(e, i) || (s.walk.At? && IsOnward(s.walk.current, e)))
    ensures IsWaiting(s.waits[i].op) ==> Removable(s, i) && e == Local(i, CallStop)
  {
    hide Inv, Step, Enabled, Distinct, AfterCancel;
    var w := s.waits[i];
    assert Placed(w, PlaceOf(s, i));
    var act := NextAct(w.op);
    if act in {PublishBackend, PostFromBackend} {
      e, s' := DeliveryStep(s);
    } else if IsLocal(act) {
      e, s' := Local(i, act), s.(waits := s.waits[i := Stepped(w, act)]);
    } else if act == Register && !s.delivered {
      e, s' := Add(i), s.(waits := s.waits[i := Added(w)], attached := [i] + s.attached);
    } else if act == Register {
      RegisterOrComplete(w.op);
      e, s' := Refuse(i, Signal), s.(waits := s.waits[i := Refused(w, Signal)]);
    } else {
      e := Remove(i, act);
      s' := s.(waits := s.waits[i := w.(op := AfterCancel(w.op, act))],
               attached := Without(s.attached, i), walk := WithoutRest(s.walk, i));
    }
  }

  lemma RegisterOrComplete(o: Op)
    requires Enabled(o, Register)
    ensures Enabled(o, CompleteInStart)
  {
  }

  /** The next act of a wait that has not been told; telling it waits for its stop callback. */
  lemma NextAct(o: Op) returns (act: Act)
    requires Inv(o) && !o.finished && o.posts == 0
    ensures Enabled(o, act) && (IsLocal(act) || act == Register || act.CancelDeferredNow? || act.CancelNow?)
    ensures IsLocal(act) ==> CanStep(o, act)
    ensures act.CancelDeferredNow? || act.CancelNow? ==> CancelPending(o, act) && act.taken == (o.token == Held)
    ensures IsWaiting(o) ==> act == CallStop
    ensures act in {PublishBackend, PostFromBackend} ==> o.publisher in {BackendPublish, BackendPost}
  {
    if o.starter == NotStarted {
      act := Start;
    } else if o.canceller !in {NotCalled, Returned} {
      act := CallbackGoesOn(o);
    } else {
      act := SomebodyGoesOn(o);
      if IsWaiting(o) {
        act := CallStop;
      }
    }
  }

  /** Any number of waits; and a registration may fail at any time before it is on the list. */
  lemma CanStart(waits: nat) returns (s: State)
    ensures Init(s) && |s.waits| == waits
  {
    s := State(seq(waits, i => Wait(FRESH, Unset, Unset)), false, [], Idle);
  }

  lemma CanFail(s: State, i: Id, errno: nat) returns (s': State)
    requires i < |s.waits| && s.waits[i].op.starter == Registering
    ensures Happens(s, s', Refuse(i, Failed(errno))) && s'.waits[i].result == Failed(errno)
  {
    s' := s.(waits := s.waits[i := Refused(s.waits[i], Failed(errno))]);
  }
}
