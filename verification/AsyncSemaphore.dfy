/** `async_semaphore`: a counter that `try_acquire` takes from without a lock, and a list of waiters
    behind a lock that `start`, `release` and stop callbacks contend for.

    One step is one access to the counter or one critical section; `start` is finer, because the
    counter may change between its accesses.  The list is the sequence that
    WaitingLists.SemaphoreList keeps. */
module AsyncSemaphore {
  import opened Basics
  import opened Behaviors
  import opened Sequences

  type Id = nat

  /** What became of an acquisition. */
  datatype Fate = Undecided | Linked | Granted | Withdrawn

  datatype Starter =
    | NotStarted | StopAtOnce | Emplacing
    | WantLock | CheckStop | Trying | Linking      // the last three under the lock
    | ResetStopped | ResetValue                    // about to destroy the stop callback and complete
    | Returned

  /** The stop callback: not constructed, waiting for a stop request, about to take the lock, having
      unregistered the waiter, and gone or over. */
  datatype Callback = Unset | Registered | AtLock | Won | Over

  datatype Outcome = Pending | Value | Stopped

  datatype Waiter = Waiter(
    starter: Starter, callback: Callback, fate: Fate,
    granter: bool,        // a `release` took it off the list and is about to complete it
    stop: bool,           // a stop was requested
    completions: nat, outcome: Outcome,
    ticket: nat)          // drawn when it is linked; 0 before

  const FRESH := Waiter(NotStarted, Unset, Undecided, false, false, 0, Pending, 0)

  datatype Owner = Free | Start(id: Id) | Releaser

  datatype State = State(
    counter: nat, max: nat, init: nat,
    owner: Owner, waiters: seq<Waiter>, queue: seq<Id>,
    released: nat,        // how many `release` have taken effect
    barged: nat,          // how many `try_acquire` from outside have succeeded
    nextTicket: nat)

  predicate Init(s: State) {
    && s.counter == s.init <= s.max && s.owner == Free && s.queue == []
    && s.released == s.barged == 0 && s.nextTicket == 1
    && (forall i | 0 <= i < |s.waiters| :: s.waiters[i] == FRESH.(stop := s.waiters[i].stop))
  }

  // ---- the steps that touch only the waiter ----

  datatype Act =
    | Begin | Register | Complete(outcome: Outcome) | RequestStop | RunCallback | CompleteStopped | CompleteGrant

  /** Destroying the callback waits for one that is running. */
  predicate CallbackIdle(w: Waiter) {
    w.callback in {Registered, Over}
  }

  predicate Enabled(w: Waiter, act: Act) {
    match act
    case Begin => w.starter == NotStarted
    case Register => w.starter == Emplacing && !w.stop
    case Complete(Stopped) => w.starter == StopAtOnce || (w.starter == ResetStopped && CallbackIdle(w))
    case Complete(Value) => w.starter == ResetValue && CallbackIdle(w)
    case Complete(Pending) => false
    case RequestStop => !w.stop
    case RunCallback => w.callback == Registered && w.stop
    case CompleteStopped => w.callback == Won
    case CompleteGrant => w.granter && CallbackIdle(w)
  }

  function Completed(w: Waiter, o: Outcome): Waiter {
    w.(completions := w.completions + 1, outcome := o, callback := Over)
  }

  function Step(w: Waiter, act: Act): Waiter
    requires Enabled(w, act)
  {
    match act
    case Begin => if w.stop then w.(starter := StopAtOnce, fate := Withdrawn) else w.(starter := Emplacing)
    case Register => w.(callback := Registered, starter := WantLock)
    case Complete(o) => Completed(w, o).(starter := Returned)
    case RequestStop => w.(stop := true)
    case RunCallback => w.(callback := AtLock)
    case CompleteStopped => Completed(w, Stopped)
    case CompleteGrant => Completed(w, Value).(granter := false)
  }

  predicate Locally(s: State, s': State, i: Id, act: Act) {
    && i < |s.waiters| && Enabled(s.waiters[i], act)
    && s' == s.(waiters := s.waiters[i := Step(s.waiters[i], act)])
  }

  // ---- start ----

  /** Constructing the callback after the stop: it runs at once, under the lock, and finds the
      waiter not linked. */
  predicate EmplacesLate(s: State, s': State, i: Id) {
    && i < |s.waiters| && s.waiters[i].starter == Emplacing && s.waiters[i].stop && s.owner == Free
    && s' == s.(waiters := s.waiters[i := s.waiters[i].(callback := Over, starter := WantLock)])
  }

  predicate Locks(s: State, s': State, i: Id) {
    && i < |s.waiters| && s.waiters[i].starter == WantLock && s.owner == Free
    && s' == s.(waiters := s.waiters[i := s.waiters[i].(starter := CheckStop)], owner := Start(i))
  }

  function Checked(w: Waiter): Waiter {
    if w.stop then w.(starter := ResetStopped, fate := Withdrawn) else w.(starter := Trying)
  }

  predicate Checks(s: State, s': State, i: Id) {
    && i < |s.waiters| && s.waiters[i].starter == CheckStop
    && s' == s.(waiters := s.waiters[i := Checked(s.waiters[i])],
                owner := if s.waiters[i].stop then Free else s.owner)
  }

  function Tried(w: Waiter, got: bool): Waiter {
    if got then w.(starter := ResetValue, fate := Granted) else w.(starter := Linking)
  }

  predicate Tries(s: State, s': State, i: Id) {
    && i < |s.waiters| && s.waiters[i].starter == Trying
    && var got := s.counter > 0;
      s' == s.(waiters := s.waiters[i := Tried(s.waiters[i], got)],
               counter := if got then s.counter - 1 else s.counter, owner := if got then Free else s.owner)
  }

  predicate Links(s: State, s': State, i: Id) {
    && i < |s.waiters| && s.waiters[i].starter == Linking
    && s' == s.(waiters := s.waiters[i := s.waiters[i].(starter := Returned, fate := Linked, ticket := s.nextTicket)],
                queue := s.queue + [i], owner := Free, nextTicket := s.nextTicket + 1)
  }

  // ---- unregister_, release, try_acquire ----

  function Unregistered(w: Waiter, linked: bool): Waiter {
    if linked then w.(callback := Won, fate := Withdrawn) else w.(callback := Over)
  }

  predicate Unregisters(s: State, s': State, i: Id) {
    && i < |s.waiters| && s.waiters[i].callback == AtLock && s.owner == Free
    && s' == s.(waiters := s.waiters[i := Unregistered(s.waiters[i], i in s.queue)], queue := Without(s.queue, i))
  }

  predicate ReleaseLocks(s: State, s': State) {
    s.owner == Free && s' == s.(owner := Releaser)
  }

  function HandedOver(w: Waiter): Waiter {
    w.(fate := Granted, granter := true)
  }

  predicate HandsOver(s: State, s': State) {
    && s.owner == Releaser && s.queue != [] && s.queue[0] < |s.waiters|
    && s' == s.(waiters := s.waiters[s.queue[0] := HandedOver(s.waiters[s.queue[0]])], queue := s.queue[1..],
                released := s.released + 1, owner := Free)
  }

  /** With the counter at its maximum the program is terminated: there is no next state. */
  predicate CountsUp(s: State, s': State) {
    && s.owner == Releaser && s.queue == [] && s.counter < s.max
    && s' == s.(counter := s.counter + 1, released := s.released + 1, owner := Free)
  }

  predicate TryAcquires(s: State, s': State) {
    s.counter > 0 && s' == s.(counter := s.counter - 1, barged := s.barged + 1)
  }

  datatype Event =
    | Local(i: Id, act: Act) | EmplaceLate(i: Id) | Lock(i: Id) | Check(i: Id) | Try(i: Id) | Link(i: Id)
    | Unregister(i: Id) | ReleaseLock | HandOver | CountUp | TryAcquire

  predicate Happens(s: State, s': State, e: Event) {
    match e
    case Local(i, act) => Locally(s, s', i, act)
    case EmplaceLate(i) => EmplacesLate(s, s', i)
    case Lock(i) => Locks(s, s', i)
    case Check(i) => Checks(s, s', i)
    case Try(i) => Tries(s, s', i)
    case Link(i) => Links(s, s', i)
    case Unregister(i) => Unregisters(s, s', i)
    case ReleaseLock => ReleaseLocks(s, s')
    case HandOver => HandsOver(s, s')
    case CountUp => CountsUp(s, s')
    case TryAcquire => TryAcquires(s, s')
  }

  ghost predicate Next(s: State, s': State) {
    exists e :: Happens(s, s', e)
  }

  // ---- the invariant ----

  predicate Decided(w: Waiter) { w.fate in {Granted, Withdrawn} }

  /** Completions that are under way. */
  function Owed(w: Waiter): nat {
    One(w.starter in {StopAtOnce, ResetStopped, ResetValue}) + One(w.callback == Won) + One(w.granter)
  }

  /** The stop callback goes off only when a stop was requested, and stays until whoever has got so far
      completes the waiter: in the list it is still to come. */
  predicate Calling(w: Waiter) {
    && (w.callback in {AtLock, Won} || (w.callback == Over && w.completions == 0) ==> w.stop)
    && (w.starter in {Trying, Linking} || w.fate == Linked ==> w.callback in {Registered, AtLock})
    && (w.starter in {WantLock, CheckStop, ResetStopped, ResetValue} || w.granter ==>
          w.callback in {Registered, AtLock, Over})
  }

  /** What it is told is what became of it. */
  predicate Told(w: Waiter) {
    && w.outcome == (if w.completions == 0 then Pending else if w.fate == Granted then Value else Stopped)
    && (w.completions == 1 ==> w.callback == Over)
    && (w.fate == Withdrawn ==> w.stop)
    && (w.fate == Undecided ==> w.ticket == 0) && (w.fate == Linked ==> w.ticket > 0)
  }

  predicate Placed(w: Waiter, isQueued: bool, isOwner: bool) {
    && Calling(w) && Told(w)
    && (w.fate == Linked <==> isQueued)
    && (isOwner <==> w.starter in {CheckStop, Trying, Linking})
    && (w.fate == Undecided <==> w.starter in {NotStarted, Emplacing, WantLock, CheckStop, Trying, Linking})
    && (w.fate == Linked || w.granter || w.callback == Won ==> w.starter == Returned)
    && (w.starter in {StopAtOnce, ResetStopped} || w.callback == Won ==> w.fate == Withdrawn)
    && (w.starter == ResetValue || w.granter ==> w.fate == Granted)
    && (w.starter in {NotStarted, Emplacing, StopAtOnce} ==> w.callback == Unset)
    && Owed(w) + w.completions == One(Decided(w))
  }

  predicate AllPlaced(s: State) {
    forall i | 0 <= i < |s.waiters| :: Placed(s.waiters[i], i in s.queue, s.owner == Start(i))
  }

  predicate Listing(s: State) {
    && (forall i | i in s.queue :: i < |s.waiters|)
    && (s.owner.Start? ==> s.owner.id < |s.waiters|)
  }

  /** Somebody waits, or is about to: then there is nothing to take. */
  predicate Spent(s: State) {
    && (s.queue != [] ==> s.counter == 0)
    && (s.owner.Start? && s.owner.id < |s.waiters| && s.waiters[s.owner.id].starter == Linking ==> s.counter == 0)
  }

  predicate HasPermit(w: Waiter) { w.fate == Granted }

  function GrantedCount(ws: seq<Waiter>): nat { Count(ws, HasPermit) }

  /** Every permit is accounted for. */
  predicate Balanced(s: State) {
    && s.init + s.released == s.counter + s.barged + GrantedCount(s.waiters)
    && s.counter <= s.max
  }

  function Ticket(ws: seq<Waiter>, i: Id): nat { if i < |ws| then ws[i].ticket else 0 }

  predicate Sorted(ws: seq<Waiter>, xs: seq<Id>) {
    xs != [] ==> (forall y | y in xs[1..] :: Ticket(ws, xs[0]) < Ticket(ws, y)) && Sorted(ws, xs[1..])
  }

  /** Whoever has got a permit came before all who still wait. */
  predicate ServedFirst(s: State) {
    && (forall i | 0 <= i < |s.waiters| :: s.waiters[i].ticket < s.nextTicket)
    && (forall i, j | 0 <= i < |s.waiters| && 0 <= j < |s.waiters| ::
          s.waiters[i].fate == Granted && j in s.queue ==> s.waiters[i].ticket < s.waiters[j].ticket)
  }

  predicate InOrder(s: State) {
    Sorted(s.waiters, s.queue) && ServedFirst(s)
  }

  predicate Good(s: State) {
    AllPlaced(s) && Listing(s) && Spent(s) && Balanced(s) && InOrder(s)
  }

  // ---- each step, seen from the waiter ----

  lemma LocalPlaced(w: Waiter, act: Act, q: bool, o: bool)
    requires Placed(w, q, o) && Enabled(w, act)
    ensures var w' := Step(w, act);
      && Placed(w', q, o) && w'.ticket == w.ticket
      && (w'.fate == Granted <==> w.fate == Granted) && (w'.starter == Linking <==> w.starter == Linking)
      && (w.starter == Linking ==> o)
  {
  }

  lemma EmplaceLatePlaced(w: Waiter, q: bool, o: bool)
    requires Placed(w, q, o) && w.starter == Emplacing && w.stop
    ensures Placed(w.(callback := Over, starter := WantLock), q, o)
  {
  }

  lemma LockPlaced(w: Waiter, q: bool)
    requires Placed(w, q, false) && w.starter == WantLock
    ensures Placed(w.(starter := CheckStop), q, true)
  {
    hide Told, Calling, Owed, Decided, One;
    LockedAlike(w);
  }

  lemma LockedAlike(w: Waiter)
    requires Calling(w) && Told(w) && w.starter == WantLock
    ensures var w' := w.(starter := CheckStop);
      Calling(w') && Told(w') && Owed(w') == Owed(w) && Decided(w') == Decided(w)
  {
  }

  lemma CheckPlaced(w: Waiter, q: bool, o: bool)
    requires Placed(w, q, o) && w.starter == CheckStop
    ensures o && Placed(Checked(w), q, !w.stop) && Checked(w).fate != Granted && w.fate == Undecided
  {
  }

  lemma TryPlaced(w: Waiter, got: bool, q: bool, o: bool)
    requires Placed(w, q, o) && w.starter == Trying
    ensures o && !q && Placed(Tried(w, got), false, !got) && w.fate == Undecided
  {
  }

  lemma LinkPlaced(w: Waiter, t: nat, q: bool, o: bool)
    requires Placed(w, q, o) && w.starter == Linking && t > 0
    ensures o && !q && w.fate == Undecided
    ensures Placed(w.(starter := Returned, fate := Linked, ticket := t), true, false)
  {
    hide Told;
    LinkedTold(w, t);
  }

  lemma LinkedTold(w: Waiter, t: nat)
    requires Told(w) && w.fate == Undecided && w.completions == 0 && t > 0
    ensures Told(w.(starter := Returned, fate := Linked, ticket := t))
  {
  }

  lemma UnregisterPlaced(w: Waiter, q: bool)
    requires Placed(w, q, false) && w.callback == AtLock
    ensures Placed(Unregistered(w, q), false, false) && (q ==> w.fate == Linked)
    ensures var w' := Unregistered(w, q);
      && (w'.fate == Granted <==> w.fate == Granted) && w'.starter == w.starter
      && w'.ticket == w.ticket
  {
  }

  lemma HandOverPlaced(w: Waiter, o: bool)
    requires Placed(w, true, o)
    ensures !o && Placed(HandedOver(w), false, false) && w.fate == Linked
  {
  }

  // ---- each step, seen from the semaphore ----

  predicate OnlyAt(s: State, s': State, i: Id) {
    && i < |s.waiters| == |s'.waiters|
    && (forall j | 0 <= j < |s.waiters| && j != i ::
      && s'.waiters[j] == s.waiters[j]
      && (j in s'.queue <==> j in s.queue) && (s'.owner == Start(j) <==> s.owner == Start(j)))
  }

  lemma PlacedAt(s: State, s': State, i: Id)
    requires AllPlaced(s) && OnlyAt(s, s', i)
    requires Placed(s'.waiters[i], i in s'.queue, s'.owner == Start(i))
    ensures AllPlaced(s')
  {
    hide Placed;
    assert forall j | 0 <= j < |s.waiters| :: Placed(s.waiters[j], j in s.queue, s.owner == Start(j));
  }

  /** Only the waiter `i` and the lock changed, and neither its place nor what it was granted. */
  lemma QuietKeeps(s: State, s': State, i: Id, w: Waiter)
    requires Good(s) && i < |s.waiters|
    requires s' == s.(waiters := s.waiters[i := w], owner := s'.owner)
    requires s'.owner == s.owner || s'.owner == Start(i) || (s'.owner == Free && s.owner == Start(i))
    requires s.owner == Free || s'.owner in {Free, s.owner}
    requires Placed(w, i in s.queue, s'.owner == Start(i))
    requires w.ticket == s.waiters[i].ticket
    requires w.fate == Granted <==> s.waiters[i].fate == Granted
    requires w.starter == Linking ==> s.waiters[i].starter == Linking && s.owner == Start(i)
    ensures Good(s')
  {
    hide Placed;
    PlacedAt(s, s', i);
    CountUpdate(s.waiters, HasPermit, i, w);
    SameOrder(s.waiters, s'.waiters, s.queue);
  }

  lemma LocalKeeps(s: State, s': State, i: Id, act: Act)
    requires Good(s) && Locally(s, s', i, act)
    ensures Good(s')
  {
    hide Placed, Step, Enabled, Spent, Balanced, InOrder, Listing;
    LocalPlaced(s.waiters[i], act, i in s.queue, s.owner == Start(i));
    QuietKeeps(s, s', i, s'.waiters[i]);
  }

  lemma LockKeeps(s: State, s': State, i: Id)
    requires Good(s) && (EmplacesLate(s, s', i) || Locks(s, s', i))
    ensures Good(s')
  {
    hide Placed, Spent, Balanced, InOrder, Listing;
    var w := s.waiters[i];
    if w.starter == Emplacing {
      EmplaceLatePlaced(w, i in s.queue, false);
    } else {
      LockPlaced(w, i in s.queue);
    }
    QuietKeeps(s, s', i, s'.waiters[i]);
  }

  lemma CheckKeeps(s: State, s': State, i: Id)
    requires Good(s) && Checks(s, s', i)
    ensures Good(s')
  {
    hide Placed, Spent, Balanced, InOrder, Listing;
    CheckPlaced(s.waiters[i], i in s.queue, s.owner == Start(i));
    QuietKeeps(s, s', i, s'.waiters[i]);
  }

  lemma TryKeeps(s: State, s': State, i: Id)
    requires Good(s) && Tries(s, s', i)
    ensures Good(s')
  {
    hide Placed;
    var got := s.counter > 0;
    TryPlaced(s.waiters[i], got, i in s.queue, s.owner == Start(i));
    PlacedAt(s, s', i);
    CountUpdate(s.waiters, HasPermit, i, Tried(s.waiters[i], got));
    SameOrder(s.waiters, s'.waiters, s.queue);
  }

  /** Appending the latest ticket. */
  lemma {:induction false} SortedAppend(ws: seq<Waiter>, ws': seq<Waiter>, xs: seq<Id>, i: Id)
    requires Sorted(ws, xs) && i < |ws| == |ws'| && i !in xs
    requires forall j | 0 <= j < |ws| && j != i :: ws'[j].ticket == ws[j].ticket
    requires forall j | j in xs :: j < |ws| && ws[j].ticket < ws'[i].ticket
    ensures Sorted(ws', xs + [i])
  {
    if xs != [] {
      SortedAppend(ws, ws', xs[1..], i);
      assert (xs + [i])[1..] == xs[1..] + [i];
      assert xs[0] in xs;
      forall y | y in xs[1..] + [i]
        ensures Ticket(ws', xs[0]) < Ticket(ws', y)
      {
        assert y == i || y in xs;
      }
    }
  }

  lemma {:induction false} SameOrder(ws: seq<Waiter>, ws': seq<Waiter>, xs: seq<Id>)
    requires Sorted(ws, xs) && |ws'| == |ws|
    requires forall j | 0 <= j < |ws| && j in xs :: ws'[j].ticket == ws[j].ticket
    ensures Sorted(ws', xs)
  {
    if xs != [] {
      SameOrder(ws, ws', xs[1..]);
      forall y | y in xs[1..]
        ensures Ticket(ws', xs[0]) < Ticket(ws', y)
      {
        assert y in xs;
      }
    }
  }

  lemma LinkKeeps(s: State, s': State, i: Id)
    requires Good(s) && Links(s, s', i)
    ensures Good(s')
  {
    hide Placed;
    LinkPlaced(s.waiters[i], s.nextTicket, i in s.queue, s.owner == Start(i));
    PlacedAt(s, s', i);
    CountUpdate(s.waiters, HasPermit, i, s'.waiters[i]);
    SortedAppend(s.waiters, s'.waiters, s.queue, i);
  }

  lemma {:induction false} SortedWithout(ws: seq<Waiter>, xs: seq<Id>, x: Id)
    requires Sorted(ws, xs)
    ensures Sorted(ws, Without(xs, x)) && x !in Without(xs, x)
  {
    if xs != [] && xs[0] != x {
      SortedWithout(ws, xs[1..], x);
      assert Without(xs, x)[1..] == Without(xs[1..], x);
      forall y | y in Without(xs[1..], x)
        ensures y in xs[1..]
      {
      }
    }
  }

  lemma UnregisterOrder(s: State, s': State, i: Id)
    requires Good(s) && Unregisters(s, s', i)
    ensures InOrder(s') && Listing(s')
  {
    hide Placed, Unregistered, Balanced, Spent;
    UnregisterPlaced(s.waiters[i], i in s.queue);
    SortedWithout(s.waiters, s.queue, i);
    SameOrder(s.waiters, s'.waiters, s'.queue);
  }

  lemma UnregisterKeeps(s: State, s': State, i: Id)
    requires Good(s) && Unregisters(s, s', i)
    ensures Good(s')
  {
    hide Placed, Unregistered, Sorted, ServedFirst;
    UnregisterOrder(s, s', i);
    UnregisterPlaced(s.waiters[i], i in s.queue);
    SortedWithout(s.waiters, s.queue, i);
    PlacedAt(s, s', i);
    CountUpdate(s.waiters, HasPermit, i, s'.waiters[i]);
  }

  lemma HandOverKeeps(s: State, s': State)
    requires Good(s) && HandsOver(s, s')
    ensures Good(s')
  {
    hide Placed;
    var i := s.queue[0];
    HandOverPlaced(s.waiters[i], s.owner == Start(i));
    assert s.queue == [i] + s.queue[1..] && i !in s.queue[1..];
    SameOrder(s.waiters, s'.waiters, s.queue[1..]);
    PlacedAt(s, s', i);
    CountUpdate(s.waiters, HasPermit, i, s'.waiters[i]);
  }

  lemma CounterKeeps(s: State, s': State)
    requires Good(s) && (ReleaseLocks(s, s') || CountsUp(s, s') || TryAcquires(s, s'))
    ensures Good(s')
  {
    hide Placed;
    assert AllPlaced(s');
  }

  lemma GoodHolds(s: State, s': State)
    requires Good(s) && Next(s, s')
    ensures Good(s')
  {
    hide Good, Locally, EmplacesLate, Locks, Checks, Tries, Links, Unregisters, ReleaseLocks, HandsOver, CountsUp,
         TryAcquires;
    var e :| Happens(s, s', e);
    match e
    case Local(i, act) => LocalKeeps(s, s', i, act);
    case EmplaceLate(i) => LockKeeps(s, s', i);
    case Lock(i) => LockKeeps(s, s', i);
    case Check(i) => CheckKeeps(s, s', i);
    case Try(i) => TryKeeps(s, s', i);
    case Link(i) => LinkKeeps(s, s', i);
    case Unregister(i) => UnregisterKeeps(s, s', i);
    case ReleaseLock => CounterKeeps(s, s');
    case HandOver => HandOverKeeps(s, s');
    case CountUp => CounterKeeps(s, s');
    case TryAcquire => CounterKeeps(s, s');
  }

  lemma GoodAtFirst(s: State)
    requires Init(s)
    ensures Good(s)
  {
    CountNone(s.waiters, HasPermit);
  }

  // ---- what the semaphore promises ----

  /** No party has a step of its own left on the waiter. */
  predicate AtRest(w: Waiter) {
    w.starter == Returned && w.callback in {Unset, Registered, Over} && !w.granter
  }

  /** One acquisition: it completes at most once, with a value exactly when it got a permit; once
      every party rests it is either still queued or has completed; and after it has completed
      nobody touches it again. */
  predicate CompletesOnce(w: Waiter, isQueued: bool) {
    && w.completions <= 1
    && (w.completions == 1 ==> (w.outcome == Value <==> w.fate == Granted) && w.outcome != Pending)
    && (AtRest(w) ==> w.completions == if isQueued then 0 else 1)
    && (w.completions == 1 ==> AtRest(w) && w.callback != Registered)
    // and nobody is told to have stopped without a request
    && (w.outcome == Stopped ==> w.stop)
    // a stop request for a waiter in the list is still to be acted on
    && (isQueued && w.stop ==> Enabled(w, RunCallback) || w.callback == AtLock)
  }

  predicate Sound(s: State) {
    // permits are conserved
    && s.init + s.released == s.counter + s.barged + GrantedCount(s.waiters)
    && s.counter <= s.max
    // nobody waits while there is a permit
    && (s.queue != [] ==> s.counter == 0)
    && (forall i | 0 <= i < |s.waiters| :: CompletesOnce(s.waiters[i], i in s.queue))
    // first come, first served: whoever still waits came after everyone who was served
    && (forall i, j | 0 <= i < |s.waiters| && 0 <= j < |s.waiters| ::
          s.waiters[i].fate == Granted && j in s.queue ==> s.waiters[i].ticket < s.waiters[j].ticket)
  }

  lemma PlacedCompletesOnce(w: Waiter, q: bool, o: bool)
    requires Placed(w, q, o)
    ensures CompletesOnce(w, q)
  {
  }

  lemma GoodInRun(run: seq<State>, k: nat)
    requires IsRun(Init, Next, run) && k < |run|
    ensures Good(run[k])
  {
    forall s | Init(s)
      ensures Good(s)
    {
      GoodAtFirst(s);
    }
    forall s, s' | Good(s) && Next(s, s')
      ensures Good(s')
    {
      GoodHolds(s, s');
    }
    AlongRun(Init, Next, Good, run);
  }

  /** In every state of every interleaving. */
  lemma SemaphoreIsSound(run: seq<State>, k: nat)
    requires IsRun(Init, Next, run) && k < |run|
    ensures Sound(run[k])
  {
    GoodInRun(run, k);
    GoodIsSound(run[k]);
  }

  lemma GoodIsSound(s: State)
    requires Good(s)
    ensures Sound(s)
  {
    hide Placed, CompletesOnce;
    forall i | 0 <= i < |s.waiters|
      ensures CompletesOnce(s.waiters[i], i in s.queue)
    {
      PlacedCompletesOnce(s.waiters[i], i in s.queue, s.owner == Start(i));
    }
  }

  /** What a step may do while somebody waits: no permit leaves the counter, and a permit goes only to
      the first in the queue, whose ticket is the least. */
  predicate ServesTheFirst(s: State, s': State) {
    && s'.counter == s.counter == 0 && s'.barged == s.barged
    && (forall i | 0 <= i < |s.waiters| && i < |s'.waiters| && s'.waiters[i].fate == Granted != s.waiters[i].fate ::
      && s.queue != [] && i == s.queue[0]
      && forall j | j in s.queue[1..] && j < |s.waiters| :: s.waiters[i].ticket < s.waiters[j].ticket)
  }

  /** No barging, in any step of any run. */
  lemma NoBarging(run: seq<State>, k: nat)
    requires IsRun(Init, Next, run) && k < |run| - 1 && run[k].queue != []
    ensures ServesTheFirst(run[k], run[k + 1])
  {
    GoodInRun(run, k);
    StepServes(run[k], run[k + 1]);
  }

  lemma StepServes(s: State, s': State)
    requires Good(s) && Next(s, s') && s.queue != []
    ensures ServesTheFirst(s, s')
  {
    hide Placed, Step, Enabled, Listing, Balanced, ServedFirst;
    var e :| Happens(s, s', e);
    if e.Local? {
      LocalPlaced(s.waiters[e.i], e.act, e.i in s.queue, s.owner == Start(e.i));
    } else if e.HandOver? {
      FirstTicket(s);
    }
  }

  lemma FirstTicket(s: State)
    requires Good(s) && s.queue != []
    ensures s.queue[0] < |s.waiters|
    ensures forall j | j in s.queue[1..] :: j < |s.waiters| && s.waiters[s.queue[0]].ticket < s.waiters[j].ticket
  {
    hide Placed, Balanced, ServedFirst;
    assert s.queue[0] in s.queue;
    forall j | j in s.queue[1..]
      ensures j in s.queue && Ticket(s.waiters, s.queue[0]) < Ticket(s.waiters, j)
    {
    }
  }

  /** Whoever has the lock gives it back: `start` has a next step, and `release` has one unless nobody
      waits and the counter is at its maximum, which is when the program is terminated. */
  lemma LockIsReleased(run: seq<State>, k: nat) returns (e: Event, s': State)
    requires IsRun(Init, Next, run) && k < |run| && run[k].owner != Free
    requires run[k].owner == Releaser && run[k].queue == [] ==> run[k].counter < run[k].max
    ensures OfTheOwner(run[k], e) && Happens(run[k], s', e)
  {
    GoodInRun(run, k);
    e, s' := OwnerStep(run[k]);
  }

  predicate OfTheOwner(s: State, e: Event) {
    match s.owner
    case Releaser => e == HandOver || e == CountUp
    case Start(i) => e == Check(i) || e == Try(i) || e == Link(i)
    case Free => false
  }

  lemma OwnerStep(s: State) returns (e: Event, s': State)
    requires Good(s) && s.owner != Free
    requires s.owner == Releaser && s.queue == [] ==> s.counter < s.max
    ensures OfTheOwner(s, e) && Happens(s, s', e)
  {
    hide Balanced, InOrder, Spent;
    match s.owner {
      case Releaser =>
        if s.queue != [] {
          var i := s.queue[0];
          assert i in s.queue;
          e := HandOver;
          s' := s.(waiters := s.waiters[i := HandedOver(s.waiters[i])], queue := s.queue[1..],
                   released := s.released + 1, owner := Free);
        } else {
          e, s' := CountUp, s.(counter := s.counter + 1, released := s.released + 1, owner := Free);
        }
      case Start(i) =>
        var w := s.waiters[i];
        assert Placed(w, i in s.queue, s.owner == Start(i));
        if w.starter == CheckStop {
          e := Check(i);
          s' := s.(waiters := s.waiters[i := Checked(w)], owner := if w.stop then Free else s.owner);
        } else if w.starter == Trying {
          var got := s.counter > 0;
          e := Try(i);
          s' := s.(waiters := s.waiters[i := Tried(w, got)], counter := if got then s.counter - 1 else s.counter,
                   owner := if got then Free else s.owner);
        } else {
          e := Link(i);
          s' := s.(waiters := s.waiters[i := w.(starter := Returned, fate := Linked, ticket := s.nextTicket)],
                   queue := s.queue + [i], owner := Free, nextTicket := s.nextTicket + 1);
        }
    }
  }

  // ---- every acquisition goes on ----

  function StarterLeft(w: Waiter): nat {
    match w.starter
    case NotStarted => 8 case Emplacing => 7 case WantLock => 6 case CheckStop => 5 case Trying => 4 case Linking => 3
    case ResetStopped => 2 case ResetValue => 2 case StopAtOnce => 1 case Returned => 0
  }

  function CallbackLeft(w: Waiter): nat {
    match w.callback
    case Unset => 4 case Registered => 3 case AtLock => 2 case Won => 1 case Over => 0
  }

  /** How many steps are left to an acquisition at most. */
  function StepsLeft(w: Waiter): nat {
    StarterLeft(w) + CallbackLeft(w) + One(w.granter)
    + match w.fate case Undecided => 3 case Linked => 2 case Granted => 0 case Withdrawn => 0
  }

  /** Whose step it is. */
  function Whose(s: State, e: Event): Id
    requires e != HandOver || s.queue != []
  {
    match e
    case Local(i, _) => i
    case EmplaceLate(i) => i
    case Lock(i) => i
    case Check(i) => i
    case Try(i) => i
    case Link(i) => i
    case Unregister(i) => i
    case HandOver => s.queue[0]
    case _ => |s.waiters|
  }

  /** Every step on an acquisition brings it nearer to its end and leaves the others alone. */
  lemma StepsRunOut(s: State, s': State, e: Event, j: Id)
    requires Good(s) && Happens(s, s', e) && j < |s.waiters|
    ensures e != HandOver || s.queue != []
    ensures j != Whose(s, e) ==> s'.waiters[j] == s.waiters[j]
    ensures j == Whose(s, e) ==>
              StepsLeft(s'.waiters[j]) < StepsLeft(s.waiters[j]) || (e == Local(j, RequestStop) && s'.waiters[j].stop)
  {
    hide Listing, Spent, Balanced, InOrder, Step, Enabled;
    assert Placed(s.waiters[j], j in s.queue, s.owner == Start(j));
    if e.Local? && e.i == j {
      LocalRunsOut(s.waiters[j], e.act, j in s.queue, s.owner == Start(j));
    }
  }

  lemma LocalRunsOut(w: Waiter, act: Act, q: bool, o: bool)
    requires Placed(w, q, o) && Enabled(w, act)
    ensures StepsLeft(Step(w, act)) < StepsLeft(w) || (act == RequestStop && Step(w, act).stop)
  {
  }

  /** A step of the acquisition `i`, of itself. */
  predicate OfTheWaiter(i: Id, e: Event) {
    (e.Local? && e.i == i && e.act != RequestStop) || e in {EmplaceLate(i), Lock(i), Unregister(i)}
  }

  /** In every state of every run, an acquisition that has not completed has a next step, or whoever has
      the lock has one, or it waits in the list: then it can be asked to stop, and a `release` may come. */
  lemma AcquisitionGoesOn(run: seq<State>, k: nat, i: Id) returns (e: Event, s': State)
    requires IsRun(Init, Next, run) && k < |run| && i < |run[k].waiters| && run[k].waiters[i].completions == 0
    requires run[k].owner == Releaser && run[k].queue == [] ==> run[k].counter < run[k].max
    ensures Happens(run[k], s', e)
    ensures var s := run[k];
      if i in s.queue && AtRest(s.waiters[i]) && !s.waiters[i].stop && s.owner == Free then e == ReleaseLock
      else OfTheOwner(s, e) || OfTheWaiter(i, e)
  {
    GoodInRun(run, k);
    e, s' := AcquisitionStep(run[k], i);
  }

  lemma AcquisitionStep(s: State, i: Id) returns (e: Event, s': State)
    requires Good(s) && i < |s.waiters| && s.waiters[i].completions == 0
    requires s.owner == Releaser && s.queue == [] ==> s.counter < s.max
    ensures Happens(s, s', e)
    ensures if i in s.queue && AtRest(s.waiters[i]) && !s.waiters[i].stop && s.owner == Free then e == ReleaseLock
            else OfTheOwner(s, e) || OfTheWaiter(i, e)
  {
    hide Listing, Spent, Balanced, InOrder, Step;
    var w := s.waiters[i];
    assert Placed(w, i in s.queue, s.owner == Start(i));
    var own, act := OwnAct(w, i in s.queue, s.owner == Start(i));
    if own {
      e, s' := Local(i, act), s.(waiters := s.waiters[i := Step(w, act)]);
    } else if s.owner != Free {
      e, s' := OwnerStep(s);
    } else if w.starter == Emplacing {
      e := EmplaceLate(i);
      s' := s.(waiters := s.waiters[i := w.(callback := Over, starter := WantLock)]);
    } else if w.callback == AtLock {
      e := Unregister(i);
      s' := s.(waiters := s.waiters[i := Unregistered(w, i in s.queue)], queue := Without(s.queue, i));
    } else if w.starter == WantLock {
      e, s' := Lock(i), s.(waiters := s.waiters[i := w.(starter := CheckStop)], owner := Start(i));
    } else {
      e, s' := ReleaseLock, s.(owner := Releaser);
    }
  }

  /** The next step that needs no lock, if there is one. */
  lemma OwnAct(w: Waiter, q: bool, o: bool) returns (own: bool, act: Act)
    requires Placed(w, q, o) && w.completions == 0
    ensures own ==> Enabled(w, act) && act != RequestStop
    ensures !own ==> o || (w.starter == Emplacing && w.stop) || w.callback == AtLock || w.starter == WantLock
                       || (q && AtRest(w) && !w.stop)
  {
    own := true;
    if w.starter == NotStarted {
      act := Begin;
    } else if w.starter == StopAtOnce {
      act := Complete(Stopped);
    } else if w.starter == Emplacing && !w.stop {
      act := Register;
    } else if w.starter == ResetStopped && CallbackIdle(w) {
      act := Complete(Stopped);
    } else if w.starter == ResetValue && CallbackIdle(w) {
      act := Complete(Value);
    } else if w.callback == Won {
      act := CompleteStopped;
    } else if w.granter && CallbackIdle(w) {
      act := CompleteGrant;
    } else if w.fate == Linked && w.callback == Registered && w.stop {
      act := RunCallback;
    } else {
      own, act := false, Begin;
    }
  }

  /** While the lock is free a `release` can take it, `try_acquire` fails only at zero, and a stop can be
      requested at any time. */
  lemma PermitsMove(s: State, i: Id)
    ensures s.owner == Free ==> Happens(s, s.(owner := Releaser), ReleaseLock)
    ensures s.counter > 0 <==> exists s' :: Happens(s, s', TryAcquire)
    ensures i < |s.waiters| && !s.waiters[i].stop ==>
              exists s' :: Happens(s, s', Local(i, RequestStop)) && s'.waiters[i].stop
  {
    if s.counter > 0 {
      assert Happens(s, s.(counter := s.counter - 1, barged := s.barged + 1), TryAcquire);
    }
    if i < |s.waiters| && !s.waiters[i].stop {
      assert Happens(s, s.(waiters := s.waiters[i := s.waiters[i].(stop := true)]), Local(i, RequestStop));
    }
  }

  /** Whoever was asked to stop before it started completes in `start`, without a callback or the lock. */
  lemma StoppedAtOnce(s: State, i: Id) returns (mid: State, s': State)
    requires i < |s.waiters| && s.waiters[i].starter == NotStarted && s.waiters[i].stop
    ensures Happens(s, mid, Local(i, Begin)) && Happens(mid, s', Local(i, Complete(Stopped)))
    ensures s'.waiters[i].completions == s.waiters[i].completions + 1 && s'.waiters[i].outcome == Stopped
  {
    mid := s.(waiters := s.waiters[i := Step(s.waiters[i], Begin)]);
    s' := mid.(waiters := mid.waiters[i := Step(mid.waiters[i], Complete(Stopped))]);
  }

  /** Any acquisitions, with or without a stop request beforehand, and any permits to start with. */
  lemma CanStart(permits: nat, max: nat, stops: seq<bool>) returns (s: State)
    requires permits <= max
    ensures Init(s) && s.counter == permits && s.max == max && |s.waiters| == |stops|
    ensures forall i | 0 <= i < |stops| :: s.waiters[i].stop == stops[i]
  {
    s := State(permits, max, permits, Free,
               seq(|stops|, i requires 0 <= i < |stops| => FRESH.(stop := stops[i])), [], 0, 0, 1);
  }
}
