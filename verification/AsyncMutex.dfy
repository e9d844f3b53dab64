/** `async_mutex`: one word that is "not locked", "locked, nobody waits" or the top of a stack of
    waiters, and a list of waiters that unlocking has already turned around.

    One step is one access to the word, to the list head, or to one link.  A locker that has
    unlocked may lock again: its address comes back (ABA). */
module AsyncMutex {
  import opened Behaviors
  import opened Chains
  import opened Sequences

  datatype Word = NotLocked | Locked(top: Link)

  datatype Place =
    | Away
    | TryLock | Push(seen: Link) | Queued       // in `start`
    | Holding
    | LoadHead | TryUnlock | Exchange           // in `unlock`
    | Reversing(current: Link, oldHead: Link)
    | StoreHead(oldHead: Link) | Resume(oldHead: Link)

  datatype State = State(
    word: Word, head: Link, next: seq<Link>, places: seq<Place>,
    // auxiliary: who owns the lock, the waiters in the order of their pushes, and where they are;
    // all that were ever pushed, and granted the lock by an unlock, in order
    owner: Link, queue: seq<Id>, stack: seq<Id>, draining: seq<Id>, front: seq<Id>,
    pushed: seq<Id>, granted: seq<Id>)

  predicate Init(s: State) {
    && s.word == NotLocked && s.head == Null && |s.next| == |s.places|
    && (forall i | 0 <= i < |s.places| :: s.places[i] == Away)
    && s.owner == Null && s.queue == s.stack == s.draining == s.front == s.pushed == s.granted == []
  }

  predicate At(s: State, i: Id, p: Place) {
    i < |s.places| == |s.next| && s.places[i] == p
  }

  // ---- locking ----

  predicate Starts(s: State, s': State, i: Id) {
    At(s, i, Away) && s' == s.(places := s.places[i := TryLock])
  }

  /** `try_lock`; when it fails nothing changes. */
  predicate TriesOnce(s: State, s': State, i: Id) {
    && At(s, i, Away) && s.word == NotLocked
    && s' == s.(places := s.places[i := Holding], word := Locked(Null), owner := To(i))
  }

  predicate TriesLock(s: State, s': State, i: Id) {
    && At(s, i, TryLock)
    && s' == match s.word
             case NotLocked => s.(places := s.places[i := Holding], word := Locked(Null), owner := To(i))
             case Locked(top) => s.(places := s.places[i := Push(top)], next := s.next[i := top])
  }

  /** The exchange succeeds only if the word is still, or again, what it was; it may fail
      spuriously. */
  predicate Pushes(s: State, s': State, i: Id, spurious: bool) {
    && i < |s.places| && s.places[i].Push?
    && s' == if s.word == Locked(s.places[i].seen) && !spurious
             then s.(places := s.places[i := Queued], word := Locked(To(i)),
                     stack := [i] + s.stack, queue := s.queue + [i], pushed := s.pushed + [i])
             else s.(places := s.places[i := TryLock])
  }

  // ---- unlocking ----

  predicate Unlocks(s: State, s': State, i: Id) {
    At(s, i, Holding) && s' == s.(places := s.places[i := LoadHead])
  }

  predicate LoadsHead(s: State, s': State, i: Id) {
    At(s, i, LoadHead) && s' == s.(places := s.places[i := if s.head == Null then TryUnlock else StoreHead(s.head)])
  }

  predicate TriesUnlock(s: State, s': State, i: Id) {
    && At(s, i, TryUnlock)
    && s' == if s.word == Locked(Null) then s.(places := s.places[i := Away], word := NotLocked, owner := Null)
             else s.(places := s.places[i := Exchange])
  }

  predicate Exchanges(s: State, s': State, i: Id) {
    && At(s, i, Exchange) && s.word.Locked?
    && s' == s.(places := s.places[i := Reversing(s.word.top, Null)], word := Locked(Null),
                draining := s.stack, stack := [])
  }

  /** One round of the loop that reverses the stack, or its end. */
  predicate Reverses(s: State, s': State, i: Id) {
    && i < |s.places| && s.places[i].Reversing?
    && match s.places[i].current
       case Null => s' == s.(places := s.places[i := StoreHead(s.places[i].oldHead)])
       case To(c) =>
         && c < |s.next| && s.draining != []
         && s' == s.(places := s.places[i := Reversing(s.next[c], To(c))], next := s.next[c := s.places[i].oldHead],
                     draining := s.draining[1..], front := [c] + s.front)
  }

  predicate StoresHead(s: State, s': State, i: Id) {
    && i < |s.places| && s.places[i].StoreHead? && s.places[i].oldHead.To? && s.places[i].oldHead.id < |s.next|
    && s' == s.(places := s.places[i := Resume(s.places[i].oldHead)], head := s.next[s.places[i].oldHead.id])
  }

  /** The waiter is completed, and is the holder from here on. */
  predicate Resumes(s: State, s': State, i: Id) {
    && i < |s.places| && s.places[i].Resume? && s.places[i].oldHead.To? && s.places[i].oldHead.id < |s.places|
    && s.queue != [] && s.front != []
    && s' == s.(places := s.places[i := Away][s.places[i].oldHead.id := Holding], owner := s.places[i].oldHead,
                queue := s.queue[1..], front := s.front[1..],
                granted := s.granted + [s.places[i].oldHead.id])
  }

  datatype Event =
    | Start(i: Id) | TryOnce(i: Id) | TryToLock(i: Id) | PushOn(i: Id, spurious: bool)
    | Unlock(i: Id) | ReadHead(i: Id) | TryToUnlock(i: Id) | Take(i: Id) | TurnAround(i: Id) | WriteHead(i: Id)
    | Grant(i: Id)

  predicate Happens(s: State, s': State, e: Event) {
    match e
    case Start(i) => Starts(s, s', i)
    case TryOnce(i) => TriesOnce(s, s', i)
    case TryToLock(i) => TriesLock(s, s', i)
    case PushOn(i, spurious) => Pushes(s, s', i, spurious)
    case Unlock(i) => Unlocks(s, s', i)
    case ReadHead(i) => LoadsHead(s, s', i)
    case TryToUnlock(i) => TriesUnlock(s, s', i)
    case Take(i) => Exchanges(s, s', i)
    case TurnAround(i) => Reverses(s, s', i)
    case WriteHead(i) => StoresHead(s, s', i)
    case Grant(i) => Resumes(s, s', i)
  }

  ghost predicate Next(s: State, s': State) {
    exists e :: Happens(s, s', e)
  }

  // ---- the invariant ----

  predicate Owning(p: Place) {
    !(p.Away? || p.TryLock? || p.Push? || p.Queued?)
  }

  function Parts(s: State): seq<Id> { s.draining + s.front + s.stack }

  predicate Placed(p: Place, next: Link, isOwner: bool, isQueued: bool) {
    && (Owning(p) <==> isOwner)
    && (p == Queued <==> isQueued)
    && (p.Push? ==> next == p.seen)
  }

  predicate AllPlaced(s: State) {
    && |s.next| == |s.places|
    && forall i | 0 <= i < |s.places| :: Placed(s.places[i], s.next[i], s.owner == To(i), i in Parts(s))
  }

  /** The waiters, wherever they are, are the queue of pushes. */
  predicate Queueing(s: State) {
    && Distinct(Parts(s))
    && s.queue == Arrivals(s.draining, s.front, s.stack)
    && s.pushed == s.granted + s.queue
  }

  predicate Locking(s: State) {
    && (s.word == NotLocked <==> s.owner == Null)
    && (s.owner.To? ==> s.owner.id < |s.places|)
    && (s.word.Locked? ==> Chain(s.next, s.word.top, s.stack))
    && (s.word == NotLocked ==> s.stack == [])
  }

  /** What the owner, at its place, knows of the other waiters. */
  predicate Unlocking(p: Place, s: State) {
    match p
    case Holding => Chain(s.next, s.head, s.front) && s.draining == []
    case LoadHead => Chain(s.next, s.head, s.front) && s.draining == []
    case TryUnlock => s.front == [] && s.head == Null && s.draining == []
    case Exchange => s.front == [] && s.head == Null && s.draining == [] && s.stack != []
    case Reversing(c, h) =>
      s.head == Null && Chain(s.next, c, s.draining) && Chain(s.next, h, s.front) && s.draining + s.front != []
    case StoreHead(h) => Chain(s.next, h, s.front) && s.front != [] && s.draining == []
    case Resume(h) =>
      && s.front != [] && h == To(s.front[0]) && s.front[0] < |s.next|
      && Chain(s.next, s.head, s.front[1..]) && s.draining == []
    case _ => false
  }

  predicate Owned(s: State) {
    if s.owner.To? && s.owner.id < |s.places| then Unlocking(s.places[s.owner.id], s)
    else s.front == [] && s.head == Null && s.draining == []
  }

  predicate Good(s: State) {
    AllPlaced(s) && Queueing(s) && Locking(s) && Owned(s)
  }

  /** Only the locker `i` changed. */
  predicate OnlyAt(s: State, s': State, i: Id) {
    && i < |s.places| == |s'.places| == |s.next| == |s'.next|
    && (forall j | 0 <= j < |s.places| && j != i ::
      && s'.places[j] == s.places[j] && (s.places[j].Push? ==> s'.next[j] == s.next[j])
      && (j in Parts(s') <==> j in Parts(s)) && (s'.owner == To(j) <==> s.owner == To(j)))
  }

  lemma PlacedAt(s: State, s': State, i: Id)
    requires AllPlaced(s) && OnlyAt(s, s', i)
    requires Placed(s'.places[i], s'.next[i], s'.owner == To(i), i in Parts(s'))
    ensures AllPlaced(s')
  {
  }

  /** What the owner knows is not disturbed by other lockers. */
  lemma UnlockingKeeps(p: Place, s: State, s': State)
    requires Unlocking(p, s)
    requires s'.head == s.head && s'.front == s.front && s'.draining == s.draining && (s.stack != [] ==> s'.stack != [])
    requires |s'.next| == |s.next| && forall x | x in Parts(s) && x < |s.next| :: s'.next[x] == s.next[x]
    ensures Unlocking(p, s')
  {
    hide Chain;
    forall q, xs | Chain(s.next, q, xs) && (forall x | x in xs :: x in Parts(s))
      ensures Chain(s'.next, q, xs)
    {
      ChainKeeps(s.next, s'.next, q, xs);
    }
    assert forall x | x in s.draining :: x in Parts(s);
    assert forall x | x in s.front :: x in Parts(s);
    assert p.Resume? ==> forall x | x in s.front[1..] :: x in s.front;
  }

  lemma StartKeeps(s: State, s': State, i: Id)
    requires Good(s) && Starts(s, s', i)
    ensures Good(s')
  {
    hide Chain, Distinct, Reverse;
    PlacedAt(s, s', i);
    if s.owner.To? {
      UnlockingKeeps(s.places[s.owner.id], s, s');
    }
  }

  lemma TryKeeps(s: State, s': State, i: Id)
    requires Good(s) && (TriesOnce(s, s', i) || (TriesLock(s, s', i) && s.word == NotLocked))
    ensures Good(s')
  {
    hide Distinct, Reverse;
    PlacedAt(s, s', i);
  }

  lemma ReadKeeps(s: State, s': State, i: Id)
    requires Good(s) && TriesLock(s, s', i) && s.word.Locked?
    ensures Good(s')
  {
    hide Chain, Distinct, Reverse;
    PlacedAt(s, s', i);
    assert i !in Parts(s);
    ChainKeeps(s.next, s'.next, s.word.top, s.stack);
    UnlockingKeeps(s.places[s.owner.id], s, s');
  }

  lemma PushKeeps(s: State, s': State, i: Id, spurious: bool)
    requires Good(s) && Pushes(s, s', i, spurious)
    ensures Good(s')
  {
    hide Path, Chain;
    PlacedAt(s, s', i);
    if s.owner.To? {
      UnlockingKeeps(s.places[s.owner.id], s, s');
    }
    if s.word == Locked(s.places[i].seen) && !spurious {
      assert i !in Parts(s);
      PushedChain(s.next, i, s.stack);
      PushedQueue(s, i);
      Associates(s.granted, s.queue, [i]);
    }
  }

  lemma PushedChain(next: seq<Link>, i: Id, xs: seq<Id>)
    requires i < |next| && Chain(next, next[i], xs)
    ensures Chain(next, To(i), [i] + xs)
  {
    Prepend(next, i, xs, Null);
  }

  lemma PushedQueue(s: State, i: Id)
    requires Queueing(s) && i !in Parts(s)
    ensures Distinct(s.draining + s.front + ([i] + s.stack))
    ensures Arrivals(s.draining, s.front, [i] + s.stack) == s.queue + [i]
  {
    Arrive(s.draining, s.front, s.stack, [i]);
    assert Reverse([i]) == [i];
  }

  lemma UnlockKeeps(s: State, s': State, i: Id)
    requires Good(s) && (Unlocks(s, s', i) || LoadsHead(s, s', i) || StoresHead(s, s', i))
    ensures Good(s')
  {
    hide Path, Distinct, Reverse;
    PlacedAt(s, s', i);
    match s.places[i] {
      case LoadHead => ChainEnds(s.next, s.head, s.front);
      case StoreHead(h) => ChainEnds(s.next, h, s.front);
      case _ =>
    }
  }

  lemma TryUnlockKeeps(s: State, s': State, i: Id)
    requires Good(s) && TriesUnlock(s, s', i)
    ensures Good(s')
  {
    hide Path, Distinct, Reverse;
    PlacedAt(s, s', i);
    ChainEnds(s.next, s.word.top, s.stack);
  }

  lemma ExchangeKeeps(s: State, s': State, i: Id)
    requires Good(s) && Exchanges(s, s', i)
    ensures Good(s')
  {
    hide Path, Distinct;
    EmptyChain(s.next);
    assert Parts(s') == Parts(s);
    PlacedAt(s, s', i);
  }

  lemma LoopEnds(s: State, s': State, i: Id)
    requires Good(s) && Reverses(s, s', i) && s.places[i].current == Null
    ensures Good(s')
  {
    hide Path, Distinct;
    ChainEnds(s.next, Null, s.draining);
    PlacedAt(s, s', i);
  }

  /** What one round does to the two chains and to the stack. */
  lemma RoundTurns(s: State, s': State, i: Id)
    requires Good(s) && Reverses(s, s', i) && s.places[i].current.To?
    ensures s.draining != [] && s.places[i].current == To(s.draining[0]) && s.draining[0] in Parts(s)
    ensures Queueing(s') && forall x :: x in Parts(s') <==> x in Parts(s)
    ensures Chain(s'.next, s'.places[i].current, s'.draining) && Chain(s'.next, s'.places[i].oldHead, s'.front)
    ensures s.word.Locked? ==> Chain(s'.next, s.word.top, s.stack)
  {
    hide Path, Distinct;
    var c, h := s.places[i].current, s.places[i].oldHead;
    FirstStep(s.next, c, s.draining, Null);
    TurnOne(s.draining, s.front, s.stack);
    ReverseStep(s.next, c, s.draining, h, s.front);
    ChainKeeps(s.next, s'.next, s.word.top, s.stack);
  }

  lemma ReverseKeeps(s: State, s': State, i: Id)
    requires Good(s) && Reverses(s, s', i)
    ensures Good(s')
  {
    hide Chain, Queueing;
    if s.places[i].current == Null {
      LoopEnds(s, s', i);
    } else {
      RoundTurns(s, s', i);
      PlacedAt(s, s', i);
    }
  }

  lemma ResumeKeeps(s: State, s': State, i: Id)
    requires Good(s) && Resumes(s, s', i)
    ensures Good(s') && s.places[i].oldHead == To(s.queue[0]) && s.places[s.queue[0]] == Queued
  {
    hide Path, Distinct, Reverse;
    LeaveFirst(s.front, s.stack);
    assert s.front[0] in Parts(s);
  }

  lemma GoodHolds(s: State, s': State)
    requires Good(s) && Next(s, s')
    ensures Good(s')
  {
    hide Good, Starts, TriesOnce, TriesLock, Pushes, Unlocks, LoadsHead, TriesUnlock, Exchanges, Reverses, StoresHead,
         Resumes;
    var e :| Happens(s, s', e);
    match e
    case Start(i) => StartKeeps(s, s', i);
    case TryOnce(i) => TryKeeps(s, s', i);
    case TryToLock(i) => if s.word == NotLocked { TryKeeps(s, s', i); } else { ReadKeeps(s, s', i); }
    case PushOn(i, spurious) => PushKeeps(s, s', i, spurious);
    case Unlock(i) => UnlockKeeps(s, s', i);
    case ReadHead(i) => UnlockKeeps(s, s', i);
    case TryToUnlock(i) => TryUnlockKeeps(s, s', i);
    case Take(i) => ExchangeKeeps(s, s', i);
    case TurnAround(i) => ReverseKeeps(s, s', i);
    case WriteHead(i) => UnlockKeeps(s, s', i);
    case Grant(i) => ResumeKeeps(s, s', i);
  }

  lemma GoodAtFirst(s: State)
    requires Init(s)
    ensures Good(s)
  {
  }

  // ---- what the mutex promises ----

  predicate Sound(s: State) {
    // at most one locker holds the mutex or is unlocking it, and none when it is not locked
    && (forall i, j | 0 <= i < |s.places| && 0 <= j < |s.places| ::
          Owning(s.places[i]) && Owning(s.places[j]) ==> i == j)
    && (s.word == NotLocked ==> forall i | 0 <= i < |s.places| :: !Owning(s.places[i]))
    // a locked mutex has a holder, who will wake the next one
    && (s.word.Locked? ==> exists i | 0 <= i < |s.places| :: Owning(s.places[i]))
    // the waiters are exactly the lockers that have pushed themselves, each once, and while any
    // waits the mutex is locked
    && Distinct(s.queue) && (forall i | 0 <= i < |s.places| :: s.places[i] == Queued <==> i in s.queue)
    && (s.queue != [] ==> s.word.Locked?)
    // the lock is granted in the order of the pushes
    && s.pushed == s.granted + s.queue
    // the drain never follows a null pointer
    && (forall i | 0 <= i < |s.places| :: s.places[i].StoreHead? || s.places[i].Resume? ==> s.places[i].oldHead.To?)
  }

  lemma GoodIsSound(s: State)
    requires Good(s)
    ensures Sound(s)
  {
    hide Path, Distinct, Reverse;
    ArrivalsDistinct(s.draining, s.front, s.stack);
    assert forall i | 0 <= i < |s.places| :: Placed(s.places[i], s.next[i], s.owner == To(i), i in Parts(s));
    if s.word.Locked? {
      assert Owning(s.places[s.owner.id]);
    }
    forall i | 0 <= i < |s.places| && (s.places[i].StoreHead? || s.places[i].Resume?)
      ensures s.places[i].oldHead.To?
    {
      assert s.owner == To(i);
      if s.places[i].StoreHead? {
        ChainEnds(s.next, s.places[i].oldHead, s.front);
      }
    }
  }

  lemma GoodInRun(run: seq<State>, k: nat)
    requires IsRun(Init, Next, run) && k < |run|
    ensures Good(run[k])
  {
    forall s | Init(s)
      ensures Good(s)
    {
      GoodAtFirst(s);
    }
    forall s, s' | Good(s) && Next(s, s')
      ensures Good(s')
    {
      GoodHolds(s, s');
    }
    AlongRun(Init, Next, Good, run);
  }

  /** In every state of every interleaving, whatever addresses come back. */
  lemma MutexIsSound(run: seq<State>, k: nat)
    requires IsRun(Init, Next, run) && k < |run|
    ensures Sound(run[k])
  {
    GoodInRun(run, k);
    GoodIsSound(run[k]);
  }

  predicate FirstInFirstOut(s: State, s': State) {
    || s'.queue == s.queue
    || (exists i | 0 <= i < |s.places| :: s.places[i].Push? && At(s', i, Queued) && s'.queue == s.queue + [i])
    || (s.queue != [] && At(s, s.queue[0], Queued) && At(s', s.queue[0], Holding) && s'.queue == s.queue[1..])
  }

  /** The queue is first in, first out in every step of every run: it grows only by a successful
      push, at the end, and shrinks only by a grant to its first element, which from then on holds
      the mutex. */
  lemma GrantsInPushOrder(run: seq<State>, k: nat)
    requires IsRun(Init, Next, run) && k < |run| - 1
    ensures FirstInFirstOut(run[k], run[k + 1])
  {
    GoodInRun(run, k);
    StepOfQueue(run[k], run[k + 1]);
  }

  lemma StepOfQueue(s: State, s': State)
    requires Good(s) && Next(s, s')
    ensures FirstInFirstOut(s, s')
  {
    hide Queueing, Locking, Owned, Placed;
    var e :| Happens(s, s', e);
    if e.Grant? {
      ResumeKeeps(s, s', e.i);
    } else if e.PushOn? {
      assert At(s', e.i, s'.places[e.i]);
    }
  }

  /** The conditions in the steps never hold the code up: whoever does not wait in the queue has a next
      step in every state of every run.  So the drain follows no null pointer and runs out of no node,
      and unlocking with the list empty and waiters pushed finds one to resume; `try_lock` succeeds on
      a mutex that is not locked, and a push on the word it has seen goes through. */
  lemma NeverStuck(run: seq<State>, k: nat, i: Id) returns (e: Event, s': State)
    requires IsRun(Init, Next, run) && k < |run| && i < |run[k].places| && run[k].places[i] != Queued
    ensures e.i == i && Happens(run[k], s', e) && Advances(run[k], s', i)
  {
    GoodInRun(run, k);
    e, s' := NextStep(run[k], i);
  }

  /** The step is not one that fails where it could succeed. */
  predicate Advances(s: State, s': State, i: Id) {
    && i < |s.places| && i < |s'.places| && (s'.places[i] != s.places[i] || |s'.draining| < |s.draining|)
    && (s.places[i] in {Away, TryLock} && s.word == NotLocked ==> s'.places[i] == Holding && s'.word == Locked(Null))
    && (s.places[i].Push? && s.word == Locked(s.places[i].seen) ==> s'.places[i] == Queued)
  }

  lemma NextStep(s: State, i: Id) returns (e: Event, s': State)
    requires Good(s) && i < |s.places| && s.places[i] != Queued
    ensures e.i == i && Happens(s, s', e) && Advances(s, s', i)
  {
    assert Placed(s.places[i], s.next[i], s.owner == To(i), i in Parts(s));
    match s.places[i] {
      case Away =>
        if s.word == NotLocked {
          e, s' := TryOnce(i), s.(places := s.places[i := Holding], word := Locked(Null), owner := To(i));
        } else {
          e, s' := Start(i), s.(places := s.places[i := TryLock]);
        }
      case Holding =>
        e, s' := Unlock(i), s.(places := s.places[i := LoadHead]);
      case TryLock =>
        e := TryToLock(i);
        s' := match s.word
              case NotLocked => s.(places := s.places[i := Holding], word := Locked(Null), owner := To(i))
              case Locked(top) => s.(places := s.places[i := Push(top)], next := s.next[i := top]);
      case Push(seen) =>
        e := PushOn(i, false);
        s' := if s.word == Locked(seen)
              then s.(places := s.places[i := Queued], word := Locked(To(i)),
                      stack := [i] + s.stack, queue := s.queue + [i], pushed := s.pushed + [i])
              else s.(places := s.places[i := TryLock]);
      case LoadHead =>
        e, s' := ReadHead(i), s.(places := s.places[i := if s.head == Null then TryUnlock else StoreHead(s.head)]);
      case TryUnlock =>
        e := TryToUnlock(i);
        s' := if s.word == Locked(Null) then s.(places := s.places[i := Away], word := NotLocked, owner := Null)
              else s.(places := s.places[i := Exchange]);
      case Exchange =>
        e := Take(i);
        s' := s.(places := s.places[i := Reversing(s.word.top, Null)], word := Locked(Null), draining := s.stack,
                 stack := []);
      case Reversing(c, h) =>
        e := TurnAround(i);
        ChainEnds(s.next, c, s.draining);
        s' := match c
              case Null => s.(places := s.places[i := StoreHead(h)])
              case To(x) => s.(places := s.places[i := Reversing(s.next[x], To(x))], next := s.next[x := h],
                               draining := s.draining[1..], front := [x] + s.front);
      case StoreHead(h) =>
        e := WriteHead(i);
        ChainEnds(s.next, h, s.front);
        s' := s.(places := s.places[i := Resume(h)], head := s.next[h.id]);
      case Resume(h) =>
        e := Grant(i);
        assert s.front[0] in Parts(s);
        ArrivalsDistinct(s.draining, s.front, s.stack);
        s' := s.(places := s.places[i := Away][h.id := Holding], owner := h, queue := s.queue[1..],
                 front := s.front[1..], granted := s.granted + [h.id]);
    }
  }

  /** Any number of lockers. */
  lemma CanStart(lockers: nat) returns (s: State)
    ensures Init(s) && |s.places| == lockers
  {
    s := State(NotLocked, Null, seq(lockers, i => Null), seq(lockers, i => Away), Null, [], [], [], [], [], []);
  }
}
