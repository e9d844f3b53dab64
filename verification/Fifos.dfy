/** `fifo`: a queue behind a lock, between a semaphore of free slots and a semaphore of items.

    A semaphore is what AsyncSemaphore leaves of it: permits that are taken one at a time and given
    back, whoever gets them next.  One step is one operation on a semaphore or one critical section;
    `async_` and `try_` operations differ only in what happens when there is no permit. */
module Fifos {
  import opened Basics
  import opened Behaviors
  import opened Sequences

  type Value = int   // elements are only ever moved

  datatype Place =
    | Fresh
    | HasSlot | Emplaced           // a push
    | HasItem | Popped             // a pop
    | Done

  datatype Party = Party(pushes: bool, value: Option<Value>, place: Place)

  datatype State = State(
    underlying: seq<Value>, slots: nat, items: nat, parties: seq<Party>,
    max: nat, prefilled: nat,
    // auxiliary: everything that was emplaced and taken, in order, and by whom
    pushed: seq<Value>, popped: seq<Value>, pushers: seq<nat>, poppers: seq<nat>)

  /** `initial` are the elements that the queue is constructed with; there are `max` slots all the
      same. */
  predicate Init(s: State) {
    && s.slots == s.max && s.items == s.prefilled == |s.underlying|
    && s.pushed == s.underlying && s.popped == [] && s.pushers == [] && s.poppers == []
    && forall i | 0 <= i < |s.parties| ::
         s.parties[i].place == Fresh && (s.parties[i].value.Some? <==> s.parties[i].pushes)
  }

  predicate At(s: State, i: nat, pushes: bool, place: Place) {
    i < |s.parties| && s.parties[i].pushes == pushes && s.parties[i].place == place
  }

  function Moved(s: State, i: nat, place: Place): seq<Party>
    requires i < |s.parties|
  {
    s.parties[i := s.parties[i].(place := place)]
  }

  /** A push gets a free slot; a waiting one may instead be stopped. */
  predicate TakesSlot(s: State, s': State, i: nat) {
    && At(s, i, true, Fresh) && s.slots > 0
    && s' == s.(slots := s.slots - 1, parties := Moved(s, i, HasSlot))
  }

  predicate Emplaces(s: State, s': State, i: nat) {
    && At(s, i, true, HasSlot) && s.parties[i].value.Some?
    && var v := s.parties[i].value.value;
      s' == s.(underlying := s.underlying + [v], parties := Moved(s, i, Emplaced),
               pushed := s.pushed + [v], pushers := s.pushers + [i])
  }

  predicate GivesItem(s: State, s': State, i: nat) {
    && At(s, i, true, Emplaced) && s' == s.(items := s.items + 1, parties := Moved(s, i, Done))
  }

  predicate TakesItem(s: State, s': State, i: nat) {
    && At(s, i, false, Fresh) && s.items > 0
    && s' == s.(items := s.items - 1, parties := Moved(s, i, HasItem))
  }

  /** `front` and `pop`, which demand that the queue is not empty. */
  predicate PopsFront(s: State, s': State, i: nat) {
    && At(s, i, false, HasItem) && s.underlying != []
    && s' == s.(underlying := s.underlying[1..], parties := s.parties[i := Party(false, Some(s.underlying[0]), Popped)],
                popped := s.popped + [s.underlying[0]], poppers := s.poppers + [i])
  }

  predicate GivesSlot(s: State, s': State, i: nat) {
    && At(s, i, false, Popped) && s' == s.(slots := s.slots + 1, parties := Moved(s, i, Done))
  }

  /** `try_` without a permit, or a stop request while waiting for one. */
  predicate GivesUp(s: State, s': State, i: nat) {
    i < |s.parties| && s.parties[i].place == Fresh && s' == s.(parties := Moved(s, i, Done))
  }

  datatype Event =
    | TakeSlot(i: nat) | Emplace(i: nat) | GiveItem(i: nat)
    | TakeItem(i: nat) | PopFront(i: nat) | GiveSlot(i: nat) | GiveUp(i: nat)

  predicate Happens(s: State, s': State, e: Event) {
    match e
    case TakeSlot(i) => TakesSlot(s, s', i)
    case Emplace(i) => Emplaces(s, s', i)
    case GiveItem(i) => GivesItem(s, s', i)
    case TakeItem(i) => TakesItem(s, s', i)
    case PopFront(i) => PopsFront(s, s', i)
    case GiveSlot(i) => GivesSlot(s, s', i)
    case GiveUp(i) => GivesUp(s, s', i)
  }

  ghost predicate Next(s: State, s': State) {
    exists e :: Happens(s, s', e)
  }

  // ---- the invariant ----

  predicate HoldsSlot(r: Party) { r.place == HasSlot }
  predicate HoldsEmplaced(r: Party) { r.place == Emplaced }
  predicate HoldsItem(r: Party) { r.place == HasItem }
  predicate HoldsPopped(r: Party) { r.place == Popped }

  /** A party that has begun stands inside the operation it is carrying out. */
  predicate InItsOwnOperation(r: Party) {
    r.place !in {Fresh, Done} ==> (r.pushes <==> r.place in {HasSlot, Emplaced})
  }

  /** The j-th pop has handed out the j-th value that was emplaced, and each party pops once. */
  predicate Received(s: State) {
    && |s.poppers| == |s.popped| <= |s.pushed| && Distinct(s.poppers)
    && (forall i | i in s.poppers :: i < |s.parties|)
    && (forall i | 0 <= i < |s.parties| :: i in s.poppers ==>
          !s.parties[i].pushes && s.parties[i].place in {Popped, Done})
    && (forall j | 0 <= j < |s.poppers| :: ValueOf(s.parties, s.poppers[j]) == Some(s.pushed[j]))
  }

  /** Behind the elements of the construction, the j-th value is that of the j-th push. */
  predicate Given(s: State) {
    && |s.pushed| == s.prefilled + |s.pushers| && Distinct(s.pushers)
    && (forall i | i in s.pushers :: i < |s.parties|)
    && (forall i | 0 <= i < |s.parties| :: i in s.pushers ==>
          s.parties[i].pushes && s.parties[i].place in {Emplaced, Done})
    && (forall j | 0 <= j < |s.pushers| :: ValueOf(s.parties, s.pushers[j]) == Some(s.pushed[s.prefilled + j]))
  }

  function ValueOf(parties: seq<Party>, i: nat): Option<Value> {
    if i < |parties| then parties[i].value else None
  }

  /** Elements, permits and operations under way add up. */
  predicate Good(s: State) {
    && |s.underlying| == s.items + Count(s.parties, HoldsItem) + Count(s.parties, HoldsEmplaced)
    && s.slots + Count(s.parties, HoldsSlot) + |s.underlying| + Count(s.parties, HoldsPopped) == s.max + s.prefilled
    && s.pushed == s.popped + s.underlying
    && (forall i | 0 <= i < |s.parties| ::
          s.parties[i].pushes || s.parties[i].place == Popped ==> s.parties[i].value.Some?)
    && (forall i | 0 <= i < |s.parties| :: InItsOwnOperation(s.parties[i]))
  }

  lemma CountMoves(s: State, i: nat, r: Party)
    requires i < |s.parties|
    ensures var ps, qs, x := s.parties, s.parties[i := r], s.parties[i];
      && Count(qs, HoldsSlot) + One(HoldsSlot(x)) == Count(ps, HoldsSlot) + One(HoldsSlot(r))
      && Count(qs, HoldsEmplaced) + One(HoldsEmplaced(x)) == Count(ps, HoldsEmplaced) + One(HoldsEmplaced(r))
      && Count(qs, HoldsItem) + One(HoldsItem(x)) == Count(ps, HoldsItem) + One(HoldsItem(r))
      && Count(qs, HoldsPopped) + One(HoldsPopped(x)) == Count(ps, HoldsPopped) + One(HoldsPopped(r))
  {
    CountUpdate(s.parties, HoldsSlot, i, r);
    CountUpdate(s.parties, HoldsEmplaced, i, r);
    CountUpdate(s.parties, HoldsItem, i, r);
    CountUpdate(s.parties, HoldsPopped, i, r);
  }

  lemma PushKeeps(s: State, s': State, e: Event)
    requires Good(s) && Happens(s, s', e) && (e.TakeSlot? || e.Emplace? || e.GiveItem?)
    ensures Good(s')
  {
    hide Count;
    CountMoves(s, e.i, s'.parties[e.i]);
  }

  lemma PopKeeps(s: State, s': State, e: Event)
    requires Good(s) && Happens(s, s', e) && (e.TakeItem? || e.PopFront? || e.GiveSlot?)
    ensures Good(s')
  {
    hide Count;
    CountMoves(s, e.i, s'.parties[e.i]);
    if e.PopFront? {
      assert s.underlying == [s.underlying[0]] + s.underlying[1..];
    }
  }

  lemma GiveUpKeeps(s: State, s': State, i: nat)
    requires Good(s) && GivesUp(s, s', i)
    ensures Good(s')
  {
    hide Count;
    CountMoves(s, i, s'.parties[i]);
  }

  lemma GoodHolds(s: State, s': State)
    requires Good(s) && Next(s, s')
    ensures Good(s')
  {
    hide Good;
    var e :| Happens(s, s', e);
    if e.GiveUp? {
      GiveUpKeeps(s, s', e.i);
    } else if e.TakeItem? || e.PopFront? || e.GiveSlot? {
      PopKeeps(s, s', e);
    } else {
      PushKeeps(s, s', e);
    }
  }

  lemma GoodAtFirst(s: State)
    requires Init(s)
    ensures Good(s)
  {
    CountNone(s.parties, HoldsSlot);
    CountNone(s.parties, HoldsEmplaced);
    CountNone(s.parties, HoldsItem);
    CountNone(s.parties, HoldsPopped);
  }

  predicate HandedOver(s: State) { Received(s) && Given(s) }

  lemma HandedOverHolds(s: State, s': State)
    requires Good(s) && HandedOver(s) && Next(s, s')
    ensures HandedOver(s')
  {
    hide Count;
    var e :| Happens(s, s', e);
    ReceivedKept(s, s', e);
    GivenKept(s, s', e);
  }

  lemma ReceivedKept(s: State, s': State, e: Event)
    requires Good(s) && Received(s) && Happens(s, s', e)
    ensures Received(s')
  {
    hide Count;
    if e.PopFront? {
      assert e.i !in s.poppers;
      assert s.pushed[|s.popped|] == s.underlying[0];
    }
  }

  lemma GivenKept(s: State, s': State, e: Event)
    requires Good(s) && Given(s) && Happens(s, s', e)
    ensures Given(s')
  {
    hide Count;
    if e.Emplace? {
      assert e.i !in s.pushers;
    }
  }

  lemma GoodInRun(run: seq<State>, k: nat)
    requires IsRun(Init, Next, run) && k < |run|
    ensures Good(run[k]) && HandedOver(run[k])
  {
    var kept := (s: State) => Good(s) && HandedOver(s);
    forall s | Init(s)
      ensures kept(s)
    {
      GoodAtFirst(s);
    }
    forall s, s' | kept(s) && Next(s, s')
      ensures kept(s')
    {
      GoodHolds(s, s');
      HandedOverHolds(s, s');
    }
    AlongRun(Init, Next, kept, run);
  }

  /** In every state of every interleaving: the elements are accounted for; a pop that holds a permit
      finds an element, so `front` is never called on an empty queue; and the elements leave in the
      order in which they were emplaced, the j-th pop handing its caller the value of the j-th push. */
  lemma FifoIsSound(run: seq<State>, k: nat)
    requires IsRun(Init, Next, run) && k < |run|
    ensures var s := run[k];
      && |s.underlying| == s.items + Count(s.parties, HoldsItem) + Count(s.parties, HoldsEmplaced)
      && (forall i | 0 <= i < |s.parties| :: s.parties[i].place == HasItem ==> s.underlying != [])
      && s.pushed == s.popped + s.underlying && Received(s) && Given(s)
  {
    GoodInRun(run, k);
    var s := run[k];
    forall i | 0 <= i < |s.parties| && s.parties[i].place == HasItem
      ensures s.underlying != []
    {
      CountSome(s.parties, HoldsItem, i);
    }
  }

  // ---- the capacity ----

  /** The queue never holds more than `max_size()` elements, nor do the free slots go beyond it. */
  ghost predicate StaysWithin(max: nat, prefilled: nat) {
    forall run: seq<State>, k: nat
      | IsRun(Init, Next, run) && k < |run| && run[k].max == max && run[k].prefilled == prefilled ::
      |run[k].underlying| <= max && run[k].slots <= max
  }

  /** After `k` of `n` pushes have emplaced. */
  function Overfilled(n: nat, prefilled: nat, k: nat): State {
    var elements := seq(prefilled + k, i => 0);
    State(elements, if k <= n then n - k else 0, prefilled,
          seq(n, i => Party(true, Some(0), if i < k then Emplaced else Fresh)), n, prefilled,
          elements, [], seq(k, i => i), [])
  }

  lemma {:induction false} OverfillingRun(n: nat, prefilled: nat, k: nat) returns (run: seq<State>)
    requires k <= n
    ensures IsRun(Init, Next, run) && run[|run| - 1] == Overfilled(n, prefilled, k)
  {
    if k == 0 {
      run := [Overfilled(n, prefilled, 0)];
    } else {
      var before := OverfillingRun(n, prefilled, k - 1);
      var s, s' := Overfilled(n, prefilled, k - 1), Overfilled(n, prefilled, k);
      var m := s.(slots := s.slots - 1, parties := Moved(s, k - 1, HasSlot));
      assert Happens(s, m, TakeSlot(k - 1));
      Extended(Init, Next, before, m);
      assert s'.underlying == m.underlying + [0];
      assert s'.parties == Moved(m, k - 1, Emplaced);
      assert s'.pushers == m.pushers + [k - 1];
      assert Happens(m, s', Emplace(k - 1));
      Extended(Init, Next, before + [m], s');
      run := before + [m] + [s'];
    }
  }

  /** It stays within its capacity in every run exactly when it was constructed empty: a queue that
      is constructed with elements still starts with `max_size()` free slots. */
  lemma CapacityExactly(max: nat, prefilled: nat)
    ensures StaysWithin(max, prefilled) <==> prefilled == 0
  {
    if prefilled == 0 {
      forall run: seq<State>, k: nat
        | IsRun(Init, Next, run) && k < |run| && run[k].max == max && run[k].prefilled == prefilled
        ensures |run[k].underlying| <= max && run[k].slots <= max
      {
        GoodInRun(run, k);
      }
    } else {
      var run := OverfillingRun(max, prefilled, max);
      assert |run[|run| - 1].underlying| > max;
    }
  }

  // ---- progress ----

  /** Any parties, any elements to construct the queue with, any limit. */
  lemma CanStart(elements: seq<Value>, max: nat, values: seq<Option<Value>>) returns (s: State)
    ensures Init(s) && s.max == max && s.underlying == elements && |s.parties| == |values|
    ensures forall i | 0 <= i < |values| :: s.parties[i].pushes == values[i].Some? && s.parties[i].value == values[i]
  {
    s := State(elements, max, |elements|,
               seq(|values|, i requires 0 <= i < |values| => Party(values[i].Some?, values[i], Fresh)),
               max, |elements|, elements, [], [], []);
  }

  /** Whoever has a permit goes on: a pop finds an element, and every later step is open.  Whoever
      still needs one gets it if there is one, and can give up. */
  lemma PermitSuffices(run: seq<State>, k: nat, i: nat) returns (e: Event, s': State)
    requires IsRun(Init, Next, run) && k < |run| && i < |run[k].parties| && run[k].parties[i].place != Done
    ensures e.i == i && Happens(run[k], s', e)
    ensures run[k].parties[i].place == Fresh ==>
              if run[k].parties[i].pushes then e.TakeSlot? <==> run[k].slots > 0 else e.TakeItem? <==> run[k].items > 0
    ensures run[k].parties[i].place != Fresh ==> !e.GiveUp?
  {
    FifoIsSound(run, k);
    GoodInRun(run, k);
    var s, r := run[k], run[k].parties[i];
    match r.place {
      case Fresh =>
        if r.pushes && s.slots > 0 {
          e, s' := TakeSlot(i), s.(slots := s.slots - 1, parties := Moved(s, i, HasSlot));
        } else if !r.pushes && s.items > 0 {
          e, s' := TakeItem(i), s.(items := s.items - 1, parties := Moved(s, i, HasItem));
        } else {
          e, s' := GiveUp(i), s.(parties := Moved(s, i, Done));
        }
      case HasSlot =>
        var v := r.value.value;
        e := Emplace(i);
        s' := s.(underlying := s.underlying + [v], parties := Moved(s, i, Emplaced),
                 pushed := s.pushed + [v], pushers := s.pushers + [i]);
      case Emplaced =>
        e, s' := GiveItem(i), s.(items := s.items + 1, parties := Moved(s, i, Done));
      case HasItem =>
        e := PopFront(i);
        s' := s.(underlying := s.underlying[1..],
                 parties := s.parties[i := Party(false, Some(s.underlying[0]), Popped)],
                 popped := s.popped + [s.underlying[0]], poppers := s.poppers + [i]);
      case Popped =>
        e, s' := GiveSlot(i), s.(slots := s.slots + 1, parties := Moved(s, i, Done));
    }
  }
}
