/** `async_latch`: a counter, and a stack of waiters whose head tells "never pushed" (its own
    address), "emptied" (null) and "not empty" apart.

    A party is a waiter, which counts down by its own amount and then waits, or a thread that only
    counts down; its number is also the address of its node.  Once a waiter has completed, its address
    may come back with another one.  One step is one access to the counter, to the head or to one
    link. */
module AsyncLatch {
  import opened Behaviors
  import opened Chains
  import opened Sequences

  datatype Head = Itself | Emptied | Top(id: Id)

  function LinkOf(h: Head): Link { if h.Top? then To(h.id) else Null }

  /** `self`: the party completes itself when it is through with the others. */
  datatype Place =
    | NotStarted | LoadTop | Push(seen: Head)
    | PopAll(self: bool) | Notifying(node: Link, self: bool)
    | Returned

  datatype Status = Absent | Stacked | Claimed(popper: Id) | Completed

  /** `mine`: the chain this party has popped and has not yet completed. */
  datatype Party = Party(waits: bool, amount: nat, place: Place, status: Status, completions: nat, mine: seq<Id>)

  /** `arrived` is auxiliary: how much has been counted down so far, out of `total`. */
  datatype State = State(
    counter: nat, head: Head, next: seq<Link>, parties: seq<Party>, stack: seq<Id>, total: nat, arrived: nat)

  predicate Init(s: State) {
    && s.counter == s.total && s.arrived == 0 && s.head == Itself && |s.next| == |s.parties| && s.stack == []
    && forall i | 0 <= i < |s.parties| ::
         s.parties[i] == Arriving(s.parties[i].waits, s.parties[i].amount)
  }

  predicate At(s: State, i: Id) { i < |s.parties| == |s.next| }

  // ---- the steps ----

  function CountedDown(r: Party, last: bool): Party {
    r.(place := if last then PopAll(r.waits) else if r.waits then LoadTop else Returned)
  }

  /** `count_down`, also the first step of `start`; counting below zero is an error of the caller. */
  predicate CountsDown(s: State, s': State, i: Id) {
    && At(s, i) && s.parties[i].place == NotStarted && s.parties[i].amount <= s.counter
    && s' == s.(counter := s.counter - s.parties[i].amount, arrived := s.arrived + s.parties[i].amount,
                parties := s.parties[i := CountedDown(s.parties[i], s.counter == s.parties[i].amount)])
  }

  /** `push` loads the head, or a failed exchange has. */
  predicate Loads(s: State, s': State, i: Id) {
    && At(s, i) && (s.parties[i].place == LoadTop || s.parties[i].place.Push?)
    && s' == s.(next := s.next[i := LinkOf(s.head)], parties := s.parties[i := s.parties[i].(place := Push(s.head))])
  }

  function Pushed(r: Party, seen: Head): Party {
    r.(status := Stacked, place := if seen == Emptied then PopAll(false) else Returned)
  }

  predicate Swings(s: State, s': State, i: Id) {
    && At(s, i) && s.parties[i].place == Push(s.head)
    && s' == s.(head := Top(i), parties := s.parties[i := Pushed(s.parties[i], s.head)], stack := [i] + s.stack)
  }

  predicate Pops(s: State, s': State, i: Id) {
    && At(s, i) && s.parties[i].place.PopAll? && |s'.parties| == |s.parties|
    && (forall j | 0 <= j < |s.parties| && j != i ::
          s'.parties[j] == if j in s.stack then s.parties[j].(status := Claimed(i)) else s.parties[j])
    && s'.parties[i] == s.parties[i].(place := Notifying(LinkOf(s.head), s.parties[i].place.self), mine := s.stack,
                                      status := if i in s.stack then Claimed(i) else s.parties[i].status)
    && s' == s.(head := Emptied, parties := s'.parties, stack := [])
  }

  function Done(r: Party): Party { r.(status := Completed, completions := r.completions + 1) }

  /** One round of the loop: the next node is read before this one is completed. */
  predicate Notifies(s: State, s': State, i: Id) {
    && At(s, i) && s.parties[i].place.Notifying? && s.parties[i].place.node.To? && s.parties[i].mine != []
    && s.parties[i].place.node.id < |s.parties|
    && var x := s.parties[i].place.node.id;
      var r := s.parties[i].(place := Notifying(s.next[x], s.parties[i].place.self), mine := s.parties[i].mine[1..]);
      s' == s.(parties := if x == i then s.parties[i := Done(r)] else s.parties[i := r][x := Done(s.parties[x])])
  }

  predicate Finishes(s: State, s': State, i: Id) {
    && At(s, i) && s.parties[i].place.Notifying? && s.parties[i].place.node == Null
    && var r := s.parties[i].(place := Returned);
      s' == s.(parties := s.parties[i := if s.parties[i].place.self then Done(r) else r])
  }

  function Arriving(waits: bool, amount: nat): Party { Party(waits, amount, NotStarted, Absent, 0, []) }

  /** The address of a waiter that has completed, or a thread that only counted down, is used again. */
  predicate Rearrives(s: State, s': State, i: Id, waits: bool, amount: nat) {
    && At(s, i) && s.parties[i].place == Returned && (s.parties[i].waits ==> s.parties[i].status == Completed)
    && s' == s.(parties := s.parties[i := Arriving(waits, amount)])
  }

  datatype Event =
    | Rearrive(i: Id, waits: bool, amount: nat)
    | CountDown(i: Id) | Load(i: Id) | Swing(i: Id) | Pop(i: Id) | Notify(i: Id) | Finish(i: Id)

  predicate Happens(s: State, s': State, e: Event) {
    match e
    case Rearrive(i, waits, amount) => Rearrives(s, s', i, waits, amount)
    case CountDown(i) => CountsDown(s, s', i)
    case Load(i) => Loads(s, s', i)
    case Swing(i) => Swings(s, s', i)
    case Pop(i) => Pops(s, s', i)
    case Notify(i) => Notifies(s, s', i)
    case Finish(i) => Finishes(s, s', i)
  }

  ghost predicate Next(s: State, s': State) {
    exists e :: Happens(s, s', e)
  }

  // ---- the invariant ----

  predicate Pushing(r: Party) { r.place == LoadTop || r.place.Push? }

  predicate Owes(r: Party) { r.place.PopAll? }

  predicate OnItsOwn(r: Party) { (r.place.PopAll? || r.place.Notifying?) && r.place.self }

  /** What one party says about itself. */
  predicate Placed(r: Party, next: Link, inStack: bool, counter: nat) {
    && (r.status == Stacked <==> inStack)
    && (r.status == Absent <==> !r.waits || r.place == NotStarted || Pushing(r) || OnItsOwn(r))
    && (Pushing(r) || OnItsOwn(r) ==> r.waits)
    && (r.place.Push? ==> next == LinkOf(r.place.seen))
    && (r.place.PopAll? || r.place.Notifying? || r.status.Claimed? || r.status == Completed ==> counter == 0)
    && (!r.place.Notifying? ==> r.mine == [])
    && r.completions == if r.status == Completed then 1 else 0
  }

  predicate AllPlaced(s: State) {
    && |s.next| == |s.parties|
    && forall i | 0 <= i < |s.parties| :: Placed(s.parties[i], s.next[i], i in s.stack, s.counter)
  }

  predicate Stacking(s: State) {
    && Distinct(s.stack) && Chain(s.next, LinkOf(s.head), s.stack)
    && (forall x | x in s.stack :: x < |s.parties|)
    && (s.head == Emptied ==> s.counter == 0)
  }

  /** What a party has popped is what it will walk through, and claims nobody else's. */
  predicate Claiming(r: Party, i: Id, next: seq<Link>, parties: seq<Party>) {
    && Distinct(r.mine)
    && (forall x | x in r.mine :: x < |parties|)
    && (forall x | 0 <= x < |parties| :: parties[x].status == Claimed(i) <==> x in r.mine)
    && (r.place.Notifying? ==> Chain(next, r.place.node, r.mine))
  }

  predicate AllClaiming(s: State) {
    && (forall i | 0 <= i < |s.parties| :: Claiming(s.parties[i], i, s.next, s.parties))
    && (forall x | 0 <= x < |s.parties| && s.parties[x].status.Claimed? :: s.parties[x].status.popper < |s.parties|)
  }

  predicate SomebodyOwes(s: State) {
    exists i | 0 <= i < |s.parties| :: Owes(s.parties[i])
  }

  predicate SomebodyPushes(s: State) {
    exists i | 0 <= i < |s.parties| :: Pushing(s.parties[i])
  }

  /** When the count is down and anyone is on the stack, or about to be without noticing, somebody
      still has to pop. */
  predicate WillPop(s: State) {
    s.counter == 0 && (s.stack != [] || (s.head == Itself && SomebodyPushes(s))) ==> SomebodyOwes(s)
  }

  predicate Good(s: State) {
    AllPlaced(s) && Stacking(s) && AllClaiming(s) && WillPop(s) && s.counter + s.arrived == s.total
  }

  // ---- every step keeps it ----

  /** Only the place of party `i`, and perhaps a link of a node that is on no chain, changed. */
  predicate OnlyAt(s: State, s': State, i: Id) {
    && At(s, i) && At(s', i) && |s'.parties| == |s.parties|
    && (forall j | 0 <= j < |s.parties| && j != i :: s'.parties[j] == s.parties[j] && s'.next[j] == s.next[j])
    && s'.parties[i].mine == s.parties[i].mine
    && (s'.parties[i].place.Notifying? ==> s.parties[i].place.Notifying? && s'.parties[i].place == s.parties[i].place)
    && (s'.next[i] == s.next[i] || s.parties[i].status == Absent)
  }

  lemma ClaimsKept(s: State, s': State, i: Id)
    requires AllClaiming(s) && OnlyAt(s, s', i)
    requires var was, now := s.parties[i].status, s'.parties[i].status; now == was || (!was.Claimed? && !now.Claimed?)
    ensures AllClaiming(s')
  {
    hide Chain, Distinct;
    forall j | 0 <= j < |s.parties|
      ensures Claiming(s'.parties[j], j, s'.next, s'.parties)
    {
      assert Claiming(s.parties[j], j, s.next, s.parties);
      if s.parties[j].place.Notifying? {
        ChainKeeps(s.next, s'.next, s.parties[j].place.node, s.parties[j].mine);
      }
    }
  }

  /** Whoever loaded the old address as the head may still find it there, with another waiter. */
  lemma RearriveKeeps(s: State, s': State, i: Id, waits: bool, amount: nat)
    requires Good(s) && Rearrives(s, s', i, waits, amount)
    ensures i !in s.stack && Good(s')
  {
    hide Chain, Distinct, Claiming;
    ClaimsKept(s, s', i);
    assert forall j | 0 <= j < |s.parties| :: Owes(s.parties[j]) ==> Owes(s'.parties[j]);
    assert forall j | 0 <= j < |s.parties| :: Pushing(s'.parties[j]) ==> Pushing(s.parties[j]);
  }

  lemma CountDownKeeps(s: State, s': State, i: Id)
    requires Good(s) && CountsDown(s, s', i)
    ensures Good(s')
  {
    hide Chain, Distinct, Claiming;
    ClaimsKept(s, s', i);
    assert forall j | 0 <= j < |s.parties| && j != i :: Owes(s.parties[j]) ==> Owes(s'.parties[j]);
    assert s.counter == s.parties[i].amount ==> Owes(s'.parties[i]);
  }

  lemma LoadKeeps(s: State, s': State, i: Id)
    requires Good(s) && Loads(s, s', i)
    ensures Good(s')
  {
    hide Chain, Distinct, Claiming;
    ClaimsKept(s, s', i);
    ChainKeeps(s.next, s'.next, LinkOf(s.head), s.stack);
    assert forall j | 0 <= j < |s.parties| :: Owes(s.parties[j]) ==> Owes(s'.parties[j]);
    assert forall j | 0 <= j < |s.parties| :: Pushing(s'.parties[j]) <==> Pushing(s.parties[j]);
  }

  lemma SwingWillPop(s: State, s': State, i: Id)
    requires Good(s) && Swings(s, s', i)
    ensures WillPop(s')
  {
    hide Stacking, AllClaiming, AllPlaced;
    assert Pushing(s.parties[i]);
    assert forall j | 0 <= j < |s.parties| :: Owes(s.parties[j]) ==> Owes(s'.parties[j]);
    assert s.head == Emptied ==> Owes(s'.parties[i]);
    if s.head.Top? {
      TopIsStacked(s);
    }
  }

  lemma TopIsStacked(s: State)
    requires Stacking(s) && s.head.Top?
    ensures s.stack != []
  {
  }

  lemma SwingStacking(s: State, s': State, i: Id)
    requires Good(s) && Swings(s, s', i)
    ensures Stacking(s') && AllPlaced(s')
  {
    hide Path, Distinct, AllClaiming, WillPop;
    assert i !in s.stack;
    Prepend(s.next, i, s.stack, Null);
    DistinctPush(s.stack, i);
  }

  lemma SwingKeeps(s: State, s': State, i: Id)
    requires Good(s) && Swings(s, s', i)
    ensures Good(s')
  {
    hide Stacking, WillPop, Claiming;
    SwingWillPop(s, s', i);
    SwingStacking(s, s', i);
    ClaimsKept(s, s', i);
  }

  lemma PopPlaced(s: State, s': State, i: Id)
    requires Good(s) && Pops(s, s', i)
    ensures AllPlaced(s') && Stacking(s') && WillPop(s')
  {
    hide Path, Distinct, Claiming;
    EmptyChain(s.next);
  }

  lemma PopKeeps(s: State, s': State, i: Id)
    requires Good(s) && Pops(s, s', i)
    ensures Good(s')
  {
    hide Chain, Distinct;
    PopPlaced(s, s', i);
    forall j | 0 <= j < |s.parties|
      ensures Claiming(s'.parties[j], j, s'.next, s'.parties)
    {
      assert Claiming(s.parties[j], j, s.next, s.parties);
    }
  }

  /** The node a popper is at is the first of those it has claimed and not yet completed. */
  lemma NodeIsClaimed(s: State, i: Id)
    requires Good(s) && At(s, i) && s.parties[i].place.Notifying? && s.parties[i].mine != []
    ensures var r, x := s.parties[i], s.parties[i].mine[0];
      && r.place.node == To(x) && x < |s.parties| && s.parties[x].status == Claimed(i) && s.parties[x].completions == 0
      && x !in r.mine[1..] && Distinct(r.mine[1..]) && Chain(s.next, s.next[x], r.mine[1..])
  {
    hide Path, Distinct;
    var r := s.parties[i];
    assert Claiming(r, i, s.next, s.parties);
    FirstStep(s.next, r.place.node, r.mine, Null);
    DistinctRest(r.mine);
  }

  lemma NotifierClaims(s: State, s': State, i: Id)
    requires Good(s) && Notifies(s, s', i)
    ensures Claiming(s'.parties[i], i, s'.next, s'.parties)
  {
    hide Path, Distinct, Stacking, WillPop, Placed, Chain;
    assert Claiming(s.parties[i], i, s.next, s.parties);
    NodeIsClaimed(s, i);
    assert forall y :: y in s.parties[i].mine <==> y == s.parties[i].mine[0] || y in s.parties[i].mine[1..];
  }

  lemma OthersClaim(s: State, s': State, i: Id, j: Id)
    requires Good(s) && Notifies(s, s', i) && j < |s.parties| && j != i
    ensures Claiming(s'.parties[j], j, s'.next, s'.parties)
  {
    hide Path, Distinct, Stacking, WillPop, Placed, Chain;
    assert Claiming(s.parties[j], j, s.next, s.parties);
    NodeIsClaimed(s, i);
  }

  lemma NotifyClaims(s: State, s': State, i: Id)
    requires Good(s) && Notifies(s, s', i)
    ensures AllClaiming(s')
  {
    hide Claiming, Chain, Distinct, Stacking, WillPop, Placed;
    forall j | 0 <= j < |s.parties|
      ensures Claiming(s'.parties[j], j, s'.next, s'.parties)
    {
      if j == i {
        NotifierClaims(s, s', i);
      } else {
        OthersClaim(s, s', i, j);
      }
    }
  }

  /** A round completes the first of the claimed nodes, which had not completed before, and nobody else. */
  lemma NotifyKeeps(s: State, s': State, i: Id)
    requires Good(s) && Notifies(s, s', i)
    ensures var x := s.parties[i].mine[0];
      && s.parties[i].place.node == To(x) && x < |s.parties| == |s'.parties| && s.parties[x].status == Claimed(i)
      && s.parties[x].completions == 0 && s'.parties[x].completions == 1
      && forall j | 0 <= j < |s.parties| && j != x ::
        s'.parties[j].status == s.parties[j].status && s'.parties[j].completions == s.parties[j].completions
    ensures Good(s')
  {
    hide Path, Distinct, Claiming;
    NodeIsClaimed(s, i);
    NotifyClaims(s, s', i);
    assert forall j | 0 <= j < |s.parties| :: Owes(s.parties[j]) ==> Owes(s'.parties[j]);
    assert forall j | 0 <= j < |s.parties| :: Pushing(s'.parties[j]) ==> Pushing(s.parties[j]);
  }

  lemma FinishKeeps(s: State, s': State, i: Id)
    requires Good(s) && Finishes(s, s', i)
    ensures s.parties[i].mine == [] && Good(s')
  {
    hide Path, Distinct;
    var r := s.parties[i];
    assert Claiming(r, i, s.next, s.parties);
    ChainEnds(s.next, r.place.node, r.mine);
    ClaimsKept(s, s', i);
    assert forall j | 0 <= j < |s.parties| :: Owes(s.parties[j]) ==> Owes(s'.parties[j]);
    assert forall j | 0 <= j < |s.parties| :: Pushing(s'.parties[j]) ==> Pushing(s.parties[j]);
  }

  lemma GoodHolds(s: State, s': State)
    requires Good(s) && Next(s, s')
    ensures Good(s')
  {
    hide Good, Rearrives, CountsDown, Loads, Swings, Pops, Notifies, Finishes;
    var e :| Happens(s, s', e);
    match e
    case Rearrive(i, waits, amount) => RearriveKeeps(s, s', i, waits, amount);
    case CountDown(i) => CountDownKeeps(s, s', i);
    case Load(i) => LoadKeeps(s, s', i);
    case Swing(i) => SwingKeeps(s, s', i);
    case Pop(i) => PopKeeps(s, s', i);
    case Notify(i) => NotifyKeeps(s, s', i);
    case Finish(i) => FinishKeeps(s, s', i);
  }

  lemma GoodAtFirst(s: State)
    requires Init(s)
    ensures Good(s)
  {
  }

  // ---- what the latch promises ----

  predicate Sound(s: State) {
    // the count is what has not been counted down yet
    && s.counter + s.arrived == s.total
    // no waiter completes, and nobody even begins to pop, before the count is down
    && (forall i | 0 <= i < |s.parties| ::
          s.parties[i].completions > 0 || s.parties[i].place.Notifying? ==> s.counter == 0)
    // nobody completes twice, nor a thread that does not wait
    && (forall i | 0 <= i < |s.parties| ::
          s.parties[i].completions <= 1 && (s.parties[i].completions == 1 ==> s.parties[i].waits))
    // a null head means that the count is down
    && (s.head == Emptied ==> s.counter == 0)
    // once the count is down and no party is under way, every waiter that has arrived, before or
    // after, has completed
    && (s.counter == 0 && (forall i | 0 <= i < |s.parties| :: s.parties[i].place in {NotStarted, Returned}) ==>
          forall i | 0 <= i < |s.parties| ::
            s.parties[i].waits && s.parties[i].place == Returned ==> s.parties[i].completions == 1)
    // and while the count is not down, every waiter that has arrived is on the stack
    && (s.counter > 0 ==> forall i | 0 <= i < |s.parties| ::
          s.parties[i].waits && s.parties[i].place == Returned ==> i in s.stack)
  }

  lemma ClaimedIsNotified(s: State, i: Id)
    requires Good(s) && i < |s.parties| && s.parties[i].status.Claimed?
    ensures s.parties[i].status.popper < |s.parties| && s.parties[s.parties[i].status.popper].place.Notifying?
  {
    hide Chain, Distinct;
    var p := s.parties[i].status.popper;
    assert Claiming(s.parties[p], p, s.next, s.parties) && i in s.parties[p].mine;
  }

  lemma GoodIsSound(s: State)
    requires Good(s)
    ensures Sound(s)
  {
    hide Chain, Distinct;
    assert forall i | 0 <= i < |s.parties| :: Placed(s.parties[i], s.next[i], i in s.stack, s.counter);
    if s.counter == 0 && (forall i | 0 <= i < |s.parties| :: s.parties[i].place in {NotStarted, Returned}) {
      assert forall i | 0 <= i < |s.parties| :: !Owes(s.parties[i]);
      assert s.stack == [];
      forall i | 0 <= i < |s.parties| && s.parties[i].waits && s.parties[i].place == Returned
        ensures s.parties[i].completions == 1
      {
        if s.parties[i].status.Claimed? {
          ClaimedIsNotified(s, i);
        }
      }
    }
  }

  lemma GoodInRun(run: seq<State>, k: nat)
    requires IsRun(Init, Next, run) && k < |run|
    ensures Good(run[k])
  {
    forall s | Init(s)
      ensures Good(s)
    {
      GoodAtFirst(s);
    }
    forall s, s' | Good(s) && Next(s, s')
      ensures Good(s')
    {
      GoodHolds(s, s');
    }
    AlongRun(Init, Next, Good, run);
  }

  /** In every state of every interleaving. */
  lemma LatchIsSound(run: seq<State>, k: nat)
    requires IsRun(Init, Next, run) && k < |run|
    ensures Sound(run[k])
  {
    GoodInRun(run, k);
    GoodIsSound(run[k]);
  }

  /** It has something to do: to count down, which it may unless that brings the count below zero, or
      what follows. */
  predicate CanGoOn(s: State, i: Id) {
    i < |s.parties| && s.parties[i].place != Returned
    && (s.parties[i].place == NotStarted ==> s.parties[i].amount <= s.counter)
  }

  /** The conditions in the steps never hold a party up: in every state of
      every run it has a next step, a popper finding a node for every link it follows, and
      a push going through when the head is the one it has seen. */
  lemma NeverStuck(run: seq<State>, k: nat, i: Id) returns (e: Event)
    requires IsRun(Init, Next, run) && k < |run| && i < |run[k].parties|
    requires CanGoOn(run[k], i)
    ensures e.i == i && exists s' :: Happens(run[k], s', e)
    ensures run[k].parties[i].place == Push(run[k].head) ==> e == Swing(i)
  {
    GoodInRun(run, k);
    e := NextStep(run[k], i);
  }

  lemma NextStep(s: State, i: Id) returns (e: Event)
    requires Good(s) && i < |s.parties| && CanGoOn(s, i)
    ensures e.i == i && exists s' :: Happens(s, s', e)
    ensures s.parties[i].place == Push(s.head) ==> e == Swing(i)
  {
    var r := s.parties[i];
    assert Claiming(r, i, s.next, s.parties);
    match r.place {
      case NotStarted => e := CountDown(i); CountDownPossible(s, i);
      case LoadTop => e := Load(i); LoadPossible(s, i);
      case Push(seen) =>
        if seen == s.head {
          e := Swing(i);
          SwingPossible(s, i);
        } else {
          e := Load(i);
          LoadPossible(s, i);
        }
      case PopAll(_) => e := Pop(i); PopPossible(s, i);
      case Notifying(node, _) =>
        ChainEnds(s.next, node, r.mine);
        if node.To? {
          e := Notify(i);
          NotifyPossible(s, i);
        } else {
          e := Finish(i);
          FinishPossible(s, i);
        }
    }
  }

  /** Any count, and any parties; who has completed, or only counted down, may come back as any other. */
  lemma CanStart(count: nat, waits: seq<bool>, amounts: seq<nat>) returns (s: State)
    requires |waits| == |amounts|
    ensures Init(s) && s.counter == count && |s.parties| == |waits|
    ensures forall i | 0 <= i < |waits| :: s.parties[i].waits == waits[i] && s.parties[i].amount == amounts[i]
  {
    s := State(count, Itself, seq(|waits|, i => Null),
               seq(|waits|, i requires 0 <= i < |waits| => Arriving(waits[i], amounts[i])), [], count, 0);
  }

  lemma CanComeBack(s: State, i: Id, waits: bool, amount: nat)
    requires At(s, i) && s.parties[i].place == Returned && (s.parties[i].waits ==> s.parties[i].status == Completed)
    ensures exists s' :: Happens(s, s', Rearrive(i, waits, amount)) && s'.parties[i] == Arriving(waits, amount)
  {
    assert Happens(s, s.(parties := s.parties[i := Arriving(waits, amount)]), Rearrive(i, waits, amount));
  }

  lemma CountDownPossible(s: State, i: Id)
    requires At(s, i) && s.parties[i].place == NotStarted && s.parties[i].amount <= s.counter
    ensures exists s' :: Happens(s, s', CountDown(i))
  {
    var r := s.parties[i];
    var s' := s.(counter := s.counter - r.amount, arrived := s.arrived + r.amount,
                 parties := s.parties[i := CountedDown(r, s.counter == r.amount)]);
    assert Happens(s, s', CountDown(i));
  }

  lemma LoadPossible(s: State, i: Id)
    requires At(s, i) && (s.parties[i].place == LoadTop || s.parties[i].place.Push?)
    ensures exists s' :: Happens(s, s', Load(i))
  {
    var s' := s.(next := s.next[i := LinkOf(s.head)], parties := s.parties[i := s.parties[i].(place := Push(s.head))]);
    assert Happens(s, s', Load(i));
  }

  lemma SwingPossible(s: State, i: Id)
    requires At(s, i) && s.parties[i].place == Push(s.head)
    ensures exists s' :: Happens(s, s', Swing(i))
  {
    var s' := s.(head := Top(i), parties := s.parties[i := Pushed(s.parties[i], s.head)], stack := [i] + s.stack);
    assert Happens(s, s', Swing(i));
  }

  lemma PopPossible(s: State, i: Id)
    requires At(s, i) && s.parties[i].place.PopAll?
    ensures exists s' :: Happens(s, s', Pop(i))
  {
    var r := s.parties[i];
    var mine := r.(place := Notifying(LinkOf(s.head), r.place.self), mine := s.stack,
                   status := if i in s.stack then Claimed(i) else r.status);
    var parties := seq(|s.parties|, j requires 0 <= j < |s.parties| =>
                                      if j == i then mine
                                      else if j in s.stack then s.parties[j].(status := Claimed(i))
                                      else s.parties[j]);
    var s' := s.(head := Emptied, parties := parties, stack := []);
    assert Happens(s, s', Pop(i));
  }

  lemma NotifyPossible(s: State, i: Id)
    requires At(s, i) && s.parties[i].place.Notifying? && s.parties[i].place.node.To? && s.parties[i].mine != []
    requires s.parties[i].place.node.id < |s.parties|
    ensures exists s' :: Happens(s, s', Notify(i))
  {
    var x := s.parties[i].place.node.id;
    var r := s.parties[i].(place := Notifying(s.next[x], s.parties[i].place.self), mine := s.parties[i].mine[1..]);
    var parties := if x == i then s.parties[i := Done(r)] else s.parties[i := r][x := Done(s.parties[x])];
    assert Happens(s, s.(parties := parties), Notify(i));
  }

  lemma FinishPossible(s: State, i: Id)
    requires At(s, i) && s.parties[i].place.Notifying? && s.parties[i].place.node == Null
    ensures exists s' :: Happens(s, s', Finish(i))
  {
    var r := s.parties[i].(place := Returned);
    var s' := s.(parties := s.parties[i := if s.parties[i].place.self then Done(r) else r]);
    assert Happens(s, s', Finish(i));
  }
}
