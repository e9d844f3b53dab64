/** `op_queue`: producers push whole chains on `incoming` with a compare-exchange, one consumer takes
    them all and turns them around.

    One step is one access to `incoming`, or one round of a loop over links that only one party can
    see.  A node that has been dequeued may be posted again, by anyone, so `incoming` may return to
    an old value (ABA). */
module OpQueues {
  import opened Behaviors
  import opened Chains
  import opened Sequences

  /** Where a node is: nowhere, in the chain a producer is building, or in the queue. */
  datatype Whereabouts = Outside | Private(producer: nat) | Inside

  datatype Place = Building | Publishing(seen: Link)

  /** `ops`: what has been given to the producer, in that order; `chain`: the same, newest first, as
      it is linked from `head` to `tail`. */
  datatype Producer = Producer(place: Place, head: Link, tail: Link, ops: seq<Id>, chain: seq<Id>)

  const NO_CHAIN := Producer(Building, Null, Null, [], [])

  datatype Consumer = Ready | Reversing(node: Id, reversed: Link) | Popping

  datatype State = State(
    incoming: Link, front: Link, next: seq<Link>, nodes: seq<Whereabouts>,
    producers: seq<Producer>, consumer: Consumer,
    // auxiliary: the queue that all this stands for, and its three parts; all that was ever posted
    // and taken
    queue: seq<Id>, stack: seq<Id>, draining: seq<Id>, fore: seq<Id>,
    posted: seq<Id>, taken: seq<Id>)

  predicate Init(s: State) {
    && s.incoming == s.front == Null && |s.next| == |s.nodes|
    && (forall x | 0 <= x < |s.nodes| :: s.nodes[x] == Outside && s.next[x] == Null)
    && (forall p | 0 <= p < |s.producers| :: s.producers[p] == NO_CHAIN)
    && s.consumer == Ready && s.queue == s.stack == s.draining == s.fore == s.posted == s.taken == []
  }

  // ---- producers ----

  /** One round of the loop of `bulk_enqueue`; `enqueue` is a single round. */
  predicate Adds(s: State, s': State, p: nat, x: Id) {
    && p < |s.producers| && s.producers[p].place == Building
    && x < |s.nodes| == |s.next| && s.nodes[x] == Outside
    && var r := s.producers[p];
      s' == s.(next := s.next[x := r.head], nodes := s.nodes[x := Private(p)],
               producers := s.producers[p := r.(head := To(x), tail := if r.tail == Null then To(x) else r.tail,
                                                ops := r.ops + [x], chain := [x] + r.chain)])
  }

  /** `publish` loads `incoming`, or a failed exchange has; the tail is linked to it. */
  function Linked(s: State, p: nat): State
    requires p < |s.producers|
  {
    var r := s.producers[p];
    s.(next := if r.tail.To? && r.tail.id < |s.next| then s.next[r.tail.id := s.incoming] else s.next,
       producers := s.producers[p := r.(place := Publishing(s.incoming))])
  }

  predicate Loads(s: State, s': State, p: nat) {
    && p < |s.producers| && s.producers[p].place == Building && s.producers[p].head != Null
    && s' == Linked(s, p)
  }

  predicate Swings(s: State, s': State, p: nat) {
    && p < |s.producers| && s.producers[p].place == Publishing(s.incoming)
    && |s'.nodes| == |s.nodes|
    && (forall x | 0 <= x < |s.nodes| ::
          s'.nodes[x] == if s.nodes[x] == Private(p) then Inside else s.nodes[x])
    && s' == s.(incoming := s.producers[p].head, nodes := s'.nodes, producers := s.producers[p := NO_CHAIN],
                queue := s.queue + s.producers[p].ops, stack := s.producers[p].chain + s.stack,
                posted := s.posted + s.producers[p].ops)
  }

  /** The exchange fails, perhaps spuriously. */
  predicate Misses(s: State, s': State, p: nat) {
    && p < |s.producers| && s.producers[p].place.Publishing? && s' == Linked(s, p)
  }

  // ---- the consumer ----

  predicate Begins(s: State, s': State) {
    && s.consumer == Ready
    && s' == if s.front != Null then s.(consumer := Popping)
             else match s.incoming
                  case Null => s    // `dequeue` returns null
                  case To(x) => s.(incoming := Null, consumer := Reversing(x, Null), draining := s.stack, stack := [])
  }

  /** One round of `reverse`. */
  predicate Turns(s: State, s': State) {
    && s.consumer.Reversing? && s.consumer.node < |s.next| && s.draining != []
    && var x := s.consumer.node;
      var t := s.(next := s.next[x := s.consumer.reversed], draining := s.draining[1..], fore := [x] + s.fore);
      s' == match s.next[x]
            case Null => t.(consumer := Popping, front := To(x))
            case To(y) => t.(consumer := Reversing(y, To(x)))
  }

  predicate Pops(s: State, s': State) {
    && s.consumer == Popping && s.front.To? && s.front.id < |s.next| == |s.nodes| && s.queue != [] && s.fore != []
    && var x := s.front.id;
      s' == s.(front := s.next[x], next := s.next[x := Null], nodes := s.nodes[x := Outside], consumer := Ready,
               queue := s.queue[1..], fore := s.fore[1..], taken := s.taken + [x])
  }

  datatype Event =
    | Add(p: nat, x: Id) | Load(p: nat) | Swing(p: nat) | Miss(p: nat) | Begin | Turn | Pop

  predicate Happens(s: State, s': State, e: Event) {
    match e
    case Add(p, x) => Adds(s, s', p, x)
    case Load(p) => Loads(s, s', p)
    case Swing(p) => Swings(s, s', p)
    case Miss(p) => Misses(s, s', p)
    case Begin => Begins(s, s')
    case Turn => Turns(s, s')
    case Pop => Pops(s, s')
  }

  ghost predicate Next(s: State, s': State) {
    exists e :: Happens(s, s', e)
  }

  // ---- the invariant ----

  function Parts(s: State): seq<Id> { s.draining + s.fore + s.stack }

  /** Every node is in the place it says, and nowhere else. */
  predicate Whole(s: State) {
    && |s.next| == |s.nodes|
    && (forall x | x in Parts(s) :: x < |s.nodes|)
    && (forall x | 0 <= x < |s.nodes| :: s.nodes[x] == Inside <==> x in Parts(s))
    && (forall x | 0 <= x < |s.nodes| :: s.nodes[x] == Outside ==> s.next[x] == Null)
  }

  predicate Queueing(s: State) {
    Distinct(Parts(s)) && s.queue == Arrivals(s.draining, s.fore, s.stack)
  }

  predicate Consuming(s: State) {
    && Chain(s.next, s.incoming, s.stack)
    && match s.consumer
       case Ready => Chain(s.next, s.front, s.fore) && s.draining == []
       case Popping => Chain(s.next, s.front, s.fore) && s.fore != [] && s.draining == []
       case Reversing(x, r) =>
         s.front == Null && s.draining != [] && Chain(s.next, To(x), s.draining) && Chain(s.next, r, s.fore)
  }

  /** The private chain of a producer, up to its tail. */
  predicate Producing(r: Producer, p: nat, next: seq<Link>, nodes: seq<Whereabouts>) {
    && Distinct(r.chain) && r.chain == Reverse(r.ops)
    && (forall x | x in r.chain :: x < |nodes|)
    && (forall x | 0 <= x < |nodes| :: nodes[x] == Private(p) <==> x in r.chain)
    && (if r.chain == [] then r.head == r.tail == Null && r.place == Building
        else r.head == To(r.chain[0]) && r.tail == To(r.chain[|r.chain| - 1]))
    && Path(next, r.head, r.chain, if r.place.Publishing? then r.place.seen else Null)
  }

  predicate AllProducing(s: State) {
    forall p | 0 <= p < |s.producers| :: Producing(s.producers[p], p, s.next, s.nodes)
  }

  predicate Good(s: State) {
    Whole(s) && Queueing(s) && Consuming(s) && AllProducing(s) && s.posted == s.taken + s.queue
  }

  /** Links of nodes outside the queue do not matter to the consumer. */
  lemma ConsumingKeeps(s: State, s': State)
    requires Consuming(s)
    requires s'.consumer == s.consumer && s'.incoming == s.incoming && s'.front == s.front
    requires s'.stack == s.stack && s'.draining == s.draining && s'.fore == s.fore
    requires |s'.next| == |s.next| && forall x | x in Parts(s) && x < |s.next| :: s'.next[x] == s.next[x]
    ensures Consuming(s')
  {
    hide Chain;
    forall q, xs | Chain(s.next, q, xs) && (forall x | x in xs :: x in Parts(s))
      ensures Chain(s'.next, q, xs)
    {
      ChainKeeps(s.next, s'.next, q, xs);
    }
  }

  lemma ProducingKeeps(r: Producer, p: nat, next: seq<Link>, nodes: seq<Whereabouts>, next': seq<Link>,
                       nodes': seq<Whereabouts>)
    requires Producing(r, p, next, nodes) && |next'| == |next| == |nodes| == |nodes'|
    requires forall x | 0 <= x < |nodes| :: nodes'[x] == Private(p) <==> nodes[x] == Private(p)
    requires forall x | 0 <= x < |nodes| && nodes[x] == Private(p) :: next'[x] == next[x]
    ensures Producing(r, p, next', nodes')
  {
    hide Path;
    PathKeeps(next, next', r.head, r.chain, if r.place.Publishing? then r.place.seen else Null);
  }

  lemma OthersProducing(s: State, s': State, p: nat)
    requires Whole(s) && AllProducing(s) && |s'.producers| == |s.producers|
    requires |s'.next| == |s.next| && |s'.nodes| == |s.nodes|
    requires forall q | 0 <= q < |s.producers| && q != p :: s'.producers[q] == s.producers[q]
    requires forall x, q | 0 <= x < |s.nodes| && 0 <= q < |s.producers| && q != p ::
               && (s'.nodes[x] == Private(q) <==> s.nodes[x] == Private(q))
               && (s.nodes[x] == Private(q) ==> s'.next[x] == s.next[x])
    requires p < |s.producers| ==> Producing(s'.producers[p], p, s'.next, s'.nodes)
    ensures AllProducing(s')
  {
    hide Producing;
    forall q | 0 <= q < |s.producers| && q != p
      ensures Producing(s'.producers[q], q, s'.next, s'.nodes)
    {
      ProducingKeeps(s.producers[q], q, s.next, s.nodes, s'.next, s'.nodes);
    }
  }

  lemma AddProducing(r: Producer, p: nat, next: seq<Link>, nodes: seq<Whereabouts>, x: Id)
    requires Producing(r, p, next, nodes) && r.place == Building && x < |nodes| == |next| && nodes[x] == Outside
    ensures var r' := r.(head := To(x), tail := if r.tail == Null then To(x) else r.tail,
                         ops := r.ops + [x], chain := [x] + r.chain);
      Producing(r', p, next[x := r.head], nodes[x := Private(p)]) && r'.chain == Reverse(r'.ops)
  {
    hide Path;
    var next', chain' := next[x := r.head], [x] + r.chain;
    PathKeeps(next, next', r.head, r.chain, Null);
    Prepend(next', x, r.chain, Null);
    DistinctPush(r.chain, x);
    ReverseJoin(r.ops, [x]);
    assert Reverse([x]) == [x];
  }

  lemma AddedIsNew(s: State, x: Id)
    requires Whole(s) && Queueing(s) && x < |s.nodes| && s.nodes[x] == Outside
    ensures x !in s.queue
  {
    ArrivalsDistinct(s.draining, s.fore, s.stack);
  }

  /** The private chain grows at its head, newest first; the queue and the chains of the others stay. */
  lemma AddKeeps(s: State, s': State, p: nat, x: Id)
    requires Good(s) && Adds(s, s', p, x)
    ensures Good(s') && s'.queue == s.queue && s'.posted == s.posted && s'.taken == s.taken && x !in s.queue
    ensures s'.producers[p].chain == Reverse(s.producers[p].ops + [x])
    ensures forall q | 0 <= q < |s.producers| && q != p :: s'.producers[q] == s.producers[q]
  {
    hide Distinct, Producing, Arrivals;
    assert x !in Parts(s);
    AddedIsNew(s, x);
    AddProducing(s.producers[p], p, s.next, s.nodes, x);
    ConsumingKeeps(s, s');
    OthersProducing(s, s', p);
  }

  lemma LinkProducing(r: Producer, p: nat, next: seq<Link>, nodes: seq<Whereabouts>, q: Link)
    requires Producing(r, p, next, nodes) && r.head != Null && |next| == |nodes|
    ensures r.tail.To? && r.tail.id < |next| && nodes[r.tail.id] == Private(p)
    ensures Producing(r.(place := Publishing(q)), p, next[r.tail.id := q], nodes)
  {
    hide Path;
    assert r.chain != [];
    assert r.chain[|r.chain| - 1] in r.chain;
    Retarget(next, r.head, r.chain, if r.place.Publishing? then r.place.seen else Null, q);
  }

  lemma LinkKeeps(s: State, s': State, p: nat)
    requires Good(s) && (Loads(s, s', p) || Misses(s, s', p))
    ensures Good(s')
  {
    hide Distinct, Path, Arrivals;
    var r := s.producers[p];
    assert Producing(r, p, s.next, s.nodes);
    LinkProducing(r, p, s.next, s.nodes, s.incoming);
    ConsumingKeeps(s, s');
    OthersProducing(s, s', p);
  }

  lemma SwingQueueing(s: State, s': State, p: nat)
    requires Good(s) && Swings(s, s', p)
    ensures Queueing(s')
  {
    hide Path, Chain, Consuming;
    var r := s.producers[p];
    assert Producing(r, p, s.next, s.nodes);
    assert forall x | x in r.chain :: x !in Parts(s);
    Arrive(s.draining, s.fore, s.stack, r.chain);
    ReverseTwice(r.ops);
  }

  lemma SwingWhole(s: State, s': State, p: nat)
    requires Good(s) && Swings(s, s', p)
    ensures Whole(s')
  {
    hide Path, Chain, Consuming, Distinct, Arrivals;
    var r := s.producers[p];
    assert Producing(r, p, s.next, s.nodes);
    assert forall x :: x in Parts(s') <==> x in Parts(s) || x in r.chain;
  }

  lemma SwingConsuming(s: State, s': State, p: nat)
    requires Good(s) && Swings(s, s', p)
    ensures Consuming(s')
  {
    hide Path, Whole, Queueing;
    var r := s.producers[p];
    assert Producing(r, p, s.next, s.nodes);
    PathJoins(s.next, r.head, r.chain, s.incoming, s.stack, Null);
  }

  lemma NothingPrivate(p: nat, next: seq<Link>, nodes: seq<Whereabouts>)
    requires forall x | 0 <= x < |nodes| :: nodes[x] != Private(p)
    ensures Producing(NO_CHAIN, p, next, nodes)
  {
  }

  lemma SwingKeeps(s: State, s': State, p: nat)
    requires Good(s) && Swings(s, s', p)
    ensures Good(s')
  {
    hide Queueing, Producing, Consuming;
    SwingQueueing(s, s', p);
    SwingWhole(s, s', p);
    SwingConsuming(s, s', p);
    NothingPrivate(p, s'.next, s'.nodes);
    OthersProducing(s, s', p);
  }

  lemma BeginKeeps(s: State, s': State)
    requires Good(s) && Begins(s, s')
    ensures Good(s')
    ensures s'.queue == s.queue && (s.front == Null && s.incoming == Null ==> s.queue == [])
  {
    hide Path, Distinct, Producing;
    ChainEnds(s.next, s.front, s.fore);
    ChainEnds(s.next, s.incoming, s.stack);
    EmptyChain(s.next);
    if s.front == Null && s.incoming.To? {
      assert Parts(s') == Parts(s);
    }
  }

  lemma TurnConsuming(s: State, s': State)
    requires Good(s) && Turns(s, s')
    ensures Consuming(s') && Queueing(s') && Whole(s')
  {
    hide Path, Producing;
    var x, r := s.consumer.node, s.consumer.reversed;
    FirstStep(s.next, To(x), s.draining, Null);
    TurnOne(s.draining, s.fore, s.stack);
    ReverseStep(s.next, To(x), s.draining, r, s.fore);
    ChainKeeps(s.next, s'.next, s.incoming, s.stack);
    ChainEnds(s'.next, s.next[x], s.draining[1..]);
    assert x in Parts(s);
  }

  lemma TurnKeeps(s: State, s': State)
    requires Good(s) && Turns(s, s')
    ensures Good(s') && s'.queue == s.queue
  {
    hide Path, Producing, Queueing, Consuming;
    TurnConsuming(s, s');
    var x := s.consumer.node;
    assert s.nodes[x] == Inside by {
      DrainingNode(s);
    }
    OthersProducing(s, s', |s.producers|);
  }

  lemma DrainingNode(s: State)
    requires Whole(s) && Consuming(s) && s.consumer.Reversing?
    ensures s.consumer.node < |s.nodes| && s.nodes[s.consumer.node] == Inside
  {
    FirstStep(s.next, To(s.consumer.node), s.draining, Null);
    assert s.draining[0] in s.draining;
    assert s.draining[0] in Parts(s);
  }

  lemma PopConsuming(s: State, s': State)
    requires Good(s) && Pops(s, s')
    ensures s.queue[0] == s.front.id && s.nodes[s.queue[0]] == Inside
    ensures Consuming(s') && Queueing(s') && Whole(s')
  {
    hide Path, Producing;
    var x := s.front.id;
    FirstStep(s.next, s.front, s.fore, Null);
    LeaveFirst(s.fore, s.stack);
    assert Parts(s) == [] + s.fore + s.stack && Parts(s') == [] + s.fore[1..] + s.stack;
    assert x in Parts(s) && x !in Parts(s');
    ChainKeeps(s.next, s'.next, s.next[x], s.fore[1..]);
    ChainKeeps(s.next, s'.next, s.incoming, s.stack);
  }

  lemma PopKeeps(s: State, s': State)
    requires Good(s) && Pops(s, s')
    ensures Good(s') && s.queue == [s.front.id] + s'.queue
  {
    hide Path, Producing, Queueing, Consuming;
    PopConsuming(s, s');
    OthersProducing(s, s', |s.producers|);
  }

  lemma GoodHolds(s: State, s': State)
    requires Good(s) && Next(s, s')
    ensures Good(s')
  {
    hide Good, Adds, Loads, Swings, Misses, Begins, Turns, Pops;
    var e :| Happens(s, s', e);
    match e
    case Add(p, x) => AddKeeps(s, s', p, x);
    case Load(p) => LinkKeeps(s, s', p);
    case Swing(p) => SwingKeeps(s, s', p);
    case Miss(p) => LinkKeeps(s, s', p);
    case Begin => BeginKeeps(s, s');
    case Turn => TurnKeeps(s, s');
    case Pop => PopKeeps(s, s');
  }

  lemma GoodAtFirst(s: State)
    requires Init(s)
    ensures Good(s)
  {
  }

  lemma GoodInRun(run: seq<State>, k: nat)
    requires IsRun(Init, Next, run) && k < |run|
    ensures Good(run[k])
  {
    forall s | Init(s)
      ensures Good(s)
    {
      GoodAtFirst(s);
    }
    forall s, s' | Good(s) && Next(s, s')
      ensures Good(s')
    {
      GoodHolds(s, s');
    }
    AlongRun(Init, Next, Good, run);
  }

  // ---- what the queue promises ----

  /** In every interleaving, what has been taken is a prefix of what has been posted, in the same
      order; the rest is in the queue, each node once; and a node that was taken has no link. */
  lemma NothingLostOrReordered(run: seq<State>, k: nat)
    requires IsRun(Init, Next, run) && k < |run|
    ensures var s := run[k];
      && s.posted == s.taken + s.queue && Distinct(s.queue)
      && (forall x | 0 <= x < |s.nodes| :: s.nodes[x] == Inside <==> x in s.queue)
      && (forall x | 0 <= x < |s.nodes| && x < |s.next| :: s.nodes[x] == Outside ==> s.next[x] == Null)
  {
    GoodInRun(run, k);
    ArrivalsDistinct(run[k].draining, run[k].fore, run[k].stack);
  }

  /** The points where the operations take effect.  A successful exchange appends a whole chain, in
      the order in which it was given, whatever happened to the old value of `incoming` meanwhile;
      so posting many at once is the same as posting them one after the other.  A node leaves only
      from the front, and `dequeue` returns null only when the queue is empty. */
  lemma StepsOfQueue(run: seq<State>, k: nat, e: Event)
    requires IsRun(Init, Next, run) && k < |run| - 1 && Happens(run[k], run[k + 1], e)
    ensures EffectOn(run[k], run[k + 1], e)
  {
    GoodInRun(run, k);
    EffectOfStep(run[k], run[k + 1], e);
  }

  predicate EffectOn(s: State, s': State, e: Event) {
    match e
    case Swing(p) =>
      && p < |s.producers| && s'.posted == s.posted + s.producers[p].ops && s'.queue == s.queue + s.producers[p].ops
      && s'.taken == s.taken
    case Pop =>
      && s.front.To? && s.queue == [s.front.id] + s'.queue && s'.taken == s.taken + [s.front.id]
      && s'.posted == s.posted
    case Begin =>
      && s'.queue == s.queue && s'.posted == s.posted && s'.taken == s.taken
      && (s'.consumer == Ready ==> s.queue == [])
    case _ => s'.queue == s.queue && s'.posted == s.posted && s'.taken == s.taken
  }

  lemma EffectOfStep(s: State, s': State, e: Event)
    requires Good(s) && Happens(s, s', e)
    ensures EffectOn(s, s', e)
  {
    hide Good;
    match e {
      case Pop => PopKeeps(s, s');
      case Begin => BeginKeeps(s, s');
      case _ =>
    }
  }

  /** The conditions in the steps never hold the consumer up: in every state of every run it can take
      its next step, so `reverse` and `dequeue` follow no null link. */
  lemma ConsumerNeverStuck(run: seq<State>, k: nat) returns (e: Event, s': State)
    requires IsRun(Init, Next, run) && k < |run|
    ensures (e.Begin? || e.Turn? || e.Pop?) && Happens(run[k], s', e)
  {
    GoodInRun(run, k);
    e, s' := ConsumerStep(run[k]);
  }

  lemma ConsumerStep(s: State) returns (e: Event, s': State)
    requires Good(s)
    ensures (e.Begin? || e.Turn? || e.Pop?) && Happens(s, s', e)
  {
    match s.consumer {
      case Ready =>
        e := Begin;
        s' := if s.front != Null then s.(consumer := Popping)
              else match s.incoming
                   case Null => s
                   case To(x) => s.(incoming := Null, consumer := Reversing(x, Null), draining := s.stack, stack := []);
      case Reversing(x, r) =>
        e := Turn;
        FirstStep(s.next, To(x), s.draining, Null);
        var t := s.(next := s.next[x := r], draining := s.draining[1..], fore := [x] + s.fore);
        s' := match s.next[x]
              case Null => t.(consumer := Popping, front := To(x))
              case To(y) => t.(consumer := Reversing(y, To(x)));
      case Popping =>
        e := Pop;
        FirstStep(s.next, s.front, s.fore, Null);
        var x := s.front.id;
        s' := s.(front := s.next[x], next := s.next[x := Null], nodes := s.nodes[x := Outside], consumer := Ready,
                 queue := s.queue[1..], fore := s.fore[1..], taken := s.taken + [x]);
    }
  }

  /** Any number of nodes and producers. */
  lemma CanStart(nodes: nat, producers: nat) returns (s: State)
    ensures Init(s) && |s.nodes| == nodes && |s.producers| == producers
  {
    s := State(Null, Null, seq(nodes, x => Null), seq(nodes, x => Outside), seq(producers, p => NO_CHAIN), Ready,
               [], [], [], [], [], []);
  }

  /** A producer goes on: any node outside can be added to its chain, a chain can be published, and the
      exchange goes through when `incoming` is what was seen. */
  lemma ProducerGoesOn(s: State, p: nat) returns (e: Event, s': State)
    requires p < |s.producers| && |s.next| == |s.nodes|
    ensures forall x | 0 <= x < |s.nodes| && s.nodes[x] == Outside && s.producers[p].place == Building ::
      exists t :: Happens(s, t, Add(p, x))
    ensures s.producers[p].place == Building && s.producers[p].head != Null ==> e == Load(p) && Happens(s, s', e)
    ensures s.producers[p].place == Publishing(s.incoming) ==> e == Swing(p) && Happens(s, s', e)
    ensures s.producers[p].place.Publishing? && s.producers[p].place.seen != s.incoming ==>
              e == Miss(p) && Happens(s, s', e)
  {
    var r := s.producers[p];
    forall x | 0 <= x < |s.nodes| && s.nodes[x] == Outside && r.place == Building
      ensures exists t :: Happens(s, t, Add(p, x))
    {
      var t := s.(next := s.next[x := r.head], nodes := s.nodes[x := Private(p)],
                  producers := s.producers[p := r.(head := To(x), tail := if r.tail == Null then To(x) else r.tail,
                                                   ops := r.ops + [x], chain := [x] + r.chain)]);
      assert Happens(s, t, Add(p, x));
    }
    if r.place == Publishing(s.incoming) {
      e := Swing(p);
      var nodes := seq(|s.nodes|, x requires 0 <= x < |s.nodes| =>
                                    if s.nodes[x] == Private(p) then Inside else s.nodes[x]);
      s' := s.(incoming := r.head, nodes := nodes, producers := s.producers[p := NO_CHAIN],
               queue := s.queue + r.ops, stack := r.chain + s.stack, posted := s.posted + r.ops);
    } else {
      e, s' := if r.place == Building then Load(p) else Miss(p), Linked(s, p);
    }
  }
}
