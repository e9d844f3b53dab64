/** The run loop of `time_loop`: one consumer that sleeps on a semaphore, and any number of other
    threads that post operations, add timers and finish work, then wake it.

    The op queue and the timer heap are reduced to what the loop asks of them: whether there is an
    operation (OpQueues), and the multiset of deadlines, whose `add` answers true when the new
    deadline is strictly the earliest (TimerQueues). */
module TimeLoop {
  import opened Basics
  import opened Behaviors

  /** Another thread: between an effect and the `release` it calls for, or not. */
  datatype Agent = Idle | OwesRelease

  /** Where the consumer is in `do_one`. */
  datatype Place =
    | Away                             // outside `do_one`, or in `finish` of an operation
    | Checking                         // about to load the work count
    | Consuming                        // about to dequeue; the work count was not zero
    | Reading                          // the queue was empty; about to ask for the earliest timer
    | Blocked(until: Option<int>)      // in `acquire` or `try_acquire_until`
    | Taking                           // about to take the ready timers
    | Publishing(taken: nat)           // that many taken timers are still to be published
    | ConsumingLast                    // `poll` only: the final attempt

  datatype State = State(
    queue: nat,
    timers: multiset<int>,
    work: nat,
    permits: nat,
    now: int,
    stopping: bool,
    infinite: bool,
    consumer: Place,
    agents: seq<Agent>)

  predicate Init(s: State) {
    && s.queue == 0 && s.timers == multiset{} && s.work == 0 && s.permits == 0 && s.consumer == Away
    && !s.stopping
    && forall a | 0 <= a < |s.agents| :: s.agents[a] == Idle
  }

  // ---- what any thread may do to the loop ----

  datatype Effect = Enqueue | Add(deadline: int) | Remove(deadline: int) | WorkStarted | WorkFinished | RequestStop

  /** `timer_queue::add` answers true exactly when the new deadline is strictly the earliest. */
  ghost predicate IsEarliest(deadline: int, timers: multiset<int>) {
    forall t | t in timers :: deadline < t
  }

  /** Removing a timer that has already left the heap answers false and changes nothing. */
  predicate Possible(s: State, f: Effect) {
    match f
    case WorkFinished => s.work > 0
    case Remove(d) => d in s.timers
    case _ => true
  }

  function Applied(s: State, f: Effect): State
    requires Possible(s, f)
  {
    match f
    case Enqueue => s.(queue := s.queue + 1)
    case Add(d) => s.(timers := s.timers + multiset{d})
    case Remove(d) => s.(timers := s.timers - multiset{d})
    case WorkStarted => s.(work := s.work + 1)
    case WorkFinished => s.(work := s.work - 1)
    case RequestStop => s.(stopping := true)
  }

  /** `wakeup_consumer` follows. */
  ghost predicate Wakes(s: State, f: Effect)
    requires Possible(s, f)
  {
    match f
    case Enqueue => true
    case Add(d) => IsEarliest(d, s.timers)
    case Remove(_) => false
    case WorkStarted => false
    case WorkFinished => s.work == 1
    case RequestStop => !s.stopping
  }

  ghost predicate AgentActs(s: State, s': State, a: nat, f: Effect) {
    && a < |s.agents| && s.agents[a] == Idle && Possible(s, f)
    && s' == Applied(s, f).(agents := s.agents[a := if Wakes(s, f) then OwesRelease else Idle])
  }

  predicate Releases(s: State, s': State, a: nat) {
    && a < |s.agents| && s.agents[a] == OwesRelease
    && s' == s.(permits := s.permits + 1, agents := s.agents[a := Idle])
  }

  /** The consumer's own thread does not wake itself while `consumer_id_` is set; outside `run` it
      may. */
  predicate ConsumerActs(s: State, s': State, f: Effect, released: bool) {
    && s.consumer == Away && Possible(s, f)
    && s' == Applied(s, f).(permits := if released then s.permits + 1 else s.permits)
  }

  // ---- do_one ----

  predicate Enters(s: State, s': State, infinite: bool) {
    s.consumer == Away && s' == s.(consumer := Checking, infinite := infinite)
  }

  predicate Checks(s: State, s': State) {
    s.consumer == Checking && s' == s.(consumer := if s.work > 0 then Consuming else Away)
  }

  /** An operation is taken and finished, and `do_one` returns; or the queue is empty. */
  predicate Consumes(s: State, s': State, took: bool) {
    && s.consumer == Consuming && took == (s.queue > 0)
    && s' == if took then s.(queue := s.queue - 1, consumer := Away)
             else s.(consumer := if s.infinite then Reading else Taking)
  }

  ghost predicate IsMinimum(m: Option<int>, timers: multiset<int>) {
    match m
    case None => timers == multiset{}
    case Some(d) => d in timers && forall t | t in timers :: d <= t
  }

  ghost predicate ReadsEarliest(s: State, s': State, m: Option<int>) {
    s.consumer == Reading && IsMinimum(m, s.timers) && s' == s.(consumer := Blocked(m))
  }

  predicate Acquires(s: State, s': State) {
    s.consumer.Blocked? && s.permits > 0 && s' == s.(permits := s.permits - 1, consumer := Taking)
  }

  predicate TimesOut(s: State, s': State) {
    s.consumer.Blocked? && s.consumer.until.Some? && s.consumer.until.value <= s.now && s' == s.(consumer := Taking)
  }

  /** `take_ready_timers` */
  ghost predicate TakesReady(s: State, s': State, taken: multiset<int>) {
    && s.consumer == Taking && taken <= s.timers
    && (forall t | t in s.timers :: if t <= s.now then taken[t] == s.timers[t] else taken[t] == 0)
    && s' == s.(timers := s.timers - taken, consumer := Publishing(|taken|))
  }

  /** One round of `publish_pending`: the operation is posted unless `start` will post it. */
  predicate Publishes(s: State, s': State, posts: bool) {
    && s.consumer.Publishing? && s.consumer.taken > 0
    && s' == s.(queue := if posts then s.queue + 1 else s.queue, consumer := Publishing(s.consumer.taken - 1))
  }

  predicate Published(s: State, s': State) {
    s.consumer == Publishing(0) && s' == s.(consumer := if s.infinite then Checking else ConsumingLast)
  }

  predicate ConsumesLast(s: State, s': State, took: bool) {
    && s.consumer == ConsumingLast && took == (s.queue > 0)
    && s' == s.(queue := if took then s.queue - 1 else s.queue, consumer := Away)
  }

  predicate Ticks(s: State, s': State, to: int) {
    s.now <= to && s' == s.(now := to)
  }

  datatype Event =
    | AgentActed(a: nat, f: Effect) | Released(a: nat) | ConsumerActed(f: Effect, released: bool)
    | Entered(infinite: bool) | Checked | Consumed(took: bool) | ReadEarliest(m: Option<int>) | Acquired | TimedOut
    | TookReady(taken: multiset<int>) | PublishedOne(posts: bool) | PublishedAll
    | ConsumedLast(took: bool) | Ticked(to: int)

  ghost predicate Happens(s: State, s': State, e: Event) {
    match e
    case AgentActed(a, f) => AgentActs(s, s', a, f)
    case Released(a) => Releases(s, s', a)
    case ConsumerActed(f, released) => ConsumerActs(s, s', f, released)
    case Entered(infinite) => Enters(s, s', infinite)
    case Checked => Checks(s, s')
    case Consumed(took) => Consumes(s, s', took)
    case ReadEarliest(m) => ReadsEarliest(s, s', m)
    case Acquired => Acquires(s, s')
    case TimedOut => TimesOut(s, s')
    case TookReady(taken) => TakesReady(s, s', taken)
    case PublishedOne(posts) => Publishes(s, s', posts)
    case PublishedAll => Published(s, s')
    case ConsumedLast(took) => ConsumesLast(s, s', took)
    case Ticked(to) => Ticks(s, s', to)
  }

  ghost predicate Next(s: State, s': State) {
    exists e :: Happens(s, s', e)
  }

  // ---- no lost wakeup ----

  /** The consumer will not stay asleep: there is a permit, or a thread that owes a release. */
  predicate WakeupComing(s: State) {
    s.permits > 0 || exists a | 0 <= a < |s.agents| :: s.agents[a] == OwesRelease
  }

  /** A wait until `until` does not outlast any timer. */
  ghost predicate Covers(until: Option<int>, timers: multiset<int>) {
    match until
    case None => timers == multiset{}
    case Some(d) => forall t | t in timers :: d <= t
  }

  /** What the consumer last saw still holds, unless a wakeup is coming. */
  ghost predicate Wakeful(s: State) {
    && (s.consumer in {Consuming, Reading} || s.consumer.Blocked? ==> s.work > 0 || WakeupComing(s))
    && (s.consumer == Reading || s.consumer.Blocked? ==> s.queue == 0 || WakeupComing(s))
    && (s.consumer.Blocked? ==> Covers(s.consumer.until, s.timers) || WakeupComing(s))
  }

  lemma AgentKeeps(s: State, s': State, a: nat, f: Effect)
    requires Wakeful(s) && AgentActs(s, s', a, f)
    ensures Wakeful(s')
  {
    if Wakes(s, f) {
      assert s'.agents[a] == OwesRelease;
    } else {
      assert WakeupComing(s) ==> WakeupComing(s') by {
        assert forall b | 0 <= b < |s.agents| && s.agents[b] == OwesRelease :: s'.agents[b] == OwesRelease;
      }
      if f.Add? {
        var t :| t in s.timers && t <= f.deadline;
      }
    }
  }

  lemma ReleaseKeeps(s: State, s': State, a: nat)
    requires Wakeful(s) && Releases(s, s', a)
    ensures Wakeful(s')
  {
  }

  lemma OwnActKeeps(s: State, s': State, f: Effect, released: bool)
    requires Wakeful(s) && ConsumerActs(s, s', f, released)
    ensures Wakeful(s')
  {
    hide Covers, WakeupComing;
  }

  lemma ConsumerKeeps(s: State, s': State, e: Event)
    requires Wakeful(s) && Happens(s, s', e) && !e.AgentActed? && !e.Released?
    ensures Wakeful(s')
  {
    hide AgentActs, Releases, ConsumerActs, IsEarliest;
    if e.ConsumerActed? {
      OwnActKeeps(s, s', e.f, e.released);
    } else {
      assert s'.agents == s.agents;
    }
  }

  lemma WakefulHolds(s: State, s': State)
    requires Wakeful(s) && Next(s, s')
    ensures Wakeful(s')
  {
    var e :| Happens(s, s', e);
    if e.AgentActed? {
      AgentKeeps(s, s', e.a, e.f);
    } else if e.Released? {
      ReleaseKeeps(s, s', e.a);
    } else {
      ConsumerKeeps(s, s', e);
    }
  }

  /** Nothing for the consumer to do: no operation, no timer that is due, and work outstanding
      that some other thread holds. */
  ghost predicate NothingToDo(s: State) {
    s.queue == 0 && s.work > 0 && forall t | t in s.timers :: s.now < t
  }

  /** The consumer is asleep and nobody is about to wake it, not even the clock as it stands. */
  predicate Asleep(s: State) {
    && s.consumer.Blocked? && !WakeupComing(s)
    && (s.consumer.until.Some? ==> s.now < s.consumer.until.value)
  }

  lemma WakefulInRun(run: seq<State>, k: nat)
    requires IsRun(Init, Next, run) && k < |run|
    ensures Wakeful(run[k])
  {
    forall s, s' | Wakeful(s) && Next(s, s')
      ensures Wakeful(s')
    {
      WakefulHolds(s, s');
    }
    AlongRun(Init, Next, Wakeful, run);
  }

  /** The heart of the matter: in every interleaving, a consumer that is blocked without a permit
      either is owed a release, or has nothing queued, work outstanding and a wait that ends no
      later than the earliest timer.  So whoever sleeps undisturbed has nothing to do. */
  lemma NoLostWakeup(run: seq<State>, k: nat)
    requires IsRun(Init, Next, run) && k < |run|
    ensures var s := run[k];
      && (s.consumer.Blocked? && s.permits == 0 && !WakeupComing(s) ==>
            s.queue == 0 && s.work > 0 && Covers(s.consumer.until, s.timers))
      && (Asleep(s) ==> NothingToDo(s))
  {
    WakefulInRun(run, k);
  }

  /** So whoever is blocked and has something to do comes out of the wait, at once or after a release
      that is owed: the semaphore gives a permit, or the time is over. */
  lemma SleeperIsWoken(run: seq<State>, k: nat) returns (mid: State, s': State, e: Event)
    requires IsRun(Init, Next, run) && k < |run| && run[k].consumer.Blocked? && !NothingToDo(run[k])
    ensures mid == run[k] || exists a | 0 <= a < |run[k].agents| :: Happens(run[k], mid, Released(a))
    ensures Happens(mid, s', e) && (e == Acquired || e == TimedOut) && s'.consumer == Taking
  {
    WakefulInRun(run, k);
    var s := run[k];
    if s.consumer.until.Some? && s.consumer.until.value <= s.now {
      mid, e, s' := s, TimedOut, s.(consumer := Taking);
    } else if s.permits > 0 {
      mid, e, s' := s, Acquired, s.(permits := s.permits - 1, consumer := Taking);
    } else {
      var a :| 0 <= a < |s.agents| && s.agents[a] == OwesRelease;
      mid := s.(permits := s.permits + 1, agents := s.agents[a := Idle]);
      assert Happens(s, mid, Released(a));
      e, s' := Acquired, mid.(permits := mid.permits - 1, consumer := Taking);
    }
  }

  /** Exactly the due timers are taken, all of them to be published. */
  lemma TakesWhatIsDue(s: State, s': State, taken: multiset<int>)
    requires Happens(s, s', TookReady(taken))
    ensures s.timers == s'.timers + taken && s'.consumer == Publishing(|taken|)
    ensures (forall t | t in taken :: t <= s.now) && (forall t | t in s'.timers :: s'.now < t)
  {
  }

  /** The condition under which `add` stays silent is exact: a wait that covered the old timers
      covers the new one as well, whichever timer the consumer had read. */
  lemma SilentAddIsCovered(until: Option<int>, timers: multiset<int>, deadline: int)
    requires Covers(until, timers) && !IsEarliest(deadline, timers)
    ensures Covers(until, timers + multiset{deadline})
  {
    var t :| t in timers && t <= deadline;
  }

  /** A silent `add` of a strictly earliest deadline would be a lost wakeup: there is a wait that
      covers the old timers and not the new one. */
  lemma EarliestAddMustWake(timers: multiset<int>, deadline: int) returns (until: Option<int>)
    requires IsEarliest(deadline, timers)
    ensures IsMinimum(until, timers) && Covers(until, timers) && !Covers(until, timers + multiset{deadline})
  {
    if timers == multiset{} {
      until := None;
      assert deadline in timers + multiset{deadline};
    } else {
      until := MinimumExists(timers);
      assert deadline in timers + multiset{deadline};
    }
  }

  lemma {:induction false} MinimumExists(timers: multiset<int>) returns (m: Option<int>)
    requires timers != multiset{}
    ensures m.Some? && IsMinimum(m, timers)
    decreases |timers|
  {
    assert (forall t :: t !in timers) ==> timers == multiset{};
    var t :| t in timers;
    var rest := timers - multiset{t};
    if rest == multiset{} {
      m := Some(t);
      assert timers == multiset{t};
    } else {
      var r := MinimumExists(rest);
      m := if t < r.value then Some(t) else r;
      forall u | u in timers
        ensures m.value <= u
      {
        assert u == t || u in rest;
      }
    }
  }

  /** The timers that are due. */
  lemma {:induction false} DueExist(timers: multiset<int>, now: int) returns (due: multiset<int>)
    ensures due <= timers
    ensures forall t | t in timers :: if t <= now then due[t] == timers[t] else due[t] == 0
    decreases |timers|
  {
    if timers == multiset{} {
      due := multiset{};
    } else {
      assert (forall t :: t !in timers) ==> timers == multiset{};
      var t :| t in timers;
      var rest := timers - multiset{t};
      due := DueExist(rest, now);
      if t <= now {
        due := due + multiset{t};
      }
      assert forall u | u in timers && u != t :: u in rest && rest[u] == timers[u];
      assert t !in rest ==> due[t] == if t <= now then 1 else 0;
    }
  }

  /** Inside `do_one` the consumer stops nowhere but at the semaphore. */
  lemma ConsumerGoesOn(s: State) returns (e: Event, s': State)
    requires s.consumer != Away && !s.consumer.Blocked?
    ensures !e.AgentActed? && !e.Released? && !e.Ticked? && Happens(s, s', e)
  {
    match s.consumer {
      case Checking =>
        e, s' := Checked, s.(consumer := if s.work > 0 then Consuming else Away);
      case Consuming =>
        e := Consumed(s.queue > 0);
        s' := if s.queue > 0 then s.(queue := s.queue - 1, consumer := Away)
              else s.(consumer := if s.infinite then Reading else Taking);
      case Reading =>
        var m := None;
        if s.timers != multiset{} {
          m := MinimumExists(s.timers);
        }
        e, s' := ReadEarliest(m), s.(consumer := Blocked(m));
      case Taking =>
        var due := DueExist(s.timers, s.now);
        e, s' := TookReady(due), s.(timers := s.timers - due, consumer := Publishing(|due|));
      case Publishing(n) =>
        if n > 0 {
          e, s' := PublishedOne(false), s.(consumer := Publishing(n - 1));
        } else {
          e, s' := PublishedAll, s.(consumer := if s.infinite then Checking else ConsumingLast);
        }
      case ConsumingLast =>
        e := ConsumedLast(s.queue > 0);
        s' := if s.queue > 0 then s.(queue := s.queue - 1, consumer := Away)
              else s.(consumer := Away);
    }
  }

  /** Any number of other threads, which may do anything at any time, and any clock to start from. */
  lemma CanStart(agents: nat, now: int, infinite: bool) returns (s: State)
    ensures Init(s) && s.now == now && s.infinite == infinite && |s.agents| == agents
  {
    s := State(0, multiset{}, 0, 0, now, false, infinite, Away, seq(agents, a => Idle));
  }

  lemma OthersGoOn(s: State, a: nat, f: Effect) returns (s': State)
    requires a < |s.agents| && (f == WorkFinished ==> s.work > 0) && (f.Remove? ==> f.deadline in s.timers)
    ensures if s.agents[a] == Idle
            then Happens(s, s', AgentActed(a, f)) && (s'.agents[a] == OwesRelease <==> Wakes(s, f))
            else Happens(s, s', Released(a)) && s'.permits == s.permits + 1
  {
    if s.agents[a] == Idle {
      s' := Applied(s, f).(agents := s.agents[a := if Wakes(s, f) then OwesRelease else Idle]);
    } else {
      s' := s.(permits := s.permits + 1, agents := s.agents[a := Idle]);
    }
  }

  /** Outside `do_one` the consumer may do any of it too, or enter; and the clock goes on. */
  lemma ConsumerMayAct(s: State, f: Effect, infinite: bool, to: int)
    requires s.consumer == Away && s.now <= to
    requires (f == WorkFinished ==> s.work > 0) && (f.Remove? ==> f.deadline in s.timers)
    ensures Happens(s, Applied(s, f), ConsumerActed(f, false))
    ensures Happens(s, s.(consumer := Checking, infinite := infinite), Entered(infinite))
    ensures Happens(s, s.(now := to), Ticked(to))
  {
  }

  // ---- what goes in comes out ----

  /** `events[k]` leads from `run[k]` to `run[k + 1]`. */
  ghost predicate Traced(run: seq<State>, events: seq<Event>) {
    |run| == |events| + 1 && forall k | 0 <= k < |events| :: Happens(run[k], run[k + 1], events[k])
  }

  function Total(events: seq<Event>, weight: Event -> nat): nat {
    if events == [] then 0 else Total(events[..|events| - 1], weight) + weight(events[|events| - 1])
  }

  lemma TotalNext(events: seq<Event>, k: nat, weight: Event -> nat)
    requires k < |events|
    ensures Total(events[..k + 1], weight) == Total(events[..k], weight) + weight(events[k])
  {
    assert events[..k + 1][..k] == events[..k];
  }

  /** Somebody did `f`. */
  predicate Does(e: Event, f: Effect) {
    (e.AgentActed? || e.ConsumerActed?) && e.f == f
  }

  function Posts(e: Event): nat { One(Does(e, Enqueue) || e == PublishedOne(true)) }
  function Finishes(e: Event): nat { One(e == Consumed(true) || e == ConsumedLast(true)) }
  function Calls(e: Event): nat { One(e.Entered?) }
  function Grows(e: Event): nat { One(Does(e, WorkStarted)) }
  function Shrinks(e: Event): nat { One(Does(e, WorkFinished)) }
  function Wakeups(e: Event): nat { One(e.Released? || (e.ConsumerActed? && e.released)) }
  function Passes(e: Event): nat { One(e == Acquired) }
  function Stops(e: Event): nat { One(Does(e, RequestStop)) }

  /** Timers with the deadline `d` that come and go. */
  function Comes(e: Event, d: int): nat { One(Does(e, Add(d))) }
  function Goes(e: Event, d: int): nat { if e.TookReady? then e.taken[d] else One(Does(e, Remove(d))) }

  /** The state is what has been done so far; each call of `do_one` finishes at most one operation, and
      `poll` never blocks. */
  predicate Accounted(s: State, events: seq<Event>, d: int) {
    && s.queue + Total(events, Finishes) == Total(events, Posts)
    && s.work + Total(events, Shrinks) == Total(events, Grows)
    && s.permits + Total(events, Passes) == Total(events, Wakeups)
    && s.timers[d] + Total(events, e => Goes(e, d)) == Total(events, e => Comes(e, d))
    && (s.stopping <==> Total(events, Stops) > 0)
    && Total(events, Finishes) + One(s.consumer != Away) <= Total(events, Calls)
    && (s.consumer == Reading || s.consumer.Blocked? ==> s.infinite)
  }

  /** One step, as it is booked. */
  ghost predicate Booked(s: State, s': State, e: Event, d: int) {
    && s'.queue + Finishes(e) == s.queue + Posts(e)
    && s'.work + Shrinks(e) == s.work + Grows(e)
    && s'.permits + Passes(e) == s.permits + Wakeups(e)
    && s'.timers[d] + Goes(e, d) == s.timers[d] + Comes(e, d)
    && (s'.stopping <==> s.stopping || Stops(e) > 0)
    && One(s'.consumer != Away) + Finishes(e) <= One(s.consumer != Away) + Calls(e)
    && ((s.consumer == Reading || s.consumer.Blocked? ==> s.infinite) ==>
          (s'.consumer == Reading || s'.consumer.Blocked? ==> s'.infinite))
  }

  lemma AppliedOnce(s: State, f: Effect, d: int)
    requires Possible(s, f)
    ensures var t := Applied(s, f);
      && t.queue == s.queue + One(f == Enqueue) && t.permits == s.permits
      && t.work + One(f == WorkFinished) == s.work + One(f == WorkStarted)
      && t.timers[d] + One(f == Remove(d)) == s.timers[d] + One(f == Add(d))
      && (t.stopping <==> s.stopping || f == RequestStop)
      && t.consumer == s.consumer && t.infinite == s.infinite
  {
  }

  lemma EffectIsBooked(s: State, s': State, e: Event, d: int)
    requires (e.AgentActed? && AgentActs(s, s', e.a, e.f)) || (e.ConsumerActed? && ConsumerActs(s, s', e.f, e.released))
    ensures Booked(s, s', e, d)
  {
    hide Wakes, Applied, Possible;
    AppliedOnce(s, e.f, d);
  }

  lemma StepIsBooked(s: State, s': State, e: Event, d: int)
    requires Happens(s, s', e)
    ensures Booked(s, s', e, d)
  {
    hide AgentActs, ConsumerActs;
    if e.AgentActed? || e.ConsumerActed? {
      EffectIsBooked(s, s', e, d);
    }
  }

  lemma {:induction false} EverythingIsAccounted(run: seq<State>, events: seq<Event>, k: nat, d: int)
    requires IsRun(Init, Next, run) && Traced(run, events) && k < |run|
    ensures Accounted(run[k], events[..k], d)
  {
    hide Happens, Finishes, Posts, Shrinks, Grows, Passes, Wakeups, Goes, Comes, Stops, Calls, Next;
    if k > 0 {
      var j := k - 1;
      EverythingIsAccounted(run, events, j, d);
      assert Happens(run[j], run[j + 1], events[j]);
      StepIsBooked(run[j], run[j + 1], events[j], d);
      TotalNext(events, j, Finishes);
      TotalNext(events, j, Posts);
      TotalNext(events, j, Shrinks);
      TotalNext(events, j, Grows);
      TotalNext(events, j, Passes);
      TotalNext(events, j, Wakeups);
      TotalNext(events, j, Stops);
      TotalNext(events, j, Calls);
      TotalNext(events, j, e => Goes(e, d));
      TotalNext(events, j, e => Comes(e, d));
    }
  }

  /** `f` changes something that a wait which was right until then relies on: an operation comes, the last
      work goes, a timer comes that the wait might outlast; or it is the first request to stop. */
  ghost predicate Disturbs(s: State, f: Effect)
    requires Possible(s, f)
  {
    var t := Applied(s, f);
    || t.queue > s.queue || (s.work > 0 && t.work == 0) || (t.stopping && !s.stopping)
    || exists until :: Covers(until, s.timers) && !Covers(until, t.timers)
  }

  /** The consumer is woken exactly when it must be. */
  lemma WakesExactly(s: State, f: Effect)
    requires Possible(s, f)
    ensures Wakes(s, f) <==> Disturbs(s, f)
  {
    if f.Add? {
      if Wakes(s, f) {
        var until := EarliestAddMustWake(s.timers, f.deadline);
      } else {
        forall until | Covers(until, s.timers)
          ensures Covers(until, Applied(s, f).timers)
        {
          SilentAddIsCovered(until, s.timers, f.deadline);
        }
      }
    }
  }
}
