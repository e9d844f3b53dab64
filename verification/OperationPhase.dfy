/** The phase machine of one asynchronous operation, raced by three parties:
    the starter (`operation_state::start`), a stop callback (`request_cancel`), and the
    backend that completes it (`publish` after it gave up the operation).

    What the backend is (timer heap, descriptor slot, waiting list) is reduced to a token:
    registering hands the operation over, and whoever takes it back, exactly once, must
    publish.  One step is one atomic access. */
module OperationPhase {
  import opened Basics

  datatype Phase = Starting | Armed | CancelDeferred | Completed

  /** Where the backend's hold on the operation stands.  `Direct` is an operation that
      completed inside `do_start` and was never handed over. */
  datatype Token = Absent | Held | Taken(canceled: bool) | Direct

  datatype Starter =
    | NotStarted | Registering | DirectPublish
    | TryArm | DeferredCancel | DeferredPublish | TryRearm | StarterPost | Started

  datatype Canceller = NotCalled | TryDefer | CallCancel | CancelPublish | CancelPost | Returned

  datatype Publisher = Waiting | BackendPublish | BackendPost | Gone

  datatype Op = Op(phase: Phase, token: Token, starter: Starter, canceller: Canceller,
                   publisher: Publisher, posts: nat, finished: bool)

  const FRESH := Op(Starting, Absent, NotStarted, NotCalled, Waiting, 0, false)

  datatype Act =
    | Start | Register | CompleteInStart | PublishDirect | Arm | CancelDeferredNow(taken: bool) | PublishDeferred
    | Rearm | PostFromStart
    | CallStop | Defer(spurious: bool) | CancelNow(taken: bool) | PublishCancel | PostFromCancel
    | TakeBack | PublishBackend | PostFromBackend
    | Finish

  /** What `request_cancel` does next, having seen `phase`. */
  function AfterLoad(phase: Phase): Canceller {
    match phase
    case Starting => TryDefer
    case Armed => CallCancel
    case _ => Returned
  }

  /** `act` is possible in `o`. */
  predicate Enabled(o: Op, act: Act) {
    match act
    case Start => o.starter == NotStarted
    case Register => o.starter == Registering
    case CompleteInStart => o.starter == Registering
    case PublishDirect => o.starter == DirectPublish
    case Arm => o.starter == TryArm
    case CancelDeferredNow(taken) => o.starter == DeferredCancel && taken == (o.token == Held)
    case PublishDeferred => o.starter == DeferredPublish
    case Rearm => o.starter == TryRearm
    case PostFromStart => o.starter == StarterPost
    // the callback exists from `start` until `finish` destroys it
    case CallStop => o.canceller == NotCalled && o.starter != NotStarted && !o.finished
    case Defer(spurious) => o.canceller == TryDefer && (spurious ==> o.phase == Starting)
    case CancelNow(taken) => o.canceller == CallCancel && taken == (o.token == Held)
    case PublishCancel => o.canceller == CancelPublish
    case PostFromCancel => o.canceller == CancelPost
    case TakeBack => o.token == Held && o.publisher == Waiting
    case PublishBackend => o.publisher == BackendPublish
    case PostFromBackend => o.publisher == BackendPost
    // destroying the callback waits for one that is running
    case Finish => o.posts == 1 && !o.finished && (o.canceller == NotCalled || o.canceller == Returned)
  }

  /** `do_cancel` is due, from `start` or from the stop callback; whether it takes the operation
      back depends on the backend. */
  predicate CancelPending(o: Op, act: Act) {
    (act.CancelDeferredNow? && o.starter == DeferredCancel) || (act.CancelNow? && o.canceller == CallCancel)
  }

  function AfterCancel(o: Op, act: Act): Op
    requires CancelPending(o, act)
  {
    if act.CancelDeferredNow?
    then if act.taken then o.(token := Taken(true), starter := DeferredPublish) else o.(starter := TryRearm)
    else if act.taken then o.(token := Taken(true), canceller := CancelPublish) else o.(canceller := Returned)
  }

  /** The backend gives the operation up, publishes it and, if that found it armed, posts it. */
  function TakenByBackend(o: Op): Op { o.(token := Taken(false), publisher := BackendPublish) }

  function PublishedByBackend(o: Op): Op {
    o.(phase := Completed, publisher := if o.phase == Armed then BackendPost else Gone)
  }

  function PostedByBackend(o: Op): Op { o.(publisher := Gone, posts := o.posts + 1) }

  function Step(o: Op, act: Act): Op
    requires Enabled(o, act)
  {
    match act
    case Start => o.(starter := Registering)
    case Register => o.(starter := TryArm, token := Held)
    case CompleteInStart => o.(starter := DirectPublish, token := Direct)
    case PublishDirect => o.(phase := Completed, starter := StarterPost)
    case Arm =>
      if o.phase == Starting then o.(phase := Armed, starter := Started)
      else if o.phase == CancelDeferred then o.(starter := DeferredCancel)
      else o.(starter := StarterPost)
    case CancelDeferredNow(_) => AfterCancel(o, act)
    case PublishDeferred => o.(phase := Completed, starter := TryRearm)
    case Rearm =>
      if o.phase == CancelDeferred then o.(phase := Armed, starter := Started)
      else o.(starter := StarterPost)
    case PostFromStart => o.(starter := Started, posts := o.posts + 1)
    case CallStop => o.(canceller := AfterLoad(o.phase))
    case Defer(spurious) =>
      if o.phase == Starting && !spurious then o.(phase := CancelDeferred, canceller := Returned)
      else o.(canceller := AfterLoad(o.phase))
    case CancelNow(_) => AfterCancel(o, act)
    case PublishCancel =>
      o.(phase := Completed, canceller := if o.phase == Armed then CancelPost else Returned)
    case PostFromCancel => o.(canceller := Returned, posts := o.posts + 1)
    case TakeBack => TakenByBackend(o)
    case PublishBackend => PublishedByBackend(o)
    case PostFromBackend => PostedByBackend(o)
    case Finish => o.(finished := true)
  }

  /** When the backend answers truthfully, cancelling is a step of the machine, which leaves what the
      others do alone. */
  lemma CancelIsStep(o: Op, act: Act)
    requires CancelPending(o, act) && act.taken == (o.token == Held)
    ensures Enabled(o, act) && AfterCancel(o, act) == Step(o, act)
    ensures var o' := AfterCancel(o, act);
      && o'.publisher == o.publisher && o'.posts == o.posts && o'.finished == o.finished
      && o'.token == if act.taken then Taken(true) else o.token
  {
  }

  /** Publishes that are owed: the operation was taken back but not yet published. */
  function Owed(o: Op): nat {
    One(o.starter == DirectPublish) + One(o.starter == DeferredPublish)
    + One(o.canceller == CancelPublish) + One(o.publisher == BackendPublish)
  }

  /** A completed operation that `start` will still find completed, and then post. */
  predicate LeftToStarter(o: Op) {
    o.phase == Completed && o.starter in {TryArm, DeferredCancel, TryRearm}
  }

  function Posting(o: Op): nat {
    One(o.starter == StarterPost) + One(o.canceller == CancelPost) + One(o.publisher == BackendPost)
    + One(LeftToStarter(o))
  }

  /** No party will take another step on its own: only a stop request, the backend or the
      consumer can. */
  predicate AtRest(o: Op) {
    && o.starter == Started && o.canceller in {NotCalled, Returned} && o.publisher in {Waiting, Gone}
  }

  predicate Consistent(o: Op) {
    && (o.starter in {NotStarted, Registering} ==> o.phase in {Starting, CancelDeferred} && o.token == Absent)
    && (o.starter == NotStarted ==> o.canceller == NotCalled)
    && (o.starter == DirectPublish ==> o.phase in {Starting, CancelDeferred})
    && (o.starter == TryArm ==> o.phase != Armed)
    && (o.starter == DeferredPublish ==> o.phase == CancelDeferred)
    && (o.starter in {DeferredCancel, TryRearm} ==> o.phase in {CancelDeferred, Completed})
    && (o.starter == StarterPost ==> o.phase == Completed)
    && (o.starter == Started ==> o.phase in {Armed, Completed})
    && (o.token == Absent <==> o.starter in {NotStarted, Registering})
    && (o.token == Held ==> o.publisher == Waiting)
    && (o.token == Taken(false) <==> o.publisher != Waiting)
    && (o.starter == TryRearm ==> o.token != Held)
    && (o.starter == DirectPublish ==> o.token == Direct)
    && (o.token == Direct ==> o.starter in {DirectPublish, StarterPost, Started})
    && (o.starter == DeferredPublish || o.canceller == CancelPublish ==> o.token == Taken(true))
    && (o.canceller in {CallCancel, CancelPublish, CancelPost} ==> o.starter == Started)
  }

  /** A stop callback that has returned has seen to it that the operation is given up: what it leaves
      to the backend, `start` is about to take back. */
  predicate Heard(o: Op) {
    o.canceller == Returned ==>
      && (o.token == Held ==> o.phase == CancelDeferred && o.starter in {TryArm, DeferredCancel})
      && (o.token == Absent ==> o.phase == CancelDeferred)
  }

  /** The invariant of the race: an operation is published exactly once after it has been
      taken back, and posted exactly once after it has been published. */
  predicate Inv(o: Op) {
    && Consistent(o) && Heard(o)
    && Owed(o) + One(o.phase == Completed) == One(o.token.Taken? || o.token == Direct)
    && o.posts + Posting(o) == One(o.phase == Completed)
    && (o.finished ==> o.posts == 1 && o.canceller in {NotCalled, Returned})
  }

  /** Which party's step it is, and of which part of its work. */
  datatype Party = Beginning | Ending | Requesting | Cancelling | Backend | Consumer

  function PartyOf(act: Act): Party {
    match act
    case Start => Beginning
    case Register => Beginning
    case CompleteInStart => Beginning
    case PublishDirect => Beginning
    case Arm => Ending
    case CancelDeferredNow(_) => Ending
    case PublishDeferred => Ending
    case Rearm => Ending
    case PostFromStart => Ending
    case CallStop => Requesting
    case Defer(_) => Requesting
    case CancelNow(_) => Cancelling
    case PublishCancel => Cancelling
    case PostFromCancel => Cancelling
    case TakeBack => Backend
    case PublishBackend => Backend
    case PostFromBackend => Backend
    case Finish => Consumer
  }

  lemma BeginningKeeps(o: Op, act: Act)
    requires Inv(o) && Enabled(o, act) && PartyOf(act) == Beginning
    ensures Inv(Step(o, act))
  {
  }

  lemma EndingKeeps(o: Op, act: Act)
    requires Inv(o) && Enabled(o, act) && PartyOf(act) == Ending
    ensures Inv(Step(o, act))
  {
  }

  lemma RequestingKeeps(o: Op, act: Act)
    requires Inv(o) && Enabled(o, act) && PartyOf(act) == Requesting
    ensures Inv(Step(o, act))
  {
  }

  lemma CancellingKeeps(o: Op, act: Act)
    requires Inv(o) && Enabled(o, act) && PartyOf(act) == Cancelling
    ensures Inv(Step(o, act))
  {
  }

  lemma BackendKeeps(o: Op, act: Act)
    requires Inv(o) && Enabled(o, act) && PartyOf(act) in {Backend, Consumer}
    ensures Inv(Step(o, act))
  {
  }

  lemma InvHolds(o: Op, act: Act)
    requires Inv(o) && Enabled(o, act)
    ensures Inv(Step(o, act))
  {
    hide Inv, Step, Enabled, PartyOf;
    match PartyOf(act)
    case Beginning => BeginningKeeps(o, act);
    case Ending => EndingKeeps(o, act);
    case Requesting => RequestingKeeps(o, act);
    case Cancelling => CancellingKeeps(o, act);
    case _ => BackendKeeps(o, act);
  }

  /** `publish` is never called on a completed operation, and `start` never finds anything but
      `completed` when its last exchange fails: the two assertions in the code. */
  lemma PhaseAssertions(o: Op)
    requires Inv(o)
    ensures Owed(o) > 0 ==> o.phase != Completed
    ensures Enabled(o, Rearm) && o.phase != CancelDeferred ==> o.phase == Completed
  {
  }

  /** After `finish` no party takes another step: the operation state may be destroyed. */
  lemma FinishedIsUntouched(o: Op, act: Act)
    requires Inv(o) && o.finished
    ensures !Enabled(o, act)
  {
  }

  /** At rest, an operation is either still held by the backend, armed and unposted, or it has
      been posted exactly once. */
  lemma RestIsDecided(o: Op)
    requires Inv(o) && AtRest(o)
    ensures if o.token == Held then o.phase == Armed && o.posts == 0 else o.phase == Completed && o.posts == 1
  {
  }

  /** A stop request is not lost: once the stop callback has returned and everybody has come to rest,
      the operation is no longer with the backend, and it has been posted. */
  lemma StopIsHeard(o: Op)
    requires Inv(o) && AtRest(o) && o.canceller == Returned
    ensures o.token != Held && o.phase == Completed && o.posts == 1
  {
  }

  // ---- progress ----

  /** How many steps are left at most: of `start`, of the stop callback, of the backend, and `finish`. */
  function StepsLeft(o: Op): nat {
    (match o.starter
     case NotStarted => 8 case Registering => 7 case DirectPublish => 6
     case TryArm => 5 case DeferredCancel => 4 case DeferredPublish => 3 case TryRearm => 2
     case StarterPost => 1 case Started => 0)
    + (match o.canceller
       case NotCalled => 5 case TryDefer => 4 case CallCancel => 3 case CancelPublish => 2 case CancelPost => 1
       case Returned => 0)
    + (match o.publisher case Waiting => 3 case BackendPublish => 2 case BackendPost => 1 case Gone => 0)
    + One(!o.finished)
  }

  /** Every step brings the operation nearer to its end, except an exchange that fails spuriously. */
  lemma StepsRunOut(o: Op, act: Act)
    requires Enabled(o, act)
    ensures StepsLeft(Step(o, act)) < StepsLeft(o) || (act == Defer(true) && Step(o, act) == o)
  {
  }

  /** The operation waits in the hands of the backend, and nobody has asked it to stop. */
  predicate IsWaiting(o: Op) {
    o.starter == Started && o.token == Held && o.phase == Armed && o.canceller == NotCalled
  }

  /** What `start`, the stop callback, whoever publishes, and the consumer do by themselves. */
  predicate OfItself(act: Act) { act !in {Start, TakeBack, CallStop, Defer(true)} }

  /** Nothing stands still for any other reason: once started, an operation that has not finished
      either has a step of its own, or it waits and can be taken back and asked to stop. */
  lemma SomebodyGoesOn(o: Op) returns (act: Act)
    requires Inv(o) && o.starter != NotStarted && !o.finished
    ensures if IsWaiting(o) then Enabled(o, TakeBack) && Enabled(o, CallStop) else OfItself(act) && Enabled(o, act)
    ensures act != CompleteInStart && (act == PublishDirect ==> o.token == Direct)
  {
    if o.starter != Started {
      act := match o.starter
             case Registering => Register
             case DirectPublish => PublishDirect
             case TryArm => Arm
             case DeferredCancel => CancelDeferredNow(o.token == Held)
             case DeferredPublish => PublishDeferred
             case TryRearm => Rearm
             case _ => PostFromStart;
    } else if o.canceller !in {NotCalled, Returned} {
      act := CallbackGoesOn(o);
    } else {
      act := match o.publisher
             case BackendPublish => PublishBackend
             case BackendPost => PostFromBackend
             case _ => Finish;
      if AtRest(o) {
        RestIsDecided(o);
      }
    }
  }

  predicate CanTake(o: Op, acts: seq<Act>)
    decreases |acts|
  {
    acts != [] ==> Enabled(o, acts[0]) && CanTake(Step(o, acts[0]), acts[1..])
  }

  function Through(o: Op, acts: seq<Act>): Op
    requires CanTake(o, acts)
    decreases |acts|
  {
    if acts == [] then o else Through(Step(o, acts[0]), acts[1..])
  }

  /** A stop request brings the operation to its end without any help of the backend. */
  lemma {:induction false} StopEndsIt(o: Op) returns (acts: seq<Act>)
    requires Inv(o) && o.starter != NotStarted && o.canceller != NotCalled
    ensures (forall i | 0 <= i < |acts| :: OfItself(acts[i])) && CanTake(o, acts) && Through(o, acts).finished
    decreases StepsLeft(o)
  {
    hide Inv, Step, Enabled, StepsLeft, OfItself;
    if o.finished {
      acts := [];
    } else {
      var act := SomebodyGoesOn(o);
      InvHolds(o, act);
      StepsRunOut(o, act);
      StaysAsked(o, act);
      var rest := StopEndsIt(Step(o, act));
      acts := [act] + rest;
    }
  }

  lemma StaysAsked(o: Op, act: Act)
    requires Enabled(o, act) && OfItself(act) && o.starter != NotStarted && o.canceller != NotCalled
    ensures act != Defer(true) && Step(o, act).starter != NotStarted && Step(o, act).canceller != NotCalled
  {
  }

  /** A stop callback that has begun always has a next step of its own, so that whoever waits for it
      waits for a running thread. */
  lemma CallbackGoesOn(o: Op) returns (act: Act)
    requires o.canceller !in {NotCalled, Returned}
    ensures act.Defer? || act.CancelNow? || act in {PublishCancel, PostFromCancel}
    ensures Enabled(o, act)
  {
    act := match o.canceller
           case TryDefer => Defer(false)
           case CallCancel => CancelNow(o.token == Held)
           case CancelPublish => PublishCancel
           case _ => PostFromCancel;
  }
}
