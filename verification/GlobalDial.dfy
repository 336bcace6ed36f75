/** The global dial: setters and readers of one value on all worker ranks, interleaved at every await, each of which
    can fail or be cancelled while its effect is still under way. */
module GlobalDial {
  import opened Wrappers

  type TaskId = nat

  /** Where a handler is waiting. All but the first and the last hold the lock. */
  datatype PC =
    | Queued | Checking | Pausing | Confirming | BackingOut | Setting | Reading | Resuming | Getting
    | Replied(reply: Reply)

  datatype Reply =
    | Success | Refused | AlreadyPaused | PendingRequests | Failed | Cancelled | Dial(consistent: bool, value: real)

  /** A handler; `observed` is what it has read back so far, by rank. */
  datatype Task = Task(setter: bool, value: real, pc: PC, observed: map<nat, real>)

  /** An engine operation under way; the setter call reaches each rank on its own. */
  datatype Effect = Pause | Resume | Set(rank: nat, value: real)

  datatype Operation = PauseOp | SetOp | ReadOp | ResumeOp

  datatype Entry = Entry(task: TaskId, op: Operation)

  /** `log` and `committed` are history: the operations the setters issued, and the last value that reached all
      ranks. `resumedOutside` says that somebody else has resumed the engine. */
  datatype World = World(
    tasks: map<TaskId, Task>, holder: Option<TaskId>, blocked: bool, paused: bool, ranks: seq<real>,
    underWay: set<Effect>, log: seq<Entry>, committed: real, resumedOutside: bool)

  /** What reading a value back makes of it: the ranks store it in fewer bits. */
  type Rounding = real -> real

  datatype Event =
    | Arrive(t: TaskId, setter: bool, value: real)
    | Acquire(t: TaskId)
    | Checked(t: TaskId)
    | PauseDone(t: TaskId)
    | Confirmed(t: TaskId, pending: bool)
    | BackedOut(t: TaskId)
    | SetDone(t: TaskId, results: seq<real>)
    | Observe(t: TaskId, rank: nat)
    | ReadDone(t: TaskId)
    | ResumeDone(t: TaskId)
    | GetDone(t: TaskId)
    | Fail(t: TaskId, cancelled: bool)
    | Land(effect: Effect)
    | Outside(pause: bool)

  predicate Close(a: real, b: real) { -0.000000001 <= a - b <= 0.000000001 }

  /** Every rank has answered, with the value. */
  predicate AllRanks(results: seq<real>, count: nat, value: real) {
    |results| == count && forall i :: 0 <= i < |results| ==> Close(results[i], value)
  }

  predicate HoldsLock(pc: PC) { !pc.Queued? && !pc.Replied? }

  /** The handler is inside its try block: a failure blocks the dial. */
  predicate InTransaction(pc: PC) {
    pc.Pausing? || pc.Confirming? || pc.BackingOut? || pc.Setting? || pc.Reading? || pc.Resuming?
  }

  // ---------------------------------------------------------------- steps

  predicate At(w: World, t: TaskId, pc: PC) { t in w.tasks && w.tasks[t].pc == pc }

  function Moved(w: World, t: TaskId, pc: PC): World
    requires t in w.tasks
  {
    w.(tasks := w.tasks[t := w.tasks[t].(pc := pc, observed := map[])])
  }

  /** Answers and lets go of the lock. */
  function Answered(w: World, t: TaskId, reply: Reply): World
    requires t in w.tasks
  {
    Moved(w, t, Replied(reply)).(holder := if w.holder == Some(t) then None else w.holder)
  }

  function Issued(w: World, t: TaskId, op: Operation, effects: set<Effect>): World {
    w.(log := w.log + [Entry(t, op)], underWay := w.underWay + effects)
  }

  function Blocking(w: World, t: TaskId, reply: Reply): World
    requires t in w.tasks
  {
    Answered(w, t, reply).(blocked := true)
  }

  function SetEffects(count: nat, value: real): set<Effect> {
    set r | 0 <= r < count :: Set(r, value)
  }

  function Results(observed: map<nat, real>, count: nat): seq<real>
    requires forall r :: 0 <= r < count ==> r in observed
  {
    seq(count, r requires 0 <= r < count => observed[r])
  }

  /** What the readback of a reader adds up to: a value if all ranks agree on one. */
  function DialReading(results: seq<real>, count: nat): Reply {
    if results != [] && AllRanks(results, count, results[0]) then Dial(true, results[0]) else Dial(false, 0.0)
  }

  function Landed(w: World, e: Effect, round: Rounding): World {
    var w1 := w.(underWay := w.underWay - {e});
    match e
    case Pause => w1.(paused := true)
    case Resume => w1.(paused := false)
    case Set(r, v) => if r < |w.ranks| then w1.(ranks := w.ranks[r := round(v)]) else w1
  }

  ghost predicate Enabled(w: World, e: Event) {
    match e
    case Arrive(t, _, _) => t !in w.tasks
    case Acquire(t) => At(w, t, Queued) && w.holder == None
    case Checked(t) => At(w, t, Checking)
    case PauseDone(t) => At(w, t, Pausing) && w.underWay == {}
    case Confirmed(t, _) => At(w, t, Confirming)
    case BackedOut(t) => At(w, t, BackingOut) && w.underWay == {}
    case SetDone(t, _) => At(w, t, Setting) && w.underWay == {}
    case Observe(t, r) => (At(w, t, Reading) || At(w, t, Getting)) && r < |w.ranks|
    case ReadDone(t) => At(w, t, Reading) && forall r :: 0 <= r < |w.ranks| ==> r in w.tasks[t].observed
    case ResumeDone(t) => At(w, t, Resuming) && w.underWay == {}
    case GetDone(t) => At(w, t, Getting) && forall r :: 0 <= r < |w.ranks| ==> r in w.tasks[t].observed
    case Fail(t, _) => t in w.tasks && !w.tasks[t].pc.Replied?
    case Land(effect) => effect in w.underWay
    case Outside(_) => true
  }

  function AfterCheck(w: World, t: TaskId): World
    requires t in w.tasks
  {
    if w.paused then Answered(w, t, AlreadyPaused) else Issued(Moved(w, t, Pausing), t, PauseOp, {Pause})
  }

  function AfterConfirm(w: World, t: TaskId, pending: bool): World
    requires t in w.tasks
  {
    if !w.paused then Blocking(w, t, Failed)
    else if pending then Issued(Moved(w, t, BackingOut), t, ResumeOp, {Resume})
    else Issued(Moved(w, t, Setting), t, SetOp, SetEffects(|w.ranks|, w.tasks[t].value))
  }

  function AfterSet(w: World, t: TaskId, results: seq<real>, round: Rounding): World
    requires t in w.tasks
  {
    var w1 := w.(committed := round(w.tasks[t].value));
    if AllRanks(results, |w.ranks|, w.tasks[t].value) then Issued(Moved(w1, t, Reading), t, ReadOp, {})
    else Blocking(w1, t, Failed)
  }

  function AfterRead(w: World, t: TaskId): World
    requires t in w.tasks && forall r :: 0 <= r < |w.ranks| ==> r in w.tasks[t].observed
  {
    if AllRanks(Results(w.tasks[t].observed, |w.ranks|), |w.ranks|, w.tasks[t].value)
    then Issued(Moved(w, t, Resuming), t, ResumeOp, {Resume})
    else Blocking(w, t, Failed)
  }

  function AfterFailure(w: World, t: TaskId, cancelled: bool): World
    requires t in w.tasks
  {
    var reply := if cancelled then Cancelled else Failed;
    if InTransaction(w.tasks[t].pc) then Blocking(w, t, reply) else Answered(w, t, reply)
  }

  ghost function Apply(w: World, e: Event, round: Rounding): World
    requires Enabled(w, e)
  {
    match e
    case Arrive(t, setter, value) => w.(tasks := w.tasks[t := Task(setter, value, Queued, map[])])
    case Acquire(t) =>
      if !w.tasks[t].setter then Moved(w, t, Getting).(holder := Some(t))
      else if w.blocked then Answered(w, t, Refused)
      else Moved(w, t, Checking).(holder := Some(t))
    case Checked(t) => AfterCheck(w, t)
    case PauseDone(t) => Moved(w, t, Confirming)
    case Confirmed(t, pending) => AfterConfirm(w, t, pending)
    case BackedOut(t) => Answered(w, t, PendingRequests)
    case SetDone(t, results) => AfterSet(w, t, results, round)
    case Observe(t, r) =>
      w.(tasks := w.tasks[t := w.tasks[t].(observed := w.tasks[t].observed[r := w.ranks[r]])])
    case ReadDone(t) => AfterRead(w, t)
    case ResumeDone(t) => Answered(w, t, Success)
    case GetDone(t) => Answered(w, t, DialReading(Results(w.tasks[t].observed, |w.ranks|), |w.ranks|))
    case Fail(t, cancelled) => AfterFailure(w, t, cancelled)
    case Land(effect) => Landed(w, effect, round)
    case Outside(pause) => w.(paused := pause, resumedOutside := w.resumedOutside || !pause)
  }

  // ---------------------------------------------------------------- what a step does

  /** As many answers as ranks, each within a billionth of the value. */
  ghost predicate Confirms(results: seq<real>, count: nat, value: real) {
    |results| == count && forall i :: 0 <= i < |results| ==> Near(results[i], value)
  }

  ghost predicate Near(a: real, value: real) { value - 0.000000001 <= a <= value + 0.000000001 }

  /** The values the handler has read back confirm the one it has set. */
  ghost predicate ReadBack(w: World, t: TaskId) {
    && t in w.tasks
    && forall r :: 0 <= r < |w.ranks| ==> r in w.tasks[t].observed && Near(w.tasks[t].observed[r], w.tasks[t].value)
  }

  lemma ReadBackIff(w: World, t: TaskId)
    requires t in w.tasks && forall r :: 0 <= r < |w.ranks| ==> r in w.tasks[t].observed
    ensures AllRanks(Results(w.tasks[t].observed, |w.ranks|), |w.ranks|, w.tasks[t].value) <==> ReadBack(w, t)
  {
    var results := Results(w.tasks[t].observed, |w.ranks|);
    assert forall r :: 0 <= r < |w.ranks| ==> results[r] == w.tasks[t].observed[r];
  }

  /** The operation that a step issues, if any: a pause if the engine is found running; then, if it has kept the pause,
      the setting, or a resume if requests are pending; a readback if every rank has confirmed the setting; a resume if
      every rank has confirmed the value. */
  ghost function Issues(w: World, e: Event): Option<Operation>
    requires Enabled(w, e)
  {
    match e
    case Checked(_) => if w.paused then None else Some(PauseOp)
    case Confirmed(_, pending) => if !w.paused then None else if pending then Some(ResumeOp) else Some(SetOp)
    case SetDone(t, results) => if Confirms(results, |w.ranks|, w.tasks[t].value) then Some(ReadOp) else None
    case ReadDone(t) => if ReadBack(w, t) then Some(ResumeOp) else None
    case _ => None
  }

  /** A setting reaches every rank. */
  ghost predicate Starts(w: World, t: TaskId, op: Option<Operation>, e: Effect)
    requires t in w.tasks
  {
    match e
    case Pause => op == Some(PauseOp)
    case Resume => op == Some(ResumeOp)
    case Set(r, v) => op == Some(SetOp) && r < |w.ranks| && v == w.tasks[t].value
  }

  lemma StepIssues(w: World, e: Event, round: Rounding)
    requires Enabled(w, e)
    ensures Apply(w, e, round).log
            == w.log + if Issues(w, e).Some? then [Entry(e.t, Issues(w, e).value)] else []
  {
    if e.ReadDone? { ReadBackIff(w, e.t); }
    if !Issues(w, e).Some? { assert w.log + [] == w.log; }
  }

  /** Under way is what was before and what the step has started; what lands is over. */
  lemma StepStarts(w: World, e: Event, round: Rounding, x: Effect)
    requires Enabled(w, e)
    ensures x in Apply(w, e, round).underWay <==>
              if e.Land? then x in w.underWay && x != e.effect
              else x in w.underWay || (Issues(w, e).Some? && Starts(w, e.t, Issues(w, e), x))
  {
    if e.ReadDone? { ReadBackIff(w, e.t); }
  }

  /** The engine is paused or resumed, and a rank changed, only when that lands, or from outside. */
  lemma StepChangesEngine(w: World, e: Event, round: Rounding)
    requires Enabled(w, e)
    ensures var v := Apply(w, e, round);
      && v.paused == (if e.Outside? then e.pause else if e == Land(Pause) then true
                      else if e == Land(Resume) then false else w.paused)
      && |v.ranks| == |w.ranks|
      && forall r :: 0 <= r < |w.ranks| ==>
        v.ranks[r] == if e.Land? && e.effect.Set? && e.effect.rank == r then round(e.effect.value) else w.ranks[r]
  {
  }

  /** The dial is blocked by a failure or a cancellation from the pause on, by a pause that did not hold, and by a
      setting or readback that some rank has not confirmed. */
  lemma StepBlocksIff(w: World, e: Event, round: Rounding)
    requires Enabled(w, e)
    ensures Apply(w, e, round).blocked <==>
      || w.blocked
      || (e.Fail? && !w.tasks[e.t].pc.Queued? && !w.tasks[e.t].pc.Checking? && !w.tasks[e.t].pc.Getting?)
      || (e.Confirmed? && !w.paused)
      || (e.SetDone? && !Confirms(e.results, |w.ranks|, w.tasks[e.t].value))
      || (e.ReadDone? && !ReadBack(w, e.t))
  {
    if e.ReadDone? { ReadBackIff(w, e.t); }
  }

  /** Where a handler is after its step, and what it is told if that ends it. A reader is told a value if all ranks
      agree. */
  ghost function Becomes(w: World, e: Event): PC
    requires Enabled(w, e) && !e.Land? && !e.Outside?
  {
    match e
    case Arrive(_, _, _) => Queued
    case Acquire(t) => if !w.tasks[t].setter then Getting else if w.blocked then Replied(Refused) else Checking
    case Checked(_) => if w.paused then Replied(AlreadyPaused) else Pausing
    case PauseDone(_) => Confirming
    case Confirmed(_, pending) => if !w.paused then Replied(Failed) else if pending then BackingOut else Setting
    case BackedOut(_) => Replied(PendingRequests)
    case SetDone(t, results) =>
      if Confirms(results, |w.ranks|, w.tasks[t].value) then Reading else Replied(Failed)
    case Observe(t, _) => w.tasks[t].pc
    case ReadDone(t) => if ReadBack(w, t) then Resuming else Replied(Failed)
    case ResumeDone(_) => Replied(Success)
    case GetDone(t) =>
      var seen := w.tasks[t].observed;
      if |w.ranks| > 0 && forall r :: 0 <= r < |w.ranks| ==> Near(seen[r], seen[0])
      then Replied(Dial(true, seen[0])) else Replied(Dial(false, 0.0))
    case Fail(_, cancelled) => Replied(if cancelled then Cancelled else Failed)
  }

  lemma GetDoneBecomes(w: World, t: TaskId)
    requires Enabled(w, GetDone(t))
    ensures Becomes(w, GetDone(t)) == Replied(DialReading(Results(w.tasks[t].observed, |w.ranks|), |w.ranks|))
  {
    var results := Results(w.tasks[t].observed, |w.ranks|);
    assert forall r :: 0 <= r < |w.ranks| ==> results[r] == w.tasks[t].observed[r];
  }

  /** What a handler's step does to handlers and lock: an answer lets go of the lock; nobody else's entry changes. */
  ghost predicate Steps(w: World, t: TaskId, pc: PC, v: World) {
    && v.tasks.Keys == w.tasks.Keys + {t} && v.tasks[t].pc == pc
    && (forall u :: u in w.tasks && u != t ==> v.tasks[u] == w.tasks[u])
    && (pc.Replied? ==> v.holder == if w.holder == Some(t) then None else w.holder)
    && (!pc.Replied? ==> v.holder == w.holder || v.holder == Some(t))
  }

  lemma AnsweredSteps(w: World, t: TaskId, reply: Reply)
    requires t in w.tasks
    ensures Steps(w, t, Replied(reply), Answered(w, t, reply))
  {
  }

  lemma MovedSteps(w: World, t: TaskId, pc: PC)
    requires t in w.tasks && !pc.Replied?
    ensures Steps(w, t, pc, Moved(w, t, pc))
  {
  }

  lemma CheckSteps(w: World, t: TaskId)
    requires t in w.tasks
    ensures Steps(w, t, if w.paused then Replied(AlreadyPaused) else Pausing, AfterCheck(w, t))
  {
    if w.paused { AnsweredSteps(w, t, AlreadyPaused); } else { MovedSteps(w, t, Pausing); }
  }

  lemma ConfirmSteps(w: World, t: TaskId, pending: bool)
    requires t in w.tasks
    ensures Steps(w, t, if !w.paused then Replied(Failed) else if pending then BackingOut else Setting,
                  AfterConfirm(w, t, pending))
  {
    if !w.paused { AnsweredSteps(w, t, Failed); } else { MovedSteps(w, t, if pending then BackingOut else Setting); }
  }

  lemma FailureSteps(w: World, t: TaskId, cancelled: bool)
    requires t in w.tasks
    ensures Steps(w, t, Replied(if cancelled then Cancelled else Failed), AfterFailure(w, t, cancelled))
  {
    AnsweredSteps(w, t, if cancelled then Cancelled else Failed);
  }

  lemma SetSteps(w: World, t: TaskId, results: seq<real>, round: Rounding)
    requires t in w.tasks
    ensures Steps(w, t, if Confirms(results, |w.ranks|, w.tasks[t].value) then Reading else Replied(Failed),
                  AfterSet(w, t, results, round))
  {
    assert AllRanks(results, |w.ranks|, w.tasks[t].value) <==> Confirms(results, |w.ranks|, w.tasks[t].value);
  }

  lemma ReadSteps(w: World, t: TaskId)
    requires Enabled(w, ReadDone(t))
    ensures Steps(w, t, if ReadBack(w, t) then Resuming else Replied(Failed), AfterRead(w, t))
  {
    ReadBackIff(w, t);
  }

  /** No step answers anybody but its handler, and that as stated. */
  lemma StepAnswers(w: World, e: Event, round: Rounding)
    requires Enabled(w, e) && !e.Land? && !e.Outside?
    ensures Steps(w, e.t, Becomes(w, e), Apply(w, e, round))
  {
    match e
    case Arrive(t, _, _) =>
    case Acquire(t) =>
    case Checked(t) => CheckSteps(w, t);
    case PauseDone(t) => MovedSteps(w, t, Confirming);
    case Confirmed(t, pending) => ConfirmSteps(w, t, pending);
    case BackedOut(t) => AnsweredSteps(w, t, PendingRequests);
    case SetDone(t, results) => SetSteps(w, t, results, round);
    case Observe(t, r) =>
    case ReadDone(t) => ReadSteps(w, t);
    case ResumeDone(t) => AnsweredSteps(w, t, Success);
    case GetDone(t) =>
      GetDoneBecomes(w, t);
      AnsweredSteps(w, t, DialReading(Results(w.tasks[t].observed, |w.ranks|), |w.ranks|));
    case Fail(t, cancelled) => FailureSteps(w, t, cancelled);
  }

  // ---------------------------------------------------------------- the invariant

  /** The last set operation has not been followed by a resume. */
  ghost predicate Unresumed(log: seq<Entry>) {
    log != [] && var last := |log| - 1;
      log[last].op.SetOp? || (!log[last].op.ResumeOp? && Unresumed(log[..last]))
  }

  ghost predicate EndsWith(log: seq<Entry>, t: TaskId, ops: seq<Operation>) {
    |ops| <= |log| && forall i :: 0 <= i < |ops| ==> log[|log| - |ops| + i] == Entry(t, ops[i])
  }

  ghost predicate Agreed(ranks: seq<real>, value: real) {
    forall r :: 0 <= r < |ranks| ==> ranks[r] == value
  }

  ghost predicate Observed(observed: map<nat, real>, value: real) {
    forall r :: r in observed ==> observed[r] == value
  }

  /** Each rank has the value, or will have it when what is under way lands. */
  ghost predicate OnItsWay(w: World, value: real, round: Rounding) {
    && w.underWay <= SetEffects(|w.ranks|, value)
    && forall r :: 0 <= r < |w.ranks| ==> w.ranks[r] == round(value) || Set(r, value) in w.underWay
  }

  /** What the lock holder may rely on while the dial is not blocked. */
  ghost predicate Phase(w: World, t: TaskId, k: Task, round: Rounding) {
    && (!k.pc.Setting? ==> Agreed(w.ranks, w.committed) && Observed(k.observed, w.committed))
    && (w.underWay == {} || k.pc.Pausing? || k.pc.BackingOut? || k.pc.Setting? || k.pc.Resuming?)
    && (Unresumed(w.log) <==> k.pc.Setting? || k.pc.Reading?)
    && (k.pc.Setting? || k.pc.Reading? ==> w.paused || w.resumedOutside)
    && match k.pc
       case Pausing => w.underWay <= {Pause} && EndsWith(w.log, t, [PauseOp])
       case Confirming => EndsWith(w.log, t, [PauseOp])
       case BackingOut => w.underWay <= {Resume}
       case Setting => OnItsWay(w, k.value, round) && EndsWith(w.log, t, [PauseOp, SetOp])
       case Reading => w.committed == round(k.value) && EndsWith(w.log, t, [PauseOp, SetOp, ReadOp])
       case Resuming => w.underWay <= {Resume} && w.committed == round(k.value) && Close(round(k.value), k.value)
                        && EndsWith(w.log, t, [PauseOp, SetOp, ReadOp, ResumeOp])
       case _ => true
  }

  ghost predicate Locked(w: World) {
    && (forall t :: t in w.tasks ==> (HoldsLock(w.tasks[t].pc) <==> w.holder == Some(t)))
    && (w.holder.Some? ==> w.holder.value in w.tasks)
    && (forall t :: t in w.tasks && w.tasks[t].pc.Getting? ==> !w.tasks[t].setter)
  }

  /** Once blocked, only readers get the lock; ranks may differ, now or when something lands, only if the engine has
      not been told to resume since the setting began. */
  ghost predicate BlockedSafely(w: World) {
    && (w.holder.Some? ==> At(w, w.holder.value, Getting))
    && ((exists e :: e in w.underWay && e.Set?) || !Agreed(w.ranks, w.committed) ==> Unresumed(w.log))
    && (Unresumed(w.log) ==> Resume !in w.underWay && (w.paused || w.resumedOutside))
  }

  ghost predicate Inv(w: World, round: Rounding) {
    && Locked(w) && w.ranks != []
    && if w.blocked then BlockedSafely(w)
       else match w.holder
         case None => w.underWay == {} && Agreed(w.ranks, w.committed) && !Unresumed(w.log)
         case Some(t) => t in w.tasks && Phase(w, t, w.tasks[t], round)
  }

  lemma UnresumedAppend(log: seq<Entry>, e: Entry)
    ensures Unresumed(log + [e]) <==> e.op.SetOp? || (!e.op.ResumeOp? && Unresumed(log))
  {
    assert (log + [e])[..|log|] == log;
  }

  lemma EndsWithAppend(log: seq<Entry>, t: TaskId, ops: seq<Operation>, op: Operation)
    requires EndsWith(log, t, ops)
    ensures EndsWith(log + [Entry(t, op)], t, ops + [op])
  {
  }

  lemma MovedKeepsLock(w: World, t: TaskId, pc: PC)
    requires Locked(w) && w.holder == Some(t) && HoldsLock(pc) && t in w.tasks && (pc.Getting? ==> !w.tasks[t].setter)
    ensures Locked(Moved(w, t, pc))
  {
  }

  lemma AnsweredKeepsLock(w: World, t: TaskId, reply: Reply)
    requires Locked(w) && t in w.tasks
    ensures Locked(Answered(w, t, reply))
  {
  }

  /** A handler that gives up inside its transaction leaves the dial blocked. */
  lemma BlockingKeeps(w: World, t: TaskId, reply: Reply, round: Rounding)
    requires Inv(w, round) && t in w.tasks && InTransaction(w.tasks[t].pc)
    ensures Inv(Blocking(w, t, reply), round)
  {
    AnsweredKeepsLock(w, t, reply);
    assert w.holder == Some(t) && !w.blocked;
    var k := w.tasks[t];
    assert Phase(w, t, k, round);
    if k.pc.Setting? {
      assert Resume !in SetEffects(|w.ranks|, k.value);
    }
  }

  /** A handler that leaves with nothing under way leaves everything as it was. */
  lemma AnsweredKeeps(w: World, t: TaskId, reply: Reply, round: Rounding)
    requires Inv(w, round) && t in w.tasks
    requires w.holder == Some(t) && !w.blocked ==>
        w.underWay == {} && !w.tasks[t].pc.Setting? && !w.tasks[t].pc.Reading?
    ensures Inv(Answered(w, t, reply), round)
  {
    AnsweredKeepsLock(w, t, reply);
  }

  lemma CheckKeeps(w: World, t: TaskId, round: Rounding)
    requires Inv(w, round) && At(w, t, Checking)
    ensures Inv(AfterCheck(w, t), round)
  {
    if w.paused {
      AnsweredKeeps(w, t, AlreadyPaused, round);
    } else {
      MovedKeepsLock(w, t, Pausing);
      UnresumedAppend(w.log, Entry(t, PauseOp));
      assert EndsWith(w.log, t, []);
      EndsWithAppend(w.log, t, [], PauseOp);
      assert [] + [PauseOp] == [PauseOp];
    }
  }

  lemma ConfirmKeeps(w: World, t: TaskId, pending: bool, round: Rounding)
    requires Inv(w, round) && At(w, t, Confirming)
    ensures Inv(AfterConfirm(w, t, pending), round)
  {
    if !w.paused {
      BlockingKeeps(w, t, Failed, round);
    } else if pending {
      MovedKeepsLock(w, t, BackingOut);
      UnresumedAppend(w.log, Entry(t, ResumeOp));
    } else {
      MovedKeepsLock(w, t, Setting);
      UnresumedAppend(w.log, Entry(t, SetOp));
      EndsWithAppend(w.log, t, [PauseOp], SetOp);
      assert [PauseOp] + [SetOp] == [PauseOp, SetOp];
    }
  }

  lemma SetKeeps(w: World, t: TaskId, results: seq<real>, round: Rounding)
    requires Inv(w, round) && At(w, t, Setting) && w.underWay == {}
    ensures Inv(AfterSet(w, t, results, round), round)
  {
    var w1 := w.(committed := round(w.tasks[t].value));
    if AllRanks(results, |w.ranks|, w.tasks[t].value) {
      MovedKeepsLock(w1, t, Reading);
      UnresumedAppend(w.log, Entry(t, ReadOp));
      EndsWithAppend(w.log, t, [PauseOp, SetOp], ReadOp);
      assert [PauseOp, SetOp] + [ReadOp] == [PauseOp, SetOp, ReadOp];
    } else {
      assert Inv(w1, round);
      BlockingKeeps(w1, t, Failed, round);
    }
  }

  /** The readback passes exactly when the value survives the rounding. */
  lemma ReadbackPassesIff(w: World, t: TaskId, round: Rounding)
    requires Inv(w, round) && Enabled(w, ReadDone(t))
    ensures var v := w.tasks[t].value;
      AllRanks(Results(w.tasks[t].observed, |w.ranks|), |w.ranks|, v) <==> Close(round(v), v)
  {
    var results := Results(w.tasks[t].observed, |w.ranks|);
    assert forall r :: 0 <= r < |results| ==> results[r] == w.committed;
    assert results[0] == w.committed;
  }

  lemma ReadKeeps(w: World, t: TaskId, round: Rounding)
    requires Inv(w, round) && Enabled(w, ReadDone(t))
    ensures Inv(AfterRead(w, t), round)
  {
    ReadbackPassesIff(w, t, round);
    if Close(round(w.tasks[t].value), w.tasks[t].value) {
      MovedKeepsLock(w, t, Resuming);
      UnresumedAppend(w.log, Entry(t, ResumeOp));
      EndsWithAppend(w.log, t, [PauseOp, SetOp, ReadOp], ResumeOp);
      assert [PauseOp, SetOp, ReadOp] + [ResumeOp] == [PauseOp, SetOp, ReadOp, ResumeOp];
    } else {
      BlockingKeeps(w, t, Failed, round);
    }
  }

  lemma FailureKeeps(w: World, t: TaskId, cancelled: bool, round: Rounding)
    requires Inv(w, round) && Enabled(w, Fail(t, cancelled))
    ensures Inv(AfterFailure(w, t, cancelled), round)
  {
    var reply := if cancelled then Cancelled else Failed;
    if InTransaction(w.tasks[t].pc) {
      BlockingKeeps(w, t, reply, round);
    } else {
      AnsweredKeeps(w, t, reply, round);
    }
  }

  lemma LandKeepsBlocked(w: World, e: Effect, round: Rounding)
    requires Inv(w, round) && e in w.underWay && w.blocked
    ensures Inv(Landed(w, e, round), round)
  {
    assert e.Set? ==> Unresumed(w.log);
  }

  lemma LandKeepsSetting(w: World, e: Effect, t: TaskId, round: Rounding)
    requires Inv(w, round) && e in w.underWay && !w.blocked && w.holder == Some(t) && w.tasks[t].pc.Setting?
    ensures Inv(Landed(w, e, round), round)
  {
    assert e.Set? && e.value == w.tasks[t].value;
  }

  lemma LandKeeps(w: World, e: Effect, round: Rounding)
    requires Inv(w, round) && e in w.underWay
    ensures Inv(Landed(w, e, round), round)
  {
    if w.blocked {
      LandKeepsBlocked(w, e, round);
    } else if w.tasks[w.holder.value].pc.Setting? {
      LandKeepsSetting(w, e, w.holder.value, round);
    }
  }

  lemma AcquireKeeps(w: World, t: TaskId, round: Rounding)
    requires Inv(w, round) && Enabled(w, Acquire(t))
    ensures Inv(Apply(w, Acquire(t), round), round)
  {
    if w.tasks[t].setter && w.blocked { AnsweredKeeps(w, t, Refused, round); }
  }

  lemma ArriveKeeps(w: World, t: TaskId, setter: bool, value: real, round: Rounding)
    requires Inv(w, round) && t !in w.tasks
    ensures Inv(Apply(w, Arrive(t, setter, value), round), round)
  {
  }

  lemma ObserveKeeps(w: World, t: TaskId, r: nat, round: Rounding)
    requires Inv(w, round) && Enabled(w, Observe(t, r))
    ensures Inv(Apply(w, Observe(t, r), round), round)
  {
  }

  lemma PauseDoneKeeps(w: World, t: TaskId, round: Rounding)
    requires Inv(w, round) && Enabled(w, PauseDone(t))
    ensures Inv(Moved(w, t, Confirming), round)
  {
    MovedKeepsLock(w, t, Confirming);
  }

  lemma OutsideKeeps(w: World, pause: bool, round: Rounding)
    requires Inv(w, round)
    ensures Inv(Apply(w, Outside(pause), round), round)
  {
  }

  lemma Keeps(w: World, e: Event, round: Rounding)
    requires Inv(w, round) && Enabled(w, e)
    ensures Inv(Apply(w, e, round), round)
  {
    match e
    case Arrive(t, setter, value) => ArriveKeeps(w, t, setter, value, round);
    case Acquire(t) => AcquireKeeps(w, t, round);
    case Checked(t) => CheckKeeps(w, t, round);
    case PauseDone(t) => PauseDoneKeeps(w, t, round);
    case Confirmed(t, pending) => ConfirmKeeps(w, t, pending, round);
    case BackedOut(t) => AnsweredKeeps(w, t, PendingRequests, round);
    case SetDone(t, results) => SetKeeps(w, t, results, round);
    case Observe(t, r) => ObserveKeeps(w, t, r, round);
    case ReadDone(t) => ReadKeeps(w, t, round);
    case ResumeDone(t) => AnsweredKeeps(w, t, Success, round);
    case GetDone(t) => AnsweredKeeps(w, t, DialReading(Results(w.tasks[t].observed, |w.ranks|), |w.ranks|), round);
    case Fail(t, cancelled) => FailureKeeps(w, t, cancelled, round);
    case Land(effect) => LandKeeps(w, effect, round);
    case Outside(pause) => OutsideKeeps(w, pause, round);
  }

  // ---------------------------------------------------------------- every interleaving

  function Start(count: nat, value: real, paused: bool): World {
    World(map[], None, false, paused, seq(count, _ => value), {}, [], value, false)
  }

  /** Any interleaving of handlers, engine effects, failures and outsiders, from a server with equal ranks. */
  ghost predicate IsRun(ws: seq<World>, es: seq<Event>, round: Rounding) {
    && |ws| == |es| + 1
    && ws[0].ranks != [] && ws[0] == Start(|ws[0].ranks|, ws[0].committed, ws[0].paused)
    && forall i :: 0 <= i < |es| ==> Enabled(ws[i], es[i]) && ws[i + 1] == Apply(ws[i], es[i], round)
  }

  lemma {:induction false} RunKeeps(ws: seq<World>, es: seq<Event>, round: Rounding, k: nat)
    requires IsRun(ws, es, round) && k < |ws|
    ensures Inv(ws[k], round)
  {
    if k > 0 {
      RunKeeps(ws, es, round, k - 1);
      Keeps(ws[k - 1], es[k - 1], round);
    }
  }

  /** In every interleaving, at most one handler is between its pause and its answer. */
  lemma OneTransactionAtATime(ws: seq<World>, es: seq<Event>, round: Rounding, k: nat, t: TaskId, u: TaskId)
    requires IsRun(ws, es, round) && k < |ws| && t in ws[k].tasks && u in ws[k].tasks
    requires InTransaction(ws[k].tasks[t].pc) && InTransaction(ws[k].tasks[u].pc)
    ensures t == u && !ws[k].blocked
  {
    RunKeeps(ws, es, round, k);
  }

  lemma NobodyInTransaction(w: World, t: TaskId)
    requires Locked(w) && BlockedSafely(w) && t in w.tasks && HoldsLock(w.tasks[t].pc)
    ensures w.tasks[t].pc.Getting?
  {
  }

  lemma BlockedStep(w: World, e: Event, round: Rounding)
    requires Inv(w, round) && Enabled(w, e) && w.blocked
    ensures Apply(w, e, round).blocked && Apply(w, e, round).log == w.log
  {
    if !e.Arrive? && !e.Land? && !e.Outside? && HoldsLock(w.tasks[e.t].pc) { NobodyInTransaction(w, e.t); }
  }

  /** In every interleaving, once blocked the dial stays blocked and issues no pause, set, readback or resume. */
  lemma {:induction false} BlockedIsFinal(ws: seq<World>, es: seq<Event>, round: Rounding, i: nat, j: nat)
    requires IsRun(ws, es, round) && i <= j < |ws| && ws[i].blocked
    ensures ws[j].blocked && ws[j].log == ws[i].log
    decreases j
  {
    if i < j {
      BlockedIsFinal(ws, es, round, i, j - 1);
      RunKeeps(ws, es, round, j - 1);
      BlockedStep(ws[j - 1], es[j - 1], round);
    }
  }

  /** In every interleaving, ranks disagree only while the lock holder sets them, or when the dial is blocked and has
      not resumed the engine since; and unless somebody else did, the engine is then paused. */
  lemma RanksDisagreeOnlyWhilePaused(ws: seq<World>, es: seq<Event>, round: Rounding, k: nat, r: nat, q: nat)
    requires IsRun(ws, es, round) && k < |ws| && r < |ws[k].ranks| && q < |ws[k].ranks|
        && ws[k].ranks[r] != ws[k].ranks[q]
    ensures (ws[k].holder.Some? && At(ws[k], ws[k].holder.value, Setting)) || ws[k].blocked
    ensures Unresumed(ws[k].log) && (ws[k].paused || ws[k].resumedOutside)
  {
    RunKeeps(ws, es, round, k);
  }

  lemma AnswersOnly(w: World, u: TaskId, reply: Reply, t: TaskId)
    requires u in w.tasks && !At(w, t, Replied(Success)) && At(Answered(w, u, reply), t, Replied(Success))
    ensures t == u && reply == Success
  {
  }

  lemma DoesNotAnswer(w: World, u: TaskId, pc: PC, t: TaskId)
    requires u in w.tasks && !pc.Replied? && !At(w, t, Replied(Success))
    ensures !At(Moved(w, u, pc), t, Replied(Success))
  {
  }

  lemma OnlyResumeDoneSucceeds(w: World, e: Event, round: Rounding, t: TaskId)
    requires Enabled(w, e) && !At(w, t, Replied(Success)) && At(Apply(w, e, round), t, Replied(Success))
    ensures e == ResumeDone(t)
  {
    match e
    case Arrive(u, setter, value) =>
    case Acquire(u) =>
      if w.tasks[u].setter && w.blocked {
        AnswersOnly(w, u, Refused, t);
      } else {
        DoesNotAnswer(w, u, if w.tasks[u].setter then Checking else Getting, t);
      }
    case Checked(u) => if w.paused { AnswersOnly(w, u, AlreadyPaused, t); } else { DoesNotAnswer(w, u, Pausing, t); }
    case PauseDone(u) => DoesNotAnswer(w, u, Confirming, t);
    case Confirmed(u, pending) =>
      if !w.paused {
        AnswersOnly(w, u, Failed, t);
      } else {
        DoesNotAnswer(w, u, if pending then BackingOut else Setting, t);
      }
    case BackedOut(u) => AnswersOnly(w, u, PendingRequests, t);
    case SetDone(u, results) =>
      var w1 := w.(committed := round(w.tasks[u].value));
      if AllRanks(results, |w.ranks|, w.tasks[u].value) {
        DoesNotAnswer(w1, u, Reading, t);
      } else {
        AnswersOnly(w1, u, Failed, t);
      }
    case Observe(u, r) =>
    case ReadDone(u) =>
      if AllRanks(Results(w.tasks[u].observed, |w.ranks|), |w.ranks|, w.tasks[u].value) {
        DoesNotAnswer(w, u, Resuming, t);
      } else {
        AnswersOnly(w, u, Failed, t);
      }
    case ResumeDone(u) => AnswersOnly(w, u, Success, t);
    case GetDone(u) => AnswersOnly(w, u, DialReading(Results(w.tasks[u].observed, |w.ranks|), |w.ranks|), t);
    case Fail(u, cancelled) => AnswersOnly(w, u, if cancelled then Cancelled else Failed, t);
    case Land(effect) =>
    case Outside(pause) =>
  }

  /** In every interleaving, an answer of success means that this handler paused, set, read back and resumed with
      no operation of another one in between, and that every rank holds the value as closely as it can be stored. */
  lemma SuccessMeansDone(ws: seq<World>, es: seq<Event>, round: Rounding, k: nat, t: TaskId)
    requires IsRun(ws, es, round) && k < |es|
    requires !At(ws[k], t, Replied(Success)) && At(ws[k + 1], t, Replied(Success))
    ensures At(ws[k], t, Resuming) && !ws[k + 1].blocked
    ensures EndsWith(ws[k + 1].log, t, [PauseOp, SetOp, ReadOp, ResumeOp])
    ensures var v := ws[k].tasks[t].value; Close(round(v), v) && Agreed(ws[k + 1].ranks, round(v))
  {
    RunKeeps(ws, es, round, k);
    OnlyResumeDoneSucceeds(ws[k], es[k], round, t);
  }

  /** In every interleaving, a reader that answers while the dial is not blocked reports the last value set. */
  lemma ReaderIsConsistent(ws: seq<World>, es: seq<Event>, round: Rounding, k: nat, t: TaskId)
    requires IsRun(ws, es, round) && k < |es| && es[k] == GetDone(t) && !ws[k].blocked
    ensures At(ws[k + 1], t, Replied(Dial(true, ws[k].committed))) && Agreed(ws[k + 1].ranks, ws[k].committed)
  {
    RunKeeps(ws, es, round, k);
    var results := Results(ws[k].tasks[t].observed, |ws[k].ranks|);
    assert forall r :: 0 <= r < |results| ==> results[r] == ws[k].committed;
    assert results[0] == ws[k].committed;
  }

  // ---------------------------------------------------------------- a transaction left alone

  ghost predicate Reaches(w: World, es: seq<Event>, v: World, round: Rounding)
    decreases |es|
  {
    if es == [] then w == v
    else Enabled(w, es[0]) && Reaches(Apply(w, es[0], round), es[1..], v, round)
  }

  lemma {:induction false} ReachesOn(w: World, es: seq<Event>, v: World, fs: seq<Event>, x: World, round: Rounding)
    requires Reaches(w, es, v, round) && Reaches(v, fs, x, round)
    ensures Reaches(w, es + fs, x, round)
    decreases |es|
  {
    if es == [] {
      assert es + fs == fs;
    } else {
      assert (es + fs)[0] == es[0] && (es + fs)[1..] == es[1..] + fs;
      ReachesOn(Apply(w, es[0], round), es[1..], v, fs, x, round);
    }
  }

  lemma OneStep(w: World, e: Event, round: Rounding)
    requires Enabled(w, e)
    ensures Reaches(w, [e], Apply(w, e, round), round)
  {
    assert [e][1..] == [];
  }

  ghost function ManyLanded(w: World, value: real, n: nat, round: Rounding): World
    requires n <= |w.ranks|
  {
    w.(underWay := set r | n <= r < |w.ranks| :: Set(r, value),
       ranks := seq(|w.ranks|, r requires 0 <= r < |w.ranks| => if r < n then round(value) else w.ranks[r]))
  }

  lemma {:induction false} LandMany(w: World, value: real, n: nat, round: Rounding) returns (es: seq<Event>)
    requires n <= |w.ranks| && w.underWay == SetEffects(|w.ranks|, value)
    ensures Reaches(w, es, ManyLanded(w, value, n, round), round)
  {
    es := [];
    if n == 0 {
      assert ManyLanded(w, value, 0, round).ranks == w.ranks;
    } else {
      var fs := LandMany(w, value, n - 1, round);
      var v, e := ManyLanded(w, value, n - 1, round), Land(Set(n - 1, value));
      OneStep(v, e, round);
      assert Apply(v, e, round).ranks == ManyLanded(w, value, n, round).ranks;
      assert Apply(v, e, round).underWay == ManyLanded(w, value, n, round).underWay;
      ReachesOn(w, fs, v, [e], Apply(v, e, round), round);
      es := fs + [e];
    }
  }

  ghost function ManyObserved(w: World, t: TaskId, n: nat): World
    requires t in w.tasks && n <= |w.ranks|
  {
    w.(tasks := w.tasks[t := w.tasks[t].(observed := map r: nat | r < n :: w.ranks[r])])
  }

  lemma ObservedOneMore(w: World, t: TaskId, n: nat)
    requires t in w.tasks && 0 < n <= |w.ranks|
    ensures var v := ManyObserved(w, t, n - 1);
      v.(tasks := v.tasks[t := v.tasks[t].(observed := v.tasks[t].observed[n - 1 := v.ranks[n - 1]])])
      == ManyObserved(w, t, n)
  {
    var v := ManyObserved(w, t, n - 1);
    var m: map<nat, real> := map r: nat | r < n :: w.ranks[r];
    assert v.tasks[t].observed[n - 1 := v.ranks[n - 1]] == m;
    assert v.tasks[t := v.tasks[t].(observed := m)] == w.tasks[t := w.tasks[t].(observed := m)];
  }

  lemma {:induction false} ObserveMany(w: World, t: TaskId, n: nat, round: Rounding) returns (es: seq<Event>)
    requires At(w, t, Reading) && w.tasks[t].observed == map[] && n <= |w.ranks|
    ensures Reaches(w, es, ManyObserved(w, t, n), round)
  {
    es := [];
    if n == 0 {
      assert ManyObserved(w, t, 0).tasks == w.tasks;
    } else {
      var fs := ObserveMany(w, t, n - 1, round);
      var v, e := ManyObserved(w, t, n - 1), Observe(t, n - 1);
      OneStep(v, e, round);
      ObservedOneMore(w, t, n);
      ReachesOn(w, fs, v, [e], Apply(v, e, round), round);
      es := fs + [e];
    }
  }

  lemma TwoSteps(w: World, e: Event, f: Event, round: Rounding)
    requires Enabled(w, e) && Enabled(Apply(w, e, round), f)
    ensures Reaches(w, [e, f], Apply(Apply(w, e, round), f, round), round)
  {
    OneStep(w, e, round);
    OneStep(Apply(w, e, round), f, round);
    ReachesOn(w, [e], Apply(w, e, round), [f], Apply(Apply(w, e, round), f, round), round);
    assert [e] + [f] == [e, f];
  }

  lemma Enters(w: World, t: TaskId, v: real, round: Rounding) returns (x: World)
    requires w.holder == None && !w.blocked && t !in w.tasks
    ensures Reaches(w, [Arrive(t, true, v), Acquire(t)], x, round)
    ensures At(x, t, Checking) && x.tasks[t].value == v
    ensures x == w.(tasks := x.tasks, holder := Some(t))
  {
    x := Apply(Apply(w, Arrive(t, true, v), round), Acquire(t), round);
    TwoSteps(w, Arrive(t, true, v), Acquire(t), round);
  }

  lemma Pauses(w: World, t: TaskId, round: Rounding) returns (x: World)
    requires At(w, t, Checking) && w.underWay == {} && !w.paused
    ensures Reaches(w, [Checked(t), Land(Pause)], x, round)
    ensures At(x, t, Pausing) && x.tasks[t].value == w.tasks[t].value && x.holder == w.holder
    ensures x.ranks == w.ranks && x.underWay == {} && x.paused && x.blocked == w.blocked
  {
    x := Apply(Apply(w, Checked(t), round), Land(Pause), round);
    TwoSteps(w, Checked(t), Land(Pause), round);
  }

  lemma Sets(w: World, t: TaskId, round: Rounding) returns (x: World)
    requires At(w, t, Pausing) && w.underWay == {} && w.paused
    ensures Reaches(w, [PauseDone(t), Confirmed(t, false)], x, round)
    ensures At(x, t, Setting) && x.tasks[t].value == w.tasks[t].value && x.holder == w.holder
    ensures x.ranks == w.ranks && x.underWay == SetEffects(|w.ranks|, w.tasks[t].value) && x.paused
        && x.blocked == w.blocked
  {
    x := Apply(Apply(w, PauseDone(t), round), Confirmed(t, false), round);
    TwoSteps(w, PauseDone(t), Confirmed(t, false), round);
  }

  /** Up to the setter call, in a world where nobody holds the lock and nothing is under way. */
  lemma RunsToSetting(w: World, t: TaskId, v: real, round: Rounding) returns (es: seq<Event>, x: World)
    requires w.holder == None && w.underWay == {} && !w.blocked && !w.paused && t !in w.tasks
    ensures Reaches(w, es, x, round) && At(x, t, Setting) && x.tasks[t].value == v && x.holder == Some(t)
    ensures x.ranks == w.ranks && x.underWay == SetEffects(|x.ranks|, v) && x.paused && !x.blocked
  {
    var w1 := Enters(w, t, v, round);
    var w2 := Pauses(w1, t, round);
    ReachesOn(w, [Arrive(t, true, v), Acquire(t)], w1, [Checked(t), Land(Pause)], w2, round);
    x := Sets(w2, t, round);
    es := [Arrive(t, true, v), Acquire(t)] + [Checked(t), Land(Pause)];
    ReachesOn(w, es, w2, [PauseDone(t), Confirmed(t, false)], x, round);
    es := es + [PauseDone(t), Confirmed(t, false)];
  }

  /** From the setter call to the complete readback. */
  lemma RunsToReadback(w: World, t: TaskId, round: Rounding) returns (es: seq<Event>, x: World)
    requires At(w, t, Setting) && w.underWay == SetEffects(|w.ranks|, w.tasks[t].value)
    ensures Reaches(w, es, x, round) && Enabled(x, ReadDone(t)) && x.tasks[t].value == w.tasks[t].value
    ensures x.underWay == {} && x.holder == w.holder && x.paused == w.paused && x.blocked == w.blocked
  {
    var v, n := w.tasks[t].value, |w.ranks|;
    es := LandMany(w, v, n, round);
    var w1 := ManyLanded(w, v, n, round);
    var answers := seq(n, _ => v);
    assert AllRanks(answers, n, v);
    var w2 := Apply(w1, SetDone(t, answers), round);
    OneStep(w1, SetDone(t, answers), round);
    ReachesOn(w, es, w1, [SetDone(t, answers)], w2, round);
    var fs := ObserveMany(w2, t, n, round);
    x := ManyObserved(w2, t, n);
    ReachesOn(w, es + [SetDone(t, answers)], w2, fs, x, round);
    es := es + [SetDone(t, answers)] + fs;
  }

  lemma Resumes(w: World, t: TaskId, round: Rounding) returns (x: World)
    requires At(w, t, Resuming) && w.underWay == {Resume} && !w.blocked
    ensures Reaches(w, [Land(Resume), ResumeDone(t)], x, round)
    ensures At(x, t, Replied(Success)) && !x.paused && !x.blocked
  {
    x := Apply(Apply(w, Land(Resume), round), ResumeDone(t), round);
    TwoSteps(w, Land(Resume), ResumeDone(t), round);
  }

  /** From the complete readback to the answer. */
  lemma Finishes(w: World, t: TaskId, round: Rounding) returns (es: seq<Event>, x: World)
    requires Inv(w, round) && Enabled(w, ReadDone(t)) && w.underWay == {} && w.paused && !w.blocked
    ensures Reaches(w, es, x, round)
    ensures var v := w.tasks[t].value;
      if Close(round(v), v) then At(x, t, Replied(Success)) && !x.paused && !x.blocked
      else At(x, t, Replied(Failed)) && x.paused && x.blocked
  {
    ReadbackPassesIff(w, t, round);
    var w1 := Apply(w, ReadDone(t), round);
    OneStep(w, ReadDone(t), round);
    es, x := [ReadDone(t)], w1;
    if Close(round(w.tasks[t].value), w.tasks[t].value) {
      x := Resumes(w1, t, round);
      ReachesOn(w, es, w1, [Land(Resume), ResumeDone(t)], x, round);
      es := es + [Land(Resume), ResumeDone(t)];
    }
  }

  /** Left alone on an idle engine, a setter succeeds exactly when its value survives the rounding; otherwise it
      ends with the dial blocked. */
  lemma LeftAloneSucceedsIff(w: World, t: TaskId, v: real, round: Rounding) returns (es: seq<Event>, x: World)
    requires Inv(w, round) && w.holder == None && !w.blocked && !w.paused && t !in w.tasks
    ensures Reaches(w, es, x, round)
    ensures if Close(round(v), v) then At(x, t, Replied(Success)) && !x.paused && !x.blocked
            else At(x, t, Replied(Failed)) && x.paused && x.blocked
  {
    var w1, w2, fs;
    es, w1 := RunsToSetting(w, t, v, round);
    fs, w2 := RunsToReadback(w1, t, round);
    ReachesOn(w, es, w1, fs, w2, round);
    es := es + fs;
    ReachesKeeps(w, es, w2, round);
    fs, x := Finishes(w2, t, round);
    ReachesOn(w, es, w2, fs, x, round);
    es := es + fs;
  }

  lemma {:induction false} ReachesKeeps(w: World, es: seq<Event>, v: World, round: Rounding)
    requires Inv(w, round) && Reaches(w, es, v, round)
    ensures Inv(v, round)
    decreases |es|
  {
    if es != [] {
      Keeps(w, es[0], round);
      ReachesKeeps(Apply(w, es[0], round), es[1..], v, round);
    }
  }

  /** Nothing happens to the handler that it could not expect, and nobody else touches the engine. */
  ghost predicate Calm(w: World, e: Event, t: TaskId, v: real) {
    && !e.Outside? && !(e.Fail? && e.t == t)
    && (e.Confirmed? && e.t == t ==> !e.pending)
    && (e.SetDone? && e.t == t ==> AllRanks(e.results, |w.ranks|, v))
  }

  /** How far the handler can have come then, and what it can rely on. */
  ghost predicate OnCourse(w: World, t: TaskId, v: real, round: Rounding) {
    && t in w.tasks && w.tasks[t].setter && w.tasks[t].value == v
    && match w.tasks[t].pc
       case Checking => !w.paused && !w.blocked
       case Pausing => (Pause in w.underWay || w.paused) && !w.blocked
       case Confirming => w.paused && !w.blocked
       case Setting => !w.blocked
       case Reading => !w.blocked
       case Resuming => Close(round(v), v) && !w.blocked
       case Replied(reply) =>
         if Close(round(v), v) then reply == Success else reply == Failed && w.blocked
       case _ => false
  }

  lemma OwnStepKeepsCourse(w: World, e: Event, t: TaskId, v: real, round: Rounding)
    requires Inv(w, round) && Enabled(w, e) && OnCourse(w, t, v, round) && Calm(w, e, t, v)
    requires !e.Arrive? && !e.Land? && !e.Outside? && e.t == t
    ensures OnCourse(Apply(w, e, round), t, v, round)
  {
    if e.ReadDone? { ReadbackPassesIff(w, t, round); }
  }

  /** Beside the lock holder, handlers can only arrive or give up waiting. */
  lemma OtherStepBesideHolder(w: World, e: Event, t: TaskId, round: Rounding)
    requires Inv(w, round) && Enabled(w, e) && !e.Land? && !e.Outside? && e.t != t
    requires t in w.tasks && HoldsLock(w.tasks[t].pc)
    ensures e.Arrive? || (e.Fail? && w.tasks[e.t].pc.Queued?)
  {
    assert w.holder == Some(t);
    if !e.Arrive? { assert HoldsLock(w.tasks[e.t].pc) <==> w.holder == Some(e.t); }
  }

  ghost predicate SameEntry(w: World, w': World, t: TaskId) {
    t in w.tasks && t in w'.tasks && w'.tasks[t] == w.tasks[t]
  }

  lemma CheckOfOthers(w: World, u: TaskId, t: TaskId, pending: bool, cancelled: bool)
    requires u in w.tasks && t in w.tasks && u != t
    ensures SameEntry(w, AfterCheck(w, u), t) && SameEntry(w, AfterConfirm(w, u, pending), t)
    ensures SameEntry(w, AfterFailure(w, u, cancelled), t)
  {
  }

  lemma SetOfOthers(w: World, u: TaskId, t: TaskId, results: seq<real>, round: Rounding)
    requires u in w.tasks && t in w.tasks && u != t
    ensures SameEntry(w, AfterSet(w, u, results, round), t)
  {
  }

  lemma ReadOfOthers(w: World, u: TaskId, t: TaskId)
    requires u in w.tasks && t in w.tasks && u != t && forall r :: 0 <= r < |w.ranks| ==> r in w.tasks[u].observed
    ensures SameEntry(w, AfterRead(w, u), t)
  {
  }

  /** A handler's entry is changed by its own steps only. */
  lemma OtherStepKeepsEntry(w: World, e: Event, t: TaskId, round: Rounding)
    requires Enabled(w, e) && !e.Land? && !e.Outside? && e.t != t && t in w.tasks
    ensures SameEntry(w, Apply(w, e, round), t)
  {
    match e
    case Checked(u) => CheckOfOthers(w, u, t, false, false);
    case Confirmed(u, pending) => CheckOfOthers(w, u, t, pending, false);
    case SetDone(u, results) => SetOfOthers(w, u, t, results, round);
    case ReadDone(u) => ReadOfOthers(w, u, t);
    case Fail(u, cancelled) => CheckOfOthers(w, u, t, false, cancelled);
    case Arrive(_, _, _) =>
    case Acquire(_) =>
    case PauseDone(_) =>
    case BackedOut(_) =>
    case Observe(_, _) =>
    case ResumeDone(_) =>
    case GetDone(_) =>
  }

  lemma OtherStepKeepsCourse(w: World, e: Event, t: TaskId, v: real, round: Rounding)
    requires Inv(w, round) && Enabled(w, e) && OnCourse(w, t, v, round)
    requires !e.Land? && !e.Outside? && e.t != t
    ensures OnCourse(Apply(w, e, round), t, v, round)
  {
    OtherStepKeepsEntry(w, e, t, round);
    if HoldsLock(w.tasks[t].pc) {
      OtherStepBesideHolder(w, e, t, round);
    } else if w.blocked {
      BlockedStep(w, e, round);
    }
  }

  lemma LandKeepsCourse(w: World, e: Effect, t: TaskId, v: real, round: Rounding)
    requires Inv(w, round) && e in w.underWay && OnCourse(w, t, v, round)
    ensures OnCourse(Landed(w, e, round), t, v, round)
  {
  }

  lemma CalmStep(w: World, e: Event, t: TaskId, v: real, round: Rounding)
    requires Inv(w, round) && Enabled(w, e) && OnCourse(w, t, v, round) && Calm(w, e, t, v)
    ensures OnCourse(Apply(w, e, round), t, v, round)
  {
    if e.Land? {
      LandKeepsCourse(w, e.effect, t, v, round);
    } else if e.t == t {
      OwnStepKeepsCourse(w, e, t, v, round);
    } else {
      OtherStepKeepsCourse(w, e, t, v, round);
    }
  }

  lemma {:induction false} StaysOnCourse(
    ws: seq<World>, es: seq<Event>, round: Rounding, k: nat, n: nat, t: TaskId, v: real)
    requires IsRun(ws, es, round) && k <= n < |ws| && OnCourse(ws[k], t, v, round)
    requires forall i :: k <= i < n ==> Calm(ws[i], es[i], t, v)
    ensures OnCourse(ws[n], t, v, round)
    decreases n
  {
    if k < n {
      StaysOnCourse(ws, es, round, k, n - 1, t, v);
      RunKeeps(ws, es, round, n - 1);
      CalmStep(ws[n - 1], es[n - 1], t, v, round);
    }
  }

  /** In every interleaving: a setter that finds the engine running, that nothing happens to, and beside which nobody
      touches the engine, ends in success exactly if its value survives the rounding, and otherwise with the dial
      blocked, whoever else is queueing meanwhile. */
  lemma UndisturbedSucceedsIff(
    ws: seq<World>, es: seq<Event>, round: Rounding, k: nat, n: nat, t: TaskId, reply: Reply)
    requires IsRun(ws, es, round) && k <= n < |ws| && At(ws[k], t, Checking) && ws[k].tasks[t].setter && !ws[k].paused
    requires forall i :: k <= i < n ==> Calm(ws[i], es[i], t, ws[k].tasks[t].value)
    requires At(ws[n], t, Replied(reply))
    ensures var v := ws[k].tasks[t].value;
      (reply == Success <==> Close(round(v), v)) && (reply != Success ==> reply == Failed && ws[n].blocked)
  {
    RunKeeps(ws, es, round, k);
    StaysOnCourse(ws, es, round, k, n, t, ws[k].tasks[t].value);
  }

  /** Rounded to the nearest 24-bit number, a tenth is too far from a tenth, and three halves are exact. */
  lemma SingleRounding()
    ensures !Close(13421773.0 / 134217728.0, 0.1) && Close(1.5, 1.5)
  {
  }

  /** So a setter of such a value, legal as it is, never gets past its readback: the dial is blocked. */
  lemma LegalValueBlocks(ws: seq<World>, es: seq<Event>, round: Rounding, k: nat, t: TaskId)
    requires IsRun(ws, es, round) && k < |es| && es[k] == ReadDone(t)
    requires ws[k].tasks[t].value == 0.1 && round(0.1) == 13421773.0 / 134217728.0
    ensures At(ws[k + 1], t, Replied(Failed)) && ws[k + 1].blocked
  {
    RunKeeps(ws, es, round, k);
    SingleRounding();
    ReadbackPassesIff(ws[k], t, round);
  }
}