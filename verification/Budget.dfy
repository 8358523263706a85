/** The System 2 budget protocol: a token bucket, the request handler, and the tasks that it spawns,
    interleaved step by step.

    Time is a real number handed in by a monotonic clock.  The bucket reads the clock twice in one
    refill, so the time of the reading and the time of the stamp are separate arguments. */
module Budget {
  import opened Wrappers
  import opened Projections
  import opened Quads

  type TaskId = nat

  // ---- The token bucket ----------------------------------------------------------------------------------

  datatype Bucket = Bucket(capacity: nat, available: real, rate: real, lastRefill: real)

  function NewBucket(capacity: nat, rate: real, now: real): Bucket {
    Bucket(capacity, capacity as real, rate, now)
  }

  function Min(a: real, b: real): real { if a <= b then a else b }

  /** Tokens that accrue over a span of time; none when the span is negative. */
  function Accrued(rate: real, span: real): real {
    if span <= 0.0 then 0.0 else span * rate
  }

  lemma AccruedSign(rate: real, span: real)
    ensures rate > 0.0 ==> Accrued(rate, span) >= 0.0
    ensures span >= 0.0 ==> Accrued(rate, span) == span * rate
  {
  }

  function Refill(b: Bucket, readAt: real, stampAt: real): Bucket {
    if b.rate <= 0.0 then b
    else b.(available := Min(b.available + Accrued(b.rate, readAt - b.lastRefill), b.capacity as real),
            lastRefill := stampAt)
  }

  function TryConsume(b: Bucket, tokens: nat, readAt: real, stampAt: real): (Bucket, bool) {
    var r := Refill(b, readAt, stampAt);
    if r.available >= tokens as real then (r.(available := r.available - tokens as real), true) else (r, false)
  }

  function Release(b: Bucket, tokens: nat): Bucket {
    b.(available := Min(b.available + tokens as real, b.capacity as real))
  }

  class TokenBucket {
    const capacity: nat
    const rate: real
    var available: real
    var lastRefill: real

    function State(): Bucket
      reads this
    {
      Bucket(capacity, available, rate, lastRefill)
    }

    constructor (capacity: nat, rate: real, now: real)
      ensures State() == NewBucket(capacity, rate, now)
    {
      this.capacity, this.rate, available, lastRefill := capacity, rate, capacity as real, now;
    }

    method RefillNow(readAt: real, stampAt: real)
      modifies this
      ensures State() == Refill(old(State()), readAt, stampAt)
    {
      if rate <= 0.0 {
        return;
      }
      var elapsed := Accrued(rate, readAt - lastRefill);
      available := Min(available + elapsed, capacity as real);
      lastRefill := stampAt;
    }

    /** Consumes only when enough is there; a refusal takes nothing, and neither outcome leaves the
        bucket overdrawn or overfull.  Without refill exactly the tokens asked for are taken. */
    method Consume(tokens: nat, readAt: real, stampAt: real) returns (ok: bool)
      modifies this
      ensures (State(), ok) == TryConsume(old(State()), tokens, readAt, stampAt)
      ensures 0.0 <= old(available) <= capacity as real ==>
        && 0.0 <= available <= capacity as real - (if ok then tokens as real else 0.0)
        && available >= old(available) - (if ok then tokens as real else 0.0)
        && (!ok ==> available < tokens as real)
      ensures rate <= 0.0 ==>
        && (ok <==> tokens as real <= old(available))
        && available == old(available) - (if ok then tokens as real else 0.0)
        && lastRefill == old(lastRefill)
      ensures rate > 0.0 && old(lastRefill) <= readAt ==>
        var full := old(available) + (readAt - old(lastRefill)) * rate;
        var t := if full <= capacity as real then full else capacity as real;
        && (ok <==> tokens as real <= t)
        && available == t - (if ok then tokens as real else 0.0)
        && lastRefill == stampAt
    {
      AccruedSign(rate, readAt - lastRefill);
      RefillNow(readAt, stampAt);
      if available >= tokens as real {
        available := available - tokens as real;
        ok := true;
      } else {
        ok := false;
      }
    }

    method Refund(tokens: nat)
      modifies this
      ensures State() == Release(old(State()), tokens)
      ensures old(available) <= capacity as real ==> old(available) <= available <= capacity as real
      ensures available == old(available) + tokens as real
        || (available == capacity as real && capacity as real < old(available) + tokens as real)
    {
      available := Min(available + tokens as real, capacity as real);
    }
  }

  // ---- The task store --------------------------------------------------------------------------------------

  datatype TaskStatus = Pending | Running | Completed(revised: real) | Failed(error: string)

  type Store = map<TaskId, TaskStatus>

  function UpdateStatus(store: Store, tid: TaskId, status: TaskStatus): Store {
    if tid in store then store[tid := status] else store
  }

  class InMemoryTaskStore {
    var tasks: Store

    constructor ()
      ensures tasks == map[]
    {
      tasks := map[];
    }

    method Insert(tid: TaskId, status: TaskStatus)
      modifies this
      ensures tasks == old(tasks)[tid := status]
    {
      tasks := tasks[tid := status];
    }

    method Update(tid: TaskId, status: TaskStatus)
      modifies this
      ensures tasks == UpdateStatus(old(tasks), tid, status)
      ensures tasks == if tid in old(tasks) then old(tasks)[tid := status] else old(tasks)
    {
      if tid in tasks {
        tasks := tasks[tid := status];
      }
    }
  }

  // ---- The protocol ------------------------------------------------------------------------------------------

  /** How far one activation has come: the handler consumes, inserts and spawns; the spawned
      code starts, applies or refunds, and reports. */
  datatype Stage =
    | TokenTaken | Inserted | Spawned | Started
    | Applied(revised: real) | Done(revised: real)
    | Refunded(error: string) | Reported(error: string)

  datatype System = System(
    bucket: Bucket, stages: map<TaskId, Stage>, store: Store, activations: nat, throttled: nat,
    started: real, now: real)

  datatype Event =
    | Request(tid: TaskId, readAt: real, stampAt: real)
    | InsertTask(tid: TaskId)
    | SpawnTask(tid: TaskId)
    | Begin(tid: TaskId)
    | ReflectOk(tid: TaskId, revised: real)
    | ReflectErr(tid: TaskId, error: string)
    | ReportOk(tid: TaskId)
    | ReportErr(tid: TaskId)

  function Start(capacity: nat, rate: real, now: real): System {
    System(NewBucket(capacity, rate, now), map[], map[], 0, 0, now, now)
  }

  /** Task ids are new, the clock does not run backwards, and each activation goes through its own
      stages in order. */
  predicate Enabled(s: System, e: Event) {
    match e
    case Request(tid, readAt, stampAt) => tid !in s.stages && tid !in s.store && s.now <= readAt <= stampAt
    case InsertTask(tid) => tid in s.stages && s.stages[tid] == TokenTaken
    case SpawnTask(tid) => tid in s.stages && s.stages[tid] == Inserted
    case Begin(tid) => tid in s.stages && s.stages[tid] == Spawned
    case ReflectOk(tid, _) => tid in s.stages && s.stages[tid] == Started
    case ReflectErr(tid, _) => tid in s.stages && s.stages[tid] == Started
    case ReportOk(tid) => tid in s.stages && s.stages[tid].Applied?
    case ReportErr(tid) => tid in s.stages && s.stages[tid].Refunded?
  }

  function Apply(s: System, e: Event): System
    requires Enabled(s, e)
  {
    match e
    case Request(tid, readAt, stampAt) =>
      var (b, ok) := TryConsume(s.bucket, 1, readAt, stampAt);
      if ok then s.(bucket := b, stages := s.stages[tid := TokenTaken], now := stampAt)
      else s.(bucket := b, throttled := s.throttled + 1, now := stampAt)
    case InsertTask(tid) =>
      s.(stages := s.stages[tid := Inserted], store := s.store[tid := Pending])
    case SpawnTask(tid) => s.(stages := s.stages[tid := Spawned])
    case Begin(tid) =>
      s.(stages := s.stages[tid := Started], store := UpdateStatus(s.store, tid, Running))
    case ReflectOk(tid, revised) =>
      s.(stages := s.stages[tid := Applied(revised)], activations := s.activations + 1)
    case ReflectErr(tid, error) =>
      s.(stages := s.stages[tid := Refunded(error)], bucket := Release(s.bucket, 1))
    case ReportOk(tid) =>
      var r := s.stages[tid].revised;
      s.(stages := s.stages[tid := Done(r)], store := UpdateStatus(s.store, tid, Completed(r)))
    case ReportErr(tid) =>
      var m := s.stages[tid].error;
      s.(stages := s.stages[tid := Reported(m)], store := UpdateStatus(s.store, tid, Failed(m)))
  }

  predicate IsRun(s: System, es: seq<Event>)
    decreases |es|
  {
    es == [] || (Enabled(s, es[0]) && IsRun(Apply(s, es[0]), es[1..]))
  }

  function RunAll(s: System, es: seq<Event>): System
    requires IsRun(s, es)
    decreases |es|
  {
    if es == [] then s else RunAll(Apply(s, es[0]), es[1..])
  }

  // ---- Conservation of tokens ----------------------------------------------------------------------------------

  predicate GaveBack(stage: Stage) { stage.Refunded? || stage.Reported? }

  /** The activations that hold a token for good or for now: in flight or completed. */
  function Holders(stages: map<TaskId, Stage>): set<TaskId> {
    set t | t in stages && !GaveBack(stages[t])
  }

  function AppliedSet(stages: map<TaskId, Stage>): set<TaskId> {
    set t | t in stages && (stages[t].Applied? || stages[t].Done?)
  }

  ghost predicate Balanced(s: System) {
    && 0.0 <= s.bucket.available <= s.bucket.capacity as real
    && s.started <= s.bucket.lastRefill <= s.now
    && (s.bucket.rate <= 0.0 ==>
          s.bucket.available + |Holders(s.stages)| as real == s.bucket.capacity as real)
    && (s.bucket.rate > 0.0 ==>
          s.bucket.available + |Holders(s.stages)| as real
            <= s.bucket.capacity as real + Accrued(s.bucket.rate, s.bucket.lastRefill - s.started))
    && s.activations == |AppliedSet(s.stages)|
  }

  lemma SizeButOne(a: set<TaskId>, b: set<TaskId>, t: TaskId)
    requires a - {t} == b - {t}
    ensures |a| - (if t in a then 1 else 0) == |b| - (if t in b then 1 else 0)
  {
    assert |a - {t}| == |a| - (if t in a then 1 else 0);
    assert |b - {t}| == |b| - (if t in b then 1 else 0);
  }

  lemma HoldersUpdate(stages: map<TaskId, Stage>, tid: TaskId, stage: Stage)
    ensures |Holders(stages[tid := stage])| ==
      |Holders(stages)| + (if GaveBack(stage) then 0 else 1)
        - (if tid in stages && !GaveBack(stages[tid]) then 1 else 0)
  {
    SizeButOne(Holders(stages[tid := stage]), Holders(stages), tid);
  }

  lemma AppliedUpdate(stages: map<TaskId, Stage>, tid: TaskId, stage: Stage)
    ensures |AppliedSet(stages[tid := stage])| ==
      |AppliedSet(stages)| + (if stage.Applied? || stage.Done? then 1 else 0)
        - (if tid in stages && (stages[tid].Applied? || stages[tid].Done?) then 1 else 0)
  {
    SizeButOne(AppliedSet(stages[tid := stage]), AppliedSet(stages), tid);
  }

  lemma AccruedGrows(rate: real, a: real, b: real, c: real)
    requires rate > 0.0 && 0.0 <= a && 0.0 <= b && a + b <= c
    ensures 0.0 <= Accrued(rate, b)
    ensures Accrued(rate, a) + Accrued(rate, b) <= Accrued(rate, c)
  {
    assert (a + b) * rate == a * rate + b * rate;
    assert (c - (a + b)) * rate >= 0.0;
    assert c * rate == (a + b) * rate + (c - (a + b)) * rate;
  }

  lemma RequestBalanced(s: System, tid: TaskId, readAt: real, stampAt: real)
    requires Balanced(s) && Enabled(s, Request(tid, readAt, stampAt))
    ensures Balanced(Apply(s, Request(tid, readAt, stampAt)))
  {
    HoldersUpdate(s.stages, tid, TokenTaken);
    AppliedUpdate(s.stages, tid, TokenTaken);
    if s.bucket.rate > 0.0 {
      AccruedGrows(s.bucket.rate, s.bucket.lastRefill - s.started, readAt - s.bucket.lastRefill,
                   stampAt - s.started);
    }
  }

  lemma StepBalanced(s: System, e: Event)
    requires Balanced(s) && Enabled(s, e)
    ensures Balanced(Apply(s, e))
    ensures Apply(s, e).started == s.started
    ensures Apply(s, e).bucket.capacity == s.bucket.capacity && Apply(s, e).bucket.rate == s.bucket.rate
  {
    if e.Request? {
      RequestBalanced(s, e.tid, e.readAt, e.stampAt);
    } else {
      var stage := Apply(s, e).stages[e.tid];
      HoldersUpdate(s.stages, e.tid, stage);
      AppliedUpdate(s.stages, e.tid, stage);
    }
  }

  lemma {:induction false} RunBalanced(s: System, es: seq<Event>)
    requires Balanced(s) && IsRun(s, es)
    ensures Balanced(RunAll(s, es))
    ensures RunAll(s, es).started == s.started
    ensures RunAll(s, es).bucket.capacity == s.bucket.capacity && RunAll(s, es).bucket.rate == s.bucket.rate
    decreases |es|
  {
    hide Balanced, Enabled, Apply;
    if es != [] {
      StepBalanced(s, es[0]);
      RunBalanced(Apply(s, es[0]), es[1..]);
    }
  }

  lemma StartBalanced(capacity: nat, rate: real, now: real)
    ensures Balanced(Start(capacity, rate, now))
  {
    assert Holders(map[]) == {} && AppliedSet(map[]) == {};
  }

  /** Without refill no token is lost or made, over all interleavings: what is available, in flight
      and completed adds up to the capacity. */
  lemma TokensConserved(capacity: nat, rate: real, now: real, es: seq<Event>)
    requires rate <= 0.0 && IsRun(Start(capacity, rate, now), es)
    ensures
      var s := RunAll(Start(capacity, rate, now), es);
      s.bucket.available + |Holders(s.stages)| as real == capacity as real
  {
    StartBalanced(capacity, rate, now);
    RunBalanced(Start(capacity, rate, now), es);
  }

  lemma BalancedBound(s: System)
    requires Balanced(s) && s.bucket.rate > 0.0
    ensures |Holders(s.stages)| as real
      <= s.bucket.capacity as real + Accrued(s.bucket.rate, s.now - s.started)
  {
    AccruedGrows(s.bucket.rate, s.bucket.lastRefill - s.started, 0.0, s.now - s.started);
  }

  /** With refill, activations in flight and completed never exceed the capacity plus what the rate
      allows for the time that has passed; a lost race between reading and stamping the clock only
      costs tokens. */
  lemma RateBound(capacity: nat, rate: real, now: real, es: seq<Event>)
    requires rate > 0.0 && IsRun(Start(capacity, rate, now), es)
    ensures
      var s := RunAll(Start(capacity, rate, now), es);
      |Holders(s.stages)| as real <= capacity as real + Accrued(rate, s.now - now)
  {
    hide Balanced;
    StartBalanced(capacity, rate, now);
    RunBalanced(Start(capacity, rate, now), es);
    BalancedBound(RunAll(Start(capacity, rate, now), es));
  }

  /** What is available or held grows by no more than what accrues between two refills. */
  lemma StepBudget(s: System, e: Event)
    requires Balanced(s) && s.bucket.rate > 0.0 && Enabled(s, e)
    ensures
      var s' := Apply(s, e);
      && s.bucket.lastRefill <= s'.bucket.lastRefill
      && s'.bucket.available + |Holders(s'.stages)| as real
           <= s.bucket.available + |Holders(s.stages)| as real
              + Accrued(s.bucket.rate, s'.bucket.lastRefill - s.bucket.lastRefill)
  {
    if e.Request? {
      HoldersUpdate(s.stages, e.tid, TokenTaken);
      AccruedGrows(s.bucket.rate, e.readAt - s.bucket.lastRefill, 0.0, e.stampAt - s.bucket.lastRefill);
    } else {
      HoldersUpdate(s.stages, e.tid, Apply(s, e).stages[e.tid]);
    }
  }

  lemma {:induction false} RunBudget(s: System, es: seq<Event>)
    requires Balanced(s) && s.bucket.rate > 0.0 && IsRun(s, es)
    ensures
      var s' := RunAll(s, es);
      && s.bucket.lastRefill <= s'.bucket.lastRefill
      && s'.bucket.available + |Holders(s'.stages)| as real
           <= s.bucket.available + |Holders(s.stages)| as real
              + Accrued(s.bucket.rate, s'.bucket.lastRefill - s.bucket.lastRefill)
    decreases |es|
  {
    hide Balanced, Enabled, Apply, Accrued, Holders;
    if es == [] {
      AccruedSign(s.bucket.rate, 0.0);
    } else {
      var m, t := Apply(s, es[0]), RunAll(s, es);
      StepBalanced(s, es[0]);
      StepBudget(s, es[0]);
      RunBudget(m, es[1..]);
      AccruedGrows(s.bucket.rate, m.bucket.lastRefill - s.bucket.lastRefill,
                   t.bucket.lastRefill - m.bucket.lastRefill, t.bucket.lastRefill - s.bucket.lastRefill);
    }
  }

  /** The bound on bursts, from any point of any run on: what is newly held never exceeds what was
      available then plus what the rate allows since the last refill, however long the bucket was idle
      before. */
  lemma BurstBound(s: System, es: seq<Event>)
    requires Balanced(s) && s.bucket.rate > 0.0 && IsRun(s, es)
    ensures
      var s' := RunAll(s, es);
      |Holders(s'.stages)| as real - |Holders(s.stages)| as real
        <= s.bucket.available + Accrued(s.bucket.rate, s'.now - s.bucket.lastRefill)
  {
    var s' := RunAll(s, es);
    RunBalanced(s, es);
    RunBudget(s, es);
    AccruedGrows(s.bucket.rate, s'.bucket.lastRefill - s.bucket.lastRefill, 0.0, s'.now - s.bucket.lastRefill);
  }

  /** Every state of the protocol is such a point. */
  lemma ReachedIsBalanced(capacity: nat, rate: real, now: real, es: seq<Event>)
    requires IsRun(Start(capacity, rate, now), es)
    ensures Balanced(RunAll(Start(capacity, rate, now), es))
  {
    StartBalanced(capacity, rate, now);
    RunBalanced(Start(capacity, rate, now), es);
  }

  /** A request is accepted exactly when a whole token is there after refilling. */
  lemma RequestAcceptedIff(s: System, tid: TaskId, readAt: real, stampAt: real)
    requires Balanced(s) && Enabled(s, Request(tid, readAt, stampAt))
    ensures
      var s' := Apply(s, Request(tid, readAt, stampAt));
      var full := s.bucket.available + Accrued(s.bucket.rate, readAt - s.bucket.lastRefill);
      var there := if s.bucket.rate > 0.0 then full else s.bucket.available;
      && (tid in s'.stages <==> s.bucket.capacity >= 1 && there >= 1.0)
      && s'.stages - {tid} == s.stages
      && s'.throttled == s.throttled + if tid in s'.stages then 0 else 1
  {
    assert s.stages - {tid} == s.stages;
  }

  /** A bucket that was left alone for capacity / rate is full again, so that it accepts. */
  lemma IdleRefills(s: System, tid: TaskId, readAt: real, stampAt: real)
    requires Balanced(s) && Enabled(s, Request(tid, readAt, stampAt))
    requires s.bucket.rate > 0.0 && s.bucket.capacity >= 1
    requires readAt - s.bucket.lastRefill >= s.bucket.capacity as real / s.bucket.rate
    ensures tid in Apply(s, Request(tid, readAt, stampAt)).stages
    ensures Apply(s, Request(tid, readAt, stampAt)).bucket.available == s.bucket.capacity as real - 1.0
  {
    var idle := readAt - s.bucket.lastRefill;
    FullAfter(s.bucket.capacity as real, s.bucket.rate, idle);
    assert Accrued(s.bucket.rate, idle) == idle * s.bucket.rate;
  }

  lemma FullAfter(capacity: real, rate: real, idle: real)
    requires rate > 0.0 && capacity >= 1.0 && idle >= capacity / rate
    ensures idle > 0.0 && idle * rate >= capacity
  {
    assert capacity / rate * rate == capacity;
    assert (idle - capacity / rate) * rate >= 0.0;
    assert (idle - capacity / rate) * rate == idle * rate - capacity / rate * rate;
  }

  ghost function Requests(es: seq<Event>): nat {
    if es == [] then 0 else (if es[0].Request? then 1 else 0) + Requests(es[1..])
  }

  /** Every request either became an activation or was throttled. */
  lemma {:induction false} RequestsCounted(s: System, es: seq<Event>)
    requires IsRun(s, es)
    ensures |RunAll(s, es).stages| + RunAll(s, es).throttled == |s.stages| + s.throttled + Requests(es)
    decreases |es|
  {
    if es != [] {
      RequestsCounted(Apply(s, es[0]), es[1..]);
      StagesGrow(s, es[0]);
    }
  }

  lemma StagesGrow(s: System, e: Event)
    requires Enabled(s, e)
    ensures |Apply(s, e).stages| + Apply(s, e).throttled
      == |s.stages| + s.throttled + if e.Request? then 1 else 0
  {
    if e.Request? {
      hide TryConsume;
      KeyAdded(s.stages, e.tid, TokenTaken);
    } else {
      KeyAdded(s.stages, e.tid, Apply(s, e).stages[e.tid]);
    }
  }

  lemma KeyAdded(stages: map<TaskId, Stage>, tid: TaskId, stage: Stage)
    ensures |stages[tid := stage]| == |stages| + if tid in stages then 0 else 1
  {
    var more := stages[tid := stage];
    assert more.Keys == stages.Keys + {tid} && |more| == |more.Keys| && |stages| == |stages.Keys|;
  }

  // ---- Task statuses ---------------------------------------------------------------------------------------------

  predicate Terminal(status: TaskStatus) { status.Completed? || status.Failed? }

  function StatusFor(stage: Stage): Option<TaskStatus> {
    match stage
    case TokenTaken => None
    case Inserted => Some(Pending)
    case Spawned => Some(Pending)
    case Started => Some(Running)
    case Applied(_) => Some(Running)
    case Refunded(_) => Some(Running)
    case Done(r) => Some(Completed(r))
    case Reported(m) => Some(Failed(m))
  }

  /** The store shows, for each activation, the status that its stage implies, and nothing else. */
  ghost predicate StoreFaithful(s: System) {
    && (forall t :: t in s.stages ==>
          (if StatusFor(s.stages[t]).None? then t !in s.store
           else t in s.store && s.store[t] == StatusFor(s.stages[t]).value))
    && (forall t :: t in s.store ==> t in s.stages)
  }

  lemma StepFaithful(s: System, e: Event)
    requires StoreFaithful(s) && Enabled(s, e)
    ensures StoreFaithful(Apply(s, e))
    ensures forall t :: t in s.store && Terminal(s.store[t]) ==>
      t in Apply(s, e).store && Apply(s, e).store[t] == s.store[t]
  {
  }

  /** A task that has completed or failed never changes its status again, whatever is interleaved. */
  lemma {:induction false} TerminalIsFinal(s: System, es: seq<Event>)
    requires StoreFaithful(s) && IsRun(s, es)
    ensures StoreFaithful(RunAll(s, es))
    ensures forall t :: t in s.store && Terminal(s.store[t]) ==>
      t in RunAll(s, es).store && RunAll(s, es).store[t] == s.store[t]
    decreases |es|
  {
    if es != [] {
      StepFaithful(s, es[0]);
      TerminalIsFinal(Apply(s, es[0]), es[1..]);
    }
  }

  lemma QuiescentState(s: System)
    requires Balanced(s) && StoreFaithful(s)
    requires forall t :: t in s.stages ==> s.stages[t].Done? || s.stages[t].Reported?
    ensures
      var completed := set t | t in s.store && s.store[t].Completed?;
      && (forall t :: t in s.store ==> Terminal(s.store[t]))
      && s.activations == |completed|
      && (s.bucket.rate <= 0.0 ==> s.bucket.available == s.bucket.capacity as real - |completed| as real)
  {
    var completed := set t | t in s.store && s.store[t].Completed?;
    assert Holders(s.stages) == completed;
    assert AppliedSet(s.stages) == completed;
  }

  /** When no activation is under way, every stored task is completed or failed, every completed one
      was applied once, and, without refill, was paid for while every failed one got its token back. */
  lemma QuiescentAccounts(capacity: nat, rate: real, now: real, es: seq<Event>)
    requires IsRun(Start(capacity, rate, now), es)
    requires forall t :: t in RunAll(Start(capacity, rate, now), es).stages ==>
      var stage := RunAll(Start(capacity, rate, now), es).stages[t];
      stage.Done? || stage.Reported?
    ensures
      var s := RunAll(Start(capacity, rate, now), es);
      var completed := set t | t in s.store && s.store[t].Completed?;
      && (forall t :: t in s.store ==> Terminal(s.store[t]))
      && s.activations == |completed|
      && (rate <= 0.0 ==> s.bucket.available == capacity as real - |completed| as real)
  {
    hide Balanced;
    var s := RunAll(Start(capacity, rate, now), es);
    StartBalanced(capacity, rate, now);
    RunBalanced(Start(capacity, rate, now), es);
    TerminalIsFinal(Start(capacity, rate, now), es);
    QuiescentState(s);
  }

  // ---- The code that the steps are made of -------------------------------------------------------------------------

  /** The objects shared by all requests. */
  class Service {
    const bucket: TokenBucket
    const store: InMemoryTaskStore
    const quad: BeliefQuad
    var activations: nat

    ghost predicate Shows(s: System)
      reads this, bucket, store
    {
      bucket.State() == s.bucket && store.tasks == s.store && activations == s.activations
    }

    constructor (bucket: TokenBucket, store: InMemoryTaskStore, quad: BeliefQuad)
      ensures this.bucket == bucket && this.store == store && this.quad == quad && activations == 0
    {
      this.bucket, this.store, this.quad, activations := bucket, store, quad, 0;
    }

    /** Writes the revised confidence into the belief, unless it is gone by now, and counts. */
    method ApplyResult(id: BeliefId, revised: real)
      modifies this`activations, quad`nodes
      ensures activations == old(activations) + 1
      ensures quad.State() ==
        if id in old(quad.nodes)
        then SetConfidence(old(quad.State()), id, old(quad.nodes[id].fast), Some(revised))
        else old(quad.State())
    {
      if id in quad.nodes {
        quad.nodes := quad.nodes[id := quad.nodes[id].(slow := Some(revised))];
      }
      activations := activations + 1;
    }

    /** The handler's arm for a pending activation, run without interruption: it is the protocol's
        request, and, if a token was there, insertion and spawning. */
    method HandlePending(ghost s: System, tid: TaskId, readAt: real, stampAt: real)
      returns (accepted: bool, ghost s': System)
      requires Shows(s) && Enabled(s, Request(tid, readAt, stampAt))
      modifies bucket, store
      ensures Shows(s')
      ensures accepted <==> TryConsume(s.bucket, 1, readAt, stampAt).1
      ensures accepted ==>
        IsRun(s, [Request(tid, readAt, stampAt), InsertTask(tid), SpawnTask(tid)])
          && s' == RunAll(s, [Request(tid, readAt, stampAt), InsertTask(tid), SpawnTask(tid)])
      ensures !accepted ==> s' == Apply(s, Request(tid, readAt, stampAt))
    {
      hide TryConsume;
      var request: Event := Request(tid, readAt, stampAt);
      accepted := bucket.Consume(1, readAt, stampAt);
      s' := Apply(s, request);
      if !accepted {
        return;
      }
      store.Insert(tid, Pending);
      ghost var s2 := Apply(s', InsertTask(tid));
      ghost var s3 := Apply(s2, SpawnTask(tid));
      ThreeSteps(s, request, InsertTask(tid), SpawnTask(tid));
      s' := s3;
    }

    /** The spawned task, run without interruption.  Of the quad it changes at most the slow confidence
        of its belief. */
    method RunTask(ghost s: System, tid: TaskId, id: BeliefId, reflection: Result<real, string>)
      returns (ghost s': System)
      requires Shows(s) && Enabled(s, Begin(tid))
      modifies this, bucket, store, quad`nodes
      ensures quad.State() ==
        if reflection.Ok? && id in old(quad.nodes)
        then SetConfidence(old(quad.State()), id, old(quad.nodes[id].fast), Some(reflection.value))
        else old(quad.State())
      ensures Shows(s')
      ensures IsRun(s, TaskEvents(tid, reflection)) && s' == RunAll(s, TaskEvents(tid, reflection))
    {
      s' := TaskRun(s, tid, reflection);
      hide SetConfidence, IsRun, RunAll, Enabled;
      store.Update(tid, Running);
      match reflection
      case Ok(revised) =>
        ApplyResult(id, revised);
        store.Update(tid, Completed(revised));
      case Err(error) =>
        bucket.Refund(1);
        store.Update(tid, Failed(error));
    }
  }

  ghost function TaskEvents(tid: TaskId, reflection: Result<real, string>): seq<Event> {
    if reflection.Ok? then [Begin(tid), ReflectOk(tid, reflection.value), ReportOk(tid)]
    else [Begin(tid), ReflectErr(tid, reflection.error), ReportErr(tid)]
  }

  /** What the three events of a task do together. */
  lemma TaskRun(s: System, tid: TaskId, reflection: Result<real, string>) returns (s': System)
    requires Enabled(s, Begin(tid))
    ensures IsRun(s, TaskEvents(tid, reflection)) && s' == RunAll(s, TaskEvents(tid, reflection))
    ensures s'.bucket == if reflection.Ok? then s.bucket else Release(s.bucket, 1)
    ensures s'.activations == s.activations + if reflection.Ok? then 1 else 0
    ensures s'.store == UpdateStatus(UpdateStatus(s.store, tid, Running), tid,
      if reflection.Ok? then Completed(reflection.value) else Failed(reflection.error))
  {
    var es := TaskEvents(tid, reflection);
    var s1 := Apply(s, es[0]);
    var s2 := Apply(s1, es[1]);
    s' := Apply(s2, es[2]);
    ThreeSteps(s, es[0], es[1], es[2]);
  }

  lemma ThreeSteps(s: System, a: Event, b: Event, c: Event)
    requires Enabled(s, a) && Enabled(Apply(s, a), b) && Enabled(Apply(Apply(s, a), b), c)
    ensures IsRun(s, [a, b, c]) && RunAll(s, [a, b, c]) == Apply(Apply(Apply(s, a), b), c)
  {
    hide Apply, Enabled;
    var s1, s2 := Apply(s, a), Apply(Apply(s, a), b);
    assert [a, b, c][1..] == [b, c] && [b, c][1..] == [c] && [c][1..] == [];
    assert IsRun(s2, [c]) && RunAll(s2, [c]) == Apply(s2, c) by {
      assert IsRun(Apply(s2, c), []);
    }
    assert IsRun(s1, [b, c]) && RunAll(s1, [b, c]) == RunAll(s2, [c]);
  }
}
