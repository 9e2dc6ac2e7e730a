/**
 * The provider client on top of the pacer: every slot an execution is granted or refused is one the pacer granted,
 * refused for a full queue, or swept away at shutdown. A granted execution continues in the instant of the grant, as
 * the pacer demands of its callers; a refused one may learn of it later.
 */
module PacedClients {
  import opened Common
  import C = ProviderClients
  import B = CircuitBreakers
  import Q = Quotas
  import R = RateLimiters

  /**
   * Client and pacer with what the theorems speak of: everything the pacer was asked (`log`), when each queued caller
   * asked (`waits`), the executions whose refusal is under way, and when each request sent had asked (`sent`).
   */
  datatype Joint = Joint(client: C.Sys, pacer: R.Pacer, log: seq<R.Step>, waits: seq<int>, refused: set<nat>,
                         sent: seq<int>)
  {
    function Now(): int {
      client.shared.now
    }
  }

  datatype Step =
    | Client(step: C.Step)      // anything an execution or a reader does but settling a slot
    | Loop(checkedAt: int)      // one trip round the drain loop
    | Wake                      // the drain loop's sleep ends
    | Sweep                     // shutdown
    | Refuse(i: nat)            // an execution learns that it was refused

  /** The step makes an execution call `acquire`. */
  predicate Asks(c: C.Config, cl: C.Sys, step: C.Step)
    requires C.Enabled(cl, step)
  {
    (step.Begin? || step.WakeUp?) && C.ExecAfter(c, cl, step).phase.AwaitingSlot?
  }

  function Asker(cl: C.Sys, step: C.Step): nat
    requires step.Begin? || step.WakeUp?
  {
    if step.Begin? then |cl.execs| else step.i
  }

  ghost predicate Enabled(c: C.Config, ps: R.Settings, j: Joint, step: Step) {
    match step
    case Client(st) => C.Enabled(j.client, st) && !st.Slot?
    case Loop(checkedAt) =>
      && j.pacer.phase.Looping? && R.Chronological(j.log + [R.Iterate(checkedAt, j.Now())])
      && (R.Dispatches(ps, j.pacer, checkedAt) ==>
            C.Enabled(j.client, C.Slot(j.pacer.queue[0], true)) && j.waits != [])
    case Wake => j.pacer.phase.Asleep?
    case Sweep => true
    case Refuse(i) => i in j.refused && C.Enabled(j.client, C.Slot(i, false))
  }

  function ToPacer(ps: R.Settings, j: Joint, step: R.Step): Joint {
    j.(pacer := R.Apply(ps, j.pacer, step), log := j.log + [step])
  }

  /** An execution calls `acquire`: it is refused at once or queued. */
  function Asked(c: C.Config, ps: R.Settings, j: Joint, step: C.Step): Joint
    requires C.Enabled(j.client, step) && Asks(c, j.client, step)
  {
    var id := Asker(j.client, step);
    var k := ToPacer(ps, j, R.Ask(id)).(client := C.Next(c, j.client, step));
    if R.Full(ps, j.pacer) then k.(refused := j.refused + {id}) else k.(waits := j.waits + [j.Now()])
  }

  ghost function Next(c: C.Config, ps: R.Settings, j: Joint, step: Step): Joint
    requires Enabled(c, ps, j, step)
  {
    match step
    case Client(st) => if Asks(c, j.client, st) then Asked(c, ps, j, st) else j.(client := C.Next(c, j.client, st))
    case Loop(checkedAt) =>
      var k := ToPacer(ps, j, R.Iterate(checkedAt, j.Now()));
      if R.Dispatches(ps, j.pacer, checkedAt)
      then k.(client := C.Next(c, j.client, C.Slot(j.pacer.queue[0], true)), waits := j.waits[1..],
              sent := j.sent + [j.waits[0]])
      else k
    case Wake => ToPacer(ps, j, R.Wake)
    case Sweep => ToPacer(ps, j, R.Sweep).(waits := [], refused := j.refused + set i | i in j.pacer.queue)
    case Refuse(i) => j.(client := C.Next(c, j.client, C.Slot(i, false)), refused := j.refused - {i})
  }

  ghost predicate Initial(j: Joint) {
    C.Initial(j.client) && j == Joint(j.client, R.INITIAL, [], [], {}, [])
  }

  ghost predicate IsRun(c: C.Config, ps: R.Settings, states: seq<Joint>, steps: seq<Step>) {
    && |states| == |steps| + 1
    && Initial(states[0])
    && forall n :: 0 <= n < |steps| ==>
         Enabled(c, ps, states[n], steps[n]) && states[n + 1] == Next(c, ps, states[n], steps[n])
  }

  // ---- The two sides agree -----------------------------------------------------------------------------------

  predicate Awaiting(cl: C.Sys, i: nat) {
    i < |cl.execs| && cl.execs[i].phase.AwaitingSlot?
  }

  /** The pacer is in a state its own chronological run reaches, and its log explains every request that was sent. */
  ghost predicate PacerExplained(ps: R.Settings, j: Joint) {
    && j.pacer == R.Run(ps, R.INITIAL, j.log)
    && R.Chronological(j.log) && R.ReadBy(j.log, j.Now())
    && j.client.shared.fetchLog == R.GrantTimes(R.Resolutions(ps, j.log))
    && |j.sent| == |j.client.shared.fetchLog| && |j.waits| == |j.pacer.queue|
  }

  /** The executions awaiting a slot are exactly the queued and the refused ones, each once. */
  ghost predicate SlotsAwaited(j: Joint) {
    && (forall i: nat :: Awaiting(j.client, i) <==> i in j.pacer.queue || i in j.refused)
    && (forall m, n :: 0 <= m < n < |j.pacer.queue| ==> j.pacer.queue[m] != j.pacer.queue[n])
    && (forall i :: i in j.refused ==> i !in j.pacer.queue)
  }

  /** A client step that settles no slot makes its asker wait and nobody else, and sends nothing. */
  lemma ClientAwaits(c: C.Config, cl: C.Sys, step: C.Step)
    requires c.paced && C.Enabled(cl, step) && !step.Slot?
    ensures forall i: nat :: Awaiting(C.Next(c, cl, step), i)
                             <==> Awaiting(cl, i) || (Asks(c, cl, step) && i == Asker(cl, step))
    ensures Asks(c, cl, step) ==> !Awaiting(cl, Asker(cl, step))
    ensures C.Next(c, cl, step).shared.fetchLog == cl.shared.fetchLog
    ensures C.Next(c, cl, step).shared.now >= cl.shared.now
    ensures Asks(c, cl, step) ==> C.Next(c, cl, step).shared.now == cl.shared.now
  {
  }

  lemma SlotAwaits(c: C.Config, cl: C.Sys, i: nat, granted: bool)
    requires C.Enabled(cl, C.Slot(i, granted))
    ensures var t := C.Next(c, cl, C.Slot(i, granted));
            && (forall k: nat :: Awaiting(t, k) <==> Awaiting(cl, k) && k != i)
            && t.shared.fetchLog == (if granted then cl.shared.fetchLog + [cl.shared.now] else cl.shared.fetchLog)
            && t.shared.now == cl.shared.now
  {
  }

  /** What one more step adds to the settled promises. */
  function Settling(ps: R.Settings, p: R.Pacer, rs: seq<R.Resolution>, step: R.Step): seq<R.Resolution> {
    match step
    case Iterate(checkedAt, at) =>
      if R.Dispatches(ps, p, checkedAt) then rs + [R.Resolution(p.queue[0], R.Granted(at))] else rs
    case Sweep => rs + R.SweepAll(p.queue)
    case _ => rs
  }

  lemma AppendStep(ps: R.Settings, log: seq<R.Step>, step: R.Step, now: int)
    requires R.Chronological(log) && R.ReadBy(log, now)
    requires step.Iterate? ==> R.Chronological(log + [step]) && step.at <= now
    ensures R.Run(ps, R.INITIAL, log + [step]) == R.Apply(ps, R.Run(ps, R.INITIAL, log), step)
    ensures R.Chronological(log + [step]) && R.ReadBy(log + [step], now)
    ensures R.Resolutions(ps, log + [step])
            == Settling(ps, R.Run(ps, R.INITIAL, log), R.Resolutions(ps, log), step)
  {
    assert (log + [step])[..|log|] == log;
  }

  lemma AskExplained(c: C.Config, ps: R.Settings, j: Joint, st: C.Step)
    requires c.paced && C.Enabled(j.client, st) && !st.Slot? && Asks(c, j.client, st) && PacerExplained(ps, j)
    ensures PacerExplained(ps, Asked(c, ps, j, st))
  {
    ClientAwaits(c, j.client, st);
    AppendStep(ps, j.log, R.Ask(Asker(j.client, st)), j.Now());
  }

  lemma LoopExplained(c: C.Config, ps: R.Settings, j: Joint, checkedAt: int)
    requires Enabled(c, ps, j, Loop(checkedAt)) && PacerExplained(ps, j)
    ensures PacerExplained(ps, Next(c, ps, j, Loop(checkedAt)))
  {
    AppendStep(ps, j.log, R.Iterate(checkedAt, j.Now()), j.Now());
    if R.Dispatches(ps, j.pacer, checkedAt) {
      var id := j.pacer.queue[0];
      SlotAwaits(c, j.client, id, true);
      R.GrantTimesOne(R.Resolutions(ps, j.log), R.Resolution(id, R.Granted(j.Now())));
    }
  }

  lemma PacerStepExplained(c: C.Config, ps: R.Settings, j: Joint, step: Step)
    requires c.paced && Enabled(c, ps, j, step) && PacerExplained(ps, j)
    ensures PacerExplained(ps, Next(c, ps, j, step))
  {
    match step
    case Client(st) =>
      ClientAwaits(c, j.client, st);
      if Asks(c, j.client, st) { AskExplained(c, ps, j, st); }
    case Loop(checkedAt) => LoopExplained(c, ps, j, checkedAt);
    case Wake => AppendStep(ps, j.log, R.Wake, j.Now());
    case Sweep =>
      AppendStep(ps, j.log, R.Sweep, j.Now());
      R.SweepGrantsNothing(R.Resolutions(ps, j.log), R.SweepAll(j.pacer.queue));
    case Refuse(i) => SlotAwaits(c, j.client, i, false);
  }

  lemma AskAwaited(c: C.Config, ps: R.Settings, j: Joint, st: C.Step)
    requires c.paced && C.Enabled(j.client, st) && !st.Slot? && Asks(c, j.client, st) && SlotsAwaited(j)
    ensures SlotsAwaited(Asked(c, ps, j, st))
  {
    ClientAwaits(c, j.client, st);
  }

  lemma LoopAwaited(c: C.Config, ps: R.Settings, j: Joint, checkedAt: int)
    requires Enabled(c, ps, j, Loop(checkedAt)) && SlotsAwaited(j)
    ensures SlotsAwaited(Next(c, ps, j, Loop(checkedAt)))
  {
    if R.Dispatches(ps, j.pacer, checkedAt) {
      var q := j.pacer.queue;
      SlotAwaits(c, j.client, q[0], true);
      assert q == [q[0]] + q[1..];
    }
  }

  lemma SlotsStepAwaited(c: C.Config, ps: R.Settings, j: Joint, step: Step)
    requires c.paced && Enabled(c, ps, j, step) && SlotsAwaited(j)
    ensures SlotsAwaited(Next(c, ps, j, step))
  {
    match step
    case Client(st) =>
      ClientAwaits(c, j.client, st);
      if Asks(c, j.client, st) { AskAwaited(c, ps, j, st); }
    case Loop(checkedAt) => LoopAwaited(c, ps, j, checkedAt);
    case Wake =>
    case Sweep =>
    case Refuse(i) => SlotAwaits(c, j.client, i, false);
  }

  lemma {:induction false} AlwaysExplained(c: C.Config, ps: R.Settings, states: seq<Joint>, steps: seq<Step>, n: nat)
    requires c.paced && IsRun(c, ps, states, steps) && n < |states|
    ensures PacerExplained(ps, states[n]) && SlotsAwaited(states[n])
  {
    if n > 0 {
      AlwaysExplained(c, ps, states, steps, n - 1);
      PacerStepExplained(c, ps, states[n - 1], steps[n - 1]);
      SlotsStepAwaited(c, ps, states[n - 1], steps[n - 1]);
    }
  }

  /** No slot is granted to nobody: whoever the pacer serves or refuses is an execution that still awaits its slot. */
  lemma SlotsFindTheirExecution(c: C.Config, ps: R.Settings, states: seq<Joint>, steps: seq<Step>, n: nat)
    requires c.paced && IsRun(c, ps, states, steps) && n < |states|
    ensures var j := states[n];
            && (j.pacer.queue != [] ==> C.Enabled(j.client, C.Slot(j.pacer.queue[0], true)) && j.waits != [])
            && (forall i :: i in j.refused ==> C.Enabled(j.client, C.Slot(i, false)))
  {
    AlwaysExplained(c, ps, states, steps, n);
    var j := states[n];
    if j.pacer.queue != [] { assert Awaiting(j.client, j.pacer.queue[0]); }
    forall i | i in j.refused ensures C.Enabled(j.client, C.Slot(i, false)) { assert Awaiting(j.client, i); }
  }

  /** Whatever the executions do, a paced client's requests leave at least minIntervalMs apart. */
  lemma FetchesAreSpaced(c: C.Config, ps: R.Settings, states: seq<Joint>, steps: seq<Step>, n: nat, lo: int, w: nat)
    requires c.paced && ps.Valid() && IsRun(c, ps, states, steps) && n < |states|
    ensures R.Spaced(states[n].client.shared.fetchLog, ps.minIntervalMs)
    ensures ps.minIntervalMs >= 1 ==>
              InWindow(states[n].client.shared.fetchLog, lo, w) <= (w + ps.minIntervalMs - 1) / ps.minIntervalMs
  {
    AlwaysExplained(c, ps, states, steps, n);
    R.DispatchesAreSpaced(ps, states[n].log);
    if ps.minIntervalMs >= 1 { R.PacedUnderAnySchedule(ps, states[n].log, lo, w); }
  }

  // ---- How long a request waits ------------------------------------------------------------------------------

  /** When the oldest caller is due: at once, or an interval after the last dispatch. */
  function Due(ps: R.Settings, j: Joint): int
    requires j.waits != []
  {
    if j.pacer.lastDispatchAt.None? then j.waits[0]
    else Max(j.waits[0], j.pacer.lastDispatchAt.value + ps.minIntervalMs)
  }

  /** The clock does not run past a caller's due time by more than `late` with the caller still queued. */
  ghost predicate Timely(ps: R.Settings, j: Joint, late: nat) {
    j.waits != [] ==> j.Now() <= Due(ps, j) + late
  }

  /** The loop's sleeps end at most `late` after they were due, and on time if that is zero. */
  ghost predicate TimelyRun(ps: R.Settings, states: seq<Joint>, late: nat) {
    forall n :: 0 <= n < |states| ==> Timely(ps, states[n], late)
  }

  function Longest(ps: R.Settings, late: nat): int {
    ps.maxQueueDepth * (ps.minIntervalMs + late)
  }

  /** The caller at place `p` of the queue will be served within the longest wait of when it asked. */
  ghost predicate DueInTime(ps: R.Settings, j: Joint, late: nat, p: nat)
    requires p < |j.waits|
  {
    Due(ps, j) + late + p * (ps.minIntervalMs + late) <= j.waits[p] + Longest(ps, late)
  }

  ghost predicate Promised(ps: R.Settings, j: Joint, late: nat) {
    && |j.waits| == |j.pacer.queue| <= ps.maxQueueDepth
    && |j.sent| == |j.client.shared.fetchLog|
    && (forall p :: 0 <= p < |j.waits| ==> j.waits[p] <= j.Now())
    && (j.pacer.lastDispatchAt.Some? ==> j.pacer.lastDispatchAt.value <= j.Now())
    && (forall p :: 0 <= p < |j.waits| ==> DueInTime(ps, j, late, p))
    && (forall i :: 0 <= i < |j.sent| ==>
          j.sent[i] <= j.client.shared.fetchLog[i] <= j.sent[i] + Longest(ps, late))
  }

  lemma ProductsOf(a: nat, b: nat)
    ensures a * b >= 0
  {
  }

  lemma PlaceInTime(q: nat, depth: int, gap: int)
    requires q < depth && gap >= 0
    ensures gap + q * gap <= depth * gap && 0 <= q * gap
  {
    var rest := depth - 1 - q;
    ProductsOf(rest, gap);
    ProductsOf(q, gap);
    assert depth * gap == (rest + q + 1) * gap == rest * gap + q * gap + gap;
  }

  /** One more caller at the end of a queue with room for it. */
  lemma QueuedPromised(ps: R.Settings, j: Joint, k: Joint, late: nat)
    requires ps.Valid() && Promised(ps, j, late) && |j.waits| < ps.maxQueueDepth
    requires k.waits == j.waits + [j.Now()] && |k.pacer.queue| == |k.waits| && k.Now() == j.Now() && k.sent == j.sent
    requires k.pacer.lastDispatchAt == j.pacer.lastDispatchAt && k.client.shared.fetchLog == j.client.shared.fetchLog
    ensures Promised(ps, k, late)
  {
    var q := |j.waits|;
    PlaceInTime(q, ps.maxQueueDepth, ps.minIntervalMs + late);
    assert Due(ps, k) <= j.Now() + ps.minIntervalMs;
    forall p | 0 <= p < |k.waits| ensures DueInTime(ps, k, late, p) {
      if p < q { assert DueInTime(ps, j, late, p) && k.waits[p] == j.waits[p] && Due(ps, k) == Due(ps, j); }
    }
  }

  lemma AskPromised(c: C.Config, ps: R.Settings, j: Joint, st: C.Step, late: nat)
    requires c.paced && ps.Valid() && Promised(ps, j, late)
    requires C.Enabled(j.client, st) && !st.Slot? && Asks(c, j.client, st)
    ensures Promised(ps, Asked(c, ps, j, st), late)
  {
    ClientAwaits(c, j.client, st);
    var k := Asked(c, ps, j, st);
    if R.Full(ps, j.pacer) { SamePromise(ps, j, k, late); } else { QueuedPromised(ps, j, k, late); }
  }

  lemma DispatchPromised(c: C.Config, ps: R.Settings, j: Joint, checkedAt: int, late: nat)
    requires c.paced && ps.Valid() && Promised(ps, j, late) && Timely(ps, j, late)
    requires Enabled(c, ps, j, Loop(checkedAt)) && R.Dispatches(ps, j.pacer, checkedAt)
    ensures Promised(ps, Next(c, ps, j, Loop(checkedAt)), late)
  {
    SlotAwaits(c, j.client, j.pacer.queue[0], true);
    var k, gap := Next(c, ps, j, Loop(checkedAt)), ps.minIntervalMs + late;
    assert DueInTime(ps, j, late, 0);
    forall p | 0 <= p < |k.waits| ensures DueInTime(ps, k, late, p) {
      assert DueInTime(ps, j, late, p + 1) && k.waits[p] == j.waits[p + 1];
      assert (p + 1) * gap == p * gap + gap;
      assert k.waits[0] == j.waits[1];
    }
  }

  lemma PromisedStep(c: C.Config, ps: R.Settings, j: Joint, step: Step, late: nat)
    requires c.paced && ps.Valid() && Promised(ps, j, late) && Timely(ps, j, late) && Enabled(c, ps, j, step)
    ensures Promised(ps, Next(c, ps, j, step), late)
  {
    var k := Next(c, ps, j, step);
    match step
    case Client(st) =>
      ClientAwaits(c, j.client, st);
      if Asks(c, j.client, st) { AskPromised(c, ps, j, st, late); } else { SamePromise(ps, j, k, late); }
    case Loop(checkedAt) =>
      if R.Dispatches(ps, j.pacer, checkedAt) {
        DispatchPromised(c, ps, j, checkedAt, late);
      } else {
        SamePromise(ps, j, k, late);
      }
    case Wake => SamePromise(ps, j, k, late);
    case Sweep =>
    case Refuse(i) =>
      SlotAwaits(c, j.client, i, false);
      SamePromise(ps, j, k, late);
  }

  lemma SamePromise(ps: R.Settings, j: Joint, k: Joint, late: nat)
    requires Promised(ps, j, late) && k.waits == j.waits && k.sent == j.sent && k.Now() >= j.Now()
    requires k.pacer.queue == j.pacer.queue && k.pacer.lastDispatchAt == j.pacer.lastDispatchAt
    requires k.client.shared.fetchLog == j.client.shared.fetchLog
    ensures Promised(ps, k, late)
  {
    forall p | 0 <= p < |k.waits| ensures DueInTime(ps, k, late, p) { assert DueInTime(ps, j, late, p); }
  }

  /**
   * If no sleep is late by more than `late`, every request leaves within maxQueueDepth times the interval and that
   * lateness of when it asked.
   */
  lemma {:induction false} WaitIsBounded(c: C.Config, ps: R.Settings, states: seq<Joint>, steps: seq<Step>, n: nat,
                                         late: nat)
    requires c.paced && ps.Valid() && IsRun(c, ps, states, steps) && TimelyRun(ps, states, late) && n < |states|
    ensures Promised(ps, states[n], late)
  {
    if n > 0 {
      WaitIsBounded(c, ps, states, steps, n - 1, late);
      assert Timely(ps, states[n - 1], late);
      PromisedStep(c, ps, states[n - 1], steps[n - 1], late);
    }
  }

  // ---- When each request leaves ------------------------------------------------------------------------------

  /** A request leaves no sooner than it asked and than an interval after the one before it. */
  function Earliest(ps: R.Settings, asked: seq<int>, fetched: seq<int>, k: nat): int
    requires k < |asked| && k <= |fetched|
  {
    if k == 0 then asked[0] else Max(asked[k], fetched[k - 1] + ps.minIntervalMs)
  }

  /** And no later than `late` after that; requests leave in the order in which they asked. */
  ghost predicate InTurn(ps: R.Settings, j: Joint, late: nat) {
    var fetched := j.client.shared.fetchLog;
    && |j.sent| == |fetched| && |j.waits| == |j.pacer.queue|
    && NonDecreasing(j.sent + j.waits) && AtMost(j.sent + j.waits, j.Now())
    && j.pacer.lastDispatchAt == (if fetched == [] then None else Some(fetched[|fetched| - 1]))
    && forall k {:trigger Earliest(ps, j.sent, fetched, k)} :: 0 <= k < |fetched| ==>
         Earliest(ps, j.sent, fetched, k) <= fetched[k] <= Earliest(ps, j.sent, fetched, k) + late
  }

  lemma AskInTurn(c: C.Config, ps: R.Settings, j: Joint, st: C.Step, late: nat)
    requires c.paced && C.Enabled(j.client, st) && !st.Slot? && Asks(c, j.client, st) && InTurn(ps, j, late)
    ensures InTurn(ps, Asked(c, ps, j, st), late)
  {
    ClientAwaits(c, j.client, st);
    assert j.sent + (j.waits + [j.Now()]) == (j.sent + j.waits) + [j.Now()];
  }

  lemma DispatchInTurn(c: C.Config, ps: R.Settings, j: Joint, checkedAt: int, late: nat)
    requires c.paced && Enabled(c, ps, j, Loop(checkedAt)) && R.Dispatches(ps, j.pacer, checkedAt)
    requires InTurn(ps, j, late) && Timely(ps, j, late)
    ensures InTurn(ps, Next(c, ps, j, Loop(checkedAt)), late)
  {
    SlotAwaits(c, j.client, j.pacer.queue[0], true);
    var k := Next(c, ps, j, Loop(checkedAt));
    assert k.sent + k.waits == j.sent + j.waits;
    var iterate := R.Iterate(checkedAt, j.Now());
    assert (j.log + [iterate])[|j.log|] == iterate;
    assert (j.sent + j.waits)[|j.sent|] == j.waits[0];
    var fetched := k.client.shared.fetchLog;
    forall i | 0 <= i < |fetched|
      ensures Earliest(ps, k.sent, fetched, i) <= fetched[i] <= Earliest(ps, k.sent, fetched, i) + late
    {
      if i < |j.sent| {
        assert Earliest(ps, k.sent, fetched, i) == Earliest(ps, j.sent, j.client.shared.fetchLog, i);
      } else {
        assert Earliest(ps, k.sent, fetched, i) == Due(ps, j) && fetched[i] == j.Now();
      }
    }
  }

  lemma InTurnStep(c: C.Config, ps: R.Settings, j: Joint, step: Step, late: nat)
    requires c.paced && Enabled(c, ps, j, step) && InTurn(ps, j, late) && Timely(ps, j, late)
    ensures InTurn(ps, Next(c, ps, j, step), late)
  {
    match step
    case Client(st) =>
      ClientAwaits(c, j.client, st);
      if Asks(c, j.client, st) { AskInTurn(c, ps, j, st, late); }
    case Loop(checkedAt) =>
      if R.Dispatches(ps, j.pacer, checkedAt) { DispatchInTurn(c, ps, j, checkedAt, late); }
    case Wake =>
    case Sweep =>
      forall i | 0 <= i < |j.sent| ensures j.sent[i] == (j.sent + j.waits)[i] { }
      assert j.sent + [] == j.sent;
    case Refuse(i) => SlotAwaits(c, j.client, i, false);
  }

  /** Requests leave first come, first served, each as soon as it may or at most `late` after that. */
  lemma {:induction false} RequestsLeaveInTurn(c: C.Config, ps: R.Settings, states: seq<Joint>, steps: seq<Step>,
                                               n: nat, late: nat)
    requires c.paced && IsRun(c, ps, states, steps) && TimelyRun(ps, states, late) && n < |states|
    ensures InTurn(ps, states[n], late)
  {
    if n > 0 {
      RequestsLeaveInTurn(c, ps, states, steps, n - 1, late);
      assert Timely(ps, states[n - 1], late);
      InTurnStep(c, ps, states[n - 1], steps[n - 1], late);
    }
  }

  lemma AskedInOrder(ps: R.Settings, j: Joint, late: nat)
    requires InTurn(ps, j, late)
    ensures NonDecreasing(j.sent)
  {
    forall i | 0 <= i < |j.sent| ensures j.sent[i] == (j.sent + j.waits)[i] { }
  }

  /** Among nondecreasing instants no window of length `w` holds more than `limit`: any limit + 1 span `w` or more. */
  ghost predicate Spread(times: seq<int>, w: int, limit: nat) {
    forall i: nat :: i + limit < |times| ==> Apart(times, w, limit, i)
  }

  predicate Apart(times: seq<int>, w: int, limit: nat, i: nat)
    requires i + limit < |times|
  {
    times[i] + w <= times[i + limit]
  }

  lemma CountOfStretch(times: seq<int>, i: nat, k: nat, lo: int, hi: int)
    requires i <= k <= |times| && forall m :: i <= m < k ==> lo <= times[m] < hi
    ensures CountIn(times, lo, hi) >= k - i
  {
    assert times == times[..i] + times[i..k] + times[k..];
    CountInConcat(times[..i] + times[i..k], times[k..], lo, hi);
    CountInConcat(times[..i], times[i..k], lo, hi);
    CountInAll(times[i..k], lo, hi);
  }

  lemma {:induction false} SpreadIff(times: seq<int>, w: int, limit: nat)
    requires NonDecreasing(times) && w >= 1
    ensures Spread(times, w, limit) <==> forall lo :: InWindow(times, lo, w) <= limit
  {
    if Spread(times, w, limit) {
      forall lo ensures InWindow(times, lo, w) <= limit { SpreadBounds(times, w, limit, lo); }
    } else {
      var i: nat :| i + limit < |times| && !Apart(times, w, limit, i);
      CountOfStretch(times, i, i + limit + 1, times[i], times[i] + w);
      assert InWindow(times, times[i], w) > limit;
    }
  }

  lemma LastWindow(times: seq<int>, w: int, limit: nat, lo: int)
    requires NonDecreasing(times) && limit < |times| && Apart(times, w, limit, |times| - 1 - limit)
    requires times[|times| - 1] < lo + w
    ensures InWindow(times, lo, w) <= limit
  {
    var older, newer := times[..|times| - limit], times[|times| - limit..];
    assert times == older + newer;
    CountInConcat(older, newer, lo, lo + w);
    forall i | 0 <= i < |older| ensures older[i] < lo { assert times[i] <= times[|times| - 1 - limit]; }
    CountInNone(older, lo, lo + w);
    CountAtMost(newer, lo, lo + w);
  }

  lemma {:induction false} SpreadBounds(times: seq<int>, w: int, limit: nat, lo: int)
    requires NonDecreasing(times) && Spread(times, w, limit)
    ensures InWindow(times, lo, w) <= limit
  {
    if |times| <= limit {
      CountAtMost(times, lo, lo + w);
    } else if times[|times| - 1] < lo + w {
      LastWindow(times, w, limit, lo);
    } else {
      SpreadOfPrefix(times, w, limit);
      SpreadBounds(times[..|times| - 1], w, limit, lo);
    }
  }

  lemma SpreadOfPrefix(times: seq<int>, w: int, limit: nat)
    requires NonDecreasing(times) && Spread(times, w, limit) && times != []
    ensures NonDecreasing(times[..|times| - 1]) && Spread(times[..|times| - 1], w, limit)
  {
    var before := times[..|times| - 1];
    forall i: nat | i + limit < |before| ensures Apart(before, w, limit, i) { assert Apart(times, w, limit, i); }
  }

  lemma {:induction false} CountAtMost(times: seq<int>, lo: int, hi: int)
    ensures CountIn(times, lo, hi) <= |times|
  {
    if times != [] { CountAtMost(times[..|times| - 1], lo, hi); }
  }

  /** With sleeps that end on time, if any limit + 1 askings span a window of length `w`, so do the departures. */
  lemma {:induction false} PacingKeepsSpread(ps: R.Settings, asked: seq<int>, fetched: seq<int>, w: int, limit: nat,
                                             i: nat)
    requires limit >= 1 && |asked| == |fetched| && Spread(asked, w, limit) && i + limit < |fetched|
    requires forall k {:trigger Earliest(ps, asked, fetched, k)} ::
               0 <= k < |fetched| ==> fetched[k] == Earliest(ps, asked, fetched, k)
    ensures Apart(fetched, w, limit, i)
  {
    assert Apart(asked, w, limit, i);
    assert fetched[i] == Earliest(ps, asked, fetched, i);
    assert fetched[i + limit] == Earliest(ps, asked, fetched, i + limit);
    if i > 0 { PacingKeepsSpread(ps, asked, fetched, w, limit, i - 1); }
  }

  // ---- What was spent on the requests ------------------------------------------------------------------------

  /** In any window, what was sent or waits had its unit spent there, each its own. */
  ghost predicate SpentFor(first: Q.Quota, j: Joint, lo: int, hi: int) {
    && Q.NeverRetuned(j.client.shared.quotaLog)
    && CountIn(j.sent, lo, hi) + CountIn(j.waits, lo, hi)
       <= CountIn(Q.AcceptedAt(first, j.client.shared.quotaLog), lo, hi)
  }

  /** A client step asks only after the quota accepted, in the same instant, and otherwise adds nothing to pay for. */
  lemma AskSpends(c: C.Config, first: Q.Quota, cl: C.Sys, step: C.Step, lo: int, hi: int)
    requires c.paced && !c.adaptive && C.Enabled(cl, step)
    requires cl.shared.quota.Some? && C.QuotaExplained(Some(first), cl.shared) && Q.NeverRetuned(cl.shared.quotaLog)
    ensures var log := C.Next(c, cl, step).shared.quotaLog;
            && Q.NeverRetuned(log)
            && CountIn(Q.AcceptedAt(first, log), lo, hi)
               >= CountIn(Q.AcceptedAt(first, cl.shared.quotaLog), lo, hi)
                  + if Asks(c, cl, step) && lo <= cl.shared.now < hi then 1 else 0
  {
    match step
    case Begin(_, cost) =>
      var g := C.Asked(c, cl.shared, B.Acquire(cl.shared.now));
      StartSpends(c, first, g, C.Admitted(g, cost), lo, hi);
    case WakeUp(i) => StartSpends(c, first, cl.shared, cl.execs[i], lo, hi);
    case _ =>
  }

  lemma StartSpends(c: C.Config, first: Q.Quota, h: C.Shared, e: C.Exec, lo: int, hi: int)
    requires h.quota.Some? && h.quota.value == Q.Run(first, h.quotaLog) && Q.NeverRetuned(h.quotaLog)
    ensures var log, accepted := C.StartShared(c, h, e).quotaLog, Q.AcceptedAt(first, h.quotaLog);
            && Q.NeverRetuned(log)
            && CountIn(Q.AcceptedAt(first, log), lo, hi)
               == CountIn(accepted, lo, hi) + if C.HasBudget(h, e.cost) && lo <= h.now < hi then 1 else 0
  {
    var op := Q.Consume(h.now, e.cost);
    Q.OneMore(first, h.quotaLog, op);
    CountInOne(Q.AcceptedAt(first, h.quotaLog), h.now, lo, hi);
    assert C.HasBudget(h, e.cost) <==> Q.Spends(Q.Run(first, h.quotaLog), op);
    assert C.StartShared(c, h, e).quotaLog == h.quotaLog + [op];
  }

  lemma SpentForStep(c: C.Config, ps: R.Settings, first: Q.Quota, j: Joint, step: Step, lo: int, hi: int)
    requires c.paced && !c.adaptive && Enabled(c, ps, j, step)
    requires j.client.shared.quota.Some? && C.QuotaExplained(Some(first), j.client.shared) && SpentFor(first, j, lo, hi)
    ensures SpentFor(first, Next(c, ps, j, step), lo, hi)
  {
    match step
    case Client(st) =>
      AskSpends(c, first, j.client, st, lo, hi);
      CountInOne(j.waits, j.Now(), lo, hi);
    case Loop(checkedAt) =>
      if R.Dispatches(ps, j.pacer, checkedAt) {
        AskSpends(c, first, j.client, C.Slot(j.pacer.queue[0], true), lo, hi);
        CountInOne(j.sent, j.waits[0], lo, hi);
        CountInFirst(j.waits, lo, hi);
      }
    case Wake =>
    case Sweep => assert CountIn(j.waits, lo, hi) >= 0;
    case Refuse(i) => AskSpends(c, first, j.client, C.Slot(i, false), lo, hi);
  }

  lemma CountInFirst(s: seq<int>, lo: int, hi: int)
    requires s != []
    ensures CountIn(s, lo, hi) == CountIn(s[1..], lo, hi) + if lo <= s[0] < hi then 1 else 0
  {
    assert s == [s[0]] + s[1..];
    CountInConcat([s[0]], s[1..], lo, hi);
    CountInOne([], s[0], lo, hi);
    assert [] + [s[0]] == [s[0]];
  }

  /** The client's own steps are those of its model, so what is known of its quota holds here too. */
  ghost predicate QuotaKnown(first: Option<Q.Quota>, j: Joint) {
    && C.QuotaExplained(first, j.client.shared) && Q.Costly(j.client.shared.quotaLog)
    && forall i :: 0 <= i < |j.client.execs| ==> j.client.execs[i].cost >= 1
  }

  ghost predicate Costly(steps: seq<Step>) {
    forall n :: 0 <= n < |steps| && steps[n].Client? && steps[n].step.Begin? ==> steps[n].step.cost >= 1
  }

  lemma QuotaStepKnown(c: C.Config, ps: R.Settings, first: Option<Q.Quota>, j: Joint, step: Step)
    requires Enabled(c, ps, j, step) && QuotaKnown(first, j)
    requires step.Client? && step.step.Begin? ==> step.step.cost >= 1
    ensures QuotaKnown(first, Next(c, ps, j, step))
  {
    match step
    case Client(st) =>
      C.QuotaStepExplained(c, first, j.client, st);
      C.CostlyStep(c, j.client, st);
    case Loop(checkedAt) =>
      if R.Dispatches(ps, j.pacer, checkedAt) {
        C.QuotaStepExplained(c, first, j.client, C.Slot(j.pacer.queue[0], true));
        C.CostlyStep(c, j.client, C.Slot(j.pacer.queue[0], true));
      }
    case Refuse(i) =>
      C.QuotaStepExplained(c, first, j.client, C.Slot(i, false));
      C.CostlyStep(c, j.client, C.Slot(i, false));
    case _ =>
  }

  lemma {:induction false} AlwaysSpentFor(c: C.Config, ps: R.Settings, states: seq<Joint>, steps: seq<Step>, n: nat,
                                          lo: int, hi: int)
    requires c.paced && !c.adaptive && Costly(steps) && IsRun(c, ps, states, steps) && n < |states|
    requires states[0].client.shared.quota.Some?
    ensures QuotaKnown(states[0].client.shared.quota, states[n])
    ensures SpentFor(states[0].client.shared.quota.value, states[n], lo, hi)
  {
    if n > 0 {
      AlwaysSpentFor(c, ps, states, steps, n - 1, lo, hi);
      QuotaStepKnown(c, ps, states[0].client.shared.quota, states[n - 1], steps[n - 1]);
      SpentForStep(c, ps, states[0].client.shared.quota.value, states[n - 1], steps[n - 1], lo, hi);
    }
  }
}
