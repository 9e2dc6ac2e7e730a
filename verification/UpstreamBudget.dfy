/**
 * The per-subject upstream-call budget: reserve one unit, run the handler, settle to the true cost. Any number of
 * requests run concurrently; every script on the quota store is one atomic step, and time may pass between the
 * instant a reservation computes its key and the instant its script runs.
 */
module UpstreamBudgets {
  import opened Common
  import opened QuotaStores

  datatype Tier = Authenticated | Anonymous

  datatype Subject = Subject(tier: Tier, id: string)

  /** The three parts of the stored key that vary. */
  datatype Key = Key(subject: Subject, window: int)

  datatype Options = Options(authenticatedMax: int, anonymousMax: int, windowSeconds: int)
  {
    function LimitFor(tier: Tier): int {
      if tier.Authenticated? then authenticatedMax else anonymousMax
    }

    function Span(): int {
      1000 * windowSeconds
    }
  }

  function KeyFor(o: Options, subject: Subject, now: int): Key
    requires o.windowSeconds >= 1
  {
    Key(subject, WindowIndex(now, o.windowSeconds))
  }

  function WindowEnd(o: Options, k: Key): int {
    (k.window + 1) * o.Span()
  }

  // ---- The protocol ------------------------------------------------------------------------------------------

  /**
   * A request's life. `Lost` is a unit that nobody will settle: the settle script failed, or the reservation was
   * written but its reply never arrived and the request was refused.
   */
  datatype Request =
    | Open(calls: nat)
    | Keyed(key: Key, calls: nat)
    | Holding(key: Key, calls: nat)
    | Settled(key: Key, calls: nat)
    | Lost(key: Key, calls: nat)
    | Ended(calls: nat)

  datatype Sys = Sys(store: map<Key, Counter>, now: int, requests: seq<Request>)

  /** What one request's hooks, handler or store replies can do. */
  datatype Action =
    | ComputeKey(subject: Subject)
    | RunReserve(replyArrives: bool)
    | ReserveFails
    | CallUpstream
    | Respond(settleLands: bool)

  datatype Step = Tick(ms: nat) | Arrive | Act(i: nat, action: Action)

  predicate CanDo(r: Request, a: Action) {
    match a
    case ComputeKey(_) => r.Open?
    case RunReserve(_) => r.Keyed?
    case ReserveFails => r.Keyed?
    case CallUpstream => r.Open? || r.Keyed? || r.Holding?
    case Respond(_) => r.Holding?
  }

  predicate Enabled(s: Sys, step: Step) {
    step.Act? ==> step.i < |s.requests| && CanDo(s.requests[step.i], step.action)
  }

  predicate IsGranted(o: Options, st: map<Key, Counter>, now: int, r: Request, a: Action)
    requires CanDo(r, a)
  {
    a.RunReserve? && Grants(st, r.key, o.LimitFor(r.key.subject.tier), now)
  }

  function RequestAfter(o: Options, st: map<Key, Counter>, now: int, r: Request, a: Action): Request
    requires o.windowSeconds >= 1 && CanDo(r, a)
  {
    match a
    case ComputeKey(subject) => Keyed(KeyFor(o, subject, now), r.calls)
    case RunReserve(replyArrives) =>
      if !IsGranted(o, st, now, r, a) then Ended(r.calls)
      else if replyArrives then Holding(r.key, r.calls) else Lost(r.key, r.calls)
    case ReserveFails => Ended(r.calls)
    case CallUpstream =>
      (match r
       case Keyed(key, calls) => Keyed(key, calls + 1)
       case Holding(key, calls) => Holding(key, calls + 1)
       case _ => Open(r.calls + 1))
    case Respond(settleLands) => if settleLands || r.calls == 1 then Settled(r.key, r.calls) else Lost(r.key, r.calls)
  }

  function StoreAfter(o: Options, st: map<Key, Counter>, now: int, r: Request, a: Action): map<Key, Counter>
    requires CanDo(r, a)
  {
    if a.RunReserve? then Reserved(st, r.key, o.LimitFor(r.key.subject.tier), o.windowSeconds, 1, now)
    else if a == Respond(true) && r.calls != 1 then SettledBy(st, r.key, r.calls - 1, now)
    else st
  }

  function Next(o: Options, s: Sys, step: Step): Sys
    requires o.windowSeconds >= 1 && Enabled(s, step)
  {
    match step
    case Tick(ms) => s.(now := s.now + ms)
    case Arrive => s.(requests := s.requests + [Open(0)])
    case Act(i, a) =>
      var r := s.requests[i];
      Sys(StoreAfter(o, s.store, s.now, r, a), s.now, s.requests[i := RequestAfter(o, s.store, s.now, r, a)])
  }

  ghost predicate Initial(s: Sys) {
    s.store == map[] && s.requests == []
  }

  /** A run: every state is followed by the one an enabled step leads to. */
  ghost predicate IsRun(o: Options, states: seq<Sys>, steps: seq<Step>)
    requires o.windowSeconds >= 1
  {
    && |states| == |steps| + 1
    && Initial(states[0])
    && forall n :: 0 <= n < |steps| ==> Enabled(states[n], steps[n]) && states[n + 1] == Next(o, states[n], steps[n])
  }

  /** The reserve script runs before the window its key was computed for is over. */
  predicate Prompt(o: Options, s: Sys, step: Step)
    requires Enabled(s, step)
  {
    step.Act? && step.action.RunReserve? ==> s.now < WindowEnd(o, s.requests[step.i].key)
  }

  ghost predicate PromptRun(o: Options, states: seq<Sys>, steps: seq<Step>)
    requires o.windowSeconds >= 1 && IsRun(o, states, steps)
  {
    forall n :: 0 <= n < |steps| ==> Prompt(o, states[n], steps[n])
  }

  // ---- Accounts over all requests ----------------------------------------------------------------------------

  datatype Measure =
    | SettledCalls   // calls of requests whose settle landed
    | Outstanding    // reservations still held
    | LostUnits      // reservations nobody will settle
    | ActualCalls    // calls really made under a reservation
    | Potential(c: nat)  // settled calls, plus c for every unit not settled

  function Weight(m: Measure, r: Request, k: Key): int {
    match (m, r)
    case (SettledCalls, Settled(key, calls)) => if key == k then calls else 0
    case (Outstanding, Holding(key, _)) => if key == k then 1 else 0
    case (LostUnits, Lost(key, _)) => if key == k then 1 else 0
    case (ActualCalls, Settled(key, calls)) => if key == k then calls else 0
    case (ActualCalls, Holding(key, calls)) => if key == k then calls else 0
    case (ActualCalls, Lost(key, calls)) => if key == k then calls else 0
    case (Potential(c), Settled(key, calls)) => if key == k then calls else 0
    case (Potential(c), Holding(key, _)) => if key == k then c else 0
    case (Potential(c), Lost(key, _)) => if key == k then c else 0
    case _ => 0
  }

  function Total(m: Measure, rs: seq<Request>, k: Key): int {
    if rs == [] then 0 else Total(m, rs[..|rs| - 1], k) + Weight(m, rs[|rs| - 1], k)
  }

  /** What the window's counter should say. */
  function Charged(rs: seq<Request>, k: Key): int {
    Total(SettledCalls, rs, k) + Total(Outstanding, rs, k) + Total(LostUnits, rs, k)
  }

  lemma {:induction false} TotalUpdate(m: Measure, rs: seq<Request>, i: nat, r: Request, k: Key)
    requires i < |rs|
    ensures Total(m, rs[i := r], k) == Total(m, rs, k) - Weight(m, rs[i], k) + Weight(m, r, k)
  {
    var before := rs[..|rs| - 1];
    if i < |rs| - 1 {
      TotalUpdate(m, before, i, r, k);
      assert rs[i := r][..|rs| - 1] == before[i := r];
    } else {
      assert rs[i := r][..|rs| - 1] == before;
    }
  }

  lemma TotalAppend(m: Measure, rs: seq<Request>, r: Request, k: Key)
    ensures Total(m, rs + [r], k) == Total(m, rs, k) + Weight(m, r, k)
  {
    assert (rs + [r])[..|rs|] == rs;
  }

  lemma {:induction false} TotalNonNegative(m: Measure, rs: seq<Request>, k: Key)
    ensures Total(m, rs, k) >= 0
    ensures forall i :: 0 <= i < |rs| ==> Weight(m, rs[i], k) <= Total(m, rs, k)
  {
    if rs != [] { TotalNonNegative(m, rs[..|rs| - 1], k); }
  }

  lemma {:induction false} PotentialSplits(c: nat, rs: seq<Request>, k: Key)
    ensures Total(Potential(c), rs, k)
            == Total(SettledCalls, rs, k) + c * (Total(Outstanding, rs, k) + Total(LostUnits, rs, k))
  {
    if rs != [] {
      var before := rs[..|rs| - 1];
      PotentialSplits(c, before, k);
      var units := Total(Outstanding, before, k) + Total(LostUnits, before, k);
      var w := Weight(Outstanding, rs[|rs| - 1], k) + Weight(LostUnits, rs[|rs| - 1], k);
      assert c * (units + w) == c * units + c * w;
    }
  }

  lemma {:induction false} ActualWithinPotential(c: nat, rs: seq<Request>, k: Key)
    requires forall i :: 0 <= i < |rs| ==> rs[i].calls <= c
    ensures Total(ActualCalls, rs, k) <= Total(Potential(c), rs, k)
  {
    if rs != [] { ActualWithinPotential(c, rs[..|rs| - 1], k); }
  }

  // ---- Conservation ------------------------------------------------------------------------------------------

  /** The counter of a live window key is exactly what is charged to the key, and it outlives the window. */
  ghost predicate KeyConserved(o: Options, st: map<Key, Counter>, now: int, charged: int, k: Key) {
    if Live(st, k, now)
    then st[k].count == charged && st[k].expiresAt.Some? && WindowEnd(o, k) <= st[k].expiresAt.value
    else charged == 0 || WindowEnd(o, k) <= now
  }

  ghost predicate Conserved(o: Options, s: Sys, k: Key) {
    KeyConserved(o, s.store, s.now, Charged(s.requests, k), k)
  }

  /** A reservation granted under `k`, as seen by the whole system. */
  predicate GrantsUnder(o: Options, s: Sys, step: Step, k: Key)
    requires Enabled(s, step)
  {
    step.Act? && IsGranted(o, s.store, s.now, s.requests[step.i], step.action) && s.requests[step.i].key == k
  }

  /** The script of such a reservation finds the key's counter alive, or nothing was ever charged to the key. */
  predicate FindsCounter(o: Options, s: Sys, step: Step, k: Key)
    requires Enabled(s, step)
  {
    GrantsUnder(o, s, step, k) ==> Live(s.store, k, s.now) || Charged(s.requests, k) == 0
  }

  /** So did the script of every reservation granted under `k` on the way to state `n`. */
  ghost predicate AlwaysFindsCounter(o: Options, states: seq<Sys>, steps: seq<Step>, n: nat, k: Key)
    requires o.windowSeconds >= 1 && IsRun(o, states, steps) && n < |states|
  {
    n > 0 ==> AlwaysFindsCounter(o, states, steps, n - 1, k) && FindsCounter(o, states[n - 1], steps[n - 1], k)
  }

  /** The key is conserved in state `n` and was in every state before. */
  ghost predicate AlwaysConserved(o: Options, states: seq<Sys>, n: nat, k: Key)
    requires n < |states|
  {
    Conserved(o, states[n], k) && (n > 0 ==> AlwaysConserved(o, states, n - 1, k))
  }

  /** Keys are computed in the past. */
  ghost predicate KeysAreOld(o: Options, s: Sys) {
    forall i :: 0 <= i < |s.requests| && s.requests[i].Keyed? ==> s.requests[i].key.window * o.Span() <= s.now
  }

  lemma ChargedUpdate(rs: seq<Request>, i: nat, r: Request, k: Key)
    requires i < |rs|
    ensures Charged(rs[i := r], k) == Charged(rs, k) - Share(rs[i], k) + Share(r, k)
    ensures Charged(rs, k) >= Share(rs[i], k)
  {
    TotalUpdate(SettledCalls, rs, i, r, k);
    TotalUpdate(Outstanding, rs, i, r, k);
    TotalUpdate(LostUnits, rs, i, r, k);
    TotalNonNegative(SettledCalls, rs, k);
    TotalNonNegative(Outstanding, rs, k);
    TotalNonNegative(LostUnits, rs, k);
  }

  /** What one request accounts for. */
  function Share(r: Request, k: Key): int {
    Weight(SettledCalls, r, k) + Weight(Outstanding, r, k) + Weight(LostUnits, r, k)
  }

  /**
   * An action changes the counter by exactly what it changes in the request's share, unless it is a reservation granted
   * under the key that finds the counter gone and something charged.
   */
  lemma ActionConserves(o: Options, st: map<Key, Counter>, now: int, r: Request, a: Action, k: Key, charged: int)
    requires o.windowSeconds >= 1 && CanDo(r, a) && charged >= Share(r, k)
    requires a.RunReserve? ==> r.key.window * o.Span() <= now
    requires IsGranted(o, st, now, r, a) && r.key == k ==> Live(st, k, now) || charged == 0
    requires KeyConserved(o, st, now, charged, k)
    ensures KeyConserved(o, StoreAfter(o, st, now, r, a), now,
                         charged - Share(r, k) + Share(RequestAfter(o, st, now, r, a), k), k)
  {
    if a.RunReserve? {
      assert WindowEnd(o, r.key) == r.key.window * o.Span() + o.Span();
    }
  }

  lemma ConservedStep(o: Options, s: Sys, step: Step, k: Key)
    requires o.windowSeconds >= 1 && Enabled(s, step) && FindsCounter(o, s, step, k)
    requires KeysAreOld(o, s) && Conserved(o, s, k)
    ensures Conserved(o, Next(o, s, step), k)
  {
    match step
    case Tick(_) =>
    case Arrive =>
      TotalAppend(SettledCalls, s.requests, Open(0), k);
      TotalAppend(Outstanding, s.requests, Open(0), k);
      TotalAppend(LostUnits, s.requests, Open(0), k);
    case Act(i, a) =>
      var r := s.requests[i];
      ChargedUpdate(s.requests, i, RequestAfter(o, s.store, s.now, r, a), k);
      ActionConserves(o, s.store, s.now, r, a, k, Charged(s.requests, k));
  }

  /** One step keeps a key conserved iff it is no reservation that finds the counter gone and something charged. */
  lemma ConservedStepIff(o: Options, s: Sys, step: Step, k: Key)
    requires o.windowSeconds >= 1 && Enabled(s, step) && KeysAreOld(o, s) && Conserved(o, s, k)
    ensures Conserved(o, Next(o, s, step), k) <==> FindsCounter(o, s, step, k)
  {
    if FindsCounter(o, s, step, k) {
      ConservedStep(o, s, step, k);
    } else {
      ReserveConservesIff(o, s, step.i, step.action.replyArrives);
    }
  }

  lemma KeysAreOldStep(o: Options, s: Sys, step: Step)
    requires o.windowSeconds >= 1 && Enabled(s, step) && KeysAreOld(o, s)
    ensures KeysAreOld(o, Next(o, s, step))
  {
    IndexBounds(s.now, o.windowSeconds);
  }

  lemma {:induction false} KeysAreAlwaysOld(o: Options, states: seq<Sys>, steps: seq<Step>, n: nat)
    requires o.windowSeconds >= 1 && IsRun(o, states, steps) && n < |states|
    ensures KeysAreOld(o, states[n])
  {
    if n > 0 {
      KeysAreAlwaysOld(o, states, steps, n - 1);
      KeysAreOldStep(o, states[n - 1], steps[n - 1]);
    }
  }

  /**
   * In any run a window key is conserved in every state iff no reservation granted under it finds the counter gone and
   * something charged.
   */
  lemma {:induction false} BudgetConservation(o: Options, states: seq<Sys>, steps: seq<Step>, n: nat, k: Key)
    requires o.windowSeconds >= 1 && IsRun(o, states, steps) && n < |states|
    ensures AlwaysConserved(o, states, n, k) <==> AlwaysFindsCounter(o, states, steps, n, k)
  {
    if n > 0 {
      BudgetConservation(o, states, steps, n - 1, k);
      if AlwaysConserved(o, states, n - 1, k) {
        KeysAreAlwaysOld(o, states, steps, n - 1);
        ConservedStepIff(o, states[n - 1], steps[n - 1], k);
      }
    }
  }

  /** Prompt runs are among those, for every key: a key whose window is not over has its counter if it has a charge. */
  lemma {:induction false} PromptAlwaysFindsCounter(o: Options, states: seq<Sys>, steps: seq<Step>, n: nat, k: Key)
    requires o.windowSeconds >= 1 && IsRun(o, states, steps) && PromptRun(o, states, steps) && n < |states|
    ensures AlwaysFindsCounter(o, states, steps, n, k)
  {
    if n > 0 {
      PromptAlwaysFindsCounter(o, states, steps, n - 1, k);
      BudgetConservation(o, states, steps, n - 1, k);
      assert Prompt(o, states[n - 1], steps[n - 1]);
    }
  }

  /** Where a key is conserved the clamp at zero in the settle script never fires. */
  lemma ClampNeverFires(o: Options, states: seq<Sys>, steps: seq<Step>, n: nat)
    requires o.windowSeconds >= 1 && IsRun(o, states, steps) && n < |steps|
    requires steps[n].Act? && steps[n].action.Respond?
    requires AlwaysFindsCounter(o, states, steps, n, states[n].requests[steps[n].i].key)
    ensures var s, r := states[n], states[n].requests[steps[n].i];
            Live(s.store, r.key, s.now) ==> s.store[r.key].count + (r.calls - 1) >= 0
  {
    var s, i := states[n], steps[n].i;
    BudgetConservation(o, states, steps, n, s.requests[i].key);
    ChargedUpdate(s.requests, i, s.requests[i], s.requests[i].key);
  }

  // ---- When the script is late -------------------------------------------------------------------------------

  /**
   * What a granted reservation does to conservation, prompt or not: the counter stays right iff the key is still
   * live or nothing was ever charged to it. Otherwise the script re-creates a counter that forgets.
   */
  lemma ReserveConservesIff(o: Options, s: Sys, i: nat, replyArrives: bool)
    requires o.windowSeconds >= 1 && Enabled(s, Act(i, RunReserve(replyArrives)))
    requires Conserved(o, s, s.requests[i].key)
    requires IsGranted(o, s.store, s.now, s.requests[i], RunReserve(replyArrives))
    ensures var k, t := s.requests[i].key, Next(o, s, Act(i, RunReserve(replyArrives)));
            Live(t.store, k, s.now)
            && (t.store[k].count == Charged(t.requests, k) <==> Live(s.store, k, s.now) || Charged(s.requests, k) == 0)
  {
    var t := Next(o, s, Act(i, RunReserve(replyArrives)));
    ChargedUpdate(s.requests, i, t.requests[i], s.requests[i].key);
  }

  /** A granted reservation whose reply is lost stays charged, and nobody is left to settle it. */
  lemma LostReplyIsNeverSettled(o: Options, s: Sys, i: nat, more: Action)
    requires o.windowSeconds >= 1 && Enabled(s, Act(i, RunReserve(false)))
    requires IsGranted(o, s.store, s.now, s.requests[i], RunReserve(false))
    ensures var k, t := s.requests[i].key, Next(o, s, Act(i, RunReserve(false)));
            !CanDo(t.requests[i], more) && Charged(t.requests, k) == Charged(s.requests, k) + 1
  {
    ChargedUpdate(s.requests, i, Next(o, s, Act(i, RunReserve(false))).requests[i], s.requests[i].key);
  }

  /** Whether a settle lands makes a difference iff the request made any other number of calls than one. */
  lemma LandingMattersIff(o: Options, s: Sys, i: nat)
    requires o.windowSeconds >= 1 && i < |s.requests| && s.requests[i].Holding?
    ensures Next(o, s, Act(i, Respond(true))) != Next(o, s, Act(i, Respond(false))) <==> s.requests[i].calls != 1
  {
    assert Next(o, s, Act(i, Respond(true))).requests[i].Settled?;
  }

  lemma TwoRequests(m: Measure, a: Request, b: Request, k: Key)
    ensures Total(m, [a, b], k) == Weight(m, a, k) + Weight(m, b, k)
  {
    assert [a, b][..1] == [a] && [a][..0] == [];
    assert Total(m, [a], k) == Weight(m, a, k);
  }

  lemma ChargedToTwo(a: Request, b: Request, k: Key)
    ensures Charged([a, b], k) == Share(a, k) + Share(b, k)
  {
    TwoRequests(SettledCalls, a, b, k);
    TwoRequests(Outstanding, a, b, k);
    TwoRequests(LostUnits, a, b, k);
  }

  /** One late script, run when the key's first counter has just expired: the new counter forgets a held unit. */
  lemma LateReserveForgets(o: Options, k: Key, now: int)
    requires o.windowSeconds >= 1 && o.LimitFor(k.subject.tier) >= 1 && WindowEnd(o, k) <= now
    ensures var s := Sys(map[k := Counter(1, Some(now))], now, [Holding(k, 0), Keyed(k, 0)]);
            var t := Next(o, s, Act(1, RunReserve(true)));
            && Conserved(o, s, k) && !Prompt(o, s, Act(1, RunReserve(true)))
            && t == Sys(map[k := Counter(1, Some(now + o.Span()))], now, [Holding(k, 0), Holding(k, 0)])
            && Charged(t.requests, k) == 2
  {
    var s := Sys(map[k := Counter(1, Some(now))], now, [Holding(k, 0), Keyed(k, 0)]);
    ChargedToTwo(Holding(k, 0), Keyed(k, 0), k);
    var t := Next(o, s, Act(1, RunReserve(true)));
    assert t.requests == [Holding(k, 0), Holding(k, 0)];
    ChargedToTwo(Holding(k, 0), Holding(k, 0), k);
  }

  /**
   * A run gets there: one request reserves at the start of a window, another computes its key in the window's last
   * millisecond and runs its script one millisecond later, when the counter has just expired.
   */
  lemma LateReserveIsReached(o: Options, subject: Subject) returns (states: seq<Sys>, steps: seq<Step>)
    requires o.windowSeconds >= 1 && o.LimitFor(subject.tier) >= 1
    ensures IsRun(o, states, steps)
    ensures var k := Key(subject, 0);
            && states[|steps|] == Sys(map[k := Counter(1, Some(o.Span()))], o.Span(), [Holding(k, 0), Keyed(k, 0)])
            && WindowEnd(o, k) <= o.Span()
  {
    var k, span := Key(subject, 0), o.Span();
    states, steps := CrowdForms(o, subject, 1, 0);
    assert states[|steps|].requests == [Holding(k, 0)];
    states, steps := ExtendRun(o, states, steps, Tick(span - 1));
    states, steps := ExtendRun(o, states, steps, Arrive);
    assert states[|steps|].requests == [Holding(k, 0), Open(0)];
    assert KeyFor(o, subject, span - 1) == k by { IndexUnique(span - 1, 0, o.windowSeconds); }
    states, steps := ExtendRun(o, states, steps, Act(1, ComputeKey(subject)));
    assert states[|steps|].requests == [Holding(k, 0), Keyed(k, 0)];
    states, steps := ExtendRun(o, states, steps, Tick(1));
  }

  /** From there two cache hits settle: the first refund already empties the counter and the second is clamped. */
  lemma LateReserveThenClamp(o: Options, k: Key, now: int)
    requires o.windowSeconds >= 1
    ensures var t := Sys(map[k := Counter(1, Some(now + o.Span()))], now, [Holding(k, 0), Holding(k, 0)]);
            var u := Next(o, t, Act(0, Respond(true)));
            var v := Next(o, u, Act(1, Respond(true)));
            && Live(u.store, k, now) && u.store[k].count == 0 && u.requests[1] == Holding(k, 0)
            && Live(v.store, k, now) && v.store[k].count == 0
  {
  }

  // ---- Bounds ------------------------------------------------------------------------------------------------

  ghost predicate CallsBounded(rs: seq<Request>, c: nat) {
    forall i :: 0 <= i < |rs| ==> rs[i].calls <= c
  }

  lemma CallsOnlyGrow(o: Options, s: Sys, step: Step, c: nat)
    requires o.windowSeconds >= 1 && Enabled(s, step) && CallsBounded(Next(o, s, step).requests, c)
    ensures CallsBounded(s.requests, c)
  {
    var t := Next(o, s, step);
    forall j | 0 <= j < |s.requests| ensures s.requests[j].calls <= c {
      assert s.requests[j].calls <= t.requests[j].calls;
    }
  }

  /** It found fewer than `limit` units charged. */
  lemma GrantSeesRoom(o: Options, s: Sys, step: Step, k: Key)
    requires o.windowSeconds >= 1 && Enabled(s, step) && FindsCounter(o, s, step, k) && Conserved(o, s, k)
    requires GrantsUnder(o, s, step, k)
    ensures Charged(s.requests, k) < o.LimitFor(k.subject.tier)
  {
  }

  /** Only a granted reservation raises the potential, and it raises it by c. */
  lemma PotentialChange(o: Options, s: Sys, step: Step, k: Key, c: nat)
    requires o.windowSeconds >= 1 && Enabled(s, step) && CallsBounded(Next(o, s, step).requests, c)
    ensures Total(Potential(c), Next(o, s, step).requests, k)
            <= Total(Potential(c), s.requests, k) + if GrantsUnder(o, s, step, k) then c else 0
  {
    match step
    case Tick(_) =>
    case Arrive => TotalAppend(Potential(c), s.requests, Open(0), k);
    case Act(i, a) =>
      var r, r' := s.requests[i], RequestAfter(o, s.store, s.now, s.requests[i], a);
      TotalUpdate(Potential(c), s.requests, i, r', k);
      assert Next(o, s, step).requests[i].calls <= c;
  }

  lemma PotentialStep(o: Options, s: Sys, step: Step, k: Key, c: nat)
    requires o.windowSeconds >= 1 && Enabled(s, step) && FindsCounter(o, s, step, k) && Conserved(o, s, k)
    requires c >= 1 && CallsBounded(Next(o, s, step).requests, c)
    requires Total(Potential(c), s.requests, k) <= Max(0, o.LimitFor(k.subject.tier)) * c
    ensures Total(Potential(c), Next(o, s, step).requests, k) <= Max(0, o.LimitFor(k.subject.tier)) * c
  {
    PotentialChange(o, s, step, k, c);
    if GrantsUnder(o, s, step, k) {
      GrantSeesRoom(o, s, step, k);
      PotentialSplits(c, s.requests, k);
      UnitsNonNegative(s.requests, k);
      RoomForOneMore(Total(SettledCalls, s.requests, k),
                     Total(Outstanding, s.requests, k) + Total(LostUnits, s.requests, k),
                     o.LimitFor(k.subject.tier), c);
    }
  }

  lemma UnitsNonNegative(rs: seq<Request>, k: Key)
    ensures Total(SettledCalls, rs, k) >= 0 && Total(Outstanding, rs, k) >= 0 && Total(LostUnits, rs, k) >= 0
  {
    TotalNonNegative(SettledCalls, rs, k);
    TotalNonNegative(Outstanding, rs, k);
    TotalNonNegative(LostUnits, rs, k);
  }

  lemma RoomForOneMore(settled: int, units: int, limit: int, c: int)
    requires c >= 1 && settled >= 0 && settled + units < limit
    ensures settled + c * units + c <= limit * c
  {
    assert c * settled >= settled;
    assert c * (settled + units + 1) <= c * limit;
    assert c * (settled + units + 1) == c * settled + c * units + c;
  }

  lemma {:induction false} PotentialBound(o: Options, states: seq<Sys>, steps: seq<Step>, n: nat, k: Key, c: nat)
    requires o.windowSeconds >= 1 && IsRun(o, states, steps) && n < |states|
    requires AlwaysFindsCounter(o, states, steps, n, k)
    requires c >= 1 && CallsBounded(states[n].requests, c)
    ensures Total(Potential(c), states[n].requests, k) <= Max(0, o.LimitFor(k.subject.tier)) * c
  {
    if n > 0 {
      CallsOnlyGrow(o, states[n - 1], steps[n - 1], c);
      PotentialBound(o, states, steps, n - 1, k, c);
      BudgetConservation(o, states, steps, n - 1, k);
      PotentialStep(o, states[n - 1], steps[n - 1], k, c);
    }
  }

  /**
   * The overrun bound: if no request makes more than c >= 1 upstream calls, the calls really made under one window
   * key never exceed the maximum of its subject's tier times c. Losing settles does not weaken it, because a lost unit
   * stays charged.
   */
  lemma OverrunBound(o: Options, states: seq<Sys>, steps: seq<Step>, n: nat, k: Key, c: nat)
    requires o.windowSeconds >= 1 && IsRun(o, states, steps) && n < |states|
    requires AlwaysFindsCounter(o, states, steps, n, k)
    requires c >= 1 && CallsBounded(states[n].requests, c)
    ensures k.subject.tier.Authenticated? ==>
              Total(ActualCalls, states[n].requests, k) <= Max(0, o.authenticatedMax) * c
    ensures k.subject.tier.Anonymous? ==> Total(ActualCalls, states[n].requests, k) <= Max(0, o.anonymousMax) * c
  {
    PotentialBound(o, states, steps, n, k, c);
    ActualWithinPotential(c, states[n].requests, k);
  }

  lemma ExtendRun(o: Options, states: seq<Sys>, steps: seq<Step>, step: Step)
    returns (states': seq<Sys>, steps': seq<Step>)
    requires o.windowSeconds >= 1 && IsRun(o, states, steps) && PromptRun(o, states, steps)
    requires Enabled(states[|steps|], step) && Prompt(o, states[|steps|], step)
    ensures IsRun(o, states', steps') && PromptRun(o, states', steps')
    ensures |steps'| == |steps| + 1 && states'[|steps'|] == Next(o, states[|steps|], step)
  {
    states', steps' := states + [Next(o, states[|steps|], step)], steps + [step];
  }

  /** n requests of one subject in flight at once, each having made c calls. */
  function Crowd(o: Options, subject: Subject, n: nat, c: nat): Sys {
    var k := Key(subject, 0);
    Sys(if n == 0 then map[] else map[k := Counter(n, Some(o.Span()))], 0, seq(n, _ => Holding(k, c)))
  }

  lemma {:induction false} CrowdForms(o: Options, subject: Subject, n: nat, c: nat)
    returns (states: seq<Sys>, steps: seq<Step>)
    requires o.windowSeconds >= 1 && n <= o.LimitFor(subject.tier)
    ensures IsRun(o, states, steps) && PromptRun(o, states, steps)
    ensures states[|steps|] == Crowd(o, subject, n, c)
  {
    if n == 0 {
      states, steps := [Sys(map[], 0, [])], [];
    } else {
      var s := Crowd(o, subject, n - 1, c);
      var k := Key(subject, 0);
      assert KeyFor(o, subject, 0) == k;
      states, steps := CrowdForms(o, subject, n - 1, c);
      states, steps := ExtendRun(o, states, steps, Arrive);
      states, steps := ExtendRun(o, states, steps, Act(n - 1, ComputeKey(subject)));
      states, steps := ExtendRun(o, states, steps, Act(n - 1, RunReserve(true)));
      assert states[|steps|].requests == s.requests + [Holding(k, 0)];
      states, steps := CallsAdd(o, states, steps, s.requests, k, c);
      assert states[|steps|].requests == Crowd(o, subject, n, c).requests;
    }
  }

  /** The newest request makes c calls. */
  lemma {:induction false} CallsAdd(o: Options, states: seq<Sys>, steps: seq<Step>, rs: seq<Request>, k: Key, c: nat)
    returns (states': seq<Sys>, steps': seq<Step>)
    requires o.windowSeconds >= 1 && IsRun(o, states, steps) && PromptRun(o, states, steps)
    requires states[|steps|].requests == rs + [Holding(k, 0)]
    ensures IsRun(o, states', steps') && PromptRun(o, states', steps')
    ensures states'[|steps'|] == states[|steps|].(requests := rs + [Holding(k, c)])
  {
    if c == 0 {
      states', steps' := states, steps;
    } else {
      states', steps' := CallsAdd(o, states, steps, rs, k, c - 1);
      states', steps' := ExtendRun(o, states', steps', Act(|rs|, CallUpstream));
      assert states'[|steps'|].requests == rs + [Holding(k, c)];
    }
  }

  /** The overrun bound is sharp: `limit` concurrent requests of c calls each reach it, for every limit and c. */
  lemma OverrunIsReached(o: Options, subject: Subject, c: nat) returns (states: seq<Sys>, steps: seq<Step>)
    requires o.windowSeconds >= 1 && o.LimitFor(subject.tier) >= 0
    ensures IsRun(o, states, steps) && PromptRun(o, states, steps)
    ensures CallsBounded(states[|steps|].requests, c)
    ensures var limit := if subject.tier.Authenticated? then o.authenticatedMax else o.anonymousMax;
            Total(ActualCalls, states[|steps|].requests, Key(subject, 0)) == limit * c
  {
    states, steps := CrowdForms(o, subject, o.LimitFor(subject.tier), c);
    CrowdCalls(Key(subject, 0), o.LimitFor(subject.tier), c);
  }

  lemma {:induction false} CrowdCalls(k: Key, n: nat, c: nat)
    ensures Total(ActualCalls, seq(n, _ => Holding(k, c)), k) == n * c
  {
    if n > 0 {
      CrowdCalls(k, n - 1, c);
      assert seq(n, _ => Holding(k, c))[..n - 1] == seq(n - 1, _ => Holding(k, c));
    }
  }

  /** The reservation is also a concurrency cap: held plus lost units per window key never exceed the limit. */
  lemma {:induction false} ConcurrencyCap(o: Options, states: seq<Sys>, steps: seq<Step>, n: nat, k: Key)
    requires o.windowSeconds >= 1 && IsRun(o, states, steps) && n < |states|
    requires AlwaysFindsCounter(o, states, steps, n, k)
    ensures Units(states[n], k) <= Max(0, if k.subject.tier.Authenticated? then o.authenticatedMax else o.anonymousMax)
  {
    if n > 0 {
      ConcurrencyCap(o, states, steps, n - 1, k);
      BudgetConservation(o, states, steps, n - 1, k);
      UnitsChange(o, states[n - 1], steps[n - 1], k);
      if GrantsUnder(o, states[n - 1], steps[n - 1], k) {
        GrantSeesRoom(o, states[n - 1], steps[n - 1], k);
        UnitsNonNegative(states[n - 1].requests, k);
      }
    }
  }

  /** Reservations under `k` that are held or will never be settled. */
  function Units(s: Sys, k: Key): int {
    Total(Outstanding, s.requests, k) + Total(LostUnits, s.requests, k)
  }

  lemma UnitsChange(o: Options, s: Sys, step: Step, k: Key)
    requires o.windowSeconds >= 1 && Enabled(s, step)
    ensures Units(Next(o, s, step), k) <= Units(s, k) + if GrantsUnder(o, s, step, k) then 1 else 0
    ensures GrantsUnder(o, s, step, k) ==> Units(Next(o, s, step), k) == Units(s, k) + 1
  {
    match step
    case Tick(_) =>
    case Arrive =>
      TotalAppend(Outstanding, s.requests, Open(0), k);
      TotalAppend(LostUnits, s.requests, Open(0), k);
    case Act(i, a) =>
      var r' := RequestAfter(o, s.store, s.now, s.requests[i], a);
      TotalUpdate(Outstanding, s.requests, i, r', k);
      TotalUpdate(LostUnits, s.requests, i, r', k);
  }

  /** Requests under `k` run one after the other and no settle is lost before the next reservation. */
  ghost predicate Sequential(states: seq<Sys>, k: Key) {
    forall n :: 0 <= n < |states| ==> Units(states[n], k) <= 1
  }

  /** Sequential requests overrun by at most one request's worth: limit - 1 + c calls. */
  lemma {:induction false} SequentialOverrun(o: Options, states: seq<Sys>, steps: seq<Step>, n: nat, k: Key, c: nat)
    requires o.windowSeconds >= 1 && IsRun(o, states, steps) && n < |states|
    requires AlwaysFindsCounter(o, states, steps, n, k)
    requires c >= 1 && CallsBounded(states[n].requests, c) && Sequential(states, k)
    ensures var limit := if k.subject.tier.Authenticated? then o.authenticatedMax else o.anonymousMax;
            && Total(Potential(c), states[n].requests, k) <= Max(0, limit - 1 + c)
            && Total(ActualCalls, states[n].requests, k) <= Max(0, limit - 1 + c)
  {
    ActualWithinPotential(c, states[n].requests, k);
    if n > 0 {
      var s, step := states[n - 1], steps[n - 1];
      CallsOnlyGrow(o, s, step, c);
      SequentialOverrun(o, states, steps, n - 1, k, c);
      BudgetConservation(o, states, steps, n - 1, k);
      PotentialChange(o, s, step, k, c);
      if GrantsUnder(o, s, step, k) {
        assert Units(states[n], k) <= 1;
        SoleReservation(o, s, step, k, c);
      }
    }
  }

  lemma SoleReservation(o: Options, s: Sys, step: Step, k: Key, c: nat)
    requires o.windowSeconds >= 1 && Enabled(s, step) && FindsCounter(o, s, step, k) && Conserved(o, s, k)
    requires GrantsUnder(o, s, step, k) && Units(Next(o, s, step), k) <= 1
    ensures Total(Potential(c), s.requests, k) <= o.LimitFor(k.subject.tier) - 1
  {
    GrantSeesRoom(o, s, step, k);
    UnitsChange(o, s, step, k);
    UnitsNonNegative(s.requests, k);
    PotentialSplits(c, s.requests, k);
    assert Units(s, k) == 0;
  }

  // ---- Lost settles ------------------------------------------------------------------------------------------

  /** How far the calls of lost requests exceed the single unit each left charged. */
  function LostExcess(rs: seq<Request>, k: Key): int {
    if rs == [] then 0
    else LostExcess(rs[..|rs| - 1], k)
         + if rs[|rs| - 1].Lost? && rs[|rs| - 1].key == k then rs[|rs| - 1].calls - 1 else 0
  }

  lemma {:induction false} AtRestSplit(rs: seq<Request>, k: Key)
    requires Total(Outstanding, rs, k) == 0
    ensures Total(ActualCalls, rs, k) == Total(SettledCalls, rs, k) + Total(LostUnits, rs, k) + LostExcess(rs, k)
  {
    if rs != [] {
      TotalNonNegative(Outstanding, rs[..|rs| - 1], k);
      AtRestSplit(rs[..|rs| - 1], k);
    }
  }

  /**
   * The plugin says a settle that never lands never under-charges. Once a window is at rest its counter is the
   * calls really made minus the excess of the lost requests, so it under-charges exactly when the lost requests
   * made more calls than there are of them.
   */
  lemma LostSettleUnderchargesIff(o: Options, states: seq<Sys>, steps: seq<Step>, n: nat, k: Key)
    requires o.windowSeconds >= 1 && IsRun(o, states, steps) && n < |states|
    requires AlwaysFindsCounter(o, states, steps, n, k)
    requires Live(states[n].store, k, states[n].now) && Total(Outstanding, states[n].requests, k) == 0
    ensures var s := states[n];
            s.store[k].count == Total(ActualCalls, s.requests, k) - LostExcess(s.requests, k)
            && (s.store[k].count < Total(ActualCalls, s.requests, k) <==> LostExcess(s.requests, k) > 0)
  {
    BudgetConservation(o, states, steps, n, k);
    AtRestSplit(states[n].requests, k);
  }

  /** It does happen: one request makes c >= 2 calls and its settle is lost; its window stays charged for one. */
  lemma LostSettleUndercharges(o: Options, subject: Subject, c: nat) returns (states: seq<Sys>, steps: seq<Step>)
    requires o.windowSeconds >= 1 && o.LimitFor(subject.tier) >= 1 && c >= 2
    ensures IsRun(o, states, steps) && PromptRun(o, states, steps)
    ensures var s, k := states[|steps|], Key(subject, 0);
            && Live(s.store, k, s.now) && s.store[k].count == 1 && Total(Outstanding, s.requests, k) == 0
            && Total(ActualCalls, s.requests, k) == c && LostExcess(s.requests, k) == c - 1
  {
    var k := Key(subject, 0);
    states, steps := CrowdForms(o, subject, 1, c);
    assert states[|steps|].requests == [Holding(k, c)];
    states, steps := ExtendRun(o, states, steps, Act(0, Respond(false)));
    assert states[|steps|].requests == [Lost(k, c)];
    OneRequest(Outstanding, Lost(k, c), k);
    OneRequest(ActualCalls, Lost(k, c), k);
    assert [Lost(k, c)][..0] == [];
  }

  lemma OneRequest(m: Measure, r: Request, k: Key)
    ensures Total(m, [r], k) == Weight(m, r, k)
  {
    assert [r][..0] == [];
  }

  // ---- The classes -------------------------------------------------------------------------------------------

  datatype Reservation = Reservation(key: Key, tier: Tier, limit: int, reserved: int, count: int, ttlSeconds: int)

  datatype Decision =
    | Allowed(reservation: Reservation)
    | Refused(tier: Tier, limit: int, retryAfterSeconds: int)

  datatype StoreError = Unavailable

  /** How long a decision says a counter still lives; one without expiry counts as a whole window. */
  function SecondsLeft(st: map<Key, Counter>, key: Key, window: int, now: int): (seconds: int)
    ensures if Live(st, key, now) && st[key].expiresAt.Some?
            then -500 <= st[key].expiresAt.value - now - 1000 * seconds < 500 else seconds == window
  {
    if Ttl(st, key, now) < 0 then window else Ttl(st, key, now)
  }

  class UpstreamBudget {
    const store: QuotaStore<Key>
    const options: Options
    var failedClosed: nat
    var settleFailures: nat

    constructor (store: QuotaStore<Key>, options: Options)
      requires options.windowSeconds >= 1
      ensures this.store == store && this.options == options && failedClosed == settleFailures == 0
    {
      this.store, this.options := store, options;
      failedClosed, settleFailures := 0, 0;
    }

    /** `ranAt` is when the script runs on the store; `reachable` is whether the store answers at all. */
    method Reserve(subject: Subject, now: int, ranAt: int, reachable: bool) returns (d: Result<Decision, StoreError>)
      requires options.windowSeconds >= 1
      modifies this, store
      ensures !reachable ==> d.Err? && store.counters == old(store.counters) && failedClosed == old(failedClosed) + 1
      ensures reachable ==>
                var key := KeyFor(options, subject, now);
                var limit := if subject.tier.Authenticated? then options.authenticatedMax else options.anonymousMax;
                && d.Ok? && failedClosed == old(failedClosed)
                && key.subject == subject && key.window * options.Span() <= now < (key.window + 1) * options.Span()
                && store.counters == Reserved(old(store.counters), key, limit, options.windowSeconds, 1, ranAt)
                && (d.value.Allowed? <==>
                      (if Live(old(store.counters), key, ranAt) then old(store.counters)[key].count else 0) < limit)
                && (d.value.Allowed? ==>
                      && d.value.reservation.key == key && d.value.reservation.reserved == 1
                      && d.value.reservation.tier == subject.tier && d.value.reservation.limit == limit
                      && d.value.reservation.count == Value(old(store.counters), key, ranAt) + 1
                      && d.value.reservation.ttlSeconds
                         == SecondsLeft(store.counters, key, options.windowSeconds, ranAt))
                && (d.value.Refused? ==>
                      && d.value.tier == subject.tier && d.value.limit == limit
                      && d.value.retryAfterSeconds == SecondsLeft(store.counters, key, options.windowSeconds, ranAt))
    {
      var limit := options.LimitFor(subject.tier);
      var window := options.windowSeconds;
      var key := KeyFor(options, subject, now);
      if !reachable {
        failedClosed := failedClosed + 1;
        return Err(Unavailable);
      }
      var allowed, count, ttl := store.RunReserve(key, limit, window, 1, ranAt);
      var ttlSeconds := if ttl < 0 then window else ttl;
      if !allowed {
        return Ok(Refused(subject.tier, limit, ttlSeconds));
      }
      return Ok(Allowed(Reservation(key, subject.tier, limit, 1, count, ttlSeconds)));
    }

    /** Never fails; a settle of exactly the reserved amount does not touch the store. */
    method Settle(reservation: Reservation, upstreamCalls: nat, ranAt: int, reachable: bool)
      modifies this, store
      ensures store.counters == if upstreamCalls == reservation.reserved || !reachable then old(store.counters)
                                else SettledBy(old(store.counters), reservation.key,
                                               upstreamCalls - reservation.reserved, ranAt)
      ensures settleFailures == old(settleFailures)
                                + if upstreamCalls != reservation.reserved && !reachable then 1 else 0
    {
      var delta := upstreamCalls - reservation.reserved;
      if delta == 0 { return; }
      if !reachable {
        settleFailures := settleFailures + 1;
        return;
      }
      var updated := store.RunSettle(reservation.key, delta, ranAt);
    }
  }

  /** The per-request state the lifecycle hooks assign. */
  class RequestBudget {
    var calls: nat
    var reservation: Option<Reservation>

    /** onRequest: opens the account before anything can reach a provider. */
    constructor ()
      ensures calls == 0 && reservation.None?
    {
      calls, reservation := 0, None;
    }

    method ChargeUpstreamCall()
      modifies this
      ensures calls == old(calls) + 1 && reservation == old(reservation)
    {
      calls := calls + 1;
    }

    /** preHandler: true when the handler may run. */
    method PreHandler(budget: UpstreamBudget, subject: Subject, now: int, ranAt: int, reachable: bool)
      returns (proceed: bool)
      requires budget.options.windowSeconds >= 1
      modifies this, budget, budget.store
      ensures calls == old(calls)
      ensures var key := KeyFor(budget.options, subject, now);
              var used := if Live(old(budget.store.counters), key, ranAt) then old(budget.store.counters)[key].count
                          else 0;
              && (subject.tier.Authenticated? ==> (proceed <==> reachable && used < budget.options.authenticatedMax))
              && (subject.tier.Anonymous? ==> (proceed <==> reachable && used < budget.options.anonymousMax))
      ensures proceed ==>
                && reservation.Some? && reservation.value.reserved == 1
                && reservation.value.key == KeyFor(budget.options, subject, now)
                && reservation.value.limit == (if subject.tier.Authenticated? then budget.options.authenticatedMax
                                               else budget.options.anonymousMax)
      ensures !proceed ==> reservation == old(reservation) && budget.store.counters == old(budget.store.counters)
    {
      var d := budget.Reserve(subject, now, ranAt, reachable);
      proceed := d.Ok? && d.value.Allowed?;
      if proceed { reservation := Some(d.value.reservation); }
    }

    /** onResponse: settles what was reserved, if anything was. */
    method OnResponse(budget: UpstreamBudget, ranAt: int, reachable: bool)
      modifies budget, budget.store
      ensures reservation.None? ==> budget.store.counters == old(budget.store.counters)
      ensures reservation.Some? && reservation.value.reserved == 1 && reachable && calls != 1 ==>
                budget.store.counters == SettledBy(old(budget.store.counters), reservation.value.key, calls - 1, ranAt)
      ensures reservation.Some? && reservation.value.reserved == 1 && (!reachable || calls == 1) ==>
                budget.store.counters == old(budget.store.counters)
    {
      if reservation.None? { return; }
      budget.Settle(reservation.value, calls, ranAt, reachable);
    }
  }
}
