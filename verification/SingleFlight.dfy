/**
 * Request coalescing: concurrent callers of one key share one piece of work. `run` registers a flight only after it
 * has started the work, so the model separates the two and lets started work call `run` again in between.
 */
module SingleFlights {
  import opened Common

  /** The promise a flight's callers hold: pending, settled but not yet cleaned up, or settled and cleaned up. */
  datatype Status = Pending | Settled(outcome: int) | Finished(outcome: int)

  datatype Flight = Flight(key: string, status: Status)

  /** `entering` are the flights whose work is running synchronously inside `run`, innermost last. */
  datatype Sys = Sys(inFlight: map<string, nat>, started: nat, joined: nat,
                     flights: seq<Flight>, entering: seq<nat>, callers: seq<nat>)

  const INITIAL := Sys(map[], 0, 0, [], [], [])

  datatype Step =
    | Join(key: string)              // run(key) finds a flight
    | Enter(key: string)             // run(key) finds none: counts it and calls work()
    | Register                       // that call of work() has returned its promise; run() stores and returns it
    | WorkSettles(flight: nat, outcome: int)
    | CleanUp(flight: nat)           // the `finally` callback

  predicate Enabled(s: Sys, step: Step) {
    match step
    case Join(key) => key in s.inFlight
    case Enter(key) => key !in s.inFlight
    case Register => s.entering != [] && s.entering[|s.entering| - 1] < |s.flights|
    case WorkSettles(f, _) => f < |s.flights| && s.flights[f].status.Pending? && f !in s.entering
    case CleanUp(f) => f < |s.flights| && s.flights[f].status.Settled?
  }

  function Next(s: Sys, step: Step): Sys
    requires Enabled(s, step)
  {
    match step
    case Join(key) => s.(joined := s.joined + 1, callers := s.callers + [s.inFlight[key]])
    case Enter(key) =>
      s.(started := s.started + 1, flights := s.flights + [Flight(key, Pending)],
         entering := s.entering + [|s.flights|])
    case Register =>
      var f := s.entering[|s.entering| - 1];
      s.(inFlight := s.inFlight[s.flights[f].key := f], entering := s.entering[..|s.entering| - 1],
         callers := s.callers + [f])
    case WorkSettles(f, outcome) => s.(flights := s.flights[f := s.flights[f].(status := Settled(outcome))])
    case CleanUp(f) =>
      var flight := s.flights[f];
      s.(flights := s.flights[f := flight.(status := Finished(flight.status.outcome))],
         inFlight := if flight.key in s.inFlight && s.inFlight[flight.key] == f then s.inFlight - {flight.key}
                     else s.inFlight)
  }

  function Run(steps: seq<Step>): (s: Option<Sys>) {
    if steps == [] then Some(INITIAL)
    else
      var before, last := Run(steps[..|steps| - 1]), steps[|steps| - 1];
      if before.Some? && Enabled(before.value, last) then Some(Next(before.value, last)) else None
  }

  /** Work for this key is running synchronously and has not been registered. */
  predicate IsEntering(s: Sys, key: string) {
    exists i :: 0 <= i < |s.entering| && s.entering[i] < |s.flights| && s.flights[s.entering[i]].key == key
  }

  /** Work started by `run(key)` does not call `run(key)` again before it first yields. */
  ghost predicate NeverReentered(steps: seq<Step>) {
    forall n :: 0 <= n < |steps| && steps[n].Enter? && Run(steps[..n]).Some? ==>
      !IsEntering(Run(steps[..n]).value, steps[n].key)
  }

  predicate Unfinished(s: Sys, f: nat) {
    f < |s.flights| && !s.flights[f].status.Finished?
  }

  // ---- Bookkeeping that needs no assumption ------------------------------------------------------------------

  ghost predicate Tidy(s: Sys) {
    && (forall i :: 0 <= i < |s.entering| ==> s.entering[i] < |s.flights| && s.flights[s.entering[i]].status.Pending?)
    && (forall i, j :: 0 <= i < j < |s.entering| ==> s.entering[i] < s.entering[j])
    && (forall i :: 0 <= i < |s.callers| ==> s.callers[i] < |s.flights|)
    && (forall k :: k in s.inFlight ==> Unfinished(s, s.inFlight[k]) && s.flights[s.inFlight[k]].key == k
                                        && s.inFlight[k] !in s.entering)
    && s.started == |s.flights|
    && s.started + s.joined == |s.callers| + |s.entering|
  }

  lemma TidyStep(s: Sys, step: Step)
    requires Tidy(s) && Enabled(s, step)
    ensures Tidy(Next(s, step))
  {
    if step.Register? {
      var last := |s.entering| - 1;
      assert s.entering[last] !in s.entering[..last];
    }
  }

  lemma {:induction false} AlwaysTidy(steps: seq<Step>)
    requires Run(steps).Some?
    ensures Tidy(Run(steps).value)
  {
    if steps != [] {
      AlwaysTidy(steps[..|steps| - 1]);
      TidyStep(Run(steps[..|steps| - 1]).value, steps[|steps| - 1]);
    }
  }

  /** Every call either started a flight or joined one, and each flight is exactly one invocation of work. */
  lemma CallsAreStartedOrJoined(steps: seq<Step>)
    requires Run(steps).Some? && Run(steps).value.entering == []
    ensures var s := Run(steps).value; s.started + s.joined == |s.callers| && s.started == |s.flights|
  {
    AlwaysTidy(steps);
  }

  // ---- Coalescing --------------------------------------------------------------------------------------------

  /** The map holds exactly the unfinished registered flights, and unregistered work runs for other keys. */
  ghost predicate Coalesced(s: Sys) {
    && Tidy(s)
    && (forall f: nat :: Unfinished(s, f) ==> f in s.entering || Registered(s, f))
    && (forall i, j :: 0 <= i < j < |s.entering| ==> s.flights[s.entering[i]].key != s.flights[s.entering[j]].key)
    && (forall i :: 0 <= i < |s.entering| ==> s.flights[s.entering[i]].key !in s.inFlight)
  }

  predicate Registered(s: Sys, f: nat)
    requires f < |s.flights|
  {
    s.flights[f].key in s.inFlight && s.inFlight[s.flights[f].key] == f
  }

  /** Two unfinished flights never share a key. */
  lemma OnePerKey(s: Sys, f: nat, g: nat)
    requires Coalesced(s) && Unfinished(s, f) && Unfinished(s, g) && s.flights[f].key == s.flights[g].key
    ensures f == g
  {
    if f in s.entering && g in s.entering {
      var i :| 0 <= i < |s.entering| && s.entering[i] == f;
      var j :| 0 <= j < |s.entering| && s.entering[j] == g;
    }
  }

  lemma EnterKeeps(s: Sys, key: string)
    requires Coalesced(s) && Enabled(s, Enter(key)) && !IsEntering(s, key)
    ensures Coalesced(Next(s, Enter(key)))
  {
    var t := Next(s, Enter(key));
    TidyStep(s, Enter(key));
    assert t.entering[|s.entering|] == |s.flights|;
    forall f: nat | Unfinished(t, f) ensures f in t.entering || Registered(t, f) {
      if f < |s.flights| {
        assert Unfinished(s, f);
        if f in s.entering { assert f in t.entering; }
      }
    }
  }

  lemma RegisterKeeps(s: Sys)
    requires Coalesced(s) && Enabled(s, Register)
    ensures Coalesced(Next(s, Register))
  {
    var t, last := Next(s, Register), |s.entering| - 1;
    TidyStep(s, Register);
    assert s.entering == s.entering[..last] + [s.entering[last]];
    forall f: nat | Unfinished(t, f) ensures f in t.entering || Registered(t, f) {
      assert Unfinished(s, f);
      if f !in t.entering && f != s.entering[last] { assert Registered(s, f); }
    }
  }

  lemma SettleKeeps(s: Sys, step: Step)
    requires Coalesced(s) && Enabled(s, step) && step.WorkSettles?
    ensures Coalesced(Next(s, step))
  {
    var t := Next(s, step);
    TidyStep(s, step);
    forall f: nat | Unfinished(t, f) ensures f in t.entering || Registered(t, f) {
      assert Unfinished(s, f);
    }
  }

  lemma CleanUpKeeps(s: Sys, step: Step)
    requires Coalesced(s) && Enabled(s, step) && step.CleanUp?
    ensures Coalesced(Next(s, step))
  {
    var t := Next(s, step);
    TidyStep(s, step);
    forall f: nat | Unfinished(t, f) ensures f in t.entering || Registered(t, f) {
      assert Unfinished(s, f);
      if f !in s.entering && s.flights[f].key == s.flights[step.flight].key { OnePerKey(s, f, step.flight); }
    }
  }

  lemma CoalescedStep(s: Sys, step: Step)
    requires Coalesced(s) && Enabled(s, step)
    requires step.Enter? ==> !IsEntering(s, step.key)
    ensures Coalesced(Next(s, step))
  {
    match step
    case Join(_) =>
      TidyStep(s, step);
      assert forall f: nat :: Unfinished(Next(s, step), f) ==> Unfinished(s, f);
    case Enter(key) => EnterKeeps(s, key);
    case Register => RegisterKeeps(s);
    case WorkSettles(_, _) => SettleKeeps(s, step);
    case CleanUp(_) => CleanUpKeeps(s, step);
  }

  /** If work never re-enters its own key, each key has at most one unfinished flight in every state of every run. */
  lemma {:induction false} OneFlightPerKey(steps: seq<Step>)
    requires Run(steps).Some? && NeverReentered(steps)
    ensures Coalesced(Run(steps).value)
    ensures var s := Run(steps).value;
            forall f: nat, g: nat :: Unfinished(s, f) && Unfinished(s, g) && s.flights[f].key == s.flights[g].key
              ==> f == g
  {
    if steps != [] {
      var before := steps[..|steps| - 1];
      forall n | 0 <= n < |before| && before[n].Enter? && Run(before[..n]).Some?
        ensures !IsEntering(Run(before[..n]).value, before[n].key)
      {
        assert before[..n] == steps[..n];
      }
      OneFlightPerKey(before);
      assert steps[..|steps| - 1] == before;
      CoalescedStep(Run(before).value, steps[|steps| - 1]);
    }
    var s := Run(steps).value;
    forall f: nat, g: nat | Unfinished(s, f) && Unfinished(s, g) && s.flights[f].key == s.flights[g].key
      ensures f == g
    {
      OnePerKey(s, f, g);
    }
  }

  /** No leak: once every flight is finished the map is empty. */
  lemma EmptyAtRest(steps: seq<Step>)
    requires Run(steps).Some? && forall f :: 0 <= f < |Run(steps).value.flights| ==>
      Run(steps).value.flights[f].status.Finished?
    ensures Run(steps).value.inFlight == map[]
  {
    AlwaysTidy(steps);
    var s := Run(steps).value;
    assert forall k :: k in s.inFlight ==> !Unfinished(s, s.inFlight[k]);
  }

  /** A key's registration ends only with the clean-up of that very flight, or with another flight under the key. */
  lemma RegistrationLasts(s: Sys, step: Step, key: string)
    requires Tidy(s) && Enabled(s, step) && key in s.inFlight
    ensures var t := Next(s, step);
            && (key !in t.inFlight <==> step == CleanUp(s.inFlight[key]))
            && (key in t.inFlight && t.inFlight[key] != s.inFlight[key] ==> step.Register? && IsEntering(s, key))
  {
    if step.Register? { assert s.flights[s.entering[|s.entering| - 1]].key == key ==> IsEntering(s, key); }
  }

  /** The assumption is exact: entering a key starts a second unfinished flight for it iff its work is re-entering. */
  lemma ReentryDoublesIff(s: Sys, key: string)
    requires Coalesced(s) && Enabled(s, Enter(key))
    ensures Doubled(Next(s, Enter(key)), key) <==> IsEntering(s, key)
  {
    var t := Next(s, Enter(key));
    if IsEntering(s, key) {
      var i :| 0 <= i < |s.entering| && s.entering[i] < |s.flights| && s.flights[s.entering[i]].key == key;
      assert IsTwin(t, s.entering[i], |s.flights|, key);
    } else {
      CoalescedStep(s, Enter(key));
      if Doubled(t, key) {
        var f: nat, g: nat :| IsTwin(t, f, g, key);
        OnePerKey(t, f, g);
      }
    }
  }

  /** Work that calls `run` for its own key before returning reaches that state. */
  lemma ReentryHappens(key: string)
    ensures Run([Enter(key), Enter(key)]).Some? && Doubled(Run([Enter(key), Enter(key)]).value, key)
  {
    var once := [Enter(key)];
    assert [Enter(key), Enter(key)][..1] == once && once[..0] == [];
    var s := Next(INITIAL, Enter(key));
    assert Run(once) == Some(s);
    assert IsTwin(Next(s, Enter(key)), 0, 1, key);
  }

  predicate IsTwin(s: Sys, f: nat, g: nat, key: string) {
    f != g && Unfinished(s, f) && Unfinished(s, g) && s.flights[f].key == key && s.flights[g].key == key
  }

  ghost predicate Doubled(s: Sys, key: string) {
    exists f: nat, g: nat :: IsTwin(s, f, g, key)
  }

  // ---- What callers receive ----------------------------------------------------------------------------------

  /** A caller keeps the flight it was given, the flight its key, and a settled flight its outcome. */
  ghost predicate Extends(s: Sys, t: Sys) {
    && |s.callers| <= |t.callers| && |s.flights| <= |t.flights|
    && (forall i :: 0 <= i < |s.callers| ==> t.callers[i] == s.callers[i])
    && (forall f :: 0 <= f < |s.flights| ==>
          t.flights[f].key == s.flights[f].key
          && (s.flights[f].status.Settled? ==> !t.flights[f].status.Pending?
                                               && t.flights[f].status.outcome == s.flights[f].status.outcome)
          && (s.flights[f].status.Finished? ==> t.flights[f].status == s.flights[f].status))
  }

  lemma StepExtends(s: Sys, step: Step)
    requires Enabled(s, step)
    ensures Extends(s, Next(s, step))
  {
  }

  lemma ExtendsTransitive(s: Sys, t: Sys, u: Sys)
    requires Extends(s, t) && Extends(t, u)
    ensures Extends(s, u)
  {
  }

  lemma {:induction false} OutcomesAreStable(steps: seq<Step>, more: seq<Step>)
    requires Run(steps + more).Some?
    ensures Run(steps).Some? && Extends(Run(steps).value, Run(steps + more).value)
  {
    if more == [] {
      assert steps + more == steps;
    } else {
      var shorter, last := more[..|more| - 1], more[|more| - 1];
      assert (steps + more)[..|steps + more| - 1] == steps + shorter;
      OutcomesAreStable(steps, shorter);
      StepExtends(Run(steps + shorter).value, last);
      ExtendsTransitive(Run(steps).value, Run(steps + shorter).value, Run(steps + more).value);
    }
  }

  /** A joining caller holds the unfinished flight of its key, so it gets that flight's one outcome. */
  lemma JoinSharesTheFlight(steps: seq<Step>, key: string, more: seq<Step>)
    requires Run(steps + [Join(key)] + more).Some?
    ensures Run(steps).Some? && key in Run(steps).value.inFlight
    ensures var s, t := Run(steps).value, Run(steps + [Join(key)] + more).value;
            var f := s.inFlight[key];
            && Unfinished(s, f) && s.flights[f].key == key
            && |s.callers| < |t.callers| && t.callers[|s.callers|] == f && f < |t.flights|
  {
    var now := steps + [Join(key)];
    OutcomesAreStable(now, more);
    assert now[..|steps|] == steps;
    AlwaysTidy(steps);
    AlwaysTidy(now);
    AlwaysTidy(now + more);
    assert Run(now).value.callers[|Run(steps).value.callers|] == Run(steps).value.inFlight[key];
  }

  /** The results of the work of one flight, in the order in which they came. */
  function Results(steps: seq<Step>, f: nat): seq<int> {
    if steps == [] then []
    else
      var before, last := Results(steps[..|steps| - 1], f), steps[|steps| - 1];
      if last.WorkSettles? && last.flight == f then before + [last.outcome] else before
  }

  /** A pending flight's work has had no result; any other flight's had exactly one, and that is its outcome. */
  lemma {:induction false} OutcomeIsTheWorks(steps: seq<Step>, f: nat)
    requires Run(steps).Some?
    ensures var s := Run(steps).value;
            Results(steps, f)
            == if f < |s.flights| && !s.flights[f].status.Pending? then [s.flights[f].status.outcome] else []
  {
    if steps != [] { OutcomeIsTheWorks(steps[..|steps| - 1], f); }
  }

  lemma {:induction false} ResultAt(steps: seq<Step>, n: nat, f: nat, outcome: int)
    requires n < |steps| && steps[n] == WorkSettles(f, outcome)
    ensures outcome in Results(steps, f)
  {
    var before, last := steps[..|steps| - 1], steps[|steps| - 1];
    if n < |before| { ResultAt(before, n, f, outcome); }
    assert last.WorkSettles? && last.flight == f ==> Results(steps, f)[|Results(before, f)|] == last.outcome;
  }

  lemma {:induction false} ResultFrom(steps: seq<Step>, f: nat, outcome: int)
    requires outcome in Results(steps, f)
    ensures WorkSettles(f, outcome) in steps
  {
    var before, last := steps[..|steps| - 1], steps[|steps| - 1];
    if last != WorkSettles(f, outcome) { ResultFrom(before, f, outcome); }
  }

  /**
   * Whoever started or joined a flight receives what its work came to: a caller's flight has the outcome `o` iff the
   * work of that flight settled with `o`, and it settled with nothing else.
   */
  lemma CallersGetTheWorks(steps: seq<Step>, i: nat, o: int)
    requires Run(steps).Some? && i < |Run(steps).value.callers|
    ensures var s := Run(steps).value;
            && s.callers[i] < |s.flights|
            && var status := s.flights[s.callers[i]].status;
               (!status.Pending? && status.outcome == o <==> WorkSettles(s.callers[i], o) in steps)
  {
    AlwaysTidy(steps);
    var f := Run(steps).value.callers[i];
    OutcomeIsTheWorks(steps, f);
    if WorkSettles(f, o) in steps {
      var n :| 0 <= n < |steps| && steps[n] == WorkSettles(f, o);
      ResultAt(steps, n, f, o);
    }
    if o in Results(steps, f) { ResultFrom(steps, f, o); }
  }

  // ---- The class ---------------------------------------------------------------------------------------------

  class SingleFlight {
    var inFlight: map<string, nat>
    var started: nat
    var joined: nat
    var flights: seq<Flight>
    var entering: seq<nat>
    ghost var callers: seq<nat>

    ghost function Model(): Sys
      reads this
    {
      Sys(inFlight, started, joined, flights, entering, callers)
    }

    constructor ()
      ensures Model() == INITIAL
    {
      inFlight, started, joined, flights, entering, callers := map[], 0, 0, [], [], [];
    }

    /** The synchronous head of `run`: the joined flight, or a flight whose work starts now. */
    method StartRun(key: string) returns (flight: nat, existing: bool)
      modifies this
      ensures existing == (key in old(inFlight))
      ensures Model() == Next(old(Model()), if existing then Join(key) else Enter(key))
      ensures flight == if existing then old(inFlight)[key] else |old(flights)|
    {
      if key in inFlight {
        joined := joined + 1;
        flight := inFlight[key];
        callers := callers + [flight];
        return flight, true;
      }
      started := started + 1;
      flight := |flights|;
      flights := flights + [Flight(key, Pending)];
      entering := entering + [flight];
      existing := false;
    }

    /** The tail of `run`, after `work` has returned its promise. */
    method FinishRun() returns (flight: nat)
      requires Tidy(Model()) && Enabled(Model(), Register)
      modifies this
      ensures Model() == Next(old(Model()), Register)
      ensures flight == old(entering)[|old(entering)| - 1]
    {
      flight := entering[|entering| - 1];
      inFlight := inFlight[flights[flight].key := flight];
      entering := entering[..|entering| - 1];
      callers := callers + [flight];
    }

    method Settle(flight: nat, outcome: int)
      requires Enabled(Model(), WorkSettles(flight, outcome))
      modifies this
      ensures Model() == Next(old(Model()), WorkSettles(flight, outcome))
      ensures flights[flight] == Flight(old(flights)[flight].key, Settled(outcome))
    {
      flights := flights[flight := flights[flight].(status := Settled(outcome))];
    }

    method Finally(flight: nat)
      requires Enabled(Model(), CleanUp(flight))
      modifies this
      ensures Model() == Next(old(Model()), CleanUp(flight))
      ensures flights[flight] == Flight(old(flights)[flight].key, Finished(old(flights)[flight].status.outcome))
    {
      var f := flights[flight];
      flights := flights[flight := f.(status := Finished(f.status.outcome))];
      if f.key in inFlight && inFlight[f.key] == flight {
        inFlight := inFlight - {f.key};
      }
    }

    method Has(key: string) returns (running: bool)
      requires Coalesced(Model())
      ensures running <==> exists f: nat :: Unfinished(Model(), f) && f !in entering && flights[f].key == key
    {
      running := key in inFlight;
      if running { assert Unfinished(Model(), inFlight[key]); }
    }
  }
}
