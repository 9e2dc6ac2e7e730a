/**
 * Idempotency keys: `claim` is an INSERT and, if that conflicts, a SELECT; `complete` is an UPDATE and `release` a
 * DELETE. Every statement is one atomic step on the table, and any number of requests and the expiry sweeper
 * interleave. A transaction reads the clock once, when it starts.
 */
module Idempotency {
  import opened Common

  datatype Response = Response(status: int, body: string)

  datatype Id = Id(user: string, key: string)

  /** `claimant` is the request whose INSERT created the row; the table itself does not record it. */
  datatype Row = Row(hash: string, response: Option<Response>, expiresAt: int, claimant: nat)

  type Table = map<Id, Row>

  const LIFETIME_MS := 24 * 60 * 60 * 1000

  // ---- Statements --------------------------------------------------------------------------------------------

  /** INSERT ... ON CONFLICT DO NOTHING. */
  function Inserted(t: Table, id: Id, hash: string, claimant: nat, now: int): Table {
    if id in t then t else t[id := Row(hash, None, now + LIFETIME_MS, claimant)]
  }

  /** The four ways a claim ends. */
  datatype Claim = Proceed | Replay(response: Response) | HashConflict | StillInFlight

  /** What the SELECT of a conflicted claim leads to; a row that has expired counts as absent. */
  function Selected(t: Table, id: Id, hash: string, now: int): Claim {
    if id !in t || t[id].expiresAt <= now then Proceed
    else if t[id].hash != hash then HashConflict
    else if t[id].response.None? then StillInFlight
    else Replay(t[id].response.value)
  }

  function Completed(t: Table, id: Id, response: Response): Table {
    if id in t then t[id := t[id].(response := Some(response))] else t
  }

  function Released(t: Table, id: Id): Table {
    if id in t && t[id].response.None? then t - {id} else t
  }

  // ---- Requests ----------------------------------------------------------------------------------------------

  /**
   * A request that was told to proceed executes. If its INSERT succeeded it holds the lease of the row it created; if
   * its SELECT found no row, because it expired or was released after the INSERT conflicted, it holds none.
   */
  datatype Phase =
    | Started
    | Conflicted(at: int)
    | Executing(lease: Option<int>)
    | Answered(claim: Claim)
    | Over

  datatype Request = Request(id: Id, hash: string, phase: Phase)

  datatype Sys = Sys(now: int, table: Table, requests: seq<Request>)

  datatype Step =
    | Tick(ms: nat)
    | Arrive(id: Id, hash: string)
    | Insert(i: nat)
    | Select(i: nat)
    | Complete(i: nat, response: Response)
    | Release(i: nat)
    | Sweep(id: Id)

  predicate Enabled(s: Sys, step: Step) {
    match step
    case Insert(i) => i < |s.requests| && s.requests[i].phase.Started?
    case Select(i) => i < |s.requests| && s.requests[i].phase.Conflicted?
    case Complete(i, _) => i < |s.requests| && s.requests[i].phase.Executing?
    case Release(i) => i < |s.requests| && s.requests[i].phase.Executing?
    case Sweep(id) => id in s.table && s.table[id].expiresAt < s.now
    case _ => true
  }

  function Next(s: Sys, step: Step): Sys
    requires Enabled(s, step)
  {
    match step
    case Tick(ms) => s.(now := s.now + ms)
    case Arrive(id, hash) => s.(requests := s.requests + [Request(id, hash, Started)])
    case Insert(i) =>
      var r := s.requests[i];
      Sys(s.now, Inserted(s.table, r.id, r.hash, i, s.now),
          s.requests[i := r.(phase := if r.id in s.table then Conflicted(s.now)
                                      else Executing(Some(s.now + LIFETIME_MS)))])
    case Select(i) =>
      var r := s.requests[i];
      var claim := Selected(s.table, r.id, r.hash, r.phase.at);
      s.(requests := s.requests[i := r.(phase := if claim.Proceed? then Executing(None) else Answered(claim))])
    case Complete(i, response) =>
      var r := s.requests[i];
      Sys(s.now, Completed(s.table, r.id, response), s.requests[i := r.(phase := Over)])
    case Release(i) =>
      var r := s.requests[i];
      Sys(s.now, Released(s.table, r.id), s.requests[i := r.(phase := Over)])
    case Sweep(id) => s.(table := s.table - {id})
  }

  /** The rows a step may write: those of the request that takes it, or the one the sweeper names. */
  predicate Touches(s: Sys, step: Step, id: Id)
    requires Enabled(s, step)
  {
    match step
    case Tick(_) => false
    case Arrive(_, _) => false
    case Sweep(other) => id == other
    case _ => s.requests[step.i].id == id
  }

  function After(first: Sys, steps: seq<Step>): (s: Option<Sys>) {
    if steps == [] then Some(first)
    else
      var before, last := After(first, steps[..|steps| - 1]), steps[|steps| - 1];
      if before.Some? && Enabled(before.value, last) then Some(Next(before.value, last)) else None
  }

  // ---- What holds without any assumption ---------------------------------------------------------------------

  /** No step touches another user's rows, or another key's. */
  lemma OtherRowsUntouched(s: Sys, step: Step, id: Id)
    requires Enabled(s, step) && !Touches(s, step, id)
    ensures id in Next(s, step).table <==> id in s.table
    ensures id in s.table ==> Next(s, step).table[id] == s.table[id]
  {
  }

  /** A user's rows are what that user's own requests and the sweeper made them, over whole runs. */
  lemma {:induction false} OtherUsersUntouched(first: Sys, steps: seq<Step>, id: Id)
    requires After(first, steps).Some?
    requires forall n :: 0 <= n < |steps| && After(first, steps[..n]).Some?
                         && Enabled(After(first, steps[..n]).value, steps[n])
               ==> !Touches(After(first, steps[..n]).value, steps[n], id)
    ensures var s := After(first, steps).value;
            (id in s.table <==> id in first.table) && (id in s.table ==> s.table[id] == first.table[id])
  {
    if steps != [] {
      var before, n := steps[..|steps| - 1], |steps| - 1;
      forall m | 0 <= m < |before| && After(first, before[..m]).Some?
                 && Enabled(After(first, before[..m]).value, before[m])
        ensures !Touches(After(first, before[..m]).value, before[m], id)
      {
        assert before[..m] == steps[..m];
      }
      OtherUsersUntouched(first, before, id);
      assert steps[..n] == before;
      OtherRowsUntouched(After(first, before).value, steps[n], id);
    }
  }

  /** Releasing can never reopen a completed key, whoever releases. */
  lemma ReleaseKeepsCompleted(s: Sys, i: nat, id: Id)
    requires Enabled(s, Release(i)) && id in s.table && s.table[id].response.Some?
    ensures id in Next(s, Release(i)).table && Next(s, Release(i)).table[id] == s.table[id]
  {
  }

  ghost predicate Initial(s: Sys) {
    s.requests == []
  }

  // ---- One executor ------------------------------------------------------------------------------------------

  /** The request was told to proceed and has not finished. */
  predicate Executes(s: Sys, i: nat, id: Id) {
    i < |s.requests| && s.requests[i].phase.Executing? && s.requests[i].id == id
  }

  ghost predicate Running(s: Sys, id: Id) {
    exists i: nat :: Executes(s, i, id)
  }

  ghost predicate Sole(s: Sys, id: Id) {
    forall i: nat, j: nat :: Executes(s, i, id) && Executes(s, j, id) ==> i == j
  }

  /** The step tells a request for the key to proceed: an INSERT without conflict, or a SELECT that finds nothing. */
  predicate Proceeds(s: Sys, step: Step, id: Id)
    requires Enabled(s, step)
  {
    match step
    case Insert(i) => s.requests[i].id == id && id !in s.table
    case Select(i) => s.requests[i].id == id && (id !in s.table || s.table[id].expiresAt <= s.requests[i].phase.at)
    case _ => false
  }

  // ---- Leases ------------------------------------------------------------------------------------------------

  /** The request is between its INSERT and its COMPLETE or RELEASE, and its row has not expired. */
  predicate OwnsLive(s: Sys, i: nat) {
    i < |s.requests| && s.requests[i].phase.Executing? && s.requests[i].phase.lease.Some?
    && s.now < s.requests[i].phase.lease.value
  }

  /** Every live owner's row is in the table, pending, and its own. */
  ghost predicate Backed(s: Sys, id: Id) {
    forall i: nat :: OwnsLive(s, i) && s.requests[i].id == id ==>
      id in s.table && s.table[id] == Row(s.requests[i].hash, None, s.requests[i].phase.lease.value, i)
  }

  /** A request without a live row of its own finishes although another one owns the key. */
  ghost predicate Intrudes(s: Sys, step: Step, id: Id)
    requires Enabled(s, step)
  {
    && (step.Complete? || step.Release?) && s.requests[step.i].id == id && !OwnsLive(s, step.i)
    && exists j: nat :: OwnsLive(s, j) && s.requests[j].id == id
  }

  /** Exactly the intrusions take a live owner's row away or answer in its place. */
  lemma BackedStepIff(s: Sys, step: Step, id: Id)
    requires Backed(s, id) && Enabled(s, step)
    ensures Backed(Next(s, step), id) <==> !Intrudes(s, step, id)
  {
    var t := Next(s, step);
    if Intrudes(s, step, id) {
      var j: nat :| OwnsLive(s, j) && s.requests[j].id == id;
      assert OwnsLive(t, j);
    } else {
      forall i: nat | OwnsLive(t, i) && t.requests[i].id == id
        ensures id in t.table && t.table[id] == Row(t.requests[i].hash, None, t.requests[i].phase.lease.value, i)
      {
        if !(step.Insert? && step.i == i) { assert OwnsLive(s, i); }
      }
    }
  }

  ghost predicate AlwaysBacked(first: Sys, steps: seq<Step>, id: Id)
    requires After(first, steps).Some?
  {
    Backed(After(first, steps).value, id) && (steps != [] ==> AlwaysBacked(first, steps[..|steps| - 1], id))
  }

  ghost predicate NeverIntruded(first: Sys, steps: seq<Step>, id: Id)
    requires After(first, steps).Some?
  {
    steps != [] ==>
      var before, last := steps[..|steps| - 1], steps[|steps| - 1];
      NeverIntruded(first, before, id) && !Intrudes(After(first, before).value, last, id)
  }

  /** Live owners have their rows in every state of a run iff no step of the run intrudes on one. */
  lemma {:induction false} LeasesAlwaysBacked(first: Sys, steps: seq<Step>, id: Id)
    requires Initial(first) && After(first, steps).Some?
    ensures AlwaysBacked(first, steps, id) <==> NeverIntruded(first, steps, id)
  {
    if steps != [] {
      var before := steps[..|steps| - 1];
      LeasesAlwaysBacked(first, before, id);
      if AlwaysBacked(first, before, id) { BackedStepIff(After(first, before).value, steps[|steps| - 1], id); }
    }
  }

  /** Conflicts lie in the past. */
  ghost predicate ConflictsPast(s: Sys) {
    forall i :: 0 <= i < |s.requests| && s.requests[i].phase.Conflicted? ==> s.requests[i].phase.at <= s.now
  }

  lemma {:induction false} ConflictsArePast(first: Sys, steps: seq<Step>)
    requires ConflictsPast(first) && After(first, steps).Some?
    ensures ConflictsPast(After(first, steps).value)
  {
    if steps != [] { ConflictsArePast(first, steps[..|steps| - 1]); }
  }

  /**
   * While a row is unexpired at most one request owns it, every other INSERT conflicts and every other SELECT is
   * refused, so nobody is told to proceed beside a live owner.
   */
  lemma AtMostOneOwner(first: Sys, steps: seq<Step>, i: nat, j: nat)
    requires Initial(first) && After(first, steps).Some?
    requires var s := After(first, steps).value;
             OwnsLive(s, i) && NeverIntruded(first, steps, s.requests[i].id)
             && j < |s.requests| && s.requests[j].id == s.requests[i].id
    ensures var s := After(first, steps).value;
            && (OwnsLive(s, j) ==> i == j)
            && (Enabled(s, Insert(j)) ==> Next(s, Insert(j)).requests[j].phase == Conflicted(s.now))
            && (Enabled(s, Select(j)) ==>
                  Next(s, Select(j)).requests[j].phase
                  == Answered(if s.requests[j].hash == s.requests[i].hash then StillInFlight else HashConflict))
  {
    var s := After(first, steps).value;
    LeasesAlwaysBacked(first, steps, s.requests[i].id);
    ConflictsArePast(first, steps);
  }

  /**
   * Hence a second executor only ever joins one that owns no live row: a request that was itself told to proceed by
   * a SELECT, or one that has outlived its row.
   */
  lemma SecondNeedsStray(first: Sys, steps: seq<Step>, step: Step, i: nat)
    requires Initial(first) && After(first, steps).Some? && Enabled(After(first, steps).value, step)
    requires i < |After(first, steps).value.requests|
    requires var s := After(first, steps).value;
             var id := s.requests[i].id;
             NeverIntruded(first, steps, id) && Proceeds(s, step, id) && Executes(s, i, id)
    ensures !OwnsLive(After(first, steps).value, i)
  {
    var s := After(first, steps).value;
    LeasesAlwaysBacked(first, steps, s.requests[i].id);
    ConflictsArePast(first, steps);
  }

  /** The request executes although no live row of the key is its own. */
  predicate Stray(s: Sys, i: nat, id: Id) {
    Executes(s, i, id) && !OwnsLive(s, i)
  }

  /** The step tells a request to proceed while a stray one executes. */
  ghost predicate JoinsStray(s: Sys, step: Step, id: Id)
    requires Enabled(s, step)
  {
    Proceeds(s, step, id) && exists i: nat :: Stray(s, i, id)
  }

  /** A second executor appears iff a request is told to proceed beside a stray one. */
  lemma SecondExecutorIff(s: Sys, step: Step, id: Id)
    requires Enabled(s, step) && Sole(s, id) && Backed(s, id) && ConflictsPast(s)
    ensures Sole(Next(s, step), id) <==> !JoinsStray(s, step, id)
  {
    var t := Next(s, step);
    if Proceeds(s, step, id) {
      assert Executes(t, step.i, id) && !Executes(s, step.i, id);
      forall k: nat | k != step.i ensures Executes(t, k, id) <==> Executes(s, k, id) {
      }
      if Sole(t, id) {
        forall k: nat ensures !Stray(s, k, id) { assert Executes(t, k, id) ==> k == step.i; }
      } else {
        var k: nat :| k != step.i && Executes(t, k, id);
        assert Stray(s, k, id);
      }
    } else {
      forall k: nat | Executes(t, k, id) ensures Executes(s, k, id) {
      }
    }
  }

  ghost predicate AlwaysSole(first: Sys, steps: seq<Step>, id: Id)
    requires After(first, steps).Some?
  {
    Sole(After(first, steps).value, id) && (steps != [] ==> AlwaysSole(first, steps[..|steps| - 1], id))
  }

  /** Nobody in the run was told to proceed beside a stray executor. */
  ghost predicate NeverJoinsStray(first: Sys, steps: seq<Step>, id: Id)
    requires After(first, steps).Some?
  {
    steps != [] ==>
      var before, last := steps[..|steps| - 1], steps[|steps| - 1];
      NeverJoinsStray(first, before, id) && !JoinsStray(After(first, before).value, last, id)
  }

  /** A sole executor leaves nobody to intrude on. */
  lemma {:induction false} SoleNeverIntruded(first: Sys, steps: seq<Step>, id: Id)
    requires After(first, steps).Some? && AlwaysSole(first, steps, id)
    ensures NeverIntruded(first, steps, id)
  {
    if steps != [] {
      var before, last := steps[..|steps| - 1], steps[|steps| - 1];
      SoleNeverIntruded(first, before, id);
      var s := After(first, before).value;
      if Intrudes(s, last, id) {
        var j: nat :| OwnsLive(s, j) && s.requests[j].id == id;
        assert Executes(s, j, id) && Executes(s, last.i, id);
      }
    }
  }

  /** Over whole runs: two requests for one key execute at once iff one was told to proceed beside a stray one. */
  lemma {:induction false} OneExecutorIff(first: Sys, steps: seq<Step>, id: Id)
    requires Initial(first) && After(first, steps).Some?
    ensures AlwaysSole(first, steps, id) <==> NeverJoinsStray(first, steps, id)
  {
    if steps != [] {
      var before := steps[..|steps| - 1];
      OneExecutorIff(first, before, id);
      if AlwaysSole(first, before, id) {
        SoleNeverIntruded(first, before, id);
        LeasesAlwaysBacked(first, before, id);
        ConflictsArePast(first, before);
        SecondExecutorIff(After(first, before).value, steps[|steps| - 1], id);
      }
    }
  }

  /** No executor with a row of its own has outlived it. */
  ghost predicate NobodyOutlives(s: Sys, id: Id) {
    forall i: nat :: Executes(s, i, id) && s.requests[i].phase.lease.Some? ==> s.now < s.requests[i].phase.lease.value
  }

  /** Everybody in the run finished within the lifetime of its row, and whoever was told to proceed had inserted one. */
  ghost predicate Orderly(first: Sys, steps: seq<Step>, id: Id)
    requires After(first, steps).Some?
  {
    && NobodyOutlives(After(first, steps).value, id)
    && (steps != [] ==>
          var before, last := steps[..|steps| - 1], steps[|steps| - 1];
          Orderly(first, before, id) && (last.Select? ==> !Proceeds(After(first, before).value, last, id)))
  }

  lemma {:induction false} NoStraysInOrder(first: Sys, steps: seq<Step>, id: Id)
    requires Initial(first) && After(first, steps).Some? && Orderly(first, steps, id)
    ensures forall i: nat :: !Stray(After(first, steps).value, i, id)
    ensures NeverJoinsStray(first, steps, id)
  {
    if steps != [] {
      var before, last := steps[..|steps| - 1], steps[|steps| - 1];
      NoStraysInOrder(first, before, id);
      var s, t := After(first, before).value, After(first, steps).value;
      forall i: nat ensures !Stray(t, i, id) {
        assert !Stray(s, i, id);
        if Executes(t, i, id) { assert t.requests[i].phase.lease.Some?; }
      }
    }
  }

  /**
   * What a deployment can see to: if handlers finish within the lifetime of a row and no SELECT tells anybody to
   * proceed, at most one request executes per key, whatever else interleaves.
   */
  lemma OrderlyRunsAreSole(first: Sys, steps: seq<Step>, id: Id)
    requires Initial(first) && After(first, steps).Some? && Orderly(first, steps, id)
    ensures AlwaysSole(first, steps, id)
  {
    NoStraysInOrder(first, steps, id);
    OneExecutorIff(first, steps, id);
  }

  // ---- Completion --------------------------------------------------------------------------------------------

  /** The key has a response and its row has not expired. */
  predicate Finished(s: Sys, id: Id) {
    id in s.table && s.table[id].response.Some? && s.now < s.table[id].expiresAt
  }

  /** A step completes the key again. */
  predicate Completes(s: Sys, step: Step, id: Id)
    requires Enabled(s, step)
  {
    step.Complete? && s.requests[step.i].id == id
  }

  /** The response a finished key holds after more steps: the latest completion's, whoever made it. */
  function Latest(s: Sys, more: seq<Step>, id: Id): Response
    requires After(s, more).Some? && Finished(s, id)
  {
    if more == [] then s.table[id].response.value
    else
      var before, last := more[..|more| - 1], more[|more| - 1];
      if Completes(After(s, before).value, last, id) then last.response else Latest(s, before, id)
  }

  /** Until it expires, nothing removes a finished row, moves its expiry or changes its hash. */
  lemma {:induction false} FinishedRow(s: Sys, more: seq<Step>, id: Id)
    requires After(s, more).Some? && Finished(s, id) && After(s, more).value.now < s.table[id].expiresAt
    ensures var t := After(s, more).value;
            id in t.table && t.table[id] == s.table[id].(response := Some(Latest(s, more, id)))
  {
    if more != [] {
      var before := more[..|more| - 1];
      NowGrows(s, more);
      FinishedRow(s, before, id);
    }
  }

  lemma NowGrows(s: Sys, more: seq<Step>)
    requires more != [] && After(s, more).Some?
    ensures After(s, more[..|more| - 1]).value.now <= After(s, more).value.now
  {
  }

  /** No step of the run completes the key with another response than the one it holds. */
  ghost predicate NeverOverwritten(s: Sys, more: seq<Step>, id: Id)
    requires After(s, more).Some? && Finished(s, id)
  {
    more != [] ==>
      var before, last := more[..|more| - 1], more[|more| - 1];
      NeverOverwritten(s, before, id)
      && (Completes(After(s, before).value, last, id) ==> last.response == s.table[id].response.value)
  }

  ghost predicate KeepsRow(s: Sys, more: seq<Step>, id: Id)
    requires After(s, more).Some? && id in s.table
  {
    && id in After(s, more).value.table && After(s, more).value.table[id] == s.table[id]
    && (more != [] ==> KeepsRow(s, more[..|more| - 1], id))
  }

  /** A finished row stays as it is until it expires iff no executor completes the key with another response. */
  lemma {:induction false} CompletedIsStable(s: Sys, more: seq<Step>, id: Id)
    requires After(s, more).Some? && Finished(s, id) && After(s, more).value.now < s.table[id].expiresAt
    ensures KeepsRow(s, more, id) <==> NeverOverwritten(s, more, id)
  {
    FinishedRow(s, more, id);
    if more != [] {
      NowGrows(s, more);
      CompletedIsStable(s, more[..|more| - 1], id);
      FinishedRow(s, more[..|more| - 1], id);
    }
  }

  /** Every claim on a finished key gets the latest response for the row's hash and a conflict for any other. */
  lemma ReplaysLatest(s: Sys, more: seq<Step>, id: Id, j: nat)
    requires After(s, more).Some? && Finished(s, id) && After(s, more).value.now < s.table[id].expiresAt
    requires ConflictsPast(s)
    requires var t := After(s, more).value; j < |t.requests| && t.requests[j].id == id
    ensures var t := After(s, more).value;
            && (Enabled(t, Insert(j)) ==> Next(t, Insert(j)).requests[j].phase == Conflicted(t.now))
            && (Enabled(t, Select(j)) ==>
                  Next(t, Select(j)).requests[j].phase
                  == Answered(if t.requests[j].hash == s.table[id].hash then Replay(Latest(s, more, id))
                              else HashConflict))
  {
    FinishedRow(s, more, id);
    ConflictsArePast(s, more);
  }

  /** Whatever happens until it expires, the key keeps this response. */
  ghost predicate Irrevocable(s: Sys, id: Id)
    requires Finished(s, id)
  {
    forall more: seq<Step> :: After(s, more).Some? && After(s, more).value.now < s.table[id].expiresAt ==>
      id in After(s, more).value.table && After(s, more).value.table[id] == s.table[id]
  }

  lemma {:induction false} NobodyJoinsFinished(s: Sys, more: seq<Step>, id: Id)
    requires After(s, more).Some? && Finished(s, id) && After(s, more).value.now < s.table[id].expiresAt
    requires ConflictsPast(s) && !Running(s, id)
    ensures !Running(After(s, more).value, id) && NeverOverwritten(s, more, id)
  {
    if more != [] {
      var before, last := more[..|more| - 1], more[|more| - 1];
      NowGrows(s, more);
      NobodyJoinsFinished(s, before, id);
      FinishedRow(s, before, id);
      ConflictsArePast(s, before);
      var u, t := After(s, before).value, After(s, more).value;
      forall k: nat ensures !Executes(t, k, id) {
        assert !Executes(u, k, id);
      }
      if last.Complete? { assert !Executes(u, last.i, id); }
    }
  }

  /**
   * A completed key returns exactly its response to every later claim, whatever happens, iff no other request for it
   * was still executing when it was completed.
   */
  lemma ReplaysExactly(s: Sys, id: Id)
    requires Finished(s, id) && ConflictsPast(s)
    ensures Irrevocable(s, id) <==> !Running(s, id)
  {
    if Running(s, id) {
      var k: nat :| Executes(s, k, id);
      var r := s.table[id].response.value;
      var other := Complete(k, r.(status := r.status + 1));
      OneMoreStep(s, [], s, other);
      assert [] + [other] == [other];
      assert After(s, [other]).Some?;
    } else {
      forall more: seq<Step> | After(s, more).Some? && After(s, more).value.now < s.table[id].expiresAt
        ensures id in After(s, more).value.table && After(s, more).value.table[id] == s.table[id]
      {
        NobodyJoinsFinished(s, more, id);
        CompletedIsStable(s, more, id);
      }
    }
  }

  /** So a live owner's completion is final iff it is the only executor of its key. */
  lemma OwnerAnswersForGood(first: Sys, steps: seq<Step>, i: nat, response: Response)
    requires Initial(first) && After(first, steps).Some? && OwnsLive(After(first, steps).value, i)
    requires NeverIntruded(first, steps, After(first, steps).value.requests[i].id)
    ensures var s := After(first, steps).value;
            var id, t := s.requests[i].id, Next(s, Complete(i, response));
            && Finished(t, id) && t.table[id].response == Some(response) && t.table[id].hash == s.requests[i].hash
            && (Irrevocable(t, id) <==> Sole(s, id))
  {
    var s := After(first, steps).value;
    var id, t := s.requests[i].id, Next(s, Complete(i, response));
    LeasesAlwaysBacked(first, steps, id);
    ConflictsArePast(first, steps);
    assert Executes(s, i, id);
    forall k: nat ensures Executes(t, k, id) <==> k != i && Executes(s, k, id) {
    }
    ReplaysExactly(t, id);
  }

  // ---- What finishing without a live row breaks --------------------------------------------------------------

  /**
   * Neither statement names the claimant. While live owners have their rows, a release removes the live claim of
   * another request iff the releasing request owns nothing live and has the same key.
   */
  lemma StaleReleaseIff(s: Sys, i: nat, j: nat)
    requires Enabled(s, Release(i)) && OwnsLive(s, j) && i != j && Backed(s, s.requests[j].id)
    ensures s.requests[j].id !in Next(s, Release(i)).table
            <==> !OwnsLive(s, i) && s.requests[i].id == s.requests[j].id
  {
  }

  /** Likewise a completion replaces another response iff it comes from a request that owns nothing live. */
  lemma StaleCompleteIff(s: Sys, i: nat, response: Response, id: Id)
    requires Backed(s, id) && Enabled(s, Complete(i, response))
    requires id in s.table && s.table[id].response.Some? && s.table[id].response.value != response
    ensures Next(s, Complete(i, response)).table[id] != s.table[id]
            <==> !OwnsLive(s, i) && s.requests[i].id == id
  {
  }

  lemma OneMoreStep(first: Sys, steps: seq<Step>, s: Sys, step: Step)
    requires After(first, steps) == Some(s) && Enabled(s, step)
    ensures After(first, steps + [step]) == Some(Next(s, step))
  {
    assert (steps + [step])[..|steps|] == steps;
  }

  /** A request arrives and its INSERT conflicts. */
  lemma ArriveAndConflict(first: Sys, steps: seq<Step>, s: Sys, id: Id, hash: string)
    requires After(first, steps) == Some(s) && id in s.table
    ensures After(first, steps + [Arrive(id, hash)] + [Insert(|s.requests|)])
            == Some(s.(requests := s.requests + [Request(id, hash, Conflicted(s.now))]))
  {
    var r, n := Request(id, hash, Started), |s.requests|;
    OneMoreStep(first, steps, s, Arrive(id, hash));
    var s1 := s.(requests := s.requests + [r]);
    OneMoreStep(first, steps + [Arrive(id, hash)], s1, Insert(n));
    assert s1.requests[n := r.(phase := Conflicted(s.now))] == s.requests + [r.(phase := Conflicted(s.now))];
  }

  /** A request arrives and its INSERT creates the row. */
  lemma ArriveAndInsert(first: Sys, steps: seq<Step>, s: Sys, id: Id, hash: string)
    requires After(first, steps) == Some(s) && id !in s.table
    ensures var lease, n := s.now + LIFETIME_MS, |s.requests|;
            After(first, steps + [Arrive(id, hash)] + [Insert(n)])
            == Some(Sys(s.now, s.table[id := Row(hash, None, lease, n)],
                        s.requests + [Request(id, hash, Executing(Some(lease)))]))
  {
    var r, n, lease := Request(id, hash, Started), |s.requests|, s.now + LIFETIME_MS;
    OneMoreStep(first, steps, s, Arrive(id, hash));
    var s1 := s.(requests := s.requests + [r]);
    OneMoreStep(first, steps + [Arrive(id, hash)], s1, Insert(n));
    assert s1.requests[n := r.(phase := Executing(Some(lease)))] == s.requests + [r.(phase := Executing(Some(lease)))];
  }

  /**
   * The comment calls it a row that expired in between, but a released row vanishes as well, and then nothing needs to
   * be slow: all at one instant, request 0 claims, request 1 conflicts, 0 fails and releases, 1 reads no row and
   * proceeds without one, and request 2 claims. Now 1 and 2 execute at once, and 1 can answer or release for 2.
   */
  lemma VanishedRowDoubles(now: int, id: Id, hash: string) returns (steps: seq<Step>, s: Sys)
    ensures After(Sys(now, map[], []), steps) == Some(s) && s.now == now && Backed(s, id)
    ensures Executes(s, 1, id) && !OwnsLive(s, 1) && Executes(s, 2, id) && OwnsLive(s, 2) && !Sole(s, id)
    ensures id !in Next(s, Release(1)).table
    ensures forall r :: Enabled(s, Complete(1, r)) && !Backed(Next(s, Complete(1, r)), id)
    ensures forall q, r ::
              var done := Next(s, Complete(2, q));
              Enabled(done, Complete(1, r)) && Finished(done, id)
              && Next(done, Complete(1, r)).table[id].response == Some(r)
  {
    var first := Sys(now, map[], []);
    var over, stray := Request(id, hash, Over), Request(id, hash, Executing(None));
    var live := Request(id, hash, Executing(Some(now + LIFETIME_MS)));
    steps := VanishedRowStray(now, id, hash);
    s := Sys(now, map[], [over, stray]);
    ArriveAndInsert(first, steps, s, id, hash);
    assert [over, stray] + [live] == [over, stray, live];
    steps := steps + [Arrive(id, hash)] + [Insert(2)];
    s := Sys(now, map[id := Row(hash, None, now + LIFETIME_MS, 2)], [over, stray, live]);
    assert Executes(s, 1, id) && Executes(s, 2, id);
    StrayHarms(s, id);
  }

  lemma VanishedRowStray(now: int, id: Id, hash: string) returns (steps: seq<Step>)
    ensures After(Sys(now, map[], []), steps)
            == Some(Sys(now, map[], [Request(id, hash, Over), Request(id, hash, Executing(None))]))
  {
    var first := Sys(now, map[], []);
    var over, stray := Request(id, hash, Over), Request(id, hash, Executing(None));
    var live, waiting := Request(id, hash, Executing(Some(now + LIFETIME_MS))), Request(id, hash, Conflicted(now));
    var s: Sys;
    steps, s := OwnerAndConflict(now, id, hash);
    OneMoreStep(first, steps, s, Release(0));
    assert s.table - {id} == map[] && [live, waiting][0 := over] == [over, waiting];
    steps, s := steps + [Release(0)], Sys(now, map[], [over, waiting]);
    OneMoreStep(first, steps, s, Select(1));
    assert [over, waiting][1 := stray] == [over, stray];
    steps := steps + [Select(1)];
  }

  lemma OwnerAndConflict(now: int, id: Id, hash: string) returns (steps: seq<Step>, s: Sys)
    ensures After(Sys(now, map[], []), steps) == Some(s)
    ensures s == Sys(now, map[id := Row(hash, None, now + LIFETIME_MS, 0)],
                     [Request(id, hash, Executing(Some(now + LIFETIME_MS))), Request(id, hash, Conflicted(now))])
  {
    var first := Sys(now, map[], []);
    var live, waiting := Request(id, hash, Executing(Some(now + LIFETIME_MS))), Request(id, hash, Conflicted(now));
    ArriveAndInsert(first, [], first, id, hash);
    assert [] + [live] == [live] && [live] + [waiting] == [live, waiting];
    steps := [] + [Arrive(id, hash)] + [Insert(0)];
    s := Sys(now, map[id := Row(hash, None, now + LIFETIME_MS, 0)], [live]);
    ArriveAndConflict(first, steps, s, id, hash);
    steps, s := steps + [Arrive(id, hash)] + [Insert(1)], s.(requests := [live, waiting]);
  }

  /** Beside a live owner 2, an executor 1 without a row can take its claim away and answer before or after it. */
  lemma StrayHarms(s: Sys, id: Id)
    requires Executes(s, 1, id) && !OwnsLive(s, 1) && Executes(s, 2, id) && OwnsLive(s, 2) && Backed(s, id)
    ensures id !in Next(s, Release(1)).table
    ensures forall r :: Enabled(s, Complete(1, r)) && !Backed(Next(s, Complete(1, r)), id)
    ensures forall q, r ::
              var done := Next(s, Complete(2, q));
              Enabled(done, Complete(1, r)) && Finished(done, id)
              && Next(done, Complete(1, r)).table[id].response == Some(r)
  {
    forall r ensures !Backed(Next(s, Complete(1, r)), id) {
      BackedStepIff(s, Complete(1, r), id);
      assert Intrudes(s, Complete(1, r), id);
    }
  }

  /** And two claims on an expired row that has not been swept yet both proceed. */
  lemma ExpiredRowDoubles(now: int, id: Id, hash: string, response: Response) returns (steps: seq<Step>, s: Sys)
    ensures After(Sys(now, map[], []), steps) == Some(s)
    ensures Executes(s, 1, id) && Executes(s, 2, id) && !OwnsLive(s, 1) && !OwnsLive(s, 2) && !Sole(s, id)
  {
    var first, later := Sys(now, map[], []), now + LIFETIME_MS;
    var over, stray := Request(id, hash, Over), Request(id, hash, Executing(None));
    var waiting := Request(id, hash, Conflicted(later));
    steps, s := FinishedAndExpired(now, id, hash, response);
    ArriveAndConflict(first, steps, s, id, hash);
    assert [over] + [waiting] == [over, waiting] && [over, waiting] + [waiting] == [over, waiting, waiting];
    steps, s := steps + [Arrive(id, hash)] + [Insert(1)], s.(requests := [over, waiting]);
    ArriveAndConflict(first, steps, s, id, hash);
    steps, s := steps + [Arrive(id, hash)] + [Insert(2)], s.(requests := [over, waiting, waiting]);
    OneMoreStep(first, steps, s, Select(1));
    assert s.requests[1 := stray] == [over, stray, waiting];
    steps, s := steps + [Select(1)], s.(requests := [over, stray, waiting]);
    OneMoreStep(first, steps, s, Select(2));
    assert s.requests[2 := stray] == [over, stray, stray];
    steps, s := steps + [Select(2)], s.(requests := [over, stray, stray]);
    assert Executes(s, 1, id) && Executes(s, 2, id);
  }

  lemma FinishedAndExpired(now: int, id: Id, hash: string, response: Response) returns (steps: seq<Step>, s: Sys)
    ensures After(Sys(now, map[], []), steps) == Some(s)
    ensures s == Sys(now + LIFETIME_MS, map[id := Row(hash, Some(response), now + LIFETIME_MS, 0)],
                     [Request(id, hash, Over)])
  {
    var first, later := Sys(now, map[], []), now + LIFETIME_MS;
    var live, over := Request(id, hash, Executing(Some(later))), Request(id, hash, Over);
    ArriveAndInsert(first, [], first, id, hash);
    assert [] + [live] == [live] && [live][0 := over] == [over];
    steps, s := [] + [Arrive(id, hash)] + [Insert(0)], Sys(now, map[id := Row(hash, None, later, 0)], [live]);
    OneMoreStep(first, steps, s, Complete(0, response));
    var rows := map[id := Row(hash, Some(response), later, 0)];
    assert Completed(s.table, id, response) == rows;
    steps, s := steps + [Complete(0, response)], Sys(now, rows, [over]);
    OneMoreStep(first, steps, s, Tick(LIFETIME_MS));
    steps, s := steps + [Tick(LIFETIME_MS)], Sys(later, rows, [over]);
  }

  /** A request slower than the lifetime releases its successor's live claim. */
  lemma SlowRequestEvictsSuccessor(now: int, slow: nat, id: Id, hash: string) returns (steps: seq<Step>, s: Sys)
    requires slow > LIFETIME_MS
    ensures After(Sys(now, map[], []), steps) == Some(s) && Backed(s, id)
    ensures OwnsLive(s, 1) && Enabled(s, Release(0)) && s.requests[0].id == s.requests[1].id == id
    ensures id !in Next(s, Release(0)).table
  {
    var first, row := Sys(now, map[], []), Row(hash, None, now + LIFETIME_MS, 0);
    var owning := Request(id, hash, Executing(Some(now + LIFETIME_MS)));
    var owning' := Request(id, hash, Executing(Some(now + slow + LIFETIME_MS)));
    steps := [];
    ArriveAndInsert(first, steps, first, id, hash);
    assert [] + [owning] == [owning] && [owning] + [owning'] == [owning, owning'];
    assert map[id := row] - {id} == map[];
    steps, s := steps + [Arrive(id, hash)] + [Insert(0)], Sys(now, map[id := row], [owning]);
    OneMoreStep(first, steps, s, Tick(slow));
    steps, s := steps + [Tick(slow)], Sys(now + slow, map[id := row], [owning]);
    OneMoreStep(first, steps, s, Sweep(id));
    steps, s := steps + [Sweep(id)], Sys(now + slow, map[], [owning]);
    ArriveAndInsert(first, steps, s, id, hash);
    steps := steps + [Arrive(id, hash)] + [Insert(1)];
    s := Sys(now + slow, map[id := Row(hash, None, now + slow + LIFETIME_MS, 1)], [owning, owning']);
  }

  // ---- The table ---------------------------------------------------------------------------------------------

  class IdempotencyKeys {
    var rows: Table

    constructor ()
      ensures rows == map[]
    {
      rows := map[];
    }

    /** The INSERT of a claim; `claimant` only labels the row in the model. */
    method InsertKey(id: Id, hash: string, claimant: nat, now: int) returns (inserted: bool)
      modifies this
      ensures inserted == (id !in old(rows))
      ensures rows == if inserted then old(rows)[id := Row(hash, None, now + 86_400_000, claimant)] else old(rows)
    {
      inserted := id !in rows;
      if inserted { rows := rows[id := Row(hash, None, now + LIFETIME_MS, claimant)]; }
    }

    /** The SELECT of a claim and what the program makes of it. */
    method SelectKey(id: Id, hash: string, now: int) returns (claim: Claim)
      ensures claim == Selected(rows, id, hash, now)
    {
      if id !in rows || rows[id].expiresAt <= now { return Proceed; }
      var row := rows[id];
      if row.hash != hash { return HashConflict; }
      if row.response.None? { return StillInFlight; }
      return Replay(row.response.value);
    }

    /**
     * A claim: both statements, with the clock of the transaction's start. `meanwhile` is the table as other sessions
     * leave it between the two, so a row that made the INSERT conflict may be gone for the SELECT.
     */
    method ClaimKey(id: Id, hash: string, claimant: nat, now: int, meanwhile: Table) returns (claim: Claim)
      modifies this
      ensures id !in old(rows) ==> claim == Proceed && rows == Inserted(old(rows), id, hash, claimant, now)
      ensures id in old(rows) ==> claim == Selected(meanwhile, id, hash, now) && rows == meanwhile
    {
      var inserted := InsertKey(id, hash, claimant, now);
      if inserted { return Proceed; }
      rows := meanwhile;
      claim := SelectKey(id, hash, now);
    }

    method CompleteKey(id: Id, response: Response)
      modifies this
      ensures rows == Completed(old(rows), id, response)
    {
      if id in rows {
        rows := rows[id := rows[id].(response := Some(response))];
      }
    }

    method ReleaseKey(id: Id)
      modifies this
      ensures rows == Released(old(rows), id)
    {
      if id in rows && rows[id].response.None? {
        rows := rows - {id};
      }
    }
  }
}
