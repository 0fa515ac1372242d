/**
 Whether an upload that has been started comes to an end. Every chunk waits for the bandwidth limiter, which
 never lets through a chunk larger than one second's worth.
 */
module UploadProgress {
  import opened Content
  import opened Plan
  import opened Upload
  import opened UploadSafety
  import opened UploadTheorems

  /** Steps of the run itself; the others come from the user, the saver, the machine or strangers. */
  predicate Internal(a: Action) {
    !a.Start? && !a.SaverTick? && !a.Crash? && !a.Post?
  }

  /** How many phases a worker still has to go through. */
  function Rank(w: Worker): nat {
    match w
    case NotSpawned => 8
    case Spawned => 7
    case Preparing => 6
    case Pacing => 5
    case Sending => 4
    case Sent(_) => 3
    case Finishing => 2
    case Released => 1
    case Done => 0
  }

  function Work(ws: seq<Worker>): nat {
    if ws == [] then 0 else Work(ws[..|ws| - 1]) + Rank(ws[|ws| - 1])
  }

  lemma {:induction false} WorkUpdate(ws: seq<Worker>, i: nat, w: Worker)
    requires i < |ws|
    ensures Work(ws[i := w]) == Work(ws) - Rank(ws[i]) + Rank(w)
  {
    var n := |ws| - 1;
    if i < n {
      assert ws[i := w][..n] == ws[..n][i := w];
      WorkUpdate(ws[..n], i, w);
    } else {
      assert ws[i := w][..n] == ws[..n];
    }
  }

  lemma {:induction false} WorkBound(ws: seq<Worker>)
    ensures Work(ws) <= 8 * |ws|
  {
    if ws != [] {
      WorkBound(ws[..|ws| - 1]);
    }
  }

  /** Steps the run can still take. */
  function Measure(s: State): nat {
    if s.run.Some? && s.run.value.resumeFrom <= |s.run.value.workers|
    then Work(s.run.value.workers[s.run.value.resumeFrom..]) + 1 else 0
  }

  // ---------------------------------------------------------------- stuck

  /** Worker `i` waits for a limiter that never lets its chunk through. */
  predicate Blocked(env: Env, s: State, i: nat) {
    WorkerIs(env, s, i, (w: Worker) => w.Pacing?) && !Fits(env, s.run.value, i)
  }

  /** No more worker can be spawned, some are there, and every one that is there waits for ever. */
  ghost predicate AllWaitForEver(env: Env, s: State)
    requires s.run.Some?
  {
    var r := s.run.value;
    && (r.next == |r.workers| || r.sem == r.concurrency)
    && 0 < r.wg
    && forall i: nat :: i < |r.workers| && InWaitGroup(r.workers[i]) ==> Blocked(env, s, i)
  }

  /** What a worker that is in the wait group does next. */
  function NextOf(r: Run, i: nat): Action
    requires i < |r.workers|
  {
    match r.workers[i]
    case Spawned => CheckError(i)
    case Preparing => Prepare(i)
    case Pacing => Pass(i)
    case Sending => Fail(i)
    case Sent(_) => Record(i)
    case Finishing => Release(i)
    case _ => Leave(i)
  }

  /**
   While a run is there, none of its own steps is possible exactly when every worker that is left waits for
   the limiter for ever: neither the spawn loop nor the wait hangs for another reason.
   */
  lemma StuckIff(env: Env, initial: Option<FileEntry>, s: State)
    requires Inv(env, initial, s) && s.run.Some?
    ensures (forall a :: Internal(a) ==> !Enabled(env, s, a)) <==> AllWaitForEver(env, s)
  {
    var r := s.run.value;
    CountNone(r.workers, InWaitGroup);
    CountNone(r.workers, HoldsSlot);
    hide Fits, NumChunks, StoreInv, PersistInv, SlotsInv, Blocked;
    if AllWaitForEver(env, s) {
      forall a | Internal(a)
        ensures !Enabled(env, s, a)
      {
        NoneEnabled(env, initial, s, a);
      }
    } else if r.next < |r.workers| && r.sem < r.concurrency {
      assert Enabled(env, s, Spawn);
    } else if r.wg == 0 {
      assert Enabled(env, s, Finish(0));
    } else {
      var i: nat :| i < |r.workers| && InWaitGroup(r.workers[i]) && !Blocked(env, s, i);
      NextIsEnabled(env, s, i);
    }
  }

  lemma NextIsEnabled(env: Env, s: State, i: nat)
    requires s.run.Some? && WellShaped(env, s.run.value) && i < |s.run.value.workers|
    requires InWaitGroup(s.run.value.workers[i]) && !Blocked(env, s, i)
    ensures Internal(NextOf(s.run.value, i)) && Enabled(env, s, NextOf(s.run.value, i))
  {
  }

  lemma NoneEnabled(env: Env, initial: Option<FileEntry>, s: State, a: Action)
    requires Inv(env, initial, s) && s.run.Some? && AllWaitForEver(env, s) && Internal(a)
    ensures !Enabled(env, s, a)
  {
    hide Fits, NumChunks, StoreInv, PersistInv, SlotsInv, KeptInv;
  }

  lemma WorkerMoveShrinks(r: Run, r': Run, i: nat, w: Worker)
    requires r.resumeFrom <= i < |r.workers|
    requires r'.workers == r.workers[i := w] && r'.resumeFrom == r.resumeFrom && Rank(w) < Rank(r.workers[i])
    ensures Work(r'.workers[r.resumeFrom..]) < Work(r.workers[r.resumeFrom..])
  {
    assert r'.workers[r.resumeFrom..] == r.workers[r.resumeFrom..][i - r.resumeFrom := w];
    WorkUpdate(r.workers[r.resumeFrom..], i - r.resumeFrom, w);
  }

  /** The worker that an internal step moves. */
  function MovedWorker(s: State, a: Action): nat
    requires Internal(a) && !a.Finish? && s.run.Some?
  {
    if a.Spawn? then s.run.value.next else a.i
  }

  /** Every internal step but the last moves one scheduled worker forward. */
  lemma InternalStepMoves(env: Env, initial: Option<FileEntry>, s: State, a: Action)
    requires Inv(env, initial, s) && Enabled(env, s, a) && Internal(a) && !a.Finish?
    ensures var r, i := s.run.value, MovedWorker(s, a);
            && Apply(env, s, a).run.Some?
            && r.resumeFrom <= i < |r.workers|
            && var r' := Apply(env, s, a).run.value;
               && r'.resumeFrom == r.resumeFrom
               && i < |r'.workers| && r'.workers == r.workers[i := r'.workers[i]]
               && Rank(r'.workers[i]) < Rank(r.workers[i])
  {
    hide Fits, SentChunk, ChunkBytes, Contiguous, CompleteEntry, PartialEntry, NumChunks, StoreInv, PersistInv;
    if a.Spawn? {
      SlotAt(env, s.remote, s.run.value, s.run.value.next);
    }
  }

  lemma InternalStepShrinks(env: Env, initial: Option<FileEntry>, s: State, a: Action)
    requires Inv(env, initial, s) && Enabled(env, s, a) && Internal(a)
    ensures Measure(Apply(env, s, a)) < Measure(s)
  {
    if !a.Finish? {
      InternalStepMoves(env, initial, s, a);
      var r' := Apply(env, s, a).run.value;
      WorkerMoveShrinks(s.run.value, r', MovedWorker(s, a), r'.workers[MovedWorker(s, a)]);
    }
  }

  function InternalSteps(acts: seq<Action>): nat {
    if acts == [] then 0 else InternalSteps(acts[..|acts| - 1]) + if Internal(acts[|acts| - 1]) then 1 else 0
  }

  // ---------------------------------------------------------------- runs that are left alone

  /** A run that nobody kills: the saver and other senders may do what they like. */
  ghost predicate Continues(env: Env, states: seq<State>, acts: seq<Action>) {
    && |states| == |acts| + 1
    && forall k {:trigger acts[k]} :: 0 <= k < |acts| ==>
         Enabled(env, states[k], acts[k]) && states[k + 1] == Apply(env, states[k], acts[k]) && !acts[k].Start? && !acts[k].Crash?
  }

  lemma {:induction false} ContinuesKeepsInv(env: Env, initial: Option<FileEntry>, states: seq<State>, acts: seq<Action>, k: nat)
    requires Continues(env, states, acts) && Inv(env, initial, states[0]) && k < |states|
    ensures Inv(env, initial, states[k])
  {
    if k != 0 {
      ContinuesKeepsInv(env, initial, states, acts, k - 1);
      assert Enabled(env, states[k - 1], acts[k - 1]);
      StepKeepsInv(env, initial, states[k - 1], acts[k - 1]);
    }
  }

  /**
   A run that is left alone takes at most eight steps per scheduled chunk and one to finish, whatever the
   saver and other senders do in between: it finishes, or it waits for ever.
   */
  lemma {:induction false} StepsBounded(env: Env, initial: Option<FileEntry>, states: seq<State>, acts: seq<Action>)
    requires Continues(env, states, acts) && Inv(env, initial, states[0])
    ensures InternalSteps(acts) + Measure(states[|acts|]) <= Measure(states[0])
    ensures states[0].run.Some? ==>
      Measure(states[0]) <= 8 * (|states[0].run.value.workers| - states[0].run.value.resumeFrom) + 1
  {
    if states[0].run.Some? {
      WorkBound(states[0].run.value.workers[states[0].run.value.resumeFrom..]);
    }
    if acts != [] {
      var n := |acts| - 1;
      assert Continues(env, states[..n + 1], acts[..n]);
      StepsBounded(env, initial, states[..n + 1], acts[..n]);
      ContinuesKeepsInv(env, initial, states, acts, n);
      hide Enabled, Apply, Inv, Measure;
      var s, a := states[n], acts[n];
      assert Enabled(env, s, a);
      if Internal(a) {
        InternalStepShrinks(env, initial, s, a);
      } else {
        OutsideKeepsMeasure(env, s, a);
      }
    }
  }

  lemma OutsideKeepsMeasure(env: Env, s: State, a: Action)
    requires Enabled(env, s, a) && !Internal(a) && !a.Start? && !a.Crash?
    ensures Measure(Apply(env, s, a)) == Measure(s) && Apply(env, s, a).run == s.run
  {
  }

  /** A run keeps its chunk size, its limit and its starting point. */
  predicate SameJob(r: Run, r': Run) {
    r'.chunkSize == r.chunkSize && r'.limitKBps == r.limitKBps && r'.resumeFrom == r.resumeFrom
  }

  lemma StepKeepsJob(env: Env, s: State, a: Action)
    requires Enabled(env, s, a) && !a.Start? && !a.Crash?
    ensures Apply(env, s, a).run.Some? ==> s.run.Some? && SameJob(s.run.value, Apply(env, s, a).run.value)
  {
  }

  lemma {:induction false} ContinuesKeepsJob(env: Env, states: seq<State>, acts: seq<Action>, k: nat)
    requires Continues(env, states, acts) && k < |states|
    ensures states[k].run.Some? ==> states[0].run.Some? && SameJob(states[0].run.value, states[k].run.value)
  {
    if k != 0 {
      ContinuesKeepsJob(env, states, acts, k - 1);
      assert Enabled(env, states[k - 1], acts[k - 1]);
      StepKeepsJob(env, states[k - 1], acts[k - 1]);
    }
  }

  // ---------------------------------------------------------------- waiting for ever

  /** A worker that waits for a limiter that never lets it through is still there at the end of any continuation. */
  lemma {:induction false} BlockedForEver(env: Env, initial: Option<FileEntry>, states: seq<State>, acts: seq<Action>, i: nat, k: nat)
    requires Continues(env, states, acts) && Inv(env, initial, states[0]) && k < |states| && Blocked(env, states[0], i)
    ensures Blocked(env, states[k], i)
  {
    if k != 0 {
      BlockedForEver(env, initial, states, acts, i, k - 1);
      ContinuesKeepsInv(env, initial, states, acts, k - 1);
      ContinuesKeepsInv(env, initial, states, acts, k);
      assert Enabled(env, states[k - 1], acts[k - 1]);
      StepKeepsBlocked(env, initial, states[k - 1], acts[k - 1], i);
    }
  }

  lemma StepKeepsBlocked(env: Env, initial: Option<FileEntry>, s: State, a: Action, i: nat)
    requires Inv(env, initial, s) && Enabled(env, s, a) && !a.Start? && !a.Crash? && Blocked(env, s, i)
    ensures Blocked(env, Apply(env, s, a), i)
  {
    CountNone(s.run.value.workers, InWaitGroup);
    assert InWaitGroup(s.run.value.workers[i]);
    StepKeepsInv(env, initial, s, a);
    StepKeepsJob(env, s, a);
    if a.Spawn? {
      SlotAt(env, s.remote, s.run.value, s.run.value.next);
    }
  }

  /** Some continuation ends the run. */
  ghost predicate CanFinish(env: Env, s: State) {
    exists states: seq<State>, acts: seq<Action> :: Continues(env, states, acts) && states[0] == s && states[|acts|].run.None?
  }

  lemma BlockedCannotFinish(env: Env, initial: Option<FileEntry>, s: State, i: nat)
    requires Inv(env, initial, s) && Blocked(env, s, i)
    ensures !CanFinish(env, s)
  {
    if CanFinish(env, s) {
      var states: seq<State>, acts: seq<Action> :| Continues(env, states, acts) && states[0] == s && states[|acts|].run.None?;
      BlockedForEver(env, initial, states, acts, i, |acts|);
    }
  }

  /** Every scheduled chunk is let through. */
  predicate AllFit(env: Env, r: Run)
    requires WellShaped(env, r)
  {
    forall i: nat :: r.resumeFrom <= i < |r.workers| ==> Fits(env, r, i)
  }

  lemma SameJobFits(env: Env, r: Run, r': Run)
    requires WellShaped(env, r) && WellShaped(env, r') && SameJob(r, r') && AllFit(env, r)
    ensures AllFit(env, r')
  {
    forall i: nat | r'.resumeFrom <= i < |r'.workers|
      ensures Fits(env, r', i)
    {
      assert Fits(env, r, i);
    }
  }

  /** The first scheduled chunk is as large as any. */
  lemma FirstIsLargest(env: Env, r: Run, i: nat)
    requires WellShaped(env, r) && r.resumeFrom <= i < |r.workers| && Fits(env, r, r.resumeFrom)
    ensures Fits(env, r, i)
  {
    CutTiles(|env.file|, r.chunkSize, i);
    CutTiles(|env.file|, r.chunkSize, r.resumeFrom);
  }

  lemma AllFitIffFirst(env: Env, r: Run)
    requires WellShaped(env, r)
    ensures AllFit(env, r) <==> r.resumeFrom == |r.workers| || Fits(env, r, r.resumeFrom)
  {
    if r.resumeFrom < |r.workers| && Fits(env, r, r.resumeFrom) {
      forall i: nat | r.resumeFrom <= i < |r.workers|
        ensures Fits(env, r, i)
      {
        FirstIsLargest(env, r, i);
      }
    }
  }

  /** What is left to send, a chunk of it at most, is within one second's worth of the limit, or there is no limit. */
  predicate WithinLimit(total: int, chunkSize: int, resumeFrom: nat, limitKBps: int) {
    var rest := total - resumeFrom * chunkSize;
    limitKBps <= 0 || rest <= 0 || (if rest < chunkSize then rest else chunkSize) <= limitKBps * 1024
  }

  lemma AllFitIffWithinLimit(env: Env, r: Run)
    requires WellShaped(env, r)
    ensures AllFit(env, r) <==> WithinLimit(|env.file|, r.chunkSize, r.resumeFrom, r.limitKBps)
  {
    AllFitIffFirst(env, r);
    PlannedSizes(|env.file|, r.chunkSize, r.resumeFrom);
    hide AllFit, Cut, NumChunks;
  }

  /** A fresh run whose first scheduled chunk does not fit hangs after three steps. */
  lemma HangingRun(env: Env, initial: Option<FileEntry>, s: State) returns (states: seq<State>, acts: seq<Action>)
    requires Inv(env, initial, s) && s.run.Some?
    requires var r := s.run.value;
             !r.failed && r.next == r.resumeFrom < |r.workers| && r.sem == 0 && !Fits(env, r, r.resumeFrom)
    ensures Continues(env, states, acts) && states[0] == s && |acts| == 3
    ensures Blocked(env, states[3], s.run.value.resumeFrom)
  {
    var k := s.run.value.resumeFrom;
    SlotAt(env, s.remote, s.run.value, k);
    var s1 := Apply(env, s, Spawn);
    var s2 := Apply(env, s1, CheckError(k));
    var s3 := Apply(env, s2, Prepare(k));
    states, acts := [s, s1, s2, s3], [Spawn, CheckError(k), Prepare(k)];
  }

  // ---------------------------------------------------------------- finishing

  /** While all scheduled chunks fit, some step of the run is possible that is not a failure. */
  lemma GoodStep(env: Env, initial: Option<FileEntry>, s: State) returns (a: Action)
    requires Inv(env, initial, s) && s.run.Some? && AllFit(env, s.run.value)
    ensures Internal(a) && !a.Fail? && Enabled(env, s, a)
  {
    var r := s.run.value;
    CountNone(r.workers, InWaitGroup);
    CountNone(r.workers, HoldsSlot);
    if r.next < |r.workers| && r.sem < r.concurrency {
      a := Spawn;
    } else if r.wg == 0 {
      a := Finish(0);
    } else {
      var i: nat :| i < |r.workers| && InWaitGroup(r.workers[i]);
      if r.workers[i].Sending? {
        var id := FreshId(env.chatIds[i % |env.chatIds|], s.remote.Keys);
        a := Send(i, id, "p");
      } else {
        a := NextOf(r, i);
      }
    }
  }

  /** The step ends its run with success. */
  predicate Publishes(env: Env, s: State, a: Action) {
    a.Finish? && Enabled(env, s, a) && !s.run.value.failed
  }

  lemma GoodStepKeeps(env: Env, s: State, a: Action)
    requires Internal(a) && !a.Fail? && Enabled(env, s, a) && s.run.Some?
    ensures var s' := Apply(env, s, a);
            if s'.run.Some? then s'.run.value.failed == s.run.value.failed && SameJob(s.run.value, s'.run.value)
            else !s.run.value.failed ==> Publishes(env, s, a)
  {
  }

  lemma ContinuesBefore(env: Env, s: State, a: Action, states: seq<State>, acts: seq<Action>)
    requires Enabled(env, s, a) && !a.Start? && !a.Crash? && Continues(env, states, acts) && states[0] == Apply(env, s, a)
    ensures Continues(env, [s] + states, [a] + acts)
  {
    assert forall k {:trigger ([a] + acts)[k]} :: 1 <= k <= |acts| ==> ([a] + acts)[k] == acts[k - 1];
  }

  /** When all scheduled chunks fit, any run, however far it is, can be brought to its end, and to success if nothing failed. */
  lemma {:induction false} FinishFrom(env: Env, initial: Option<FileEntry>, s: State) returns (states: seq<State>, acts: seq<Action>)
    requires Inv(env, initial, s)
    requires s.run.Some? ==> AllFit(env, s.run.value)
    ensures Continues(env, states, acts) && states[0] == s
    ensures states[|acts|].run.None?
    ensures s.run.Some? && !s.run.value.failed ==> acts != [] && Publishes(env, states[|acts| - 1], acts[|acts| - 1])
    ensures s.run.None? ==> acts == []
    decreases Measure(s)
  {
    if s.run.None? {
      states, acts := [s], [];
    } else {
      var a := GoodStep(env, initial, s);
      var s' := Apply(env, s, a);
      StepKeepsInv(env, initial, s, a);
      InternalStepShrinks(env, initial, s, a);
      GoodStepKeeps(env, s, a);
      if s'.run.Some? {
        SameJobFits(env, s.run.value, s'.run.value);
      }
      hide Inv, Enabled, Apply, Measure, Continues, SameJob, AllFit;
      var states', acts' := FinishFrom(env, initial, s');
      ContinuesBefore(env, s, a, states', acts');
      states, acts := [s] + states', [a] + acts';
    }
  }

  /**
   A run that is started can be finished from every state it can get into exactly when there is no limit, or the
   largest chunk that is still to be sent is no larger than one second's worth of it.
   */
  lemma AlwaysFinishableIff(env: Env, initial: Option<FileEntry>, s: State, chunkSetting: int, concurrencySetting: int, limitKBps: int)
    requires Inv(env, initial, s) && s.run.None?
    ensures var started := Apply(env, s, Start(chunkSetting, concurrencySetting, limitKBps));
            && WellShaped(env, started.run.value)
            && ((forall states: seq<State>, acts: seq<Action> :: Continues(env, states, acts) && states[0] == started ==> CanFinish(env, states[|acts|]))
                <==> WithinLimit(|env.file|, ClampChunkSize(chunkSetting), started.run.value.resumeFrom, limitKBps))
  {
    var started := Apply(env, s, Start(chunkSetting, concurrencySetting, limitKBps));
    StepKeepsInv(env, initial, s, Start(chunkSetting, concurrencySetting, limitKBps));
    var r := started.run.value;
    AllFitIffWithinLimit(env, r);
    AllFitIffFirst(env, r);
    if AllFit(env, r) {
      forall states: seq<State>, acts: seq<Action> | Continues(env, states, acts) && states[0] == started
        ensures CanFinish(env, states[|acts|])
      {
        FinishableAt(env, initial, states, acts);
      }
    } else {
      var states, acts := HangingRun(env, initial, started);
      ContinuesKeepsInv(env, initial, states, acts, 3);
      BlockedCannotFinish(env, initial, states[3], r.resumeFrom);
    }
  }

  lemma FinishableAt(env: Env, initial: Option<FileEntry>, states: seq<State>, acts: seq<Action>)
    requires Continues(env, states, acts) && Inv(env, initial, states[0])
    requires states[0].run.Some? && AllFit(env, states[0].run.value)
    ensures CanFinish(env, states[|acts|])
  {
    ContinuesKeepsInv(env, initial, states, acts, |acts|);
    ContinuesKeepsJob(env, states, acts, |acts|);
    var last := states[|acts|];
    if last.run.Some? {
      SameJobFits(env, states[0].run.value, last.run.value);
    }
    hide *;
    Finishable(env, initial, last);
  }

  lemma Finishable(env: Env, initial: Option<FileEntry>, s: State)
    requires Inv(env, initial, s) && (s.run.Some? ==> AllFit(env, s.run.value))
    ensures CanFinish(env, s)
  {
    var states, acts := FinishFrom(env, initial, s);
  }

  // ---------------------------------------------------------------- parallel workers, and errors

  /** The workers that a run may have under way: four unless set, at most 32. */
  lemma {:induction false} SpawnMany(env: Env, initial: Option<FileEntry>, s: State, m: nat) returns (states: seq<State>, acts: seq<Action>)
    requires Inv(env, initial, s) && s.run.Some?
    requires var r := s.run.value; r.sem + m <= r.concurrency && r.next + m <= |r.workers|
    ensures Continues(env, states, acts) && states[0] == s && states[|acts|].run.Some?
    ensures states[|acts|].run.value.sem == s.run.value.sem + m
    decreases m
  {
    if m == 0 {
      states, acts := [s], [];
    } else {
      var s' := Apply(env, s, Spawn);
      StepKeepsInv(env, initial, s, Spawn);
      hide Inv, Continues;
      var states', acts' := SpawnMany(env, initial, s', m - 1);
      ContinuesBefore(env, s, Spawn, states', acts');
      states, acts := [s] + states', [Spawn] + acts';
    }
  }

  /**
   A run that is started can have as many workers under way as the setting asks for, four if it is not set and 32 at
   most, or as many as there are chunks left to send.
   */
  lemma ParallelAsAsked(env: Env, initial: Option<FileEntry>, s: State, chunkSetting: int, concurrencySetting: int, limitKBps: int, m: nat)
      returns (states: seq<State>, acts: seq<Action>)
    requires Inv(env, initial, s) && s.run.None?
    requires m <= if concurrencySetting <= 0 then 4 else if 32 < concurrencySetting then 32 else concurrencySetting
    requires var r := Apply(env, s, Start(chunkSetting, concurrencySetting, limitKBps)).run.value; m <= |r.workers| - r.resumeFrom
    ensures Continues(env, states, acts) && states[0] == Apply(env, s, Start(chunkSetting, concurrencySetting, limitKBps))
    ensures states[|acts|].run.Some? && Count(states[|acts|].run.value.workers, HoldsSlot) == m
  {
    var started := Apply(env, s, Start(chunkSetting, concurrencySetting, limitKBps));
    StepKeepsInv(env, initial, s, Start(chunkSetting, concurrencySetting, limitKBps));
    assert started.run.value.sem == 0;
    ClampsConcurrency(concurrencySetting, 32);
    states, acts := SpawnMany(env, initial, started, m);
    ContinuesKeepsInv(env, initial, states, acts, |acts|);
  }

  /** The worker has not looked at the shared error yet. */
  predicate NotBegun(w: Worker) {
    w.NotSpawned? || w.Spawned?
  }

  /** The run has failed, and worker `i` has prepared nothing, sent nothing and recorded nothing. */
  ghost predicate NeverBegan(r: Run, i: nat) {
    && r.failed && i < |r.workers| == |r.chunks| && r.chunks[i].hash == ""
    && (NotBegun(r.workers[i]) || r.workers[i].Finishing? || r.workers[i].Released? || r.workers[i].Done?)
  }

  lemma StepKeepsNeverBegan(env: Env, s: State, a: Action, i: nat)
    requires Enabled(env, s, a) && !a.Start? && !a.Crash? && s.run.Some? && NeverBegan(s.run.value, i)
    ensures Apply(env, s, a).run.Some? ==> NeverBegan(Apply(env, s, a).run.value, i)
  {
    hide Fits, SentChunk, ChunkBytes, Contiguous, PartialEntry, CompleteEntry, NumChunks;
  }

  /** Once a worker has failed, a worker that has not begun never does, for as long as the run lasts. */
  lemma {:induction false} NothingBeginsAfterError(env: Env, initial: Option<FileEntry>, states: seq<State>, acts: seq<Action>, i: nat, k: nat)
    requires Continues(env, states, acts) && Inv(env, initial, states[0]) && k < |states| && states[k].run.Some?
    requires states[0].run.Some? && states[0].run.value.failed
    requires states[0].run.value.resumeFrom <= i < |states[0].run.value.workers| && NotBegun(states[0].run.value.workers[i])
    ensures NeverBegan(states[k].run.value, i)
  {
    if k == 0 {
      SlotAt(env, states[0].remote, states[0].run.value, i);
    } else {
      hide Inv, Apply, NeverBegan, Enabled;
      assert Enabled(env, states[k - 1], acts[k - 1]);
      StepKeepsJob(env, states[k - 1], acts[k - 1]);
      NothingBeginsAfterError(env, initial, states, acts, i, k - 1);
      StepKeepsNeverBegan(env, states[k - 1], acts[k - 1], i);
    }
  }

  /** The path is hidden, and will be until it is uploaded again: no run is there, or one that has failed. */
  ghost predicate HiddenForGood(s: State) {
    && (s.run.Some? ==> s.run.value.failed)
    && s.mem.Some? && s.mem.value.incomplete && s.disk.Some? && s.disk.value.incomplete
  }

  lemma StepKeepsHidden(env: Env, initial: Option<FileEntry>, s: State, a: Action)
    requires Inv(env, initial, s) && Enabled(env, s, a) && !a.Start? && HiddenForGood(s)
    ensures HiddenForGood(Apply(env, s, a))
  {
    hide Fits, SentChunk, ChunkBytes, Contiguous, CompleteEntry, NumChunks;
  }

  /**
   A worker that prepares or sends its chunk may fail at any moment, and then the run never publishes: whatever else
   happens, the path is hidden until the next start.
   */
  lemma {:induction false} FailureHides(env: Env, initial: Option<FileEntry>, s: State, i: nat, states: seq<State>, acts: seq<Action>, k: nat)
    requires Inv(env, initial, s) && s.run.Some? && i < |s.run.value.workers|
    requires s.run.value.workers[i].Preparing? || s.run.value.workers[i].Sending?
    ensures Enabled(env, s, Fail(i))
    ensures Continues(env, states, acts) && states[0] == Apply(env, s, Fail(i)) && k < |states| ==> HiddenForGood(states[k])
  {
    if Continues(env, states, acts) && states[0] == Apply(env, s, Fail(i)) && k < |states| {
      StepKeepsInv(env, initial, s, Fail(i));
      if k != 0 {
        FailureHides(env, initial, s, i, states, acts, k - 1);
        ContinuesKeepsInv(env, initial, states, acts, k - 1);
        hide Inv, Apply, HiddenForGood, Enabled;
        assert Enabled(env, states[k - 1], acts[k - 1]);
        StepKeepsHidden(env, initial, states[k - 1], acts[k - 1]);
      }
    }
  }

  // ---------------------------------------------------------------- publishing

  /** What has been sent or recorded has passed the limiter. */
  ghost predicate PassedFit(env: Env, s: State) {
    s.run.Some? && WellShaped(env, s.run.value) ==>
      var r := s.run.value;
      forall i: nat :: r.resumeFrom <= i < |r.workers| && (r.workers[i].Sending? || r.workers[i].Sent? || r.chunks[i].hash != "") ==>
        Fits(env, r, i)
  }

  lemma StepKeepsPassed(env: Env, s: State, a: Action)
    requires Enabled(env, s, a) && !a.Start? && !a.Crash? && PassedFit(env, s)
    ensures PassedFit(env, Apply(env, s, a))
  {
    StepKeepsJob(env, s, a);
  }

  lemma {:induction false} PassedAt(env: Env, states: seq<State>, acts: seq<Action>, k: nat)
    requires Continues(env, states, acts) && PassedFit(env, states[0]) && k < |states|
    ensures PassedFit(env, states[k])
  {
    if k != 0 {
      PassedAt(env, states, acts, k - 1);
      assert Enabled(env, states[k - 1], acts[k - 1]);
      StepKeepsPassed(env, states[k - 1], acts[k - 1]);
    }
  }

  /** Some continuation publishes the file. */
  ghost predicate CanPublish(env: Env, s: State) {
    exists states: seq<State>, acts: seq<Action> ::
      Continues(env, states, acts) && states[0] == s && acts != [] && Publishes(env, states[|acts| - 1], acts[|acts| - 1])
  }

  /** A run that is started can publish its file under exactly the same condition. */
  lemma PublishableIff(env: Env, initial: Option<FileEntry>, s: State, chunkSetting: int, concurrencySetting: int, limitKBps: int)
    requires Inv(env, initial, s) && s.run.None?
    ensures var started := Apply(env, s, Start(chunkSetting, concurrencySetting, limitKBps));
            && WellShaped(env, started.run.value)
            && (CanPublish(env, started) <==>
                WithinLimit(|env.file|, ClampChunkSize(chunkSetting), started.run.value.resumeFrom, limitKBps))
  {
    var started := Apply(env, s, Start(chunkSetting, concurrencySetting, limitKBps));
    StepKeepsInv(env, initial, s, Start(chunkSetting, concurrencySetting, limitKBps));
    var r := started.run.value;
    AllFitIffWithinLimit(env, r);
    if AllFit(env, r) {
      var states, acts := FinishFrom(env, initial, started);
    }
    if CanPublish(env, started) {
      StartPassed(env, s, Start(chunkSetting, concurrencySetting, limitKBps));
      PublishedAllFit(env, initial, started);
    }
  }

  lemma StartPassed(env: Env, s: State, a: Action)
    requires a.Start? && Enabled(env, s, a)
    ensures PassedFit(env, Apply(env, s, a))
  {
  }

  lemma PublishedAllFit(env: Env, initial: Option<FileEntry>, s: State)
    requires Inv(env, initial, s) && s.run.Some? && PassedFit(env, s) && CanPublish(env, s)
    ensures AllFit(env, s.run.value)
  {
    var states: seq<State>, acts: seq<Action> :|
      Continues(env, states, acts) && states[0] == s && acts != [] && Publishes(env, states[|acts| - 1], acts[|acts| - 1]);
    var n := |acts| - 1;
    PassedAt(env, states, acts, n);
    ContinuesKeepsInv(env, initial, states, acts, n);
    ContinuesKeepsJob(env, states, acts, n);
    PublishedFit(env, states[n], acts[n]);
    SameJobFits(env, states[n].run.value, s.run.value);
  }

  lemma PublishedFit(env: Env, s: State, a: Action)
    requires s.run.Some? && RunInv(env, s, s.run.value) && Publishes(env, s, a) && PassedFit(env, s)
    ensures AllFit(env, s.run.value)
  {
    AllSlotsFilled(env, s.remote, s.run.value);
  }

  /** Without a limit, as by default, every upload that is started can always be finished, and can publish its file. */
  lemma WithoutLimitUploads(env: Env, initial: Option<FileEntry>, s: State, chunkSetting: int, concurrencySetting: int, limitKBps: int,
                            states: seq<State>, acts: seq<Action>)
    requires Inv(env, initial, s) && s.run.None? && limitKBps <= 0
    requires Continues(env, states, acts) && states[0] == Apply(env, s, Start(chunkSetting, concurrencySetting, limitKBps))
    ensures CanFinish(env, states[|acts|]) && CanPublish(env, states[0])
  {
    AlwaysFinishableIff(env, initial, s, chunkSetting, concurrencySetting, limitKBps);
    PublishableIff(env, initial, s, chunkSetting, concurrencySetting, limitKBps);
  }

  /**
   It does happen: with the default chunk size and a limit of 10 MiB per second, uploading any file larger than
   that hangs in its first chunk.
   */
  lemma DefaultsHang(env: Env)
    requires env.Valid() && 10240 * 1024 < |env.file|
    ensures exists states: seq<State>, acts: seq<Action> ::
              && IsHistory(env, None, states, acts) && |acts| == 4 && acts[0] == Start(0, 0, 10240)
              && Blocked(env, states[4], 0) && !CanFinish(env, states[4])
  {
    var s := State(map[], None, None, false, None, 1);
    var a := Start(0, 0, 10240);
    StepKeepsInv(env, None, s, a);
    var started := Apply(env, s, a);
    FirstChunkTooLarge(env, started.run.value);
    var states, acts := HangingRun(env, None, started);
    ContinuesKeepsInv(env, None, states, acts, 3);
    BlockedCannotFinish(env, None, states[3], 0);
    assert IsHistory(env, None, [s] + states, [a] + acts);
    assert ([s] + states)[4] == states[3];
  }

  lemma FirstChunkTooLarge(env: Env, r: Run)
    requires WellShaped(env, r) && r.chunkSize == DEFAULT_CHUNK_SIZE && r.limitKBps == 10240 && 10240 * 1024 < |env.file|
    ensures 0 < |r.workers| && !Fits(env, r, 0)
  {
    NumChunksBounds(|env.file|, r.chunkSize, 0);
  }
}
