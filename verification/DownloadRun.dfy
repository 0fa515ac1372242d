/**
 The parallel download as a transition system: one worker per chunk, a semaphore, the cache and the bandwidth
 limiter, an error channel with room for one error per chunk, and a local file that the workers write in any
 order.
 */
module DownloadRun {
  import opened Content
  import opened Download
  import opened RateLimit

  datatype Worker =
    | Waiting
    | Looking
    | Pacing
    | Fetching
    | Fetched
    | Reporting
    | Ended(ok: bool)

  /** `reported` is the number of errors in the channel. */
  datatype State = State(workers: seq<Worker>, out: Bytes, sem: int, reported: int)

  datatype Action =
    | Acquire(i: nat)
    | Hit(i: nat)
    | Miss(i: nat)
    | Pass(i: nat)
    | FetchSucceeds(i: nat)
    | FetchFails(i: nat)
    | Write(i: nat)
    | WriteFails(i: nat)
    | Report(i: nat)

  /**
   The stored file that is downloaded, how many workers may be under way, and the bandwidth limit. Each worker
   looks into the cache once; `cached` are the chunks that are found there.
   */
  datatype Job = Job(remote: Remote, chunks: seq<ChunkFile>, data: Bytes, concurrency: int, limitKBps: int, cached: set<nat>)
  {
    ghost predicate Valid() {
      0 < |chunks| && 0 < concurrency && Holds(remote, chunks, data)
    }

    /** The limiter ever lets chunk `i` through. */
    predicate Fits(i: nat)
      requires i < |chunks|
    {
      LetsThrough(limitKBps, chunks[i].size)
    }
  }

  function Start(job: Job): State {
    State(seq(|job.chunks|, _ => Waiting), [], 0, 0)
  }

  /** A sender waits while the channel is full. */
  predicate Enabled(job: Job, s: State, a: Action) {
    a.i < |s.workers| == |job.chunks| &&
    match a
    case Acquire(i) => s.workers[i].Waiting? && s.sem < job.concurrency
    case Hit(i) => s.workers[i].Looking? && i in job.cached
    case Miss(i) => s.workers[i].Looking? && i !in job.cached
    case Pass(i) => s.workers[i].Pacing? && job.Fits(i)
    case FetchSucceeds(i) => s.workers[i].Fetching? && Fetch(job.remote, job.chunks[i]).Ok? && 0 <= Offset(job.chunks, i)
    case FetchFails(i) => s.workers[i].Fetching?
    case Write(i) => s.workers[i].Fetched? && Fetch(job.remote, job.chunks[i]).Ok? && 0 <= Offset(job.chunks, i)
    case WriteFails(i) => s.workers[i].Fetched?
    case Report(i) => s.workers[i].Reporting? && s.reported < |job.chunks|
  }

  function After(a: Action): Worker {
    match a
    case Acquire(_) => Looking
    case Hit(_) => Fetched
    case Miss(_) => Pacing
    case Pass(_) => Fetching
    case FetchSucceeds(_) => Fetched
    case FetchFails(_) => Reporting
    case Write(_) => Ended(true)
    case WriteFails(_) => Reporting
    case Report(_) => Ended(false)
  }

  function Apply(job: Job, s: State, a: Action): State
    requires Enabled(job, s, a)
  {
    var s' := s.(workers := s.workers[a.i := After(a)]);
    match a
    case Acquire(_) => s'.(sem := s.sem + 1)
    case Hit(_) => s'
    case Miss(_) => s'
    case Pass(_) => s'
    case FetchSucceeds(_) => s'
    case FetchFails(_) => s'
    case Write(i) => s'.(out := WriteAt(s.out, Fetch(job.remote, job.chunks[i]).value, Offset(job.chunks, i)), sem := s.sem - 1)
    case WriteFails(_) => s'
    case Report(_) => s'.(reported := s.reported + 1, sem := s.sem - 1)
  }

  // ---------------------------------------------------------------- adding up over the workers

  function Slot(w: Worker): nat {
    if w.Waiting? || w.Ended? then 0 else 1
  }

  function Error(w: Worker): nat {
    if w == Ended(false) then 1 else 0
  }

  /** Steps that a worker still has. */
  function StepsLeft(w: Worker): nat {
    match w
    case Waiting => 6
    case Looking => 5
    case Pacing => 4
    case Fetching => 3
    case Fetched => 2
    case Reporting => 1
    case Ended(_) => 0
  }

  function Sum(ws: seq<Worker>, f: Worker -> nat): nat {
    if ws == [] then 0 else Sum(ws[..|ws| - 1], f) + f(ws[|ws| - 1])
  }

  lemma {:induction false} SumUpdate(ws: seq<Worker>, f: Worker -> nat, i: nat, w: Worker)
    requires i < |ws|
    ensures Sum(ws[i := w], f) == Sum(ws, f) - f(ws[i]) + f(w)
  {
    var n := |ws| - 1;
    if i < n {
      assert ws[i := w][..n] == ws[..n][i := w];
      SumUpdate(ws[..n], f, i, w);
    } else {
      assert ws[i := w][..n] == ws[..n];
    }
  }

  lemma {:induction false} SumBound(ws: seq<Worker>, f: Worker -> nat, most: nat)
    requires forall w :: f(w) <= most
    ensures Sum(ws, f) <= |ws| * most
    ensures forall i :: 0 <= i < |ws| ==> Sum(ws, f) + most <= |ws| * most + f(ws[i])
  {
    if ws != [] {
      var n := |ws| - 1;
      SumBound(ws[..n], f, most);
      assert |ws| * most == n * most + most;
      forall i | 0 <= i < |ws|
        ensures Sum(ws, f) + most <= |ws| * most + f(ws[i])
      {
        if i < n {
          assert ws[..n][i] == ws[i];
        }
      }
    }
  }

  lemma {:induction false} SumZero(ws: seq<Worker>, f: Worker -> nat)
    ensures Sum(ws, f) == 0 <==> forall i :: 0 <= i < |ws| ==> f(ws[i]) == 0
  {
    if ws != [] {
      var n := |ws| - 1;
      SumZero(ws[..n], f);
      assert forall i :: 0 <= i < n ==> ws[..n][i] == ws[i];
    }
  }

  // ---------------------------------------------------------------- what every step keeps

  /** The counters are exact, slots are never exceeded, and every chunk written is in its place. */
  ghost predicate Inv(job: Job, s: State) {
    && job.Valid()
    && |s.workers| == |job.chunks|
    && s.sem == Sum(s.workers, Slot) <= job.concurrency
    && s.reported == Sum(s.workers, Error)
    && |s.out| <= |job.data|
    && forall i: nat :: i < |s.workers| && s.workers[i] == Ended(true) ==> InPlace(job.chunks, job.data, s.out, i)
  }

  lemma StartInv(job: Job)
    requires job.Valid()
    ensures Inv(job, Start(job))
  {
    SumZero(Start(job).workers, Slot);
    SumZero(Start(job).workers, Error);
  }

  lemma StepKeepsInv(job: Job, s: State, a: Action)
    requires Inv(job, s) && Enabled(job, s, a)
    ensures Inv(job, Apply(job, s, a))
  {
    SumUpdate(s.workers, Slot, a.i, After(a));
    SumUpdate(s.workers, Error, a.i, After(a));
    if a.Write? {
      WriteKeepsPlaces(job.remote, job.chunks, job.data, s.out, a.i);
    }
  }

  ghost predicate IsHistory(job: Job, states: seq<State>, acts: seq<Action>) {
    && |states| == |acts| + 1
    && states[0] == Start(job)
    && forall k {:trigger acts[k]} :: 0 <= k < |acts| ==> Enabled(job, states[k], acts[k]) && states[k + 1] == Apply(job, states[k], acts[k])
  }

  lemma {:induction false} HistoryKeepsInv(job: Job, states: seq<State>, acts: seq<Action>, k: nat)
    requires job.Valid() && IsHistory(job, states, acts) && k < |states|
    ensures Inv(job, states[k])
  {
    if k == 0 {
      StartInv(job);
    } else {
      HistoryKeepsInv(job, states, acts, k - 1);
      assert Enabled(job, states[k - 1], acts[k - 1]);
      StepKeepsInv(job, states[k - 1], acts[k - 1]);
    }
  }

  // ---------------------------------------------------------------- promises

  /** At most `concurrency` workers are under way, and each slot taken is given back. */
  lemma SlotsBounded(job: Job, states: seq<State>, acts: seq<Action>, k: nat)
    requires job.Valid() && IsHistory(job, states, acts) && k < |states|
    ensures 0 <= states[k].sem == Sum(states[k].workers, Slot) <= job.concurrency
    ensures AllEnded(states[k]) ==> states[k].sem == 0
  {
    HistoryKeepsInv(job, states, acts, k);
    SumZero(states[k].workers, Slot);
  }

  /** The channel has room for one error per chunk, so a worker that reports an error never waits. */
  lemma ReportNeverBlocks(job: Job, states: seq<State>, acts: seq<Action>, k: nat, i: nat)
    requires job.Valid() && IsHistory(job, states, acts) && k < |states|
    requires i < |states[k].workers| && states[k].workers[i].Reporting?
    ensures Enabled(job, states[k], Report(i))
  {
    HistoryKeepsInv(job, states, acts, k);
    SumBound(states[k].workers, Error, 1);
  }

  predicate AllEnded(s: State) {
    forall i :: 0 <= i < |s.workers| ==> s.workers[i].Ended?
  }

  /** Worker `i` waits for a limiter that never lets its chunk through. */
  predicate Blocked(job: Job, s: State, i: nat) {
    i < |s.workers| == |job.chunks| && s.workers[i].Pacing? && !job.Fits(i)
  }

  /** Some worker has not ended, no other can take a slot, and all that have one wait for ever. */
  predicate AllWaitForEver(job: Job, s: State) {
    && !AllEnded(s)
    && (s.sem == job.concurrency || forall i :: 0 <= i < |s.workers| ==> !s.workers[i].Waiting?)
    && forall i :: 0 <= i < |s.workers| && Slot(s.workers[i]) == 1 ==> Blocked(job, s, i)
  }

  /** What a worker that has a slot does next. */
  function NextOf(job: Job, w: Worker, i: nat): Action {
    match w
    case Looking => if i in job.cached then Hit(i) else Miss(i)
    case Pacing => Pass(i)
    case Fetching => FetchFails(i)
    case Fetched => WriteFails(i)
    case _ => Report(i)
  }

  /** No worker can step exactly when all have ended, or all that are left wait for the limiter for ever. */
  lemma StuckIff(job: Job, s: State)
    requires Inv(job, s)
    ensures (forall a :: !Enabled(job, s, a)) <==> AllEnded(s) || AllWaitForEver(job, s)
  {
    SumBound(s.workers, Error, 1);
    SumZero(s.workers, Slot);
    if AllEnded(s) || AllWaitForEver(job, s) {
      forall a
        ensures !Enabled(job, s, a)
      {
      }
    } else if i: nat :| i < |s.workers| && s.workers[i].Waiting? && s.sem < job.concurrency {
      assert Enabled(job, s, Acquire(i));
    } else {
      var j: nat :| j < |s.workers| && Slot(s.workers[j]) == 1 && !Blocked(job, s, j);
      assert Enabled(job, s, NextOf(job, s.workers[j], j));
    }
  }

  /** Every step uses up one of at most six steps per chunk: a download finishes, or it waits for ever. */
  lemma {:induction false} StepsBounded(job: Job, states: seq<State>, acts: seq<Action>)
    requires job.Valid() && IsHistory(job, states, acts)
    ensures |acts| + Sum(states[|acts|].workers, StepsLeft) <= 6 * |job.chunks|
  {
    if acts == [] {
      SumBound(states[0].workers, StepsLeft, 6);
    } else {
      var n := |acts| - 1;
      StepsBounded(job, states[..n + 1], acts[..n]);
      assert Enabled(job, states[n], acts[n]);
      SumUpdate(states[n].workers, StepsLeft, acts[n].i, After(acts[n]));
    }
  }

  // ---------------------------------------------------------------- finishing, or waiting for ever

  /** From `states[0]`, any steps. */
  ghost predicate Continues(job: Job, states: seq<State>, acts: seq<Action>) {
    && |states| == |acts| + 1
    && forall k {:trigger acts[k]} :: 0 <= k < |acts| ==> Enabled(job, states[k], acts[k]) && states[k + 1] == Apply(job, states[k], acts[k])
  }

  ghost predicate CanFinish(job: Job, s: State) {
    exists states: seq<State>, acts: seq<Action> :: Continues(job, states, acts) && states[0] == s && AllEnded(states[|acts|])
  }

  /** Every chunk that is not found in the cache is let through. */
  predicate AllFit(job: Job) {
    forall i: nat :: i < |job.chunks| && i !in job.cached ==> job.Fits(i)
  }

  lemma {:induction false} BlockedForEver(job: Job, states: seq<State>, acts: seq<Action>, i: nat, k: nat)
    requires Continues(job, states, acts) && Blocked(job, states[0], i) && k < |states|
    ensures Blocked(job, states[k], i)
  {
    if k != 0 {
      BlockedForEver(job, states, acts, i, k - 1);
      assert Enabled(job, states[k - 1], acts[k - 1]);
    }
  }

  lemma BlockedCannotFinish(job: Job, s: State, i: nat)
    requires Blocked(job, s, i)
    ensures !CanFinish(job, s)
  {
    if CanFinish(job, s) {
      var states: seq<State>, acts: seq<Action> :| Continues(job, states, acts) && states[0] == s && AllEnded(states[|acts|]);
      BlockedForEver(job, states, acts, i, |acts|);
    }
  }

  /** A worker that waits for the limiter was not served by the cache. */
  ghost predicate PacedMissed(job: Job, s: State) {
    forall i: nat :: i < |s.workers| && s.workers[i].Pacing? ==> i !in job.cached
  }

  lemma {:induction false} PacedAt(job: Job, states: seq<State>, acts: seq<Action>, k: nat)
    requires IsHistory(job, states, acts) && k < |states|
    ensures PacedMissed(job, states[k])
  {
    if k != 0 {
      PacedAt(job, states, acts, k - 1);
      assert Enabled(job, states[k - 1], acts[k - 1]);
    }
  }

  lemma ContinuesBefore(job: Job, s: State, a: Action, states: seq<State>, acts: seq<Action>)
    requires Enabled(job, s, a) && Continues(job, states, acts) && states[0] == Apply(job, s, a)
    ensures Continues(job, [s] + states, [a] + acts)
  {
    assert forall k {:trigger ([a] + acts)[k]} :: 1 <= k <= |acts| ==> ([a] + acts)[k] == acts[k - 1];
  }

  /** When all uncached chunks fit, any download, however far it is, can be brought to its end. */
  lemma {:induction false} FinishFrom(job: Job, s: State) returns (states: seq<State>, acts: seq<Action>)
    requires Inv(job, s) && PacedMissed(job, s) && AllFit(job)
    ensures Continues(job, states, acts) && states[0] == s && AllEnded(states[|acts|])
    decreases Sum(s.workers, StepsLeft)
  {
    if AllEnded(s) {
      states, acts := [s], [];
    } else {
      StuckIff(job, s);
      NoneWaitsForEver(job, s);
      var a :| Enabled(job, s, a);
      SumUpdate(s.workers, StepsLeft, a.i, After(a));
      StepKeepsInv(job, s, a);
      var s' := Apply(job, s, a);
      hide Inv, Enabled, Apply, Continues, Sum, AllEnded, AllFit, PacedMissed;
      var states', acts' := FinishFrom(job, s');
      ContinuesBefore(job, s, a, states', acts');
      states, acts := [s] + states', [a] + acts';
    }
  }

  lemma NoneWaitsForEver(job: Job, s: State)
    requires Inv(job, s) && PacedMissed(job, s) && AllFit(job)
    ensures !AllWaitForEver(job, s)
  {
    SumZero(s.workers, Slot);
  }

  /** There is no limit, or every chunk that is not found in the cache is no larger than one second's worth of it. */
  predicate WithinLimit(job: Job) {
    job.limitKBps <= 0 || forall i: nat :: i < |job.chunks| && i !in job.cached ==> job.chunks[i].size <= job.limitKBps * 1024
  }

  /**
   A download can be finished from every state it can get into exactly when there is no limit, or every uncached chunk
   is no larger than one second's worth of it.
   */
  lemma AlwaysFinishableIff(job: Job)
    requires job.Valid()
    ensures (forall states: seq<State>, acts: seq<Action> :: IsHistory(job, states, acts) ==> CanFinish(job, states[|acts|]))
            <==> WithinLimit(job)
  {
    assert AllFit(job) <==> WithinLimit(job);
    if AllFit(job) {
      forall states: seq<State>, acts: seq<Action> | IsHistory(job, states, acts)
        ensures CanFinish(job, states[|acts|])
      {
        HistoryKeepsInv(job, states, acts, |acts|);
        PacedAt(job, states, acts, |acts|);
        var more, moreActs := FinishFrom(job, states[|acts|]);
      }
    } else {
      var i: nat :| i < |job.chunks| && i !in job.cached && !job.Fits(i);
      var states, acts := HangingDownload(job, i);
      BlockedCannotFinish(job, states[2], i);
    }
  }

  /** A chunk that does not fit and is not cached hangs its worker after two steps. */
  lemma HangingDownload(job: Job, i: nat) returns (states: seq<State>, acts: seq<Action>)
    requires job.Valid() && i < |job.chunks| && i !in job.cached && !job.Fits(i)
    ensures IsHistory(job, states, acts) && |acts| == 2 && Blocked(job, states[2], i)
  {
    var s := Start(job);
    var s1 := Apply(job, s, Acquire(i));
    var s2 := Apply(job, s1, Miss(i));
    states, acts := [s, s1, s2], [Acquire(i), Miss(i)];
  }

  /** Some history ends with all workers done and no error. */
  ghost predicate CanSucceed(job: Job) {
    exists states: seq<State>, acts: seq<Action> ::
      IsHistory(job, states, acts) && AllEnded(states[|acts|]) && states[|acts|].reported == 0
  }

  /** Nothing has failed so far. */
  ghost predicate AllWell(s: State) {
    forall i :: 0 <= i < |s.workers| ==> !s.workers[i].Reporting? && s.workers[i] != Ended(false)
  }

  /** What a worker does next when nothing fails. */
  function GoodNext(job: Job, w: Worker, i: nat): Action {
    match w
    case Waiting => Acquire(i)
    case Looking => if i in job.cached then Hit(i) else Miss(i)
    case Pacing => Pass(i)
    case Fetching => FetchSucceeds(i)
    case _ => Write(i)
  }

  lemma GoodStep(job: Job, s: State) returns (a: Action)
    requires Inv(job, s) && PacedMissed(job, s) && AllFit(job) && AllWell(s) && !AllEnded(s)
    ensures Enabled(job, s, a) && AllWell(Apply(job, s, a)) && PacedMissed(job, Apply(job, s, a))
  {
    SumZero(s.workers, Slot);
    var i: nat :| i < |s.workers| && !s.workers[i].Ended? && (s.workers[i].Waiting? ==> s.sem < job.concurrency);
    HoldsAt(job.remote, job.chunks, job.data, i);
    a := GoodNext(job, s.workers[i], i);
  }

  lemma {:induction false} SucceedFrom(job: Job, s: State) returns (states: seq<State>, acts: seq<Action>)
    requires Inv(job, s) && PacedMissed(job, s) && AllFit(job) && AllWell(s)
    ensures Continues(job, states, acts) && states[0] == s && AllEnded(states[|acts|]) && states[|acts|].reported == 0
    decreases Sum(s.workers, StepsLeft)
  {
    if AllEnded(s) {
      states, acts := [s], [];
      SumZero(s.workers, Error);
    } else {
      var a := GoodStep(job, s);
      SumUpdate(s.workers, StepsLeft, a.i, After(a));
      StepKeepsInv(job, s, a);
      var s' := Apply(job, s, a);
      hide Inv, Enabled, Apply, Continues, Sum, AllEnded, AllFit, PacedMissed, AllWell;
      var states', acts' := SucceedFrom(job, s');
      ContinuesBefore(job, s, a, states', acts');
      states, acts := [s] + states', [a] + acts';
    }
  }

  /** A download can succeed under exactly the same condition. */
  lemma SucceedableIff(job: Job)
    requires job.Valid()
    ensures CanSucceed(job) <==> WithinLimit(job)
  {
    assert AllFit(job) <==> WithinLimit(job);
    if AllFit(job) {
      StartInv(job);
      var states, acts := SucceedFrom(job, Start(job));
      assert IsHistory(job, states, acts);
    }
    if CanSucceed(job) {
      var states: seq<State>, acts: seq<Action> :|
        IsHistory(job, states, acts) && AllEnded(states[|acts|]) && states[|acts|].reported == 0;
      forall i: nat | i < |job.chunks| && i !in job.cached
        ensures job.Fits(i)
      {
        EndedFits(job, states, acts, |acts|, i);
        HistoryKeepsInv(job, states, acts, |acts|);
        SumZero(states[|acts|].workers, Error);
      }
    }
  }

  /** A worker that has fetched what was not cached has passed the limiter. */
  lemma {:induction false} EndedFits(job: Job, states: seq<State>, acts: seq<Action>, k: nat, i: nat)
    requires IsHistory(job, states, acts) && k < |states| && i < |job.chunks| && i !in job.cached
    ensures |states[k].workers| == |job.chunks|
    ensures var w := states[k].workers[i]; w.Fetching? || w.Fetched? || w == Ended(true) ==> job.Fits(i)
  {
    if k != 0 {
      EndedFits(job, states, acts, k - 1, i);
      assert Enabled(job, states[k - 1], acts[k - 1]);
    }
  }

  /** Without a limit every download can always be finished, and can succeed. */
  lemma WithoutLimitDownloads(job: Job, states: seq<State>, acts: seq<Action>)
    requires job.Valid() && job.limitKBps <= 0 && IsHistory(job, states, acts)
    ensures CanFinish(job, states[|acts|]) && CanSucceed(job)
  {
    AlwaysFinishableIff(job);
    SucceedableIff(job);
  }

  // ---------------------------------------------------------------- what a download leaves

  /**
   When all workers have ended the channel is empty exactly when every chunk was fetched and written, and
   then the local file is the stored file, whatever the order and the interleaving.
   */
  lemma SuccessMeansWhole(job: Job, states: seq<State>, acts: seq<Action>, k: nat)
    requires job.Valid() && IsHistory(job, states, acts) && k < |states|
    requires AllEnded(states[k])
    ensures |states[k].workers| == |job.chunks|
    ensures states[k].reported == 0 <==> forall i :: 0 <= i < |job.chunks| ==> states[k].workers[i] == Ended(true)
    ensures states[k].reported == 0 ==> states[k].out == job.data
  {
    HistoryKeepsInv(job, states, acts, k);
    var s := states[k];
    SumZero(s.workers, Error);
    if s.reported == 0 {
      AllInPlace(job.chunks, job.data, s.out, |job.chunks|);
      assert Offset(job.chunks, |job.chunks|) == |job.data|;
      assert s.out == s.out[0..|job.data|] && job.data == job.data[0..|job.data|];
    }
  }
}
