/**
 Whole runs of the storage operations on one session: what is in memory and what is in the storage file
 stays a tree as long as each operation meets its own condition, through saves, crashes and reloads.
 */
module TreeRuns {
  import opened Content
  import opened Paths
  import opened Tree
  import opened Rename
  import opened StorageDb

  datatype State = State(files: Files, disk: Files, dirty: bool)

  datatype Op =
    | AddFile(p: string, entry: FileEntry, now: int)
    | AddFileAsync(p: string, entry: FileEntry, now: int)
    | Mkdir(p: string, now: int)
    | RemoveFile(p: string)
    | RenameFile(from: string, to: string, now: int)
    | SaverTick
    | Reload

  /** What callers are taken to respect: clean paths, folder markers that are not hidden, renames to free unrelated names. */
  ghost predicate Called(s: State, op: Op) {
    match op
    case AddFile(p, e, _) => IsClean(p) && Plain(e)
    case AddFileAsync(p, e, _) => IsClean(p) && Plain(e)
    case Mkdir(p, _) => p == "" || IsClean(p)
    case RemoveFile(_) => true
    case RenameFile(from, to, _) => IsClean(to) && (from in s.files ==> Unrelated(from, to) && FreeName(s.files, to))
    case SaverTick => true
    case Reload => true
  }

  /**
   What the code does not look at: no file lies above the path that is written, and a file is not written
   over a folder that has something in it.
   */
  ghost predicate Fits(s: State, op: Op) {
    match op
    case AddFile(p, e, _) => NoFileAbove(s.files, p) && (e.isFolder || NothingBelow(s.files, p))
    case AddFileAsync(p, e, _) => NoFileAbove(s.files, p) && (e.isFolder || NothingBelow(s.files, p))
    case Mkdir(p, _) => p != "" ==> NoFileAbove(s.files, p)
    case RenameFile(from, to, _) => from in s.files ==> NoFileAbove(s.files, to)
    case _ => true
  }

  function Saved(files: Files): State {
    State(files, files, false)
  }

  function Apply(s: State, op: Op): State {
    match op
    case AddFile(p, e, now) => Saved(WithAncestors(s.files[p := e], p, now))
    case AddFileAsync(p, e, now) => s.(files := WithAncestors(s.files[p := e], p, now), dirty := true)
    case Mkdir(p, now) => if p == "" then s else Saved(MadeFolder(s.files, p, now))
    case RemoveFile(p) => if p in s.files then Saved(s.files - Subtree(s.files, p)) else s
    case RenameFile(from, to, now) => if from in s.files then Saved(Renamed(s.files, from, to, now)) else s
    case SaverTick => if s.dirty then Saved(s.files) else s
    case Reload => State(s.disk, s.disk, false)
  }

  ghost predicate BothTrees(s: State) {
    TreeOk(s.files) && TreeOk(s.disk)
  }

  /** Exactly when its condition holds does an operation leave trees, in memory and on disk. */
  lemma StepKeepsTreesIff(s: State, op: Op)
    requires BothTrees(s) && Called(s, op)
    ensures BothTrees(Apply(s, op)) <==> Fits(s, op)
  {
    match op {
      case AddFile(p, e, now) => StoreKeepsTree(s.files, p, e, now);
      case AddFileAsync(p, e, now) => StoreKeepsTree(s.files, p, e, now);
      case Mkdir(p, now) => if p != "" { MkdirKeepsTree(s.files, p, now); }
      case RemoveFile(p) => if p in s.files { RemoveKeepsTree(s.files, p); }
      case RenameFile(from, to, now) => if from in s.files { RenameKeepsTree(s.files, from, to, now); }
      case _ =>
    }
  }

  ghost predicate IsHistory(states: seq<State>, ops: seq<Op>) {
    && |states| == |ops| + 1
    && BothTrees(states[0])
    && forall k {:trigger ops[k]} :: 0 <= k < |ops| ==> Called(states[k], ops[k]) && states[k + 1] == Apply(states[k], ops[k])
  }

  /** In a history every state is a tree exactly when every operation met its condition. */
  lemma TreesThroughoutIff(states: seq<State>, ops: seq<Op>)
    requires IsHistory(states, ops)
    ensures (forall k {:trigger states[k]} :: 0 <= k < |states| ==> BothTrees(states[k]))
            <==> (forall k {:trigger ops[k]} :: 0 <= k < |ops| ==> Fits(states[k], ops[k]))
  {
    if forall k {:trigger ops[k]} :: 0 <= k < |ops| ==> Fits(states[k], ops[k]) {
      forall k | 0 <= k < |states|
        ensures BothTrees(states[k])
      {
        TreeAt(states, ops, k);
      }
    }
    if forall k {:trigger states[k]} :: 0 <= k < |states| ==> BothTrees(states[k]) {
      forall k {:trigger ops[k]} | 0 <= k < |ops|
        ensures Fits(states[k], ops[k])
      {
        assert states[k + 1] == Apply(states[k], ops[k]);
        StepKeepsTreesIff(states[k], ops[k]);
      }
    }
  }

  lemma {:induction false} TreeAt(states: seq<State>, ops: seq<Op>, k: nat)
    requires IsHistory(states, ops) && k < |states|
    requires forall j {:trigger ops[j]} :: 0 <= j < |ops| ==> Fits(states[j], ops[j])
    ensures BothTrees(states[k])
  {
    if k != 0 {
      TreeAt(states, ops, k - 1);
      assert Fits(states[k - 1], ops[k - 1]);
      StepKeepsTreesIff(states[k - 1], ops[k - 1]);
    }
  }
}
