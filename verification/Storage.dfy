/** The storage database of one session: the map in memory, the file on disk, and what changes them. */
module StorageDb {
  import opened Content
  import opened Paths
  import opened Tree
  import opened Rename

  /** What `Mkdir` leaves: a marker at `p` unless a folder is there already, and its missing ancestors. */
  function MadeFolder(files: Files, p: string, now: int): Files {
    WithAncestors(if IsFolderIn(files, p) then files else files[p := FolderMarker(now)], p, now)
  }

  /** Making a folder keeps the tree exactly when no file is above it. */
  lemma MkdirKeepsTree(files: Files, p: string, now: int)
    requires TreeOk(files) && IsClean(p)
    ensures TreeOk(MadeFolder(files, p, now)) <==> NoFileAbove(files, p)
  {
    if IsFolderIn(files, p) {
      assert files[p := files[p]] == files;
      StoreKeepsTree(files, p, files[p], now);
    } else {
      StoreKeepsTree(files, p, FolderMarker(now), now);
    }
  }

  /** Making a folder keeps every stored entry exactly when the path is not a stored file. */
  lemma MkdirKeepsEntriesIff(files: Files, p: string, now: int)
    ensures (forall q :: q in files ==> q in MadeFolder(files, p, now) && MadeFolder(files, p, now)[q] == files[q])
            <==> !(p in files && !files[p].isFolder)
  {
    if p in files && !files[p].isFolder {
      assert MadeFolder(files, p, now)[p] == FolderMarker(now);
    }
  }

  /** Markers added one directory at a time, from `dir` up. */
  function MarkClimbing(files: Files, dir: string, now: int): Files
    decreases |dir|
  {
    if dir == "" then files
    else MarkClimbing(if dir in files then files else files[dir := FolderMarker(now)], Dir(dir), now)
  }

  lemma {:induction false} MarkClimbingAll(files: Files, dir: string, now: int)
    requires dir != ""
    ensures MarkClimbing(files, dir, now) == (map d | d in {dir} + Ancestors(dir) :: FolderMarker(now)) + files
    decreases |dir|
  {
    var marked := if dir in files then files else files[dir := FolderMarker(now)];
    if Dir(dir) != "" {
      MarkClimbingAll(marked, Dir(dir), now);
      assert {dir} + Ancestors(dir) == {dir} + ({Dir(dir)} + Ancestors(Dir(dir)));
    }
  }

  /** Climbing adds exactly the missing ancestors. */
  lemma ClimbMarksAncestors(files: Files, p: string, now: int)
    ensures MarkClimbing(files, Dir(p), now) == WithAncestors(files, p, now)
  {
    if Dir(p) != "" {
      MarkClimbingAll(files, Dir(p), now);
    }
  }

  class Storage {
    /** The session's file map in memory. */
    var files: Files
    /** The session's file map in the storage file. */
    var disk: Files
    /** Set by asynchronous writes, cleared by every save. */
    var dirty: bool

    constructor (saved: Files)
      ensures files == saved && disk == saved && !dirty
    {
      files, disk, dirty := saved, saved, false;
    }

    /** Replace memory by what was saved. */
    method Load()
      modifies this`files
      ensures files == disk
    {
      files := disk;
    }

    method Save()
      modifies this`disk, this`dirty
      ensures disk == files && !dirty
    {
      disk := files;
      dirty := false;
    }

    /** One tick of the background saver. */
    method SaverTick()
      modifies this`disk, this`dirty
      ensures !dirty && disk == if old(dirty) then files else old(disk)
    {
      if dirty {
        Save();
      }
    }

    /** Climb from `p` to the root and add a marker for each directory that is not stored. */
    method EnsureFolders(p: string, now: int)
      modifies this`files
      ensures files == WithAncestors(old(files), p, now)
    {
      var dir := Dir(p);
      ClimbMarksAncestors(files, p, now);
      while dir != ""
        invariant MarkClimbing(files, dir, now) == MarkClimbing(old(files), Dir(p), now)
        decreases |dir|
      {
        if dir !in files {
          files := files[dir := FolderMarker(now)];
        }
        dir := Dir(dir);
      }
    }

    method Mkdir(p: string, now: int)
      requires p == "" || IsClean(p)
      modifies this
      ensures p == "" ==> files == old(files) && disk == old(disk) && dirty == old(dirty)
      ensures p != "" ==> files == MadeFolder(old(files), p, now) && disk == files && !dirty
      ensures p != "" ==> forall q :: q in files <==> q in old(files) || q == p || (q != "" && q + "/" <= p)
      ensures p != "" ==> forall q :: q in files && (q !in old(files) || (q == p && !old(files)[p].isFolder)) ==>
                files[q] == FileEntry([], now, "", true, false)
      ensures forall q :: q in old(files) && (q == p ==> old(files)[p].isFolder) ==> q in files && files[q] == old(files)[q]
    {
      if p == "" {
        return;
      }
      WithAncestorsInWords(if IsFolderIn(files, p) then files else files[p := FolderMarker(now)], p, now);
      if p !in files || !files[p].isFolder {
        files := files[p := FolderMarker(now)];
      }
      EnsureFolders(p, now);
      Save();
    }

    /** Store an entry, add the missing folders, and save before returning. */
    method AddFile(entry: FileEntry, p: string, now: int)
      requires IsClean(p)
      modifies this
      ensures files == WithAncestors(old(files)[p := entry], p, now)
      ensures disk == files && !dirty
      ensures p in files && files[p] == entry
      ensures forall q :: q in files <==> q in old(files) || q == p || (q != "" && q + "/" <= p)
      ensures forall q :: q in old(files) && q != p ==> files[q] == old(files)[q]
      ensures forall q :: q in files && q !in old(files) && q != p ==> files[q] == FileEntry([], now, "", true, false)
    {
      WithAncestorsInWords(files[p := entry], p, now);
      files := files[p := entry];
      EnsureFolders(p, now);
      Save();
    }

    /** Store an entry and leave saving to the background saver. */
    method AddFileAsync(entry: FileEntry, p: string, now: int)
      requires IsClean(p)
      modifies this`files, this`dirty
      ensures files == WithAncestors(old(files)[p := entry], p, now)
      ensures dirty
      ensures p in files && files[p] == entry
      ensures forall q :: q in files <==> q in old(files) || q == p || (q != "" && q + "/" <= p)
      ensures forall q :: q in old(files) && q != p ==> files[q] == old(files)[q]
      ensures forall q :: q in files && q !in old(files) && q != p ==> files[q] == FileEntry([], now, "", true, false)
    {
      WithAncestorsInWords(files[p := entry], p, now);
      files := files[p := entry];
      EnsureFolders(p, now);
      dirty := true;
    }

    /** Remove a path and, for a folder, everything below it. */
    method RemoveFile(p: string) returns (ok: bool)
      modifies this
      ensures ok <==> p in old(files)
      ensures ok ==> files == old(files) - Subtree(old(files), p) && disk == files && !dirty
      ensures ok ==> forall q :: q in files <==> q in old(files) && q != p && !(old(files)[p].isFolder && p + "/" <= q)
      ensures forall q :: q in files ==> q in old(files) && files[q] == old(files)[q]
      ensures !ok ==> files == old(files) && disk == old(disk) && dirty == old(dirty)
    {
      if p !in files {
        return false;
      }
      var entry := files[p];
      files := files - {p};
      if entry.isFolder {
        var pending := files.Keys;
        ghost var gone: set<string> := {p};
        while pending != {}
          invariant gone <= Subtree(old(files), p)
          invariant Subtree(old(files), p) <= gone + pending
          invariant pending <= old(files).Keys
          invariant files == old(files) - gone
        {
          var q :| q in pending;
          pending := pending - {q};
          if Under(p, q) {
            files := files - {q};
            gone := gone + {q};
          }
        }
        assert gone == Subtree(old(files), p);
      }
      Save();
      return true;
    }

    /** The keys to move: the path itself and, for a folder, everything below it. */
    method CollectMoves(from: string) returns (moves: set<string>)
      requires from in files
      ensures moves == Subtree(files, from)
    {
      moves := {from};
      if files[from].isFolder {
        var pending := files.Keys;
        while pending != {}
          invariant from in moves && moves <= Subtree(files, from)
          invariant Subtree(files, from) <= moves + pending
          invariant pending <= files.Keys
        {
          var q :| q in pending;
          pending := pending - {q};
          if Under(from, q) {
            moves := moves + {q};
          }
        }
      }
    }

    /** Move the keys one after the other, in whatever order they come. */
    method MoveKeys(moves: set<string>, from: string, to: string) returns (ghost order: seq<string>)
      requires forall p :: p in moves ==> p in files && |from| <= |p|
      modifies this`files
      ensures IsOrder(order, moves)
      ensures files == MoveAll(old(files), order, from, to)
    {
      order := [];
      var pending := moves;
      while pending != {}
        invariant pending <= moves
        invariant IsOrder(order, moves - pending)
        invariant files == MoveAll(old(files), order, from, to)
        invariant pending <= files.Keys
      {
        var p :| p in pending;
        pending := pending - {p};
        assert (order + [p])[..|order|] == order;
        files := files[to + p[|from|..] := files[p]];
        files := files - {p};
        order := order + [p];
      }
      assert moves - {} == moves;
    }

    /**
     Move a path and, for a folder, everything below it. The order of the moves is arbitrary; when no
     new name is itself a moved path the outcome is the simultaneous rename.
     */
    method RenameFile(from: string, to: string, now: int) returns (ok: bool)
      modifies this
      ensures ok <==> from in old(files)
      ensures !ok ==> files == old(files) && disk == old(disk) && dirty == old(dirty)
      ensures ok ==> disk == files && !dirty
      ensures ok ==> exists order ::
                && IsOrder(order, Subtree(old(files), from))
                && files == WithAncestors(MoveAll(old(files), order, from, to), to, now)
      ensures ok && NoClash(old(files), from, to) ==> files == Renamed(old(files), from, to, now)
      ensures ok && from != to && !(from + "/" <= to) && !(to + "/" <= from)
              && (forall q :: q in old(files) ==> q != to && !(to + "/" <= q)) ==>
                RenamedInWords(old(files), files, from, to, now)
    {
      if from !in files {
        return false;
      }
      FreeAndUnrelatedInWords(files, from, to);
      if Unrelated(from, to) {
        UnrelatedNoClash(files, from, to);
        if FreeName(files, to) {
          RenameInWords(files, from, to, now);
        }
      }
      var moves := CollectMoves(from);
      SubtreeAtOrUnder(files, from);
      ghost var order := MoveKeys(moves, from, to);
      if NoClash(old(files), from, to) {
        AnyOrderTogether(old(files), from, to, order);
      }
      EnsureFolders(to, now);
      Save();
      return true;
    }

    method GetEntry(p: string) returns (entry: Option<FileEntry>)
      ensures entry == if p in files then Some(files[p]) else None
    {
      entry := if p in files then Some(files[p]) else None;
    }

    // -------------------------------------------------------------- listings

    /** The visible immediate children of `d`, each under its own name. */
    method ShowList(d: string) returns (items: map<string, FileItem>)
      requires CleanKeys(files)
      ensures forall name :: name in items <==> exists p :: p in Children(files, d) && Base(p) == name
      ensures forall p :: p in Children(files, d) ==> Base(p) in items && items[Base(p)] == Item(files, p)
      ensures forall name :: name in items <==>
                && name != "" && '/' !in name
                && var p := if d == "" then name else d + "/" + name;
                   p in files && !files[p].incomplete
      ensures forall name :: name in items ==>
                && items[name].name == name
                && items[name].isFolder == files[if d == "" then name else d + "/" + name].isFolder
    {
      items := map[];
      var pending := files.Keys;
      while pending != {}
        invariant pending <= files.Keys
        invariant forall name :: name in items ==> exists p :: p in Children(files, d) && p !in pending && Base(p) == name
        invariant forall p :: p in Children(files, d) && p !in pending ==> Base(p) in items && items[Base(p)] == Item(files, p)
      {
        var p :| p in pending;
        pending := pending - {p};
        if !files[p].incomplete && Dir(p) == d {
          NamesStayApart(files, d, p);
          items := items[Base(p) := FileItem(Base(p), files[p].isFolder)];
        }
      }
      ListedInWords(files, d, items);
    }

    /** Count what is visible below `d`, at any depth, by scanning every key for the prefix. */
    method CountChildren(d: string) returns (fileCount: nat, folderCount: nat)
      requires CleanKeys(files)
      ensures fileCount == |VisibleBelow(files, d, false)|
      ensures folderCount == |VisibleBelow(files, d, true)|
      ensures fileCount == |set p | p in files && !files[p].incomplete && (d == "" || d + "/" <= p) && !files[p].isFolder|
      ensures folderCount == |set p | p in files && !files[p].incomplete && (d == "" || d + "/" <= p) && files[p].isFolder|
    {
      fileCount, folderCount := 0, 0;
      var all := files;
      var pending := all.Keys;
      ghost var allFiles := set p | p in all && Counted(all, d, p, false);
      ghost var allFolders := set p | p in all && Counted(all, d, p, true);
      while pending != {}
        invariant pending <= all.Keys
        invariant fileCount == |allFiles - pending|
        invariant folderCount == |allFolders - pending|
      {
        var p :| p in pending;
        CountOneMore(allFiles, pending, p);
        CountOneMore(allFolders, pending, p);
        pending := pending - {p};
        if all[p].incomplete {
        } else if p == d {
        } else if d != "" && !Under(d, p) {
        } else if all[p].isFolder {
          folderCount := folderCount + 1;
        } else {
          fileCount := fileCount + 1;
        }
      }
      CountAll(allFiles, pending);
      CountAll(allFolders, pending);
      ScanIsExact(all, d, false);
      ScanIsExact(all, d, true);
      VisibleInWords(all, d);
    }
  }

  /** The tests that the counting scan applies to one key. */
  predicate Counted(files: Files, d: string, p: string, folder: bool)
    requires p in files
  {
    !files[p].incomplete && p != d && (d == "" || Under(d, p)) && files[p].isFolder == folder
  }

  /** They single out exactly the visible paths below `d`. */
  lemma ScanIsExact(files: Files, d: string, folder: bool)
    requires CleanKeys(files)
    ensures (set p | p in files && Counted(files, d, p, folder)) == VisibleBelow(files, d, folder)
  {
    NotUnderItself(d);
  }

  /** Every line is listed under its own name, which is that of a visible entry of the directory, and none is missing. */
  lemma ListedInWords(files: Files, d: string, items: map<string, FileItem>)
    requires CleanKeys(files)
    requires forall name :: name in items <==> exists p :: p in Children(files, d) && Base(p) == name
    requires forall p :: p in Children(files, d) ==> Base(p) in items && items[Base(p)] == Item(files, p)
    ensures forall name :: name in items <==>
              && name != "" && '/' !in name
              && var p := if d == "" then name else d + "/" + name;
                 p in files && !files[p].incomplete
    ensures forall name :: name in items ==>
              && items[name].name == name
              && items[name].isFolder == files[if d == "" then name else d + "/" + name].isFolder
  {
    forall name
      ensures name in items <==>
              && name != "" && '/' !in name
              && var p := if d == "" then name else d + "/" + name;
                 p in files && !files[p].incomplete
      ensures name in items ==> Join(d, name) in Children(files, d) && Base(Join(d, name)) == name
    {
      ChildrenInWords(files, d, name);
    }
  }

  lemma VisibleInWords(files: Files, d: string)
    requires CleanKeys(files)
    ensures VisibleBelow(files, d, false) == set p | p in files && !files[p].incomplete && (d == "" || d + "/" <= p) && !files[p].isFolder
    ensures VisibleBelow(files, d, true) == set p | p in files && !files[p].incomplete && (d == "" || d + "/" <= p) && files[p].isFolder
  {
    assert "" !in files;
  }

  lemma CountAll(all: set<string>, pending: set<string>)
    requires pending == {}
    ensures |all - pending| == |all|
  {
    assert all - pending == all;
  }

  lemma CountOneMore(all: set<string>, pending: set<string>, p: string)
    requires p in pending
    ensures |all - (pending - {p})| == |all - pending| + if p in all then 1 else 0
  {
    if p in all {
      assert all - (pending - {p}) == (all - pending) + {p};
    } else {
      assert all - (pending - {p}) == all - pending;
    }
  }

  lemma NamesStayApart(files: Files, d: string, p: string)
    requires CleanKeys(files) && p in Children(files, d)
    ensures forall q :: q in Children(files, d) && Base(q) == Base(p) ==> q == p
  {
    forall q | q in Children(files, d) && Base(q) == Base(p)
      ensures q == p
    {
      ChildNamesDiffer(files, d, p, q);
    }
  }
}
