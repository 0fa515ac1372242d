/** The virtual directory tree that is encoded in a flat map from paths to entries. */
module Tree {
  import opened Content
  import opened Paths

  type Files = map<string, FileEntry>

  /** One line of a directory listing. */
  datatype FileItem = FileItem(name: string, isFolder: bool)

  // ---------------------------------------------------------------- what the operations store

  /** `files` with a folder marker for every ancestor of `p` that is missing. */
  function WithAncestors(files: Files, p: string, now: int): Files {
    (map d | d in Ancestors(p) :: FolderMarker(now)) + files
  }

  /** What removing `p` removes: the path itself and, for a folder, everything below it. */
  function Subtree(files: Files, p: string): set<string>
    requires p in files
  {
    set q | q in files && (q == p || (files[p].isFolder && Under(p, q)))
  }

  // ---------------------------------------------------------------- the tree invariant

  /** Folder markers are plain: no chunks, never hidden. */
  ghost predicate PlainFolders(files: Files) {
    forall p :: p in files && files[p].isFolder ==> !files[p].incomplete
  }

  predicate IsFolderIn(files: Files, d: string) {
    d in files && files[d].isFolder
  }

  ghost predicate CleanKeys(files: Files) {
    forall p :: p in files ==> IsClean(p)
  }

  /** Every proper ancestor of a stored path is stored and is a folder. */
  ghost predicate Rooted(files: Files) {
    forall p, d {:trigger Under(d, p), p in files} :: p in files && d != "" && Under(d, p) ==> IsFolderIn(files, d)
  }

  ghost predicate TreeOk(files: Files) {
    CleanKeys(files) && PlainFolders(files) && Rooted(files)
  }

  /** It is enough to look one level up. */
  ghost predicate LocallyRooted(files: Files) {
    forall p {:trigger Dir(p)} :: p in files && Dir(p) != "" ==> IsFolderIn(files, Dir(p))
  }

  lemma RootedIffLocally(files: Files)
    ensures Rooted(files) <==> LocallyRooted(files)
  {
    if Rooted(files) {
      forall p | p in files && Dir(p) != ""
        ensures IsFolderIn(files, Dir(p))
      {
        DirIsLowest(p, Dir(p));
      }
    }
    if LocallyRooted(files) {
      forall p, d | p in files && d != "" && Under(d, p)
        ensures IsFolderIn(files, d)
      {
        ClimbRooted(files, p, d);
      }
    }
  }

  lemma {:induction false} ClimbRooted(files: Files, p: string, d: string)
    requires LocallyRooted(files) && p in files && d != "" && Under(d, p)
    ensures IsFolderIn(files, d)
    decreases |p|
  {
    DirIsLowest(p, d);
    assert IsFolderIn(files, Dir(p));
    if Dir(p) != d {
      UnderIndex(d, p);
      ClimbRooted(files, Dir(p), d);
    }
  }

  // ---------------------------------------------------------------- when the operations keep the tree

  /** No ancestor of `p` is stored as a file. */
  ghost predicate NoFileAbove(files: Files, p: string) {
    forall d {:trigger Under(d, p)} :: d in files && Under(d, p) ==> files[d].isFolder
  }

  /** Nothing is stored below `p`. */
  ghost predicate NothingBelow(files: Files, p: string) {
    forall q {:trigger Under(p, q)} :: q in files ==> !Under(p, q)
  }

  ghost predicate Plain(e: FileEntry) {
    e.isFolder ==> !e.incomplete
  }

  lemma AncestorsAreUnder(p: string)
    ensures forall d :: d in Ancestors(p) <==> d != "" && Under(d, p)
  {
    forall d
      ensures d in Ancestors(p) <==> d != "" && Under(d, p)
    {
      AncestorsExact(p, d);
    }
  }

  /** Exactly the directories above the path are added, as visible folders without chunks; everything stored stays. */
  lemma WithAncestorsInWords(files: Files, p: string, now: int)
    ensures var after := WithAncestors(files, p, now);
            && (forall q :: q in after <==> q in files || (q != "" && q + "/" <= p))
            && (forall q :: q in files ==> after[q] == files[q])
            && (forall q :: q in after && q !in files ==> after[q] == FileEntry([], now, "", true, false))
  {
    AncestorsAreUnder(p);
  }

  /**
   Storing a plain entry at a clean path and adding the missing folders keeps the tree exactly when no
   file is above the path, and the entry is a folder or has nothing below it.
   */
  lemma StoreKeepsTree(files: Files, p: string, e: FileEntry, now: int)
    requires TreeOk(files) && IsClean(p) && Plain(e)
    ensures TreeOk(WithAncestors(files[p := e], p, now)) <==>
            NoFileAbove(files, p) && (e.isFolder || NothingBelow(files, p))
  {
    var after := WithAncestors(files[p := e], p, now);
    AncestorsAreUnder(p);
    AncestorsClean(p);
    NotUnderItself(p);
    if NoFileAbove(files, p) && (e.isFolder || NothingBelow(files, p)) {
      StoreRooted(files, p, e, now);
    }
    if Rooted(after) {
      forall d | d in files && Under(d, p)
        ensures files[d].isFolder
      {
        assert IsClean(d);
        assert p in after;
        assert IsFolderIn(after, d);
      }
      forall q | q in files && !e.isFolder
        ensures !Under(p, q)
      {
        assert q in after;
        assert Under(p, q) ==> IsFolderIn(after, p);
      }
    }
  }

  lemma NotUnderItself(p: string)
    ensures !Under(p, p)
    ensures p !in Ancestors(p)
  {
    UnderIndex(p, p);
    AncestorsExact(p, p);
  }

  lemma StoreRooted(files: Files, p: string, e: FileEntry, now: int)
    requires TreeOk(files) && IsClean(p)
    requires NoFileAbove(files, p) && (e.isFolder || NothingBelow(files, p))
    ensures Rooted(WithAncestors(files[p := e], p, now))
  {
    var after := WithAncestors(files[p := e], p, now);
    AncestorsAreUnder(p);
    NotUnderItself(p);
    forall q, d | q in after && d != "" && Under(d, q)
      ensures IsFolderIn(after, d)
    {
      if q == p || q in Ancestors(p) {
        if q != p {
          UnderTransitive(d, q, p);
        }
        assert d in Ancestors(p);
        assert Under(d, p);
      } else {
        assert q in files;
        assert Under(d, q);
        assert IsFolderIn(files, d);
      }
    }
  }

  /** Removing a stored path keeps the tree. */
  lemma RemoveKeepsTree(files: Files, p: string)
    requires TreeOk(files) && p in files
    ensures TreeOk(files - Subtree(files, p))
    ensures NothingBelow(files - Subtree(files, p), p)
  {
    var after := files - Subtree(files, p);
    forall q, d | q in after && d != "" && Under(d, q)
      ensures IsFolderIn(after, d)
    {
      assert IsFolderIn(files, d);
      if d in Subtree(files, p) && d != p {
        UnderTransitive(p, d, q);
      }
    }
    forall q | q in after
      ensures !Under(p, q)
    {
      assert IsClean(p);
    }
  }

  // ---------------------------------------------------------------- listings

  /** The stored paths directly inside `d` that are not hidden. */
  function Children(files: Files, d: string): set<string> {
    set p | p in files && !files[p].incomplete && Dir(p) == d
  }

  function Item(files: Files, p: string): FileItem
    requires p in files
  {
    FileItem(Base(p), files[p].isFolder)
  }

  /** The visible paths below `d` at any depth, folders or files. */
  function VisibleBelow(files: Files, d: string, folders: bool): set<string> {
    set p | p in files && !files[p].incomplete && Below(d, p) && files[p].isFolder == folders
  }

  /** A path with an incomplete entry is not listed anywhere and not counted anywhere. */
  lemma IncompleteIsInvisible(files: Files, p: string, e: FileEntry, d: string)
    requires e.incomplete
    ensures Children(files[p := e], d) == Children(files - {p}, d)
    ensures forall q :: q in Children(files[p := e], d) ==> q != p && Item(files[p := e], q) == Item(files - {p}, q)
    ensures forall folders :: VisibleBelow(files[p := e], d, folders) == VisibleBelow(files - {p}, d, folders)
  {
    forall folders: bool
      ensures VisibleBelow(files[p := e], d, folders) == VisibleBelow(files - {p}, d, folders)
    {
    }
  }

  /** Different children have different names, so a listing loses none. */
  lemma ChildNamesDiffer(files: Files, d: string, p: string, q: string)
    requires CleanKeys(files) && p in Children(files, d) && q in Children(files, d) && Base(p) == Base(q)
    ensures p == q
  {
    JoinDirBase(p);
    JoinDirBase(q);
  }

  /** A name is that of a visible child exactly when it is a proper name and the directory has a visible entry under it. */
  lemma ChildrenInWords(files: Files, d: string, name: string)
    requires CleanKeys(files)
    ensures (exists p :: p in Children(files, d) && Base(p) == name) <==>
            && name != "" && '/' !in name
            && var p := if d == "" then name else d + "/" + name;
               p in files && !files[p].incomplete
    ensures (exists p :: p in Children(files, d) && Base(p) == name) ==> Join(d, name) in Children(files, d) && Base(Join(d, name)) == name
  {
    if p :| p in Children(files, d) && Base(p) == name {
      assert IsClean(p);
      JoinDirBase(p);
    }
    if name != "" && '/' !in name {
      DirOfJoin(d, name);
    }
  }

  /** The child of `d` that a visible path below `d` is, or goes through, is visible too. */
  lemma ChildOnTheWay(files: Files, d: string, p: string)
    requires TreeOk(files) && (d == "" || IsClean(d))
    requires p in files && !files[p].incomplete && Below(d, p)
    ensures FirstName(d, p) != "" && '/' !in FirstName(d, p)
    ensures Join(d, FirstName(d, p)) in Children(files, d)
    ensures Base(Join(d, FirstName(d, p))) == FirstName(d, p)
  {
    var name := FirstName(d, p);
    assert IsClean(p);
    FirstNameProper(d, p);
    FirstNameExact(d, p, name);
    DirOfJoin(d, name);
    OnTheWayVisible(files, Join(d, name), p);
  }

  lemma OnTheWayVisible(files: Files, c: string, p: string)
    requires TreeOk(files) && p in files && !files[p].incomplete
    requires c != "" && AtOrUnder(c, p)
    ensures c in files && !files[c].incomplete
  {
    assert Under(c, p) ==> IsFolderIn(files, c);
  }
}
