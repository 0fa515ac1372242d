/**
 Counting a directory by walking it: list the immediate children, count them, and descend into the
 folders. It needs only `ShowList`, and it agrees with the prefix scan of `CountChildren`.
 */
module Walk {
  import opened Content
  import opened Paths
  import opened Tree
  import opened StorageDb

  /** The visible paths below `d` whose first step from `d` is one of the given names. */
  function Covered(files: Files, d: string, names: set<string>, folder: bool): set<string> {
    set p | p in VisibleBelow(files, d, folder) && FirstName(d, p) in names
  }

  /** What one child adds: itself, and everything below it. */
  function Contribution(files: Files, c: string, folder: bool): set<string>
    requires c in files
  {
    (if files[c].isFolder == folder then {c} else {}) + VisibleBelow(files, c, folder)
  }

  lemma ContributionSize(files: Files, c: string, folder: bool)
    requires c in files && IsClean(c)
    ensures |Contribution(files, c, folder)| == |VisibleBelow(files, c, folder)| + if files[c].isFolder == folder then 1 else 0
  {
    NotUnderItself(c);
    assert c !in VisibleBelow(files, c, folder);
  }

  /** The paths whose first step is a listed child are that child and what is below it. */
  lemma ContributionIsCovered(files: Files, d: string, name: string, folder: bool)
    requires CleanKeys(files) && name != "" && '/' !in name && Join(d, name) in Children(files, d)
    ensures Covered(files, d, {name}, folder) == Contribution(files, Join(d, name), folder)
  {
    var c := Join(d, name);
    assert IsClean(c);
    forall p | p in files
      ensures p in Covered(files, d, {name}, folder) <==> p in Contribution(files, c, folder)
    {
      assert IsClean(p);
      JoinIsBelow(d, name, p);
      if Below(d, p) {
        FirstNameExact(d, p, name);
      }
    }
  }

  lemma JoinIsBelow(d: string, name: string, p: string)
    requires p != ""
    ensures AtOrUnder(Join(d, name), p) ==> Below(d, p)
  {
    if d != "" {
      UnderIndex(Join(d, name), p);
      UnderIndex(d, p);
    }
  }

  /** One more name covers exactly the contribution of its child more, and nothing twice. */
  lemma CoverOneMore(files: Files, d: string, all: set<string>, pending: set<string>, name: string, folder: bool)
    requires CleanKeys(files) && name != "" && '/' !in name && Join(d, name) in Children(files, d)
    requires pending <= all && name in pending
    ensures var c := Join(d, name);
            |Covered(files, d, all - (pending - {name}), folder)|
            == |Covered(files, d, all - pending, folder)| + |VisibleBelow(files, c, folder)| + (if files[c].isFolder == folder then 1 else 0)
  {
    var before, one := Covered(files, d, all - pending, folder), Covered(files, d, {name}, folder);
    assert Covered(files, d, all - (pending - {name}), folder) == before + one;
    assert before !! one;
    ContributionIsCovered(files, d, name, folder);
    ContributionSize(files, Join(d, name), folder);
  }

  /** All children together cover everything visible below `d`. */
  lemma AllCovered(files: Files, d: string, names: set<string>, folder: bool)
    requires TreeOk(files) && (d == "" || IsClean(d))
    requires forall c :: c in Children(files, d) ==> Base(c) in names
    ensures Covered(files, d, names, folder) == VisibleBelow(files, d, folder)
  {
    forall p | p in VisibleBelow(files, d, folder)
      ensures FirstName(d, p) in names
    {
      ChildOnTheWay(files, d, p);
    }
  }

  /** Nothing is visible below a plain file. */
  lemma FileIsLeaf(files: Files, c: string, folder: bool)
    requires TreeOk(files) && c in files && !files[c].isFolder
    ensures VisibleBelow(files, c, folder) == {}
  {
    assert IsClean(c);
    forall p | p in files
      ensures !Under(c, p)
    {
      assert Under(c, p) ==> IsFolderIn(files, c);
    }
  }

  /** The stored paths below `d`: descending into a child leaves fewer. */
  function StoredBelow(files: Files, d: string): set<string> {
    set p | p in files && Below(d, p)
  }

  lemma DescendShrinks(files: Files, d: string, name: string)
    requires CleanKeys(files) && Join(d, name) in Children(files, d)
    ensures |StoredBelow(files, Join(d, name))| < |StoredBelow(files, d)|
  {
    var c := Join(d, name);
    assert IsClean(c);
    NotUnderItself(c);
    forall p | p in files && AtOrUnder(c, p)
      ensures Below(d, p)
    {
      assert IsClean(p);
      JoinIsBelow(d, name, p);
    }
    assert AtOrUnder(c, c);
    ProperSubsetSmaller(StoredBelow(files, c), StoredBelow(files, d), c);
  }

  lemma ProperSubsetSmaller(a: set<string>, b: set<string>, x: string)
    requires a <= b && x in b && x !in a
    ensures |a| < |b|
  {
    assert b == a + (b - a);
    assert x in b - a;
  }

  /** A listed name joined with the directory is the child it came from. */
  lemma ListedChild(files: Files, d: string, name: string)
    requires CleanKeys(files)
    requires exists p :: p in Children(files, d) && Base(p) == name
    ensures Join(d, name) in Children(files, d) && Base(Join(d, name)) == name && IsClean(Join(d, name))
    ensures name != "" && '/' !in name
  {
    var p :| p in Children(files, d) && Base(p) == name;
    assert IsClean(p);
    JoinDirBase(p);
  }

  /**
   The recursive walk: it terminates, and counts what `CountChildren` counts.
   */
  method CountByWalking(db: Storage, d: string) returns (fileCount: nat, folderCount: nat)
    requires TreeOk(db.files) && (d == "" || IsClean(d))
    ensures fileCount == |VisibleBelow(db.files, d, false)|
    ensures folderCount == |VisibleBelow(db.files, d, true)|
    decreases |StoredBelow(db.files, d)|, 2
  {
    var items := db.ShowList(d);
    AllCovered(db.files, d, items.Keys, false);
    AllCovered(db.files, d, items.Keys, true);
    ListedAreChildren(db.files, d, items);
    fileCount, folderCount := CountListing(db, d, items);
  }

  /** Every line of a listing describes the child of that name. */
  ghost predicate ListsChildren(files: Files, d: string, items: map<string, FileItem>) {
    forall name :: name in items ==> ListsChild(files, d, name, items[name])
  }

  ghost predicate ListsChild(files: Files, d: string, name: string, item: FileItem) {
    && name != "" && '/' !in name
    && Join(d, name) in Children(files, d)
    && item == Item(files, Join(d, name))
  }

  lemma ListedAreChildren(files: Files, d: string, items: map<string, FileItem>)
    requires CleanKeys(files)
    requires forall name :: name in items ==> exists p :: p in Children(files, d) && Base(p) == name
    requires forall p :: p in Children(files, d) ==> Base(p) in items && items[Base(p)] == Item(files, p)
    ensures ListsChildren(files, d, items)
  {
    forall name | name in items
      ensures ListsChild(files, d, name, items[name])
    {
      ListedChild(files, d, name);
    }
  }

  lemma CoverListed(files: Files, d: string, all: set<string>, pending: set<string>, name: string, item: FileItem)
    requires CleanKeys(files) && ListsChild(files, d, name, item)
    requires pending <= all && name in pending
    ensures var c := Join(d, name);
            && |Covered(files, d, all - (pending - {name}), false)|
               == |Covered(files, d, all - pending, false)| + (|VisibleBelow(files, c, false)| + if files[c].isFolder then 0 else 1)
            && |Covered(files, d, all - (pending - {name}), true)|
               == |Covered(files, d, all - pending, true)| + (|VisibleBelow(files, c, true)| + if files[c].isFolder then 1 else 0)
  {
    CoverOneMore(files, d, all, pending, name, false);
    CoverOneMore(files, d, all, pending, name, true);
  }

  lemma CoverNonePending(files: Files, d: string, all: set<string>, pending: set<string>)
    requires pending == {}
    ensures forall folder :: Covered(files, d, all - pending, folder) == Covered(files, d, all, folder)
  {
    assert all - pending == all;
  }

  /** Add up the lines of a listing. */
  method CountListing(db: Storage, d: string, items: map<string, FileItem>) returns (fileCount: nat, folderCount: nat)
    requires TreeOk(db.files) && ListsChildren(db.files, d, items)
    ensures fileCount == |Covered(db.files, d, items.Keys, false)|
    ensures folderCount == |Covered(db.files, d, items.Keys, true)|
    decreases |StoredBelow(db.files, d)|, 1
  {
    fileCount, folderCount := 0, 0;
    var pending := items.Keys;
    ghost var all := items.Keys;
    while pending != {}
      invariant pending <= all
      invariant fileCount == |Covered(db.files, d, all - pending, false)|
      invariant folderCount == |Covered(db.files, d, all - pending, true)|
    {
      var name :| name in pending;
      assert ListsChild(db.files, d, name, items[name]);
      CoverListed(db.files, d, all, pending, name, items[name]);
      var f, g := CountListed(db, d, name, items[name]);
      fileCount, folderCount := fileCount + f, folderCount + g;
      pending := pending - {name};
    }
    CoverNonePending(db.files, d, all, pending);
  }

  /** One line of a listing: a file counts for one, a folder for one and all it contains. */
  method CountListed(db: Storage, d: string, name: string, item: FileItem) returns (fileCount: nat, folderCount: nat)
    requires TreeOk(db.files) && ListsChild(db.files, d, name, item)
    ensures fileCount == |VisibleBelow(db.files, Join(d, name), false)| + if db.files[Join(d, name)].isFolder then 0 else 1
    ensures folderCount == |VisibleBelow(db.files, Join(d, name), true)| + if db.files[Join(d, name)].isFolder then 1 else 0
    decreases |StoredBelow(db.files, d)|, 0
  {
    var c := Join(d, name);
    assert IsClean(c);
    if item.isFolder {
      DescendShrinks(db.files, d, name);
      fileCount, folderCount := CountByWalking(db, c);
      folderCount := folderCount + 1;
    } else {
      FileIsLeaf(db.files, c, false);
      FileIsLeaf(db.files, c, true);
      fileCount, folderCount := 1, 0;
    }
  }
}
