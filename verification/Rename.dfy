/**
 Renaming a subtree by moving its keys one at a time, in an arbitrary order, compared with renaming
 them all at once.
 */
module Rename {
  import opened Content
  import opened Paths
  import opened Tree

  /** The new names of a set of moved paths. */
  function Targets(moved: set<string>, from: string, to: string): set<string>
    requires forall p :: p in moved ==> |from| <= |p|
  {
    set p | p in moved :: Relocate(p, from, to)
  }

  lemma SubtreeAtOrUnder(files: Files, from: string)
    requires from in files
    ensures forall p :: p in Subtree(files, from) ==> p in files && AtOrUnder(from, p) && |from| <= |p|
  {
    forall p | p in Subtree(files, from)
      ensures |from| <= |p|
    {
      UnderIndex(from, p);
    }
  }

  /** Move one key, as the loop body does: store under the new name, then delete the old one. */
  function MoveOne(files: Files, p: string, from: string, to: string): Files
    requires p in files && |from| <= |p|
  {
    files[Relocate(p, from, to) := files[p]] - {p}
  }

  /** `order` lists each path of `moved` once. */
  ghost predicate IsOrder(order: seq<string>, moved: set<string>) {
    && (forall i, j :: 0 <= i < j < |order| ==> order[i] != order[j])
    && (forall p :: p in order <==> p in moved)
  }

  /** The keys moved one after the other. A key that is gone when its turn comes is left alone. */
  function MoveAll(files: Files, order: seq<string>, from: string, to: string): Files {
    if order == [] then files
    else
      var before := MoveAll(files, order[..|order| - 1], from, to);
      var p := order[|order| - 1];
      if p in before && |from| <= |p| then MoveOne(before, p, from, to) else before
  }

  /** The keys moved all at once: every other key stays, every moved entry gets its new name. */
  function MoveTogether(files: Files, moved: set<string>, from: string, to: string): (after: Files)
    requires forall p :: p in moved ==> p in files && AtOrUnder(from, p) && |from| <= |p|
  {
    map k | k in (files.Keys - moved) + Targets(moved, from, to) ::
      if k in Targets(moved, from, to) then files[Origin(k, moved, from, to)] else files[k]
  }

  /** The moved path whose new name is `k`. */
  function Origin(k: string, moved: set<string>, from: string, to: string): (p: string)
    requires forall p :: p in moved ==> AtOrUnder(from, p) && |from| <= |p|
    requires k in Targets(moved, from, to)
    ensures p in moved && Relocate(p, from, to) == k
  {
    assert exists p :: p in moved && Relocate(p, from, to) == k;
    OriginIsRelocateBack(k, moved, from, to);
    Relocate(k, to, from)
  }

  lemma OriginIsRelocateBack(k: string, moved: set<string>, from: string, to: string)
    requires forall p :: p in moved ==> AtOrUnder(from, p) && |from| <= |p|
    requires k in Targets(moved, from, to)
    ensures |to| <= |k| && Relocate(k, to, from) in moved && Relocate(Relocate(k, to, from), from, to) == k
  {
    var p :| p in moved && Relocate(p, from, to) == k;
    RelocateBack(p, from, to);
  }

  /** Reading the renamed map: a moved entry is found under its new name. */
  lemma MoveTogetherAt(files: Files, moved: set<string>, from: string, to: string, p: string)
    requires forall q :: q in moved ==> q in files && AtOrUnder(from, q) && |from| <= |q|
    requires p in moved
    ensures var after := MoveTogether(files, moved, from, to);
            Relocate(p, from, to) in after && after[Relocate(p, from, to)] == files[p]
  {
    var k := Relocate(p, from, to);
    assert k in Targets(moved, from, to);
    RelocateBack(p, from, to);
    RelocateBack(Origin(k, moved, from, to), from, to);
  }

  // ---------------------------------------------------------------- the order of the moves

  /** No moved path is the new name of a moved path. */
  predicate NoClash(files: Files, from: string, to: string)
    requires from in files
  {
    SubtreeAtOrUnder(files, from);
    Subtree(files, from) !! Targets(Subtree(files, from), from, to)
  }

  function SetOf(order: seq<string>): set<string> {
    set p | p in order
  }

  /** The paths can be moved together and none of them is a new name of another. */
  predicate MovesApart(files: Files, moved: set<string>, from: string, to: string) {
    && (forall p :: p in moved ==> p in files && AtOrUnder(from, p) && |from| <= |p|)
    && moved !! Targets(moved, from, to)
  }

  lemma FewerMovesApart(files: Files, moved: set<string>, fewer: set<string>, from: string, to: string)
    requires MovesApart(files, moved, from, to) && fewer <= moved
    ensures MovesApart(files, fewer, from, to)
  {
  }

  /** Part of the way through any order, the map is the simultaneous move of the part done. */
  lemma {:induction false} MoveAllIsTogether(files: Files, from: string, to: string, order: seq<string>)
    requires forall i, j :: 0 <= i < j < |order| ==> order[i] != order[j]
    requires MovesApart(files, SetOf(order), from, to)
    ensures MoveAll(files, order, from, to) == MoveTogether(files, SetOf(order), from, to)
  {
    if order == [] {
      assert MoveTogether(files, {}, from, to) == files;
    } else {
      var n := |order| - 1;
      var done := SetOf(order[..n]);
      SetOfLast(order);
      FewerMovesApart(files, SetOf(order), done, from, to);
      MoveAllIsTogether(files, from, to, order[..n]);
      assert order[n] !in done;
      OneMoreTogether(files, done, from, to, order[n]);
    }
  }

  lemma SetOfLast(order: seq<string>)
    requires order != []
    ensures SetOf(order) == SetOf(order[..|order| - 1]) + {order[|order| - 1]}
  {
    assert order == order[..|order| - 1] + [order[|order| - 1]];
  }

  lemma OneMoreTogether(files: Files, done: set<string>, from: string, to: string, p: string)
    requires p !in done && MovesApart(files, done, from, to) && MovesApart(files, done + {p}, from, to)
    ensures p in MoveTogether(files, done, from, to)
    ensures MoveOne(MoveTogether(files, done, from, to), p, from, to) == MoveTogether(files, done + {p}, from, to)
  {
    var before := MoveTogether(files, done, from, to);
    var k := Relocate(p, from, to);
    assert k in Targets(done + {p}, from, to);
    assert Targets(done + {p}, from, to) == Targets(done, from, to) + {k};
    assert before[p] == files[p];
    var one, all := MoveOne(before, p, from, to), MoveTogether(files, done + {p}, from, to);
    assert one.Keys == all.Keys;
    forall x | x in one.Keys
      ensures one[x] == all[x]
    {
      if x in Targets(done + {p}, from, to) {
        var o := Origin(x, done + {p}, from, to);
        MoveTogetherAt(files, done + {p}, from, to, o);
        if o in done {
          MoveTogetherAt(files, done, from, to, o);
          RelocateBack(o, from, to);
          RelocateBack(p, from, to);
        }
      }
    }
  }

  /** The last key moved is gone at the end, unless something was stored there by its own move. */
  lemma LastMovedIsGone(files: Files, order: seq<string>, from: string, to: string)
    requires order != [] && |from| <= |order[|order| - 1]|
    ensures order[|order| - 1] !in MoveAll(files, order, from, to)
  {
  }

  lemma {:induction false} OrderOf(moved: set<string>) returns (order: seq<string>)
    ensures IsOrder(order, moved)
  {
    if moved == {} {
      order := [];
    } else {
      var p :| p in moved;
      var rest := OrderOf(moved - {p});
      order := rest + [p];
    }
  }

  /**
   Go iterates over the moves in an unspecified order. Every order gives the simultaneous rename
   exactly when no moved path is the new name of a moved path; otherwise some order loses an entry.
   */
  lemma OrderIrrelevantIff(files: Files, from: string, to: string)
    requires from in files
    ensures NoClash(files, from, to) <==>
            (SubtreeAtOrUnder(files, from);
             forall order :: IsOrder(order, Subtree(files, from)) ==>
               MoveAll(files, order, from, to) == MoveTogether(files, Subtree(files, from), from, to))
  {
    SubtreeAtOrUnder(files, from);
    var moved := Subtree(files, from);
    if NoClash(files, from, to) {
      forall order | IsOrder(order, moved)
        ensures MoveAll(files, order, from, to) == MoveTogether(files, moved, from, to)
      {
        AnyOrderTogether(files, from, to, order);
      }
    } else {
      var order := ClashLosesAnEntry(files, from, to);
    }
  }

  lemma AnyOrderTogether(files: Files, from: string, to: string, order: seq<string>)
    requires from in files && NoClash(files, from, to) && IsOrder(order, Subtree(files, from))
    ensures forall p :: p in Subtree(files, from) ==> p in files && AtOrUnder(from, p) && |from| <= |p|
    ensures MoveAll(files, order, from, to) == MoveTogether(files, Subtree(files, from), from, to)
  {
    SubtreeAtOrUnder(files, from);
    assert SetOf(order) == Subtree(files, from);
    MoveAllIsTogether(files, from, to, order);
  }

  /** With a clash there is an order after which a new name that should be stored is missing. */
  lemma ClashLosesAnEntry(files: Files, from: string, to: string) returns (order: seq<string>)
    requires from in files && !NoClash(files, from, to)
    ensures forall p :: p in Subtree(files, from) ==> p in files && AtOrUnder(from, p) && |from| <= |p|
    ensures IsOrder(order, Subtree(files, from))
    ensures MoveAll(files, order, from, to) != MoveTogether(files, Subtree(files, from), from, to)
  {
    SubtreeAtOrUnder(files, from);
    var moved := Subtree(files, from);
    var k :| k in moved && k in Targets(moved, from, to);
    var rest := OrderOf(moved - {k});
    order := rest + [k];
    LastMovedIsGone(files, order, from, to);
    assert k in MoveTogether(files, moved, from, to);
  }

  /** Neither path is the other or above it. */
  predicate Unrelated(from: string, to: string) {
    !AtOrUnder(from, to) && !AtOrUnder(to, from)
  }

  lemma UnrelatedNoClash(files: Files, from: string, to: string)
    requires from in files && Unrelated(from, to)
    ensures NoClash(files, from, to)
  {
    SubtreeAtOrUnder(files, from);
    forall p | p in Subtree(files, from)
      ensures Relocate(p, from, to) !in Subtree(files, from)
    {
      RelocateBack(p, from, to);
      SubtreesDisjoint(to, from, Relocate(p, from, to));
    }
  }

  /** Renaming a path to itself deletes it and everything below it, in every order. */
  lemma {:induction false} RenameToItselfDeletes(files: Files, p: string, order: seq<string>)
    requires p in files && IsOrder(order, Subtree(files, p))
    ensures MoveAll(files, order, p, p) == files - Subtree(files, p)
  {
    SubtreeAtOrUnder(files, p);
    MoveToItself(files, p, order);
    assert SetOf(order) == Subtree(files, p);
  }

  lemma RelocateToItself(q: string, p: string)
    requires AtOrUnder(p, q)
    ensures |p| <= |q| && Relocate(q, p, p) == q
  {
    UnderIndex(p, q);
    assert q == q[..|p|] + q[|p|..];
  }

  lemma MoveOneToItself(files: Files, q: string, p: string)
    requires q in files && AtOrUnder(p, q)
    ensures |p| <= |q| && MoveOne(files, q, p, p) == files - {q}
  {
    RelocateToItself(q, p);
  }

  lemma {:induction false} MoveToItself(files: Files, p: string, order: seq<string>)
    requires forall q :: q in SetOf(order) ==> q in files && AtOrUnder(p, q)
    requires forall i, j :: 0 <= i < j < |order| ==> order[i] != order[j]
    ensures MoveAll(files, order, p, p) == files - SetOf(order)
  {
    if order != [] {
      var n := |order| - 1;
      SetOfLast(order);
      MoveToItself(files, p, order[..n]);
      var before := files - SetOf(order[..n]);
      assert order[n] !in SetOf(order[..n]);
      MoveOneToItself(before, order[n], p);
      assert before - {order[n]} == files - SetOf(order);
    }
  }

  // ---------------------------------------------------------------- what a rename to a free name keeps

  /** Nothing is stored at or below the new name. */
  ghost predicate FreeName(files: Files, to: string) {
    to !in files && NothingBelow(files, to)
  }

  /** The whole effect of renaming `from` to `to`. */
  function Renamed(files: Files, from: string, to: string, now: int): Files
    requires from in files
  {
    SubtreeAtOrUnder(files, from);
    WithAncestors(MoveTogether(files, Subtree(files, from), from, to), to, now)
  }

  /** The new name of any stored path. */
  function NewName(files: Files, from: string, to: string, p: string): string
    requires from in files && p in files
  {
    SubtreeAtOrUnder(files, from);
    if p in Subtree(files, from) then Relocate(p, from, to) else p
  }

  lemma TargetsAreFree(files: Files, from: string, to: string)
    requires from in files && FreeName(files, to)
    ensures forall p :: p in Subtree(files, from) ==> |from| <= |p| && Relocate(p, from, to) !in files
  {
    SubtreeAtOrUnder(files, from);
    forall p | p in Subtree(files, from)
      ensures Relocate(p, from, to) !in files
    {
      RelocateBack(p, from, to);
    }
  }

  /**
   A rename to any unrelated name, stored or not: every moved entry is found under its new name, and every other
   path that is there was there before with the same entry, or is an added folder marker.
   */
  lemma RenamedEntries(files: Files, from: string, to: string, now: int)
    requires from in files && Unrelated(from, to)
    ensures var after := Renamed(files, from, to, now);
            && (forall q :: q in Subtree(files, from) ==> NewName(files, from, to, q) in after && after[NewName(files, from, to, q)] == files[q])
            && (forall k :: k in after ==> (exists q :: q in Subtree(files, from) && NewName(files, from, to, q) == k)
                                           || (k in files && k !in Subtree(files, from) && after[k] == files[k])
                                           || after[k] == FolderMarker(now))
  {
    SubtreeAtOrUnder(files, from);
    var moved := Subtree(files, from);
    var together := MoveTogether(files, moved, from, to);
    forall q | q in moved
      ensures NewName(files, from, to, q) in together && together[NewName(files, from, to, q)] == files[q]
    {
      MoveTogetherAt(files, moved, from, to, q);
    }
    forall k | k in together
      ensures (exists q :: q in moved && NewName(files, from, to, q) == k) || (k in files && k !in moved && together[k] == files[k])
    {
      if k in Targets(moved, from, to) {
        assert NewName(files, from, to, Origin(k, moved, from, to)) == k;
      }
    }
  }

  /** The two names are different and neither is above the other; nothing is stored at or below the new one. */
  lemma FreeAndUnrelatedInWords(files: Files, from: string, to: string)
    ensures Unrelated(from, to) <==> from != to && !(from + "/" <= to) && !(to + "/" <= from)
    ensures FreeName(files, to) <==> forall q :: q in files ==> q != to && !(to + "/" <= q)
  {
    if FreeName(files, to) {
      forall q | q in files
        ensures q != to && !(to + "/" <= q)
      {
        assert !Under(to, q);
      }
    }
    if forall q :: q in files ==> q != to && !(to + "/" <= q) {
      assert to !in files;
    }
  }

  /**
   After a rename every entry at or below the old name is at the same place at or below the new one, nothing is left
   under the old name, every other entry is where it was, and the only other paths are the missing folders above the new
   name.
   */
  ghost predicate RenamedInWords(before: Files, after: Files, from: string, to: string, now: int)
    requires from in before
  {
    && (forall p :: p in before && |from| <= |p| && (p == from || (before[from].isFolder && from + "/" <= p)) ==>
          p !in after && to + p[|from|..] in after && after[to + p[|from|..]] == before[p])
    && (forall p :: p in before && !(p == from || (before[from].isFolder && from + "/" <= p)) ==> p in after && after[p] == before[p])
    && (forall k :: k in after && k !in before && !(k == to || to + "/" <= k) ==>
          k != "" && k + "/" <= to && after[k] == FileEntry([], now, "", true, false))
  }

  lemma RenameInWords(files: Files, from: string, to: string, now: int)
    requires from in files && Unrelated(from, to) && FreeName(files, to)
    ensures RenamedInWords(files, Renamed(files, from, to, now), from, to, now)
  {
    var after := Renamed(files, from, to, now);
    RenameKeepsEntries(files, from, to, now);
    SubtreeAtOrUnder(files, from);
    AncestorsAreUnder(to);
    forall p | p in Subtree(files, from)
      ensures p !in after
    {
      if p in after {
        MovedIsGone(files, from, to, now, p);
      }
    }
    forall k | k in after && k !in files && !AtOrUnder(to, k)
      ensures k in Ancestors(to) && after[k] == FolderMarker(now)
    {
      if p :| p in files && NewName(files, from, to, p) == k {
        if p in Subtree(files, from) {
          RelocateBack(p, from, to);
        }
      }
    }
  }

  lemma MovedIsGone(files: Files, from: string, to: string, now: int, p: string)
    requires from in files && Unrelated(from, to) && FreeName(files, to) && p in Subtree(files, from)
    ensures p !in Renamed(files, from, to, now)
  {
    RenameKeepsEntries(files, from, to, now);
    SubtreeAtOrUnder(files, from);
    AncestorsAreUnder(to);
    if q :| q in files && NewName(files, from, to, q) == p {
      if q in Subtree(files, from) {
        RelocateBack(q, from, to);
        SubtreesDisjoint(to, from, p);
      }
    }
    if p in Ancestors(to) && p != from {
      UnderTransitive(from, p, to);
    }
  }

  /**
   A rename to a free, unrelated name is a bijection: every entry is kept under its new name, different
   paths keep different names, and the only other paths are the missing ancestors of the new name.
   */
  lemma RenameKeepsEntries(files: Files, from: string, to: string, now: int)
    requires from in files && Unrelated(from, to) && FreeName(files, to)
    ensures var after := Renamed(files, from, to, now);
            && (forall p :: p in files ==> NewName(files, from, to, p) in after && after[NewName(files, from, to, p)] == files[p])
            && (forall p, q :: p in files && q in files && NewName(files, from, to, p) == NewName(files, from, to, q) ==> p == q)
            && (forall k :: k in after ==> (exists p :: p in files && NewName(files, from, to, p) == k)
                                           || (k in Ancestors(to) && after[k] == FolderMarker(now)))
  {
    SubtreeAtOrUnder(files, from);
    TargetsAreFree(files, from, to);
    var moved := Subtree(files, from);
    var together := MoveTogether(files, moved, from, to);
    forall p | p in files
      ensures NewName(files, from, to, p) in together && together[NewName(files, from, to, p)] == files[p]
    {
      if p in moved {
        MoveTogetherAt(files, moved, from, to, p);
      }
    }
    forall p, q | p in files && q in files && NewName(files, from, to, p) == NewName(files, from, to, q)
      ensures p == q
    {
      if p in moved && q in moved {
        RelocateBack(p, from, to);
        RelocateBack(q, from, to);
      }
    }
    forall k | k in together
      ensures exists p :: p in files && NewName(files, from, to, p) == k
    {
      var p := if k in Targets(moved, from, to) then Origin(k, moved, from, to) else k;
      assert p in files && NewName(files, from, to, p) == k;
    }
  }

  /** Such a rename keeps the tree exactly when no file is above the new name. */
  lemma RenameKeepsTree(files: Files, from: string, to: string, now: int)
    requires TreeOk(files) && IsClean(to)
    requires from in files && Unrelated(from, to) && FreeName(files, to)
    ensures TreeOk(Renamed(files, from, to, now)) <==> NoFileAbove(files, to)
  {
    var after := Renamed(files, from, to, now);
    RenameKeepsEntries(files, from, to, now);
    AncestorsAreUnder(to);
    SubtreeAtOrUnder(files, from);
    AncestorStays(files, from, to);
    if NoFileAbove(files, to) {
      RenamedPlainAndClean(files, from, to, now);
      RenamedRooted(files, from, to, now);
    }
    if Rooted(after) {
      forall d | d in files && Under(d, to)
        ensures files[d].isFolder
      {
        assert NewName(files, from, to, d) == d;
        assert NewName(files, from, to, from) == to by {
          assert from[|from|..] == "";
        }
        assert to in after && IsClean(d);
        assert IsFolderIn(after, d);
      }
    }
  }

  /** The ancestors of an unrelated new name are not moved. */
  lemma AncestorStays(files: Files, from: string, to: string)
    requires from in files && Unrelated(from, to)
    ensures forall d :: Under(d, to) ==> d !in Subtree(files, from)
  {
    forall d | Under(d, to)
      ensures d !in Subtree(files, from)
    {
      if d in files && AtOrUnder(from, d) && d != from {
        UnderTransitive(from, d, to);
      }
    }
  }

  lemma RenamedPlainAndClean(files: Files, from: string, to: string, now: int)
    requires TreeOk(files) && IsClean(to)
    requires from in files && Unrelated(from, to) && FreeName(files, to)
    ensures CleanKeys(Renamed(files, from, to, now)) && PlainFolders(Renamed(files, from, to, now))
  {
    var after := Renamed(files, from, to, now);
    RenameKeepsEntries(files, from, to, now);
    AncestorsClean(to);
    SubtreeAtOrUnder(files, from);
    forall k | k in after
      ensures IsClean(k) && (after[k].isFolder ==> !after[k].incomplete)
    {
      if p :| p in files && NewName(files, from, to, p) == k {
        if p in Subtree(files, from) {
          RelocateClean(p, from, to);
        }
      }
    }
  }

  lemma RenamedRooted(files: Files, from: string, to: string, now: int)
    requires TreeOk(files) && IsClean(to) && NoFileAbove(files, to)
    requires from in files && Unrelated(from, to) && FreeName(files, to)
    ensures Rooted(Renamed(files, from, to, now))
  {
    var after := Renamed(files, from, to, now);
    RenameKeepsEntries(files, from, to, now);
    forall k, d | k in after && d != "" && Under(d, k)
      ensures IsFolderIn(after, d)
    {
      if k in Ancestors(to) {
        AncestorsExact(to, k);
        UnderTransitive(d, k, to);
        AncestorIsFolder(files, from, to, now, d);
      } else {
        var p :| p in files && NewName(files, from, to, p) == k;
        SubtreeAtOrUnder(files, from);
        if p in Subtree(files, from) {
          MovedIsRooted(files, from, to, now, p, d);
        } else {
          assert Under(d, p) && IsFolderIn(files, d);
          StayingAncestorStays(files, from, p, d);
          assert NewName(files, from, to, d) == d;
        }
      }
    }
  }

  lemma AncestorIsFolder(files: Files, from: string, to: string, now: int, d: string)
    requires from in files && Unrelated(from, to) && FreeName(files, to) && NoFileAbove(files, to)
    requires d != "" && Under(d, to)
    ensures IsFolderIn(Renamed(files, from, to, now), d)
  {
    RenameKeepsEntries(files, from, to, now);
    AncestorsExact(to, d);
    AncestorStays(files, from, to);
    if d in files {
      assert NewName(files, from, to, d) == d;
    }
  }

  lemma StayingAncestorStays(files: Files, from: string, p: string, d: string)
    requires from in files && p in files && p !in Subtree(files, from) && Under(d, p) && IsFolderIn(files, d)
    ensures d !in Subtree(files, from)
  {
    if d in Subtree(files, from) && d != from {
      UnderTransitive(from, d, p);
    }
  }

  /** An ancestor of a path at or below `to` is above `to`, or is `to`, or is below it. */
  lemma AncestorCases(to: string, k: string, d: string)
    requires AtOrUnder(to, k) && Under(d, k)
    ensures Under(d, to) || (d == to && k != to) || (Under(to, d) && k != to)
  {
    UnderIndex(d, k);
    UnderIndex(to, k);
    if |d| < |to| {
      AncestorsOrdered(d, to, k);
    } else if |to| < |d| {
      AncestorsOrdered(to, d, k);
    }
  }

  lemma RelocateUnder(d: string, p: string, from: string, to: string)
    requires AtOrUnder(from, d) && Under(d, p)
    ensures |from| <= |d| && |from| <= |p|
    ensures Under(Relocate(d, from, to), Relocate(p, from, to))
  {
    UnderIndex(from, d);
    UnderIndex(d, p);
    var d', p' := Relocate(d, from, to), Relocate(p, from, to);
    UnderIndex(d', p');
    assert p[|from|..][..|d| - |from|] == p[..|d|][|from|..] == d[|from|..];
    assert p'[..|d'|] == d';
  }

  lemma MovedIsRooted(files: Files, from: string, to: string, now: int, p: string, d: string)
    requires TreeOk(files) && NoFileAbove(files, to)
    requires from in files && Unrelated(from, to) && FreeName(files, to)
    requires p in Subtree(files, from) && |from| <= |p| && d != "" && Under(d, Relocate(p, from, to))
    ensures IsFolderIn(Renamed(files, from, to, now), d)
  {
    var k := Relocate(p, from, to);
    RenameKeepsEntries(files, from, to, now);
    RelocateBack(p, from, to);
    AncestorCases(to, k, d);
    if Under(d, to) {
      AncestorIsFolder(files, from, to, now, d);
    } else if d == to {
      assert from[|from|..] == "";
      assert NewName(files, from, to, from) == to;
    } else {
      RelocateUnder(d, k, to, from);
      RelocateBack(d, to, from);
      var d' := Relocate(d, to, from);
      assert d' != "" by { UnderIndex(from, d'); }
      assert IsFolderIn(files, d');
      assert NewName(files, from, to, d') == d;
    }
  }

  // ---------------------------------------------------------------- renaming back

  lemma SubtreeOfRenamed(files: Files, from: string, to: string, now: int)
    requires TreeOk(files) && from in files && Unrelated(from, to) && FreeName(files, to)
    ensures forall p :: p in Subtree(files, from) ==> |from| <= |p|
    ensures to in Renamed(files, from, to, now)
    ensures Subtree(Renamed(files, from, to, now), to) == Targets(Subtree(files, from), from, to)
  {
    var after := Renamed(files, from, to, now);
    RenameKeepsEntries(files, from, to, now);
    SubtreeAtOrUnder(files, from);
    assert from[|from|..] == "";
    assert NewName(files, from, to, from) == to;
    var moved := Subtree(files, from);
    forall k | k in after && AtOrUnder(to, k)
      ensures k in Targets(moved, from, to)
    {
      NotAncestorOf(to, k);
      var p :| p in files && NewName(files, from, to, p) == k;
    }
    forall k | k in Targets(moved, from, to)
      ensures k in Subtree(after, to)
    {
      var p :| p in moved && Relocate(p, from, to) == k;
      RelocateBack(p, from, to);
      assert NewName(files, from, to, p) == k;
    }
  }

  lemma NotAncestorOf(to: string, k: string)
    requires AtOrUnder(to, k)
    ensures k !in Ancestors(to)
  {
    AncestorsExact(to, k);
    UnderIndex(to, k);
    UnderIndex(k, to);
  }

  /**
   Renaming to a free, unrelated name and back restores every path and every entry; only the folder
   markers that the first rename had to add above the new name remain.
   */
  lemma RenameBackRestores(files: Files, from: string, to: string, now: int, later: int)
    requires TreeOk(files) && from in files && Unrelated(from, to) && FreeName(files, to)
    ensures to in Renamed(files, from, to, now)
    ensures Renamed(Renamed(files, from, to, now), to, from, later) == WithAncestors(files, to, now)
  {
    SubtreeOfRenamed(files, from, to, now);
    var middle := Renamed(files, from, to, now);
    SubtreeAtOrUnder(middle, to);
    var together := MoveTogether(middle, Subtree(middle, to), to, from);
    var goal := WithAncestors(files, to, now);
    RestoredKeys(files, from, to, now);
    forall k | k in goal
      ensures together[k] == goal[k]
    {
      RestoredAt(files, from, to, now, k);
    }
    assert together == goal;
    NoMarkerMissing(files, from, to, now, later);
  }

  lemma NoMarkerMissing(files: Files, from: string, to: string, now: int, later: int)
    requires TreeOk(files) && from in files
    ensures WithAncestors(WithAncestors(files, to, now), from, later) == WithAncestors(files, to, now)
  {
    AncestorsAreUnder(from);
    forall d | d in Ancestors(from)
      ensures d in files
    {
      assert Under(d, from);
      assert IsFolderIn(files, d);
    }
  }

  /** The new names are new, and the markers above them replace nothing that moves. */
  lemma TargetsAreNew(files: Files, from: string, to: string)
    requires from in files && Unrelated(from, to) && FreeName(files, to)
    ensures forall p :: p in Subtree(files, from) ==> |from| <= |p|
    ensures var targets := Targets(Subtree(files, from), from, to);
            targets !! Ancestors(to) && targets !! files.Keys && Ancestors(to) !! Subtree(files, from)
  {
    SubtreeAtOrUnder(files, from);
    var moved := Subtree(files, from);
    forall k | k in Targets(moved, from, to)
      ensures k !in Ancestors(to) && k !in files
    {
      var p :| p in moved && Relocate(p, from, to) == k;
      RelocateBack(p, from, to);
      NotAncestorOf(to, k);
    }
    AncestorsAreUnder(to);
    AncestorStays(files, from, to);
  }

  lemma RestoredKeys(files: Files, from: string, to: string, now: int)
    requires TreeOk(files) && from in files && Unrelated(from, to) && FreeName(files, to)
    ensures to in Renamed(files, from, to, now)
    ensures var middle := Renamed(files, from, to, now);
            && (forall p :: p in Subtree(middle, to) ==> p in middle && AtOrUnder(to, p) && |to| <= |p|)
            && MoveTogether(middle, Subtree(middle, to), to, from).Keys == WithAncestors(files, to, now).Keys
  {
    SubtreeOfRenamed(files, from, to, now);
    SubtreeAtOrUnder(files, from);
    TargetsAreNew(files, from, to);
    var middle := Renamed(files, from, to, now);
    SubtreeAtOrUnder(middle, to);
    var moved := Subtree(files, from);
    var targets := Targets(moved, from, to);
    TargetsBack(moved, from, to);
    RenamedKeys(files, from, to, now);
    SwapBack(files.Keys, moved, targets, Ancestors(to));
  }

  lemma RenamedKeys(files: Files, from: string, to: string, now: int)
    requires from in files
    ensures forall p :: p in Subtree(files, from) ==> |from| <= |p|
    ensures Renamed(files, from, to, now).Keys ==
            Ancestors(to) + ((files.Keys - Subtree(files, from)) + Targets(Subtree(files, from), from, to))
  {
    SubtreeAtOrUnder(files, from);
  }

  lemma SwapBack(all: set<string>, moved: set<string>, targets: set<string>, added: set<string>)
    requires moved <= all && targets !! added && targets !! all
    ensures ((added + ((all - moved) + targets)) - targets) + moved == added + all
  {
  }

  lemma TargetsBack(moved: set<string>, from: string, to: string)
    requires forall p :: p in moved ==> AtOrUnder(from, p) && |from| <= |p|
    ensures forall k :: k in Targets(moved, from, to) ==> |to| <= |k|
    ensures Targets(Targets(moved, from, to), to, from) == moved
  {
    forall k | k in Targets(moved, from, to)
      ensures |to| <= |k| && Relocate(k, to, from) in moved
    {
      OriginIsRelocateBack(k, moved, from, to);
    }
    forall p | p in moved
      ensures p in Targets(Targets(moved, from, to), to, from)
    {
      RelocateBack(p, from, to);
      assert Relocate(p, from, to) in Targets(moved, from, to);
    }
  }

  lemma RestoredAt(files: Files, from: string, to: string, now: int, k: string)
    requires TreeOk(files) && from in files && Unrelated(from, to) && FreeName(files, to)
    requires k in WithAncestors(files, to, now)
    ensures to in Renamed(files, from, to, now)
    ensures var middle := Renamed(files, from, to, now);
            && (forall p :: p in Subtree(middle, to) ==> p in middle && AtOrUnder(to, p) && |to| <= |p|)
            && var together := MoveTogether(middle, Subtree(middle, to), to, from);
               k in together ==> together[k] == WithAncestors(files, to, now)[k]
  {
    SubtreeOfRenamed(files, from, to, now);
    SubtreeAtOrUnder(files, from);
    RenameKeepsEntries(files, from, to, now);
    var middle := Renamed(files, from, to, now);
    SubtreeAtOrUnder(middle, to);
    var moved := Subtree(files, from);
    TargetsBack(moved, from, to);
    AncestorsAreUnder(to);
    AncestorStays(files, from, to);
    if k in moved {
      var q := Relocate(k, from, to);
      RelocateBack(k, from, to);
      assert q in Targets(moved, from, to);
      MoveTogetherAt(middle, Subtree(middle, to), to, from, q);
      assert NewName(files, from, to, k) == q;
    } else if k in files {
      assert NewName(files, from, to, k) == k;
    }
  }
}
