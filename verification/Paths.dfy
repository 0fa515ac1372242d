/**
 Remote paths as strings. Some operations climb with `path.Dir`, others test the prefix `d + "/"`;
 the lemmas here say that both see the same tree.

 Paths are taken already normalized (`IsClean`). The root is the empty string, which is also what the
 parent "." of a top-level path is written as here.
 */
module Paths {

  /** Relative, non-empty, no empty component: what `normalizePath` returns for ordinary input. */
  predicate IsClean(p: string) {
    && p != ""
    && p[0] != '/'
    && p[|p| - 1] != '/'
    && forall i {:trigger DoubleSlash(p, i)} :: 0 <= i < |p| - 1 ==> !DoubleSlash(p, i)
  }

  predicate DoubleSlash(p: string, i: int)
    requires 0 <= i < |p| - 1
  {
    p[i] == '/' && p[i + 1] == '/'
  }

  function LastSlash(p: string): (i: int)
    ensures -1 <= i < |p|
    ensures i >= 0 ==> p[i] == '/'
    ensures forall j :: i < j < |p| ==> p[j] != '/'
  {
    if p == "" then -1
    else if p[|p| - 1] == '/' then |p| - 1
    else LastSlash(p[..|p| - 1])
  }

  function Dir(p: string): (d: string)
    ensures p != "" ==> |d| < |p|
  {
    if LastSlash(p) < 0 then "" else p[..LastSlash(p)]
  }

  function Base(p: string): string {
    p[LastSlash(p) + 1..]
  }

  function Join(d: string, name: string): string {
    if d == "" then name else d + "/" + name
  }

  /** `strings.HasPrefix(p, d + "/")`. */
  predicate Under(d: string, p: string) {
    d + "/" <= p
  }

  /** At any depth below `d`, where everything is below the root. */
  predicate Below(d: string, p: string) {
    if d == "" then p != "" else Under(d, p)
  }

  /** Climbing from `p` with `Dir` meets `d` before the root. */
  predicate Climbs(p: string, d: string)
    decreases |p|
  {
    p != "" && Dir(p) != "" && (Dir(p) == d || Climbs(Dir(p), d))
  }

  lemma UnderIndex(d: string, p: string)
    ensures Under(d, p) <==> |d| < |p| && p[..|d|] == d && p[|d|] == '/'
  {
    if Under(d, p) {
      assert p[|d|] == (d + "/")[|d|];
      assert p[..|d|] == (d + "/")[..|d|] == d;
    }
    if |d| < |p| && p[..|d|] == d && p[|d|] == '/' {
      assert p[..|d| + 1] == d + "/";
    }
  }

  lemma UnderTransitive(a: string, b: string, c: string)
    requires Under(a, b) && Under(b, c)
    ensures Under(a, c)
  {
    UnderIndex(a, b);
    UnderIndex(b, c);
    UnderIndex(a, c);
    assert c[..|b|] == b;
    assert c[..|a|] == c[..|b|][..|a|];
  }

  /** Two ancestors of one path: the shorter is an ancestor of the longer. */
  lemma AncestorsOrdered(a: string, b: string, p: string)
    requires Under(a, p) && (Under(b, p) || b == p) && |a| < |b|
    ensures Under(a, b)
  {
    UnderIndex(a, p);
    UnderIndex(b, p);
    UnderIndex(a, b);
    assert b == p[..|b|];
  }

  /** The immediate parent is an ancestor, and the lowest one. */
  lemma DirIsLowest(p: string, d: string)
    requires d != ""
    ensures Dir(p) != "" ==> Under(Dir(p), p)
    ensures Under(d, p) <==> Dir(p) != "" && (Dir(p) == d || Under(d, Dir(p)))
  {
    var i := LastSlash(p);
    UnderIndex(d, p);
    if i >= 0 {
      UnderIndex(Dir(p), p);
      UnderIndex(d, Dir(p));
      if Under(d, p) && |d| < i {
        assert Dir(p)[..|d|] == p[..|d|];
      }
      if Under(d, Dir(p)) {
        assert p[..|d|] == Dir(p)[..|d|];
      }
    }
  }

  /** The prefix test and climbing with `Dir` agree on what is below `d`. */
  lemma {:induction false} PrefixIffClimbs(p: string, d: string)
    requires d != ""
    ensures Under(d, p) <==> Climbs(p, d)
    decreases |p|
  {
    DirIsLowest(p, d);
    if p != "" && Dir(p) != "" {
      PrefixIffClimbs(Dir(p), d);
    } else {
      UnderIndex(d, p);
    }
  }

  /** The directories that climbing from `p` meets. */
  function Ancestors(p: string): (ds: set<string>)
    decreases |p|
  {
    if p == "" || Dir(p) == "" then {} else {Dir(p)} + Ancestors(Dir(p))
  }

  lemma {:induction false} AncestorsExact(p: string, d: string)
    ensures d in Ancestors(p) <==> d != "" && Under(d, p)
    decreases |p|
  {
    if d != "" {
      DirIsLowest(p, d);
    }
    UnderIndex(d, p);
    if p != "" && Dir(p) != "" {
      AncestorsExact(Dir(p), d);
    }
  }

  lemma {:induction false} AncestorsClean(p: string)
    requires IsClean(p)
    ensures forall d :: d in Ancestors(p) ==> IsClean(d)
    decreases |p|
  {
    if Dir(p) != "" {
      DirClean(p);
      AncestorsClean(Dir(p));
    }
  }

  lemma DirClean(p: string)
    requires IsClean(p) && Dir(p) != ""
    ensures IsClean(Dir(p))
  {
    var d := Dir(p);
    assert !DoubleSlash(p, |d| - 1);
    forall i {:trigger DoubleSlash(d, i)} | 0 <= i < |d| - 1
      ensures !DoubleSlash(d, i)
    {
      assert !DoubleSlash(p, i);
    }
  }

  /** A path is its directory joined with its base name, and the base name has no slash. */
  lemma JoinDirBase(p: string)
    requires IsClean(p)
    ensures Join(Dir(p), Base(p)) == p
    ensures Base(p) != "" && '/' !in Base(p)
  {
    var i := LastSlash(p);
    if i >= 0 {
      assert p == p[..i] + [p[i]] + p[i + 1..];
    }
  }

  lemma DirOfJoin(d: string, name: string)
    requires name != "" && '/' !in name
    ensures Dir(Join(d, name)) == d && Base(Join(d, name)) == name
  {
    var p := Join(d, name);
    if d != "" {
      assert p[|d|] == '/';
      assert forall j :: |d| < j < |p| ==> p[j] == name[j - |d| - 1];
      assert LastSlash(p) == |d|;
    } else {
      assert LastSlash(p) == -1;
    }
  }

  // ---------------------------------------------------------------- the first step down

  function FirstSlash(s: string): (i: nat)
    ensures i <= |s|
    ensures i < |s| ==> s[i] == '/'
    ensures forall j :: 0 <= j < i ==> s[j] != '/'
  {
    if s == "" || s[0] == '/' then 0 else 1 + FirstSlash(s[1..])
  }

  /** Where the part of `p` inside `d` starts. */
  function InsideFrom(d: string): nat {
    if d == "" then 0 else |d| + 1
  }

  /** The name, inside `d`, of the first step from `d` towards `p`. */
  function FirstName(d: string, p: string): string {
    if |p| < InsideFrom(d) then ""
    else p[InsideFrom(d)..][..FirstSlash(p[InsideFrom(d)..])]
  }

  /** For clean paths the first step is a proper name. */
  lemma FirstNameProper(d: string, p: string)
    requires IsClean(p) && Below(d, p)
    ensures FirstName(d, p) != "" && '/' !in FirstName(d, p)
  {
    UnderIndex(d, p);
    var k := InsideFrom(d);
    if d != "" {
      assert !DoubleSlash(p, |d|);
    }
    assert p[k..][0] == p[k];
  }

  /** The first step towards `p` is `name` exactly when `p` is `name` inside `d`, or is below it. */
  lemma FirstNameExact(d: string, p: string, name: string)
    requires Below(d, p) && name != "" && '/' !in name
    ensures FirstName(d, p) == name <==> AtOrUnder(Join(d, name), p)
  {
    var k := InsideFrom(d);
    var rest := p[k..];
    JoinIsPrefix(d, p, name);
    if rest[..] == name || (|name| < |rest| && rest[..|name|] == name && rest[|name|] == '/') {
      NameEnds(rest, name);
    }
    if FirstName(d, p) == name {
      assert rest[..|name|] == name;
    }
  }

  /** `d/name` is `p` or above it exactly when `name` is a whole name at that place of `p`. */
  lemma JoinIsPrefix(d: string, p: string, name: string)
    requires Below(d, p)
    ensures InsideFrom(d) <= |p|
    ensures var rest := p[InsideFrom(d)..];
            AtOrUnder(Join(d, name), p) <==> rest == name || (|name| < |rest| && rest[..|name|] == name && rest[|name|] == '/')
  {
    var k := InsideFrom(d);
    var c := Join(d, name);
    UnderIndex(d, p);
    UnderIndex(c, p);
    SplitAt(d, p);
    assert p == p[..k] + p[k..];
    assert c == p[..k] + name;
    if |c| <= |p| {
      assert p[..|c|] == p[..k] + p[k..|c|];
      assert p[k..][..|name|] == p[k..|c|];
    }
  }

  lemma SplitAt(d: string, p: string)
    requires Below(d, p)
    ensures InsideFrom(d) <= |p|
    ensures d != "" ==> p[..InsideFrom(d)] == d + "/"
  {
    UnderIndex(d, p);
  }

  lemma NameEnds(rest: string, name: string)
    requires '/' !in name && name <= rest && (|name| == |rest| || rest[|name|] == '/')
    ensures FirstSlash(rest) == |name|
  {
    assert forall i :: 0 <= i < |name| ==> rest[i] == name[i];
  }

  // ---------------------------------------------------------------- moving a subtree

  /** The new name of `p`, which is `from` or below it, when `from` becomes `to`. */
  function Relocate(p: string, from: string, to: string): string
    requires |from| <= |p|
  {
    to + p[|from|..]
  }

  predicate AtOrUnder(d: string, p: string) {
    p == d || Under(d, p)
  }

  lemma RelocateBack(p: string, from: string, to: string)
    requires AtOrUnder(from, p)
    ensures |from| <= |p|
    ensures AtOrUnder(to, Relocate(p, from, to))
    ensures |to| <= |Relocate(p, from, to)|
    ensures Relocate(Relocate(p, from, to), to, from) == p
    ensures Under(from, p) <==> Under(to, Relocate(p, from, to))
  {
    UnderIndex(from, p);
    var q := Relocate(p, from, to);
    UnderIndex(to, q);
    assert q[|to|..] == p[|from|..];
    assert p == p[..|from|] + p[|from|..];
  }

  /** When neither path is the other or above it, no path is in both subtrees. */
  lemma SubtreesDisjoint(a: string, b: string, p: string)
    requires !AtOrUnder(a, b) && !AtOrUnder(b, a) && AtOrUnder(a, p)
    ensures !AtOrUnder(b, p)
  {
    UnderIndex(a, b);
    UnderIndex(b, a);
    UnderIndex(a, p);
    UnderIndex(b, p);
    if AtOrUnder(b, p) {
      assert a == p[..|a|] && b == p[..|b|];
      if |a| < |b| {
        AncestorsOrdered(a, b, p);
      } else if |b| < |a| {
        AncestorsOrdered(b, a, p);
      }
    }
  }

  lemma RelocateClean(p: string, from: string, to: string)
    requires IsClean(p) && IsClean(to) && AtOrUnder(from, p)
    ensures |from| <= |p| && IsClean(Relocate(p, from, to))
  {
    UnderIndex(from, p);
    var q := Relocate(p, from, to);
    assert q[0] == to[0];
    if p == from {
      assert q == to;
    } else {
      forall i {:trigger DoubleSlash(q, i)} | 0 <= i < |q| - 1
        ensures !DoubleSlash(q, i)
      {
        if i < |to| - 1 {
          assert !DoubleSlash(to, i);
        } else if |to| <= i {
          assert !DoubleSlash(p, i - |to| + |from|);
        }
      }
    }
  }
}
