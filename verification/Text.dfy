/** Splitting strings at a delimiter and joining them again. */
module Text {
  import opened Collections

  predicate OccursAt(s: string, d: string, i: nat) {
    i + |d| <= |s| && s[i..i + |d|] == d
  }

  ghost predicate Contains(s: string, d: string) {
    exists i: nat :: OccursAt(s, d, i)
  }

  function FindFrom(s: string, d: string, i: nat): Option<nat>
    decreases |s| - i
  {
    if i + |d| > |s| then None
    else if OccursAt(s, d, i) then Some(i)
    else if i == |s| then None
    else FindFrom(s, d, i + 1)
  }

  /** Where `d` first occurs in `s`. */
  function Find(s: string, d: string): Option<nat> {
    FindFrom(s, d, 0)
  }

  /** `p` is the first place, from `i` on, where `d` occurs in `s`. */
  ghost predicate IsFirst(s: string, d: string, i: nat, p: nat) {
    i <= p && OccursAt(s, d, p) && forall j: nat :: i <= j < p ==> !OccursAt(s, d, j)
  }

  lemma {:induction false} FindFromIsFirst(s: string, d: string, i: nat)
    requires i <= |s|
    ensures match FindFrom(s, d, i)
            case Some(p) => IsFirst(s, d, i, p)
            case None => forall j: nat :: i <= j ==> !OccursAt(s, d, j)
    decreases |s| - i
  {
    if i + |d| <= |s| && !OccursAt(s, d, i) && i < |s| {
      FindFromIsFirst(s, d, i + 1);
    }
  }

  lemma FindIsFirst(s: string, d: string)
    ensures match Find(s, d)
            case Some(p) => IsFirst(s, d, 0, p)
            case None => !Contains(s, d)
  {
    FindFromIsFirst(s, d, 0);
  }

  lemma FindUnique(s: string, d: string, p: nat)
    requires IsFirst(s, d, 0, p)
    ensures Find(s, d) == Some(p)
  {
    FindIsFirst(s, d);
  }

  /** Every part between occurrences of the delimiter, the last one included when it is empty. */
  function Split(s: string, d: string): (parts: seq<string>)
    requires d != ""
    ensures parts != []
    decreases |s|
  {
    match Find(s, d)
    case None => [s]
    case Some(p) => FindIsFirst(s, d); [s[..p]] + Split(s[p + |d|..], d)
  }

  function Join(parts: seq<string>, d: string): string {
    if parts == [] then ""
    else if |parts| == 1 then parts[0]
    else parts[0] + d + Join(parts[1..], d)
  }

  /** Joining what was split gives the string back. */
  lemma {:induction false} JoinSplit(s: string, d: string)
    requires d != ""
    ensures Join(Split(s, d), d) == s
    decreases |s|
  {
    FindIsFirst(s, d);
    match Find(s, d) {
      case None =>
      case Some(p) =>
        var rest := s[p + |d|..];
        JoinSplit(rest, d);
        assert Split(s, d)[1..] == Split(rest, d);
        assert s == s[..p] + s[p..p + |d|] + rest;
    }
  }

  lemma OccursInPrefix(s: string, p: nat, d: string, j: nat)
    requires p <= |s| && d != ""
    ensures OccursAt(s[..p], d, j) ==> j < p && OccursAt(s, d, j)
  {
    if j + |d| <= p {
      assert s[..p][j..j + |d|] == s[j..j + |d|];
    }
  }

  /** No part contains the delimiter. */
  lemma {:induction false} PartsAreFree(s: string, d: string, i: nat)
    requires d != "" && i < |Split(s, d)|
    ensures !Contains(Split(s, d)[i], d)
    decreases |s|
  {
    FindIsFirst(s, d);
    match Find(s, d) {
      case None =>
      case Some(p) =>
        if i == 0 {
          forall j: nat ensures !OccursAt(s[..p], d, j) {
            OccursInPrefix(s, p, d, j);
          }
        } else {
          PartsAreFree(s[p + |d|..], d, i - 1);
        }
    }
  }

  /** In `part` followed by the delimiter, the delimiter first occurs after `part`. */
  predicate Ends(part: string, d: string) {
    Find(part + d, d) == Some(|part|)
  }

  /** What follows the first delimiter does not move it. */
  lemma FirstStays(part: string, d: string, rest: string)
    ensures Find(part + d + rest, d) == Some(|part|) <==> Ends(part, d)
  {
    var s, t := part + d + rest, part + d;
    forall j: nat | j <= |part| ensures OccursAt(s, d, j) <==> OccursAt(t, d, j) {
      assert s[j..j + |d|] == t[j..j + |d|];
    }
    FindIsFirst(s, d);
    FindIsFirst(t, d);
    assert OccursAt(t, d, |part|);
    if Ends(part, d) {
      FindUnique(s, d, |part|);
    }
    if Find(s, d) == Some(|part|) {
      FindUnique(t, d, |part|);
    }
  }

  /** The parts can be told apart once they are joined. */
  ghost predicate Separable(parts: seq<string>, d: string) {
    && parts != []
    && (forall i :: 0 <= i < |parts| - 1 ==> Ends(parts[i], d))
    && !Contains(parts[|parts| - 1], d)
  }

  /** Splitting a join gives the parts back exactly when each part ends where the delimiter first occurs after it and
      the last part does not contain the delimiter. */
  lemma {:induction false} SplitJoinIff(parts: seq<string>, d: string)
    requires d != "" && parts != []
    ensures Split(Join(parts, d), d) == parts <==> Separable(parts, d)
    decreases |parts|
  {
    if |parts| == 1 {
      FindIsFirst(parts[0], d);
    } else {
      var rest := parts[1..];
      var s := Join(parts, d);
      FirstStays(parts[0], d, Join(rest, d));
      SplitJoinIff(rest, d);
      SeparableTail(parts, d);
      if Ends(parts[0], d) {
        assert s[..|parts[0]|] == parts[0] && s[|parts[0]| + |d|..] == Join(rest, d);
        assert Split(s, d) == [parts[0]] + Split(Join(rest, d), d);
        assert parts == [parts[0]] + rest;
        assert ([parts[0]] + Split(Join(rest, d), d))[1..] == Split(Join(rest, d), d);
      } else {
        FirstPart(s, d);
      }
    }
  }

  lemma SeparableTail(parts: seq<string>, d: string)
    requires |parts| > 1
    ensures Separable(parts, d) <==> Ends(parts[0], d) && Separable(parts[1..], d)
  {
    var rest := parts[1..];
    if Ends(parts[0], d) && Separable(rest, d) {
      forall i | 0 <= i < |parts| - 1 ensures Ends(parts[i], d) {
        if i > 0 {
          assert parts[i] == rest[i - 1];
        }
      }
    }
  }

  lemma FirstPart(s: string, d: string)
    requires d != ""
    ensures match Find(s, d)
            case Some(p) => |Split(s, d)[0]| == p
            case None => |Split(s, d)| == 1
  {
    FindIsFirst(s, d);
  }

  /** For a one-character delimiter the parts must just not contain it. */
  lemma OneCharacterSeparable(parts: seq<string>, d: string)
    requires |d| == 1 && parts != []
    ensures Separable(parts, d) <==> forall i :: 0 <= i < |parts| ==> !Contains(parts[i], d)
  {
    forall i | 0 <= i < |parts| ensures Ends(parts[i], d) <==> !Contains(parts[i], d) {
      OneCharacterEnds(parts[i], d);
    }
  }

  lemma OneCharacterEnds(part: string, d: string)
    requires |d| == 1
    ensures Ends(part, d) <==> !Contains(part, d)
  {
    var t := part + d;
    forall j: nat | j < |part| ensures OccursAt(t, d, j) <==> OccursAt(part, d, j) {
      assert t[j..j + 1] == part[j..j + 1];
    }
    FindIsFirst(t, d);
    if !Contains(part, d) {
      assert OccursAt(t, d, |part|);
      FindUnique(t, d, |part|);
    } else {
      var j: nat :| OccursAt(part, d, j);
      assert OccursAt(t, d, j);
    }
  }

  // ---- to_collection ----

  /** The parts that end up in the collection: a last part that is empty is not stored. */
  function Collected(s: string, d: string): seq<string>
    requires d != ""
  {
    var parts := Split(s, d);
    if parts[|parts| - 1] == "" then parts[..|parts| - 1] else parts
  }

  class Collection {
    var items: seq<string>

    constructor ()
      ensures items == []
    {
      items := [];
    }

    method PushBack(item: string)
      modifies this
      ensures items == old(items) + [item]
    {
      items := items + [item];
    }
  }

  /** An empty delimiter is found at 0 forever, so callers must not pass one. */
  method ToCollection(s: string, d: string, out: Collection)
    requires d != ""
    modifies out
    ensures out.items == old(out.items) + Collected(s, d)
  {
    var rest := s;
    var pos := Find(rest, d);
    ghost var all := out.items + Collected(s, d);
    while pos.Some?
      invariant pos == Find(rest, d)
      invariant out.items + Collected(rest, d) == all
      decreases |rest|
    {
      CollectedStep(out.items, rest, d, pos.value);
      out.PushBack(rest[..pos.value]);
      rest := rest[pos.value + |d|..];
      pos := Find(rest, d);
    }
    CollectedEnd(rest, d);
    if rest != "" {
      out.PushBack(rest);
    }
  }

  lemma CollectedStep(items: seq<string>, s: string, d: string, p: nat)
    requires d != "" && Find(s, d) == Some(p)
    ensures p + |d| <= |s|
    ensures items + Collected(s, d) == items + [s[..p]] + Collected(s[p + |d|..], d)
  {
    FindIsFirst(s, d);
    CollectedCons(s, d, p);
  }

  lemma CollectedCons(s: string, d: string, p: nat)
    requires d != "" && Find(s, d) == Some(p) && p + |d| <= |s|
    ensures Collected(s, d) == [s[..p]] + Collected(s[p + |d|..], d)
  {
    var parts := Split(s[p + |d|..], d);
    var n := |parts| - 1;
    assert Split(s, d) == [s[..p]] + parts;
    assert ([s[..p]] + parts)[..n + 1] == [s[..p]] + parts[..n];
  }

  lemma CollectedEnd(s: string, d: string)
    requires d != "" && Find(s, d).None?
    ensures Collected(s, d) == if s == "" then [] else [s]
  {
  }

  lemma {:induction false} JoinSnocEmpty(parts: seq<string>, d: string)
    requires parts != []
    ensures Join(parts + [""], d) == Join(parts, d) + d
  {
    if |parts| == 1 {
      assert Join(parts + [""], d) == parts[0] + d + Join([""], d);
    } else {
      JoinSnocEmpty(parts[1..], d);
      assert (parts + [""])[1..] == parts[1..] + [""];
    }
  }

  /** Joining the collected parts gives the string back up to one trailing delimiter. */
  lemma JoinCollected(s: string, d: string)
    requires d != ""
    ensures s == Join(Collected(s, d), d) || s == Join(Collected(s, d), d) + d
    ensures forall i :: 0 <= i < |Collected(s, d)| ==> !Contains(Collected(s, d)[i], d)
  {
    JoinSplit(s, d);
    var parts := Split(s, d);
    var n := |parts| - 1;
    if parts[n] == "" && n > 0 {
      JoinSnocEmpty(parts[..n], d);
      assert parts[..n] + [""] == parts;
    }
    forall i | 0 <= i < |Collected(s, d)| ensures !Contains(Collected(s, d)[i], d) {
      PartsAreFree(s, d, i);
    }
  }

  /** Collecting a join gives the parts back exactly when they are separable and the last one is not empty. */
  lemma CollectJoinIff(parts: seq<string>, d: string)
    requires d != "" && parts != []
    ensures Collected(Join(parts, d), d) == parts <==> Separable(parts, d) && parts[|parts| - 1] != ""
  {
    var s := Join(parts, d);
    SplitJoinIff(parts, d);
    JoinSplit(s, d);
    JoinSnocEmpty(parts, d);
    var all := Split(s, d);
    assert Join(all, d) == s && Join(parts + [""], d) != s;
    DroppedLast(all, parts);
  }

  /** Dropping an empty last part leaves `parts` only if they were followed by it. */
  lemma DroppedLast(all: seq<string>, parts: seq<string>)
    requires all != [] && all != parts + [""]
    ensures (if all[|all| - 1] == "" then all[..|all| - 1] else all) == parts <==>
            all == parts && all[|all| - 1] != ""
  {
    var n := |all| - 1;
    assert all == all[..n] + [all[n]];
    assert |all[..n]| == n;
  }

  /** With a delimiter of several characters it is not enough that no part contains it. */
  lemma LongDelimiterFindsMore()
    ensures var parts, d := ["a", "b"], "aa";
      && !Contains(parts[0], d) && !Contains(parts[1], d)
      && !Separable(parts, d) && Collected(Join(parts, d), d) != parts
  {
    var parts, d := ["a", "b"], "aa";
    var s := "a" + d;
    assert OccursAt(s, d, 0) by {
      assert s[0..2] == d;
    }
    FindIsFirst(s, d);
    assert !Ends(parts[0], d);
    CollectJoinIff(parts, d);
  }

  // ---- Splitting a join of cells that may themselves contain the delimiter ----

  function SplitEach(cells: seq<string>, d: string): seq<string>
    requires d != ""
  {
    if cells == [] then [] else Split(cells[0], d) + SplitEach(cells[1..], d)
  }

  lemma FindInPrefix(s: string, t: string, d: string)
    requires Find(s, d).Some?
    ensures Find(s + t, d) == Find(s, d)
  {
    FindIsFirst(s, d);
    var p := Find(s, d).value;
    forall j: nat | j <= p ensures OccursAt(s + t, d, j) <==> OccursAt(s, d, j) {
      assert (s + t)[j..j + |d|] == s[j..j + |d|];
    }
    FindUnique(s + t, d, p);
  }

  lemma {:induction false} SplitAtDelimiter(a: string, b: string, d: string)
    requires |d| == 1
    ensures Split(a + d + b, d) == Split(a, d) + Split(b, d)
    decreases |a|
  {
    FindIsFirst(a, d);
    var s := a + d + b;
    match Find(a, d) {
      case None =>
        OneCharacterEnds(a, d);
        FirstStays(a, d, b);
        assert s[..|a|] == a && s[|a| + 1..] == b;
      case Some(p) =>
        assert s == a + (d + b);
        FindInPrefix(a, d + b, d);
        SplitAtDelimiter(a[p + 1..], b, d);
        assert s[..p] == a[..p] && s[p + 1..] == a[p + 1..] + d + b;
    }
  }

  /** With a one-character delimiter, splitting a join is splitting each cell. */
  lemma {:induction false} SplitJoinEach(cells: seq<string>, d: string)
    requires |d| == 1 && cells != []
    ensures Split(Join(cells, d), d) == SplitEach(cells, d)
    decreases |cells|
  {
    if |cells| > 1 {
      SplitAtDelimiter(cells[0], Join(cells[1..], d), d);
      SplitJoinEach(cells[1..], d);
    }
  }

  lemma {:induction false} SplitEachFree(cells: seq<string>, d: string)
    requires d != "" && forall i :: 0 <= i < |cells| ==> !Contains(cells[i], d)
    ensures SplitEach(cells, d) == cells
    decreases |cells|
  {
    if cells != [] {
      FindIsFirst(cells[0], d);
      SplitEachFree(cells[1..], d);
    }
  }
}
