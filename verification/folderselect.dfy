/**
 Choosing part of a folder: the accepted paths and the directories above them, in path order.
 */
module FolderSelect {
  import opened Wrappers
  import opened Text
  import opened FolderPaths
  import opened FolderManifest
  import Lex
  import Sorting

  // The directory of a clean relative path; "." above a single name.
  function Dir(path: string): string {
    var segments := Split(path, '/');
    if |segments| == 1 then "." else Join(segments[..|segments| - 1], '/')
  }

  ghost predicate IsAccepted(paths: seq<string>, path: string) {
    exists v :: v in paths && Normalize(v).Ok? && Normalize(v).value.0 == path
  }

  // A proper, non-empty prefix of the path's segments.
  ghost predicate IsAbove(dir: string, path: string) {
    exists k :: 0 < k < |Split(path, '/')| && Ancestor(path, k) == dir
  }

  function Ancestor(path: string, k: nat): string
    requires k <= |Split(path, '/')|
  {
    Join(Split(path, '/')[..k], '/')
  }

  ghost predicate IsParent(paths: seq<string>, dir: string) {
    exists v :: v in paths && Normalize(v).Ok? && IsAbove(dir, Normalize(v).value.0)
  }

  predicate Keeps(accepted: set<string>, parents: set<string>, e: Entry) {
    e.path in accepted || (e.kind.Directory? && e.path in parents)
  }

  function Kept(entries: seq<Entry>, accepted: set<string>, parents: set<string>): seq<Entry> {
    if entries == [] then []
    else
      var last := entries[|entries| - 1];
      Kept(entries[..|entries| - 1], accepted, parents) + (if Keeps(accepted, parents, last) then [last] else [])
  }

  predicate PathLess(a: Entry, b: Entry) {
    Lex.Less(a.path, b.path)
  }

  // What a stable sort by path returns.
  function SortedByPath(entries: seq<Entry>): seq<Entry> {
    Sorting.Sort(PathLess, entries)
  }

  function AcceptedPaths(paths: seq<string>): set<string> {
    set v | v in paths && Normalize(v).Ok? :: Normalize(v).value.0
  }

  ghost function ParentPaths(paths: seq<string>): (r: set<string>)
    ensures forall p :: p in r <==> IsParent(paths, p)
  {
    set v, k | v in paths && Normalize(v).Ok? && 0 < k < |Split(Normalize(v).value.0, '/')| ::
      Ancestor(Normalize(v).value.0, k)
  }

  ghost function Selected(entries: seq<Entry>, paths: seq<string>): seq<Entry> {
    SortedByPath(Kept(entries, AcceptedPaths(paths), ParentPaths(paths)))
  }

  method Select(m: Manifest, paths: seq<string>) returns (r: Manifest)
    ensures r == Manifest(m.version, m.rootName, Selected(m.entries, paths))
  {
    var chosen: set<string>, above: set<string> := {}, {};
    hide Normalize, Split;
    for i := 0 to |paths|
      invariant forall p :: p in chosen <==> IsAccepted(paths[..i], p)
      invariant forall p :: p in above <==> IsParent(paths[..i], p)
    {
      var normalized := NormalizePath(paths[i]);
      assert paths[..i + 1] == paths[..i] + [paths[i]];
      NextPath(paths[..i], paths[i]);
      if normalized.Err? {
        continue;
      }
      var path := normalized.value.0;
      chosen := chosen + {path};
      NormalizedIsClean(paths[i]);
      var dirs := Above(path);
      above := above + dirs;
    }
    assert paths[..|paths|] == paths;
    assert chosen == AcceptedPaths(paths) && above == ParentPaths(paths);
    var entries: seq<Entry> := [];
    for i := 0 to |m.entries|
      invariant entries == Kept(m.entries[..i], chosen, above)
    {
      assert m.entries[..i + 1][..i] == m.entries[..i];
      if m.entries[i].path in chosen || (m.entries[i].kind.Directory? && m.entries[i].path in above) {
        entries := entries + [m.entries[i]];
      }
    }
    assert m.entries[..|m.entries|] == m.entries;
    return Manifest(m.version, m.rootName, SortedByPath(entries));
  }

  // Walks up from the path to its first segment.
  method Above(path: string) returns (dirs: set<string>)
    requires forall x :: x in Split(path, '/') ==> Name(x)
    ensures forall d :: d in dirs <==> IsAbove(d, path)
  {
    dirs := {};
    var parent := Dir(path);
    ghost var k := |Split(path, '/')| - 1;
    AncestorIsNoDot(path, k);
    while parent != "."
      invariant 0 <= k < |Split(path, '/')|
      invariant parent == (if k == 0 then "." else Ancestor(path, k)) && (k > 0 ==> parent != ".")
      invariant forall d :: d in dirs <==> exists j :: k < j < |Split(path, '/')| && Ancestor(path, j) == d
      decreases k
    {
      dirs := dirs + {parent};
      DirOfAncestor(path, k);
      parent := Dir(parent);
      k := k - 1;
      AncestorIsNoDot(path, k);
    }
  }

  lemma AncestorIsNoDot(path: string, k: nat)
    requires k < |Split(path, '/')| && forall x :: x in Split(path, '/') ==> Name(x)
    ensures k > 0 ==> Ancestor(path, k) != "."
  {
    if k > 0 {
      var segments := Split(path, '/')[..k];
      SplitUndoesJoin(segments, '/');
      SplitOne(".", '/');
      assert Name(segments[0]);
    }
  }

  lemma DirOfAncestor(path: string, k: nat)
    requires 0 < k < |Split(path, '/')|
    ensures Dir(Ancestor(path, k)) == if k == 1 then "." else Ancestor(path, k - 1)
  {
    var segments := Split(path, '/')[..k];
    SplitUndoesJoin(segments, '/');
    assert segments[..k - 1] == Split(path, '/')[..k - 1];
  }

  lemma NextPath(paths: seq<string>, path: string)
    ensures forall p :: IsAccepted(paths + [path], p) <==>
      IsAccepted(paths, p) || (Normalize(path).Ok? && Normalize(path).value.0 == p)
    ensures forall p :: IsParent(paths + [path], p) <==>
      IsParent(paths, p) || (Normalize(path).Ok? && IsAbove(p, Normalize(path).value.0))
  {
    hide Normalize, IsAbove;
    forall p
      ensures IsAccepted(paths + [path], p) <==>
        IsAccepted(paths, p) || (Normalize(path).Ok? && Normalize(path).value.0 == p)
    {
      assert forall v :: v in paths + [path] <==> v in paths || v == path;
    }
    forall p
      ensures IsParent(paths + [path], p) <==>
        IsParent(paths, p) || (Normalize(path).Ok? && IsAbove(p, Normalize(path).value.0))
    {
      assert forall v :: v in paths + [path] <==> v in paths || v == path;
    }
  }

  // ---- what is selected ----

  lemma {:induction false} KeptMembers(entries: seq<Entry>, accepted: set<string>, parents: set<string>, e: Entry)
    ensures multiset(Kept(entries, accepted, parents))[e]
         == if Keeps(accepted, parents, e) then multiset(entries)[e] else 0
  {
    if entries != [] {
      var n := |entries| - 1;
      KeptMembers(entries[..n], accepted, parents, e);
      assert entries == entries[..n] + [entries[n]];
    }
  }

  // Each entry is selected as often as it is listed, or not at all; with a path go all the listed
  // directories above it.
  lemma SelectionIsClosed(entries: seq<Entry>, paths: seq<string>, e: Entry)
    ensures multiset(Selected(entries, paths))[e] ==
      (if IsAccepted(paths, e.path) || (e.kind.Directory? && IsParent(paths, e.path)) then multiset(entries)[e] else 0)
  {
    Sorting.SortMembers(PathLess, Kept(entries, AcceptedPaths(paths), ParentPaths(paths)));
    KeptMembers(entries, AcceptedPaths(paths), ParentPaths(paths), e);
  }

  lemma {:induction false} PrefixIsLess(a: string, b: string)
    requires a != b && |a| <= |b| && b[..|a|] == a
    ensures Lex.Less(a, b)
  {
    if a != "" {
      assert b[1..][..|a| - 1] == a[1..];
      assert b == [b[0]] + b[1..] && a == [a[0]] + a[1..];
      PrefixIsLess(a[1..], b[1..]);
    }
  }

  lemma {:induction false} JoinPrefix(segments: seq<string>, k: nat)
    requires 0 < k < |segments|
    ensures var a, b := Join(segments[..k], '/'), Join(segments, '/');
      |a| < |b| && b[..|a|] == a
  {
    if k == 1 {
      assert segments[..1] == [segments[0]];
    } else {
      JoinPrefix(segments[1..], k - 1);
      assert segments[..k][1..] == segments[1..][..k - 1];
      var head := segments[0] + ['/'];
      var a, b := Join(segments[1..][..k - 1], '/'), Join(segments[1..], '/');
      assert Join(segments[..k], '/') == head + a && Join(segments, '/') == head + b;
      assert (head + b)[..|head + a|] == head + b[..|a|];
    }
  }

  // A directory is listed before everything below it.
  lemma DirectoriesComeFirst(entries: seq<Entry>, i: nat, j: nat)
    requires i < |SortedByPath(entries)| && j < |SortedByPath(entries)|
    requires IsAbove(SortedByPath(entries)[i].path, SortedByPath(entries)[j].path)
    ensures i < j
  {
    var sorted := SortedByPath(entries);
    var dir, path := sorted[i].path, sorted[j].path;
    var k :| 0 < k < |Split(path, '/')| && Ancestor(path, k) == dir;
    JoinPrefix(Split(path, '/'), k);
    JoinUndoesSplit(path, '/');
    PrefixIsLess(dir, path);
    Lex.LessIsTotal();
    assert Sorting.WeakOrder(PathLess);
    Sorting.SortInOrder(PathLess, entries);
    assert !PathLess(sorted[j], sorted[i]) || i < j;
  }
}
