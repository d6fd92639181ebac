/** The filesystem walk and the search for the nearest .plexmatch (discovery/walker.py). Paths are absolute
    and given by their components below the filesystem root, so [] is the root itself. */
module Walker {
  import opened Prelude

  type Dir = seq<string>

  /** pathlib's parent: the root is its own. */
  function Parent(p: Dir): Dir {
    if p == [] then [] else p[..|p| - 1]
  }

  /** pathlib's parents: from the directory holding p up to the filesystem root. */
  function Parents(p: Dir): (r: seq<Dir>)
    ensures |r| == |p|
    ensures forall i | 0 <= i < |p| :: r[i] == p[..|p| - 1 - i]
  {
    seq(|p|, i requires 0 <= i < |p| => p[..|p| - 1 - i])
  }

  /** What both searches loop over: the parent comes twice. */
  function Upwards(p: Dir): seq<Dir> {
    [Parent(p)] + Parents(p)
  }

  // ----- the two searches, as loops over a list of directories -----

  /** The scan's search leaves out the root's own parent, and nothing else. */
  predicate LeftOut(root: Dir, d: Dir) {
    d == Parent(root) && d != root
  }

  function FirstMarked(marks: set<Dir>, root: Dir, dirs: seq<Dir>): Option<Dir> {
    if dirs == [] then None
    else if !LeftOut(root, dirs[0]) && dirs[0] in marks then Some(dirs[0])
    else FirstMarked(marks, root, dirs[1..])
  }

  /** find_nearest_plexmatch: stops after looking in stopAt. */
  function FirstUntil(marks: set<Dir>, stopAt: Option<Dir>, dirs: seq<Dir>): Option<Dir> {
    if dirs == [] then None
    else if dirs[0] in marks then Some(dirs[0])
    else if stopAt == Some(dirs[0]) then None
    else FirstUntil(marks, stopAt, dirs[1..])
  }

  /** The directories whose .plexmatch is there, as the file system answers throughout one walk. */
  class Memo {
    const root: Dir
    const marks: set<Dir>
    var cache: map<Dir, Option<Dir>>

    /** Every remembered answer is the one the file system would give. */
    ghost predicate Valid()
      reads this
    {
      forall d <- cache :: cache[d] == if d in marks then Some(d) else None
    }

    constructor (library: Dir, marked: set<Dir>)
      ensures Valid() && root == library && marks == marked && cache == map[]
    {
      root, marks, cache := library, marked, map[];
    }

    /** nearest_plexmatch: whatever was asked before, the answer is the uncached search's. */
    method Nearest(path: Dir) returns (found: Option<Dir>)
      requires Valid()
      modifies this`cache
      ensures Valid()
      ensures found == FirstMarked(marks, root, Upwards(path))
      ensures forall d <- old(cache) :: d in cache
    {
      var dirs := Upwards(path);
      for i := 0 to |dirs|
        invariant Valid()
        invariant FirstMarked(marks, root, dirs) == FirstMarked(marks, root, dirs[i..])
        invariant forall d <- old(cache) :: d in cache
      {
        var parent := dirs[i];
        assert dirs[i..][0] == parent && dirs[i..][1..] == dirs[i + 1..];
        if parent == Parent(root) && parent != root {
          continue;
        }
        if parent in cache {
          if cache[parent].Some? {
            return cache[parent];
          }
          continue;
        }
        if parent in marks {
          cache := cache[parent := Some(parent)];
          return Some(parent);
        }
        cache := cache[parent := None];
      }
      return None;
    }
  }

  /** find_nearest_plexmatch. */
  method FindNearest(marks: set<Dir>, path: Dir, stopAt: Option<Dir>) returns (found: Option<Dir>)
    ensures found == FirstUntil(marks, stopAt, Upwards(path))
  {
    var dirs := Upwards(path);
    for i := 0 to |dirs|
      invariant FirstUntil(marks, stopAt, dirs) == FirstUntil(marks, stopAt, dirs[i..])
    {
      assert dirs[i..][0] == dirs[i] && dirs[i..][1..] == dirs[i + 1..];
      if dirs[i] in marks {
        return Some(dirs[i]);
      }
      if stopAt == Some(dirs[i]) {
        break;
      }
    }
    return None;
  }

  // ----- where each search looks -----

  predicate Within(root: Dir, path: Dir) {
    |root| < |path| && path[..|root|] == root
  }

  /** The deepest marked prefix of path with length from lo up to hi. */
  predicate DeepestMarked(marks: set<Dir>, path: Dir, lo: nat, hi: nat, found: Option<Dir>)
    requires hi <= |path|
  {
    match found
    case Some(d) =>
      && lo <= |d| <= hi && d == path[..|d|] && d in marks
      && forall k | |d| < k <= hi :: path[..k] !in marks
    case None => forall k | lo <= k <= hi :: path[..k] !in marks
  }

  lemma {:induction false} UntilLooksFrom(marks: set<Dir>, root: Dir, path: Dir, i: nat)
    requires Within(root, path) && i <= |path| - 1 - |root|
    ensures DeepestMarked(marks, path, |root|, |path| - 1 - i, FirstUntil(marks, Some(root), Parents(path)[i..]))
    decreases |path| - i
  {
    var dirs := Parents(path)[i..];
    var here := path[..|path| - 1 - i];
    assert dirs[0] == here && dirs[1..] == Parents(path)[i + 1..];
    if here !in marks && here != root {
      UntilLooksFrom(marks, root, path, i + 1);
    }
  }

  /** Bounded by the library root, the search finds the nearest mark at or below the root, and only that. */
  lemma UntilIsNearestBelowRoot(marks: set<Dir>, root: Dir, path: Dir)
    requires Within(root, path)
    ensures DeepestMarked(marks, path, |root|, |path| - 1, FirstUntil(marks, Some(root), Upwards(path)))
  {
    UntilLooksFrom(marks, root, path, 0);
    var dirs := Upwards(path);
    assert Parents(path)[0..] == Parents(path) == dirs[1..];
    assert Parents(path)[0] == dirs[0] == path[..|path| - 1];
    assert dirs[1..][0] == dirs[0];
  }

  /** No mark strictly above the root's parent. */
  predicate NothingAbove(marks: set<Dir>, root: Dir) {
    forall k | 0 <= k < |root| - 1 :: root[..k] !in marks
  }

  lemma {:induction false} MarkedLooksFrom(marks: set<Dir>, root: Dir, path: Dir, i: nat)
    requires Within(root, path) && i <= |path|
    ensures var found := FirstMarked(marks, root, Parents(path)[i..]);
            && (found.Some? ==> found.value in marks && |found.value| < |path| - i
                                && found.value == path[..|found.value|] && !LeftOut(root, found.value))
            && (forall k | 0 <= k < |path| - i && path[..k] in marks && !LeftOut(root, path[..k]) ::
                  found.Some? && k <= |found.value|)
    decreases |path| - i
  {
    var dirs := Parents(path)[i..];
    if i < |path| {
      var here := path[..|path| - 1 - i];
      assert dirs[0] == here && dirs[1..] == Parents(path)[i + 1..];
      MarkedLooksFrom(marks, root, path, i + 1);
    }
  }

  lemma MarkedIsNearest(marks: set<Dir>, root: Dir, path: Dir)
    requires Within(root, path)
    ensures var found := FirstMarked(marks, root, Upwards(path));
            && (found.Some? ==> found.value in marks && |found.value| < |path|
                                && found.value == path[..|found.value|] && !LeftOut(root, found.value))
            && (forall k | 0 <= k < |path| && path[..k] in marks && !LeftOut(root, path[..k]) ::
                  found.Some? && k <= |found.value|)
  {
    MarkedLooksFrom(marks, root, path, 0);
    var dirs := Upwards(path);
    assert Parents(path)[0..] == Parents(path) == dirs[1..];
    assert Parents(path)[0] == dirs[0] == path[..|path| - 1];
    assert dirs[1..][0] == dirs[0];
  }

  /** The scan's search is the search bounded by the root exactly when there is a mark between the file and
      the root, or none strictly above the root's parent. */
  lemma SearchesAgreeExactlyWhen(marks: set<Dir>, root: Dir, path: Dir)
    requires Within(root, path)
    ensures FirstMarked(marks, root, Upwards(path)) == FirstUntil(marks, Some(root), Upwards(path))
            <==> (exists k :: |root| <= k < |path| && path[..k] in marks) || NothingAbove(marks, root)
  {
    MarkedIsNearest(marks, root, path);
    UntilIsNearestBelowRoot(marks, root, path);
    forall k | 0 <= k <= |root| ensures path[..k] == root[..k] {
      assert path[..k] == path[..|root|][..k];
    }
    forall k | 0 <= k < |path| ensures LeftOut(root, path[..k]) <==> k + 1 == |root| {
      assert LeftOut(root, path[..k]) ==> k == |Parent(root)|;
      assert k + 1 == |root| ==> path[..k] == Parent(root);
    }
    var scan, bounded := FirstMarked(marks, root, Upwards(path)), FirstUntil(marks, Some(root), Upwards(path));
    if bounded.Some? {
      assert path[..|bounded.value|] in marks;
    } else if scan.Some? {
      assert |scan.value| < |root| - 1 by {
        assert path[..|scan.value|] in marks;
      }
      assert root[..|scan.value|] in marks;
    }
  }

  /** Two levels above the library, one stray .plexmatch answers for every file of the library without its
      own, although the bounded search does not see it. */
  lemma StrayMarkHijacksScans(grand: Dir, parent: string, library: string, below: Dir)
    requires below != []
    ensures var root := grand + [parent] + [library];
            && FirstMarked({grand}, root, Upwards(root + below)) == Some(grand)
            && FirstUntil({grand}, Some(root), Upwards(root + below)) == None
  {
    var root := grand + [parent] + [library];
    var path := root + below;
    assert path[..|root|] == root;
    MarkedIsNearest({grand}, root, path);
    UntilIsNearestBelowRoot({grand}, root, path);
    assert path[..|grand|] == grand;
    assert !LeftOut(root, grand) by {
      assert |Parent(root)| == |grand| + 1;
    }
    assert path[..|grand|] in {grand};
  }

  // ----- the walk -----

  /** What the file system says of one path: whether it is a file, and what its suffix makes of it. */
  datatype Sort = VideoFile | SubtitleFile | OtherFile | NotAFile

  datatype Listed = Listed(path: Dir, sort: Sort)

  datatype FoundFile = FoundFile(path: Dir, parent: Dir, plexmatch: Option<Dir>)

  datatype Root = Gone | Single(sort: Sort) | Directory(entries: seq<Listed>)

  /** is_hidden: some component starts with a dot, other than "." and "..". */
  predicate Hidden(path: Dir) {
    exists part <- path :: part != "" && part[0] == '.' && part != "." && part != ".."
  }

  predicate Yielded(e: Listed) {
    e.sort == VideoFile && !Hidden(e.path)
  }

  function WalkOf(marks: set<Dir>, root: Dir, entries: seq<Listed>): seq<FoundFile> {
    if entries == [] then []
    else
      var e := entries[|entries| - 1];
      WalkOf(marks, root, entries[..|entries| - 1])
      + if Yielded(e) then [FoundFile(e.path, Parent(e.path), FirstMarked(marks, root, Upwards(e.path)))] else []
  }

  /** A library path that is itself a file is yielded hidden or not, and searches without bound. */
  function FoundBy(marks: set<Dir>, root: Dir, at: Root): seq<FoundFile> {
    match at
    case Gone => []
    case Single(sort) =>
      if sort == VideoFile then [FoundFile(root, Parent(root), FirstUntil(marks, None, Upwards(root)))] else []
    case Directory(entries) => WalkOf(marks, root, entries)
  }

  /** iter_video_files. */
  method IterVideoFiles(marks: set<Dir>, root: Dir, at: Root) returns (found: seq<FoundFile>)
    ensures found == FoundBy(marks, root, at)
  {
    if at.Gone? {
      return [];
    }
    if at.Single? {
      if at.sort == VideoFile {
        var nearest := FindNearest(marks, root, None);
        return [FoundFile(root, Parent(root), nearest)];
      }
      return [];
    }
    var memo := new Memo(root, marks);
    found := [];
    for i := 0 to |at.entries|
      invariant memo.Valid() && fresh(memo) && memo.root == root && memo.marks == marks
      invariant found == WalkOf(marks, root, at.entries[..i])
    {
      var entry := at.entries[i];
      assert at.entries[..i + 1][..i] == at.entries[..i];
      if entry.sort == NotAFile || Hidden(entry.path) {
        continue;
      }
      if entry.sort == VideoFile {
        var nearest := memo.Nearest(entry.path);
        found := found + [FoundFile(entry.path, Parent(entry.path), nearest)];
      }
    }
    assert at.entries[..|at.entries|] == at.entries;
  }

  /** The paths found are exactly the visible video files listed. */
  lemma {:induction false} WalkFindsExactly(marks: set<Dir>, root: Dir, entries: seq<Listed>, path: Dir)
    ensures (exists f <- WalkOf(marks, root, entries) :: f.path == path)
            <==> exists e <- entries :: e.path == path && Yielded(e)
  {
    if entries != [] {
      var front, last := entries[..|entries| - 1], entries[|entries| - 1];
      WalkFindsExactly(marks, root, front, path);
      assert forall e :: e in entries <==> e in front || e == last;
      var more := WalkOf(marks, root, entries)[|WalkOf(marks, root, front)|..];
      assert WalkOf(marks, root, entries) == WalkOf(marks, root, front) + more;
      assert more == if Yielded(last) then
        [FoundFile(last.path, Parent(last.path), FirstMarked(marks, root, Upwards(last.path)))] else [];
      assert forall f :: f in WalkOf(marks, root, entries) <==> f in WalkOf(marks, root, front) || f in more;
    }
  }

  function VisibleAt(entries: seq<Listed>): seq<nat> {
    if entries == [] then []
    else
      var n := |entries| - 1;
      VisibleAt(entries[..n]) + if Yielded(entries[n]) then [n] else []
  }

  /** What one found file says of itself: its own parent, and of the marks above it other than the root's
      parent the deepest. */
  ghost predicate TellsOf(f: FoundFile, marks: set<Dir>, root: Dir, path: Dir) {
    && f.path == path && path != [] && f.parent == path[..|path| - 1]
    && match f.plexmatch
       case None => forall k | 0 <= k < |path| && path[..k] in marks :: root != [] && path[..k] == root[..|root| - 1]
       case Some(d) =>
         && d in marks && |d| < |path| && d == path[..|d|] && (root != [] ==> d != root[..|root| - 1])
         && forall k | |d| < k < |path| && path[..k] in marks :: root != [] && path[..k] == root[..|root| - 1]
  }

  lemma FoundTells(marks: set<Dir>, root: Dir, path: Dir)
    requires Within(root, path)
    ensures TellsOf(FoundFile(path, Parent(path), FirstMarked(marks, root, Upwards(path))), marks, root, path)
  {
    MarkedIsNearest(marks, root, path);
    assert forall d: Dir :: LeftOut(root, d) <==> root != [] && d == root[..|root| - 1];
  }

  lemma {:induction false} VisibleExactly(entries: seq<Listed>, at: seq<nat>)
    requires at == VisibleAt(entries)
    ensures forall i, j | 0 <= i < j < |at| :: at[i] < at[j]
    ensures forall k :: k in at
                        <==> 0 <= k < |entries| && entries[k].sort == VideoFile
                             && forall part <- entries[k].path | part != "" && part[0] == '.' :: part in {".", ".."}
  {
    if entries != [] {
      var front := VisibleAt(entries[..|entries| - 1]);
      VisibleExactly(entries[..|entries| - 1], front);
      assert forall i | 0 <= i < |front| :: front[i] in front;
    }
  }

  lemma {:induction false} EachFoundTells(marks: set<Dir>, root: Dir, entries: seq<Listed>, at: seq<nat>,
                                          walk: seq<FoundFile>)
    requires forall e <- entries :: Within(root, e.path)
    requires at == VisibleAt(entries) && walk == WalkOf(marks, root, entries)
    ensures |at| == |walk|
    ensures forall i | 0 <= i < |at| :: at[i] < |entries| && TellsOf(walk[i], marks, root, entries[at[i]].path)
  {
    if entries != [] {
      var n := |entries| - 1;
      EachFoundTells(marks, root, entries[..n], VisibleAt(entries[..n]), WalkOf(marks, root, entries[..n]));
      FoundTells(marks, root, entries[n].path);
    }
  }

  /** The walk yields the visible video files in the order listed, each once and with its own mark: `at`
      are the places they are listed at. */
  lemma WalkTells(marks: set<Dir>, root: Dir, entries: seq<Listed>) returns (at: seq<nat>)
    requires forall e <- entries :: Within(root, e.path)
    ensures |at| == |WalkOf(marks, root, entries)|
    ensures forall i, j | 0 <= i < j < |at| :: at[i] < at[j]
    ensures forall k :: k in at
                        <==> 0 <= k < |entries| && entries[k].sort == VideoFile
                             && forall part <- entries[k].path | part != "" && part[0] == '.' :: part in {".", ".."}
    ensures forall i | 0 <= i < |at| ::
              at[i] < |entries| && TellsOf(WalkOf(marks, root, entries)[i], marks, root, entries[at[i]].path)
  {
    at := VisibleAt(entries);
    VisibleExactly(entries, at);
    EachFoundTells(marks, root, entries, at, WalkOf(marks, root, entries));
  }

  lemma {:induction false} UnboundedLooksFrom(marks: set<Dir>, path: Dir, i: nat)
    requires i < |path|
    ensures DeepestMarked(marks, path, 0, |path| - 1 - i, FirstUntil(marks, None, Parents(path)[i..]))
    decreases |path| - i
  {
    var dirs := Parents(path)[i..];
    assert dirs[0] == path[..|path| - 1 - i] && dirs[1..] == Parents(path)[i + 1..];
    if i + 1 < |path| {
      UnboundedLooksFrom(marks, path, i + 1);
    }
  }

  /** A library path that is itself a video file is all there is to find, hidden or not, and every mark above
      it counts. */
  lemma LoneFileTells(marks: set<Dir>, root: Dir, sort: Sort)
    requires root != []
    ensures sort != VideoFile ==> FoundBy(marks, root, Single(sort)) == []
    ensures sort == VideoFile ==>
              && |FoundBy(marks, root, Single(sort))| == 1
              && var f := FoundBy(marks, root, Single(sort))[0];
                 && f.path == root && f.parent == root[..|root| - 1]
                 && DeepestMarked(marks, root, 0, |root| - 1, f.plexmatch)
  {
    UnboundedLooksFrom(marks, root, 0);
    var dirs := Upwards(root);
    assert Parents(root)[0..] == Parents(root) == dirs[1..];
    assert Parents(root)[0] == dirs[0] && dirs[1..][0] == dirs[0];
  }

  /** The hidden test reads every component, so a dot directory anywhere above a library hides all of it. */
  lemma {:induction false} HiddenAncestorHidesAll(marks: set<Dir>, root: Dir, entries: seq<Listed>)
    requires Hidden(root) && forall e <- entries :: Within(root, e.path)
    ensures WalkOf(marks, root, entries) == []
  {
    if entries != [] {
      var front, last := entries[..|entries| - 1], entries[|entries| - 1];
      HiddenAncestorHidesAll(marks, root, front);
      assert Hidden(last.path) by {
        var part :| part in root && part != "" && part[0] == '.' && part != "." && part != "..";
        assert last in entries && part in last.path[..|root|];
      }
    }
  }
}
