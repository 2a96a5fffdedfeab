/** Draining the object files of directories in chunks: a chunk may end in the middle of a directory,
    whose partial result is carried over to the next one. */
module DemangleTree {
  import opened Options

  type File = string  // paths
  type Dir = string
  type Symbol = string

  datatype Totals = Totals(crashed: seq<File>, errors: set<Symbol>, nsymbols: nat, nfiles: nat)

  const EMPTY := Totals([], {}, 0, 0)

  function Add(a: Totals, b: Totals): Totals {
    Totals(a.crashed + b.crashed, a.errors + b.errors, a.nsymbols + b.nsymbols, a.nfiles + b.nfiles)
  }

  datatype Directory = Directory(name: Dir, files: seq<File>)

  // ----- paths -----

  predicate AllSlashes(p: string) { forall i :: 0 <= i < |p| ==> p[i] == '/' }

  /** The position after the last slash, or 0. */
  function AfterSlash(p: string): (n: nat)
    ensures n <= |p|
  {
    if p == "" || p[|p| - 1] == '/' then |p| else AfterSlash(p[..|p| - 1])
  }

  function Stripped(p: string): string {
    if p == "" || p[|p| - 1] != '/' then p else Stripped(p[..|p| - 1])
  }

  /** `os.path.dirname` of a path. */
  function DirName(p: File): Dir {
    var head := p[..AfterSlash(p)];
    if AllSlashes(head) then head else Stripped(head)
  }

  /** What `os.path.normpath` makes of a directory: never empty, and without a slash at its end unless
      it is the root. */
  predicate Normal(root: Dir) { root != "" && (root[|root| - 1] == '/' ==> AllSlashes(root)) }

  /** The name of a file in a directory. */
  predicate Plain(name: string) { name != "" && '/' !in name }

  /** The normalized path of a file in a directory. */
  function FullPath(root: Dir, name: string): File
    requires root != ""
  {
    if root == "." then name
    else if root[|root| - 1] == '/' then root + name
    else root + "/" + name
  }

  /** What `os.path.dirname` makes of the files of a directory. */
  function HomeOf(root: Dir): Dir { if root == "." then "" else root }

  lemma {:induction false} AfterLastSlash(head: string, name: string)
    requires '/' !in name && (head == "" || head[|head| - 1] == '/')
    ensures AfterSlash(head + name) == |head|
  {
    if name == "" {
      assert head + name == head;
    } else {
      assert (head + name)[..|head + name| - 1] == head + name[..|name| - 1];
      AfterLastSlash(head, name[..|name| - 1]);
    }
  }

  lemma {:induction false} HomeOfFile(root: Dir, name: string)
    requires Normal(root) && Plain(name)
    ensures DirName(FullPath(root, name)) == HomeOf(root)
  {
    var head := if root == "." then "" else if root[|root| - 1] == '/' then root else root + "/";
    assert FullPath(root, name) == head + name;
    AfterLastSlash(head, name);
    assert (head + name)[..|head|] == head;
    if root != "." && root[|root| - 1] != '/' {
      assert head[0] == root[0] && head[|root|] == '/' && head[..|head| - 1] == root;
      assert root[|root| - 1] == head[|root| - 1];
      assert Stripped(head) == Stripped(root) == root;
    }
  }

  /** `os.path.basename` of a path. */
  function BaseName(p: File): string { p[AfterSlash(p)..] }

  /** The name of a file is the last part of its path, after at most one slash. */
  lemma {:induction false} NameOfFile(root: Dir, name: string)
    requires Normal(root) && Plain(name)
    ensures BaseName(FullPath(root, name)) == name
    ensures |FullPath(root, name)| <= |root| + 1 + |name|
  {
    var head := if root == "." then "" else if root[|root| - 1] == '/' then root else root + "/";
    assert FullPath(root, name) == head + name;
    AfterLastSlash(head, name);
  }

  /** Different files have different paths. */
  lemma {:induction false} PathsAreDistinct(root: Dir, name: string, root': Dir, name': string)
    requires Normal(root) && Plain(name) && Normal(root') && Plain(name')
    ensures FullPath(root, name) == FullPath(root', name') <==> root == root' && name == name'
  {
    if FullPath(root, name) == FullPath(root', name') {
      HomeOfFile(root, name);
      HomeOfFile(root', name');
      NameOfFile(root, name);
      NameOfFile(root', name');
    }
  }

  /** The directory of a file is the one that was walked, unless that is the current directory. */
  lemma HomeIffNotCurrent(root: Dir, name: string)
    requires Normal(root) && Plain(name)
    ensures DirName(FullPath(root, name)) == root <==> root != "."
  {
    HomeOfFile(root, name);
  }

  lemma CurrentDirectoryIsLost()
    ensures FullPath(".", "a.o") == "a.o" && DirName("a.o") == "" != "."
  {
    assert "a.o"[..2] == "a." && "a."[..1] == "a" && "a"[..0] == "";
  }

  /** What walking the tree yields: a directory, and the names of its files. */
  datatype Listing = Listing(root: Dir, names: seq<string>)

  /** Every path has a directory in it. */
  predicate NoneLost(files: seq<File>) { forall j :: 0 <= j < |files| ==> DirName(files[j]) != "" }

  /** No object file is in the current directory itself. */
  predicate NoneCurrent(dirs: seq<Directory>) { forall i :: 0 <= i < |dirs| ==> dirs[i].name != "." }

  /** Which files are object files, by their extension, and what processing one yields; files are counted
      separately. */
  datatype World = World(isObject: string -> bool, outcome: File -> Totals)
  {
    ghost predicate Consistent() { forall f :: outcome(f).nfiles == 0 }

    /** Directories with object files, each of them once. */
    ghost predicate Walkable(dirs: seq<Directory>) {
      && (forall i :: 0 <= i < |dirs| ==> dirs[i].files != [] && dirs[i].name != "")
      && (forall i, j :: 0 <= i < |dirs| && 0 <= j < |dirs[i].files| ==>
          DirName(dirs[i].files[j]) == HomeOf(dirs[i].name))
      && (forall i, j :: 0 <= i < j < |dirs| ==> dirs[i].name != dirs[j].name)
    }

    /** The paths of the object files of a directory. */
    function Objects(root: Dir, names: seq<string>): (files: seq<File>)
      requires root != ""
    {
      if names == [] then []
      else
        Objects(root, names[..|names| - 1])
        + if isObject(names[|names| - 1]) then [FullPath(root, names[|names| - 1])] else []
    }

    /** A walk visits each directory once. */
    ghost predicate IsWalk(walk: seq<Listing>) {
      && (forall i :: 0 <= i < |walk| ==> Normal(walk[i].root))
      && (forall i, j :: 0 <= i < |walk| && 0 <= j < |walk[i].names| ==> Plain(walk[i].names[j]))
      && (forall i, j :: 0 <= i < j < |walk| ==> walk[i].root != walk[j].root)
    }

    /** The directories of a walk, with their object files. */
    function Directories(walk: seq<Listing>): (dirs: seq<Directory>)
      requires forall i :: 0 <= i < |walk| ==> walk[i].root != ""
      ensures |dirs| == |walk|
      ensures forall i :: 0 <= i < |walk| ==> dirs[i] == Directory(walk[i].root, Objects(walk[i].root, walk[i].names))
    {
      seq(|walk|, i requires 0 <= i < |walk| => Directory(walk[i].root, Objects(walk[i].root, walk[i].names)))
    }

    // ----- the unchunked sums -----

    function Accumulate(r: Totals, files: seq<File>): Totals {
      if files == [] then r else Add(Accumulate(r, files[..|files| - 1]), outcome(files[|files| - 1]))
    }

    /** What processing files adds to r. */
    function Process(r: Totals, files: seq<File>): Totals {
      Accumulate(r.(nfiles := r.nfiles + |files|), files)
    }

    function Rows(dirs: seq<Directory>): seq<(Dir, Totals)> {
      if dirs == [] then []
      else Rows(dirs[..|dirs| - 1]) + [(dirs[|dirs| - 1].name, Process(EMPTY, dirs[|dirs| - 1].files))]
    }

    /** The files that are in a directory. */
    function Of(files: seq<File>, d: Dir): seq<File> {
      if files == [] then []
      else Of(files[..|files| - 1], d) + if DirName(files[|files| - 1]) == d then [files[|files| - 1]] else []
    }
  }

  function AllFiles(dirs: seq<Directory>): seq<File> {
    if dirs == [] then [] else dirs[0].files + AllFiles(dirs[1..])
  }

  lemma {:induction false} AllFilesAppend(a: seq<Directory>, b: seq<Directory>)
    ensures AllFiles(a + b) == AllFiles(a) + AllFiles(b)
  {
    if a == [] {
      assert a + b == b;
    } else {
      assert (a + b)[1..] == a[1..] + b;
      AllFilesAppend(a[1..], b);
    }
  }

  lemma AllFilesOne(d: Directory)
    ensures AllFiles([d]) == d.files
  {
    assert [d][1..] == [];
  }

  lemma {:induction false} AccumulateAppend(w: World, r: Totals, a: seq<File>, b: seq<File>)
    ensures w.Accumulate(r, a + b) == w.Accumulate(w.Accumulate(r, a), b)
  {
    if b == [] {
      assert a + b == a;
    } else {
      assert (a + b)[..|a + b| - 1] == a + b[..|b| - 1];
      AccumulateAppend(w, r, a, b[..|b| - 1]);
    }
  }

  /** Counting files commutes with adding results. */
  lemma {:induction false} AccumulateFiles(w: World, r: Totals, n: nat, files: seq<File>)
    requires w.Consistent()
    ensures w.Accumulate(r.(nfiles := n), files) == w.Accumulate(r, files).(nfiles := n)
    ensures w.Accumulate(r, files).nfiles == r.nfiles
  {
    if files != [] {
      AccumulateFiles(w, r, n, files[..|files| - 1]);
    }
  }

  lemma {:induction false} ProcessAppend(w: World, r: Totals, a: seq<File>, b: seq<File>)
    requires w.Consistent()
    ensures w.Process(r, a + b) == w.Process(w.Process(r, a), b)
  {
    AccumulateAppend(w, r.(nfiles := r.nfiles + |a| + |b|), a, b);
    AccumulateFiles(w, r.(nfiles := r.nfiles + |a|), r.nfiles + |a| + |b|, a);
  }

  function CrashedIn(w: World, files: seq<File>): seq<File> {
    if files == [] then [] else w.outcome(files[0]).crashed + CrashedIn(w, files[1..])
  }

  function SymbolsIn(w: World, files: seq<File>): nat {
    if files == [] then 0 else w.outcome(files[0]).nsymbols + SymbolsIn(w, files[1..])
  }

  /** Totals count every file and its symbols once, list what crashed in order, and collect all errors. */
  lemma {:induction false} TotalsOfFiles(w: World, files: seq<File>)
    requires w.Consistent()
    ensures var t := w.Process(EMPTY, files);
            && t.nfiles == |files| && t.nsymbols == SymbolsIn(w, files) && t.crashed == CrashedIn(w, files)
            && forall s :: s in t.errors <==> exists f :: f in files && s in w.outcome(f).errors
  {
    AccumulateFiles(w, EMPTY, |files|, files);
    AccumulatedTotals(w, EMPTY, files);
  }

  lemma {:induction false} AccumulatedTotals(w: World, r: Totals, files: seq<File>)
    ensures var t := w.Accumulate(r, files);
            && t.nsymbols == r.nsymbols + SymbolsIn(w, files) && t.crashed == r.crashed + CrashedIn(w, files)
            && forall s :: s in t.errors <==> s in r.errors || exists f :: f in files && s in w.outcome(f).errors
    decreases |files|
  {
    if files != [] {
      var first := Add(r, w.outcome(files[0]));
      AccumulateAppend(w, r, files[..1], files[1..]);
      assert files == files[..1] + files[1..] && files[..1] == [files[0]];
      assert [files[0]][..0] == [];
      assert w.Accumulate(r, [files[0]]) == first;
      AccumulatedTotals(w, first, files[1..]);
    }
  }

  /** Adding the totals of files is processing them. */
  lemma {:induction false} AddProcess(w: World, r: Totals, files: seq<File>)
    requires w.Consistent()
    ensures Add(r, w.Process(EMPTY, files)) == w.Process(r, files)
    decreases |files|
  {
    if files == [] {
      assert Add(r, EMPTY) == r;
    } else {
      var n := |files| - 1;
      AddProcess(w, r, files[..n]);
      ProcessLast(w, EMPTY, files);
      ProcessLast(w, r, files);
      AddAssociative(r, w.Process(EMPTY, files[..n]), w.outcome(files[n]).(nfiles := 1));
    }
  }

  lemma ProcessLast(w: World, r: Totals, files: seq<File>)
    requires w.Consistent() && files != []
    ensures var n := |files| - 1;
            w.Process(r, files) == Add(w.Process(r, files[..n]), w.outcome(files[n]).(nfiles := 1))
  {
    var n := |files| - 1;
    AccumulateFiles(w, r.(nfiles := r.nfiles + n), r.nfiles + |files|, files[..n]);
  }

  lemma AddAssociative(a: Totals, b: Totals, c: Totals)
    ensures Add(Add(a, b), c) == Add(a, Add(b, c))
  {
  }

  lemma {:induction false} RowsAppend(w: World, a: seq<Directory>, b: seq<Directory>)
    ensures w.Rows(a + b) == w.Rows(a) + w.Rows(b)
  {
    if b == [] {
      assert a + b == a;
    } else {
      assert (a + b)[..|a + b| - 1] == a + b[..|b| - 1];
      RowsAppend(w, a, b[..|b| - 1]);
    }
  }

  lemma {:induction false} OfAppend(w: World, a: seq<File>, b: seq<File>, d: Dir)
    ensures w.Of(a + b, d) == w.Of(a, d) + w.Of(b, d)
  {
    if b == [] {
      assert a + b == a;
    } else {
      assert (a + b)[..|a + b| - 1] == a + b[..|b| - 1];
      OfAppend(w, a, b[..|b| - 1], d);
    }
  }

  lemma {:induction false} OfSame(w: World, files: seq<File>, name: Dir, d: Dir)
    requires forall j :: 0 <= j < |files| ==> DirName(files[j]) == name
    ensures w.Of(files, d) == if name == d then files else []
  {
    if files != [] {
      OfSame(w, files[..|files| - 1], name, d);
    }
  }

  lemma OfNothing(w: World, d: Dir)
    ensures w.Of([], d) == []
  {
  }

  lemma {:induction false} OfNone(w: World, parts: seq<Directory>, d: Dir)
    requires w.Walkable(parts) && NoneCurrent(parts)
    requires forall i :: 0 <= i < |parts| ==> parts[i].name != d
    ensures w.Of(AllFiles(parts), d) == []
  {
    OfNothing(w, d);
    hide DirName, World.Of;
    if parts != [] {
      OfNone(w, parts[1..], d);
      OfSame(w, parts[0].files, parts[0].name, d);
      OfAppend(w, parts[0].files, AllFiles(parts[1..]), d);
    }
  }

  /** The files of a directory among those of all directories. */
  lemma {:induction false} OfParts(w: World, parts: seq<Directory>, i: nat)
    requires w.Walkable(parts) && NoneCurrent(parts) && i < |parts|
    ensures w.Of(AllFiles(parts), parts[i].name) == parts[i].files
  {
    hide DirName, World.Of;
    var d := parts[i].name;
    OfSame(w, parts[0].files, parts[0].name, d);
    if i == 0 {
      OfNone(w, parts[1..], d);
    } else {
      OfParts(w, parts[1..], i - 1);
      assert parts[0].name != d && parts[1..][i - 1] == parts[i];
    }
    OfAppend(w, parts[0].files, AllFiles(parts[1..]), d);
    assert parts[0].files + [] == parts[0].files;
  }

  // ----- chunks -----

  /** The directories from the first one that is not complete on, without its first m files. */
  function Rest(dirs: seq<Directory>, k: nat, m: nat): seq<Directory>
    requires k <= |dirs| && (m > 0 ==> k < |dirs| && m <= |dirs[k].files|)
  {
    if m == 0 then dirs[k..] else [Directory(dirs[k].name, dirs[k].files[m..])] + dirs[k + 1..]
  }

  /** The files that are processed then. */
  function Done(dirs: seq<Directory>, k: nat, m: nat): seq<File>
    requires k <= |dirs| && (m > 0 ==> k < |dirs| && m <= |dirs[k].files|)
  {
    AllFiles(dirs[..k]) + if m == 0 then [] else dirs[k].files[..m]
  }

  /** The totals of a directory before a part of it is processed. */
  function Carried(rincomplete: Option<Totals>, i: int): Totals {
    if i == 0 && rincomplete.Some? then rincomplete.value else EMPTY
  }

  /** Each directory has the sum of its result and the results of its files. */
  ghost predicate Summed(w: World, dirResults: map<Dir, Totals>, sums: map<Dir, Totals>, files: seq<File>) {
    forall d :: d in dirResults ==> d in sums && sums[d] == w.Accumulate(dirResults[d], w.Of(files, d))
  }

  lemma NothingSummed(w: World, dirResults: map<Dir, Totals>)
    ensures Summed(w, dirResults, dirResults, [])
  {
  }

  /** One more file, for one directory. */
  lemma {:induction false} OneAccumulated(w: World, r: Totals, files: seq<File>, f: File, d: Dir)
    ensures var sum := w.Accumulate(r, w.Of(files, d));
            w.Accumulate(r, w.Of(files + [f], d)) == if d == DirName(f) then Add(sum, w.outcome(f)) else sum
  {
    hide DirName;
    var before := w.Of(files, d);
    assert (files + [f])[..|files|] == files;
    assert w.Of(files + [f], d) == if d == DirName(f) then before + [f] else before;
    assert (before + [f])[..|before|] == before;
    assert w.Accumulate(r, before + [f]) == Add(w.Accumulate(r, before), w.outcome(f));
  }

  lemma {:induction false} OneSummed(w: World, dirResults: map<Dir, Totals>, sums: map<Dir, Totals>, files: seq<File>,
                                     f: File)
    requires Summed(w, dirResults, sums, files) && DirName(f) in sums
    ensures Summed(w, dirResults, sums[DirName(f) := Add(sums[DirName(f)], w.outcome(f))], files + [f])
  {
    hide DirName, World.Of, World.Accumulate;
    forall d | d in dirResults
      ensures d in sums && w.Accumulate(dirResults[d], w.Of(files + [f], d))
                           == if d == DirName(f) then Add(sums[d], w.outcome(f)) else sums[d]
    {
      OneAccumulated(w, dirResults[d], files, f, d);
    }
  }

  lemma NoneReported(w: World, r: Totals)
    ensures w.Rows([]) == [] && w.Process(r, AllFiles([])) == r
  {
  }

  lemma {:induction false} OneReported(w: World, dirs: seq<Directory>, i: nat, r: Totals)
    requires w.Consistent() && i < |dirs|
    ensures var own := w.Process(EMPTY, dirs[i].files);
            && w.Rows(dirs[..i + 1]) == w.Rows(dirs[..i]) + [(dirs[i].name, own)]
            && w.Process(r, AllFiles(dirs[..i + 1])) == Add(w.Process(r, AllFiles(dirs[..i])), own)
  {
    hide World.Process, AllFiles;
    assert dirs[..i + 1][..i] == dirs[..i] && dirs[..i + 1] == dirs[..i] + [dirs[i]];
    AllFilesAppend(dirs[..i], [dirs[i]]);
    AllFilesOne(dirs[i]);
    AddProcess(w, w.Process(r, AllFiles(dirs[..i])), dirs[i].files);
    ProcessAppend(w, r, AllFiles(dirs[..i]), dirs[i].files);
  }

  /** Only rows of directories before the current one, which is one of these, were printed. */
  ghost predicate FailedOn(w: World, dirs: seq<Directory>, rows: seq<(Dir, Totals)>) {
    exists k, n :: 0 <= n <= k < |dirs| && dirs[k].name == "." && rows == w.Rows(dirs[..n])
  }

  class MapContext {
    const w: World

    var rincomplete: Option<Totals>
    var rcumulative: Totals
    var pendingObjs: seq<Directory>
    var npending: nat
    var rows: seq<(Dir, Totals)>      // the rows that were printed

    ghost var seen: seq<Directory>    // all directories so far
    ghost var complete: nat           // how many of them are complete
    ghost var part: nat               // how many files of the next one are processed
    ghost var processed: seq<File>    // the files that were processed, in order

    /** All complete directories were reported, each with its own totals; none of those is the current one. */
    ghost predicate Reported()
      reads this
    {
      && w.Consistent() && w.Walkable(seen)
      && complete <= |seen| && (part > 0 ==> complete < |seen| && part < |seen[complete].files|)
      && NoneCurrent(seen[..if part == 0 then complete else complete + 1])
      && rows == w.Rows(seen[..complete])
      && rcumulative == w.Process(EMPTY, AllFiles(seen[..complete]))
      && processed == Done(seen, complete, part)
    }

    /** A partial result is carried over exactly if the first pending directory is partly processed. */
    ghost predicate Valid()
      reads this
    {
      && Reported()
      && pendingObjs == Rest(seen, complete, part)
      && npending == |AllFiles(pendingObjs)|
      && rincomplete == (if part == 0 then None else Some(w.Process(EMPTY, seen[complete].files[..part])))
    }

    constructor (w: World)
      requires w.Consistent()
      ensures Valid() && this.w == w && seen == [] && npending == 0
    {
      this.w := w;
      rincomplete, rcumulative, pendingObjs, npending, rows := None, EMPTY, [], 0, [];
      seen, complete, part, processed := [], 0, 0, [];
    }

    /** Takes the files of a chunk off the pending ones, and prepares the results of their directories. */
    method TakeChunk(chunkSize: nat)
        returns (objs: seq<File>, orderedDirs: seq<Dir>, dirResults: map<Dir, Totals>, incomplete: bool,
                 ghost parts: seq<Directory>)
      requires chunkSize > 0 && w.Walkable(pendingObjs) && npending == |AllFiles(pendingObjs)|
      modifies `rincomplete, `pendingObjs, `npending
      ensures IsChunk(old(pendingObjs), parts, pendingObjs, incomplete)
      ensures objs == AllFiles(parts) && npending == |AllFiles(pendingObjs)|
      ensures AllFiles(old(pendingObjs)) == objs + AllFiles(pendingObjs)
      ensures |objs| == if old(npending) < chunkSize then old(npending) else chunkSize
      ensures orderedDirs == Names(parts) && ResultsAre(dirResults, parts, old(rincomplete))
              && (incomplete ==> parts != [])
      ensures rincomplete == if parts == [] then old(rincomplete) else None
    {
      hide IsChunk, ResultsAre, World.Walkable, AllFiles, Names, Taken;
      ghost var P := pendingObjs;
      objs, orderedDirs, dirResults, incomplete, parts := [], [], map[], false, [];
      NothingTaken(P, rincomplete);
      while npending > 0 && |objs| < chunkSize
        invariant Taken(P, parts, pendingObjs, incomplete, objs, orderedDirs, dirResults, old(rincomplete))
        invariant npending == |AllFiles(pendingObjs)|
        invariant |objs| + npending == old(npending) && |objs| <= chunkSize && (incomplete ==> |objs| == chunkSize)
        invariant rincomplete == if parts == [] then old(rincomplete) else None
        decreases npending
      {
        FirstPending(w, P, parts, pendingObjs, objs, orderedDirs, dirResults, old(rincomplete));
        var thisDir := pendingObjs[0].name;
        var re := EMPTY;
        if rincomplete.Some? {
          re, rincomplete := rincomplete.value, None;
        }
        var nneeded := chunkSize - |objs|;
        var objsThisDir := pendingObjs[0].files;
        var navail := |objsThisDir|;
        var ntaken := if nneeded < navail then nneeded else navail;
        ghost var was := pendingObjs;
        if ntaken == navail {
          pendingObjs := pendingObjs[1..];
        } else {
          pendingObjs := [Directory(thisDir, objsThisDir[ntaken..])] + pendingObjs[1..];
          incomplete := true;
        }
        re := re.(nfiles := re.nfiles + ntaken);
        assert pendingObjs == (if ntaken == navail then [] else [Directory(thisDir, objsThisDir[ntaken..])]) + was[1..];
        NextTaken(w, P, parts, was, objs, orderedDirs, dirResults, old(rincomplete), ntaken, re);
        objs := objs + objsThisDir[..ntaken];
        npending := npending - ntaken;
        orderedDirs := orderedDirs + [thisDir];
        dirResults := dirResults[thisDir := re];
        parts := parts + [Directory(thisDir, objsThisDir[..ntaken])];
      }
      TakenParts(P, parts, pendingObjs, incomplete, objs, orderedDirs, dirResults, old(rincomplete));
    }

    /** Adds the result of each file to that of its directory; fails on a file whose directory has none. */
    method AddMapped(objs: seq<File>, dirResults: map<Dir, Totals>) returns (results: Option<map<Dir, Totals>>)
      ensures results.Some? <==> forall j :: 0 <= j < |objs| ==> DirName(objs[j]) in dirResults
      ensures results.Some? ==>
                results.value.Keys == dirResults.Keys && Summed(w, dirResults, results.value, objs)
    {
      hide DirName, Summed;
      var sums := dirResults;
      NothingSummed(w, dirResults);
      for j := 0 to |objs|
        invariant sums.Keys == dirResults.Keys && Summed(w, dirResults, sums, objs[..j])
        invariant forall i :: 0 <= i < j ==> DirName(objs[i]) in dirResults
      {
        var dir := DirName(objs[j]);
        if dir !in sums {
          return None;
        }
        assert dir in dirResults && objs[..j + 1] == objs[..j] + [objs[j]];
        OneSummed(w, dirResults, sums, objs[..j], objs[j]);
        sums := sums[dir := Add(sums[dir], w.outcome(objs[j]))];
      }
      assert objs[..|objs|] == objs;
      results := Some(sums);
    }

    /** Reports complete directories: prints their rows and adds them to the cumulative result. */
    method Report(orderedDirs: seq<Dir>, results: map<Dir, Totals>, ghost dirs: seq<Directory>)
      requires w.Consistent() && orderedDirs == Names(dirs)
      requires Totalled(w, results, dirs)
      modifies `rows, `rcumulative
      ensures rows == old(rows) + w.Rows(dirs)
      ensures rcumulative == w.Process(old(rcumulative), AllFiles(dirs))
    {
      NoneReported(w, rcumulative);
      hide World.Rows, World.Process, AllFiles;
      assert dirs[..0] == [];
      for i := 0 to |orderedDirs|
        invariant rows == old(rows) + w.Rows(dirs[..i])
        invariant rcumulative == w.Process(old(rcumulative), AllFiles(dirs[..i]))
      {
        var c := orderedDirs[i];
        var re := results[c];
        OneReported(w, dirs, i, old(rcumulative));
        rcumulative := Add(rcumulative, re);
        rows := rows + [(c, re)];
      }
      assert dirs[..|dirs|] == dirs;
    }

    /** Makes the files of another directory pending. */
    method AddDirectory(root: Dir, pending: seq<File>)
      requires Valid() && w.Walkable(seen + [Directory(root, pending)])
      modifies this
      ensures Valid() && seen == old(seen) + [Directory(root, pending)]
      ensures npending == old(npending) + |pending|
    {
      hide World.Walkable, World.Rows, World.Process, AllFiles;
      AppendRest(seen, complete, part, Directory(root, pending));
      npending := npending + |pending|;
      pendingObjs := pendingObjs + [Directory(root, pending)];
      seen := seen + [Directory(root, pending)];
    }

    /** Failing, with the rows of complete directories printed, all of them before the current one. */
    ghost predicate Failed()
      reads this
    {
      FailedOn(w, seen, rows)
    }

    /** Drains the pending files while there is enough for a chunk. */
    method ProcessPendingFiles(chunkSize: nat) returns (ok: bool)
      requires Valid() && chunkSize > 0
      modifies this
      ensures seen == old(seen) && if ok then Valid() && npending < chunkSize else Failed()
    {
      ok := true;
      while npending >= chunkSize && ok
        invariant seen == old(seen) && if ok then Valid() else Failed()
        decreases ok, npending
      {
        ok := ProcessOneChunk(chunkSize);
      }
    }

    /** Processes up to chunkSize of the pending files; fails exactly if one of them is in the current
        directory. */
    method ProcessOneChunk(chunkSize: nat) returns (ok: bool)
      requires Valid() && chunkSize > 0
      modifies this
      ensures seen == old(seen) && if ok then Valid() else Failed()
      ensures ok <==> NoneLost(AllFiles(old(pendingObjs))[..if old(npending) < chunkSize then old(npending)
                                                          else chunkSize])
      ensures ok ==> npending == if old(npending) < chunkSize then 0 else old(npending) - chunkSize
      ensures !ok ==> rows == old(rows) && rcumulative == old(rcumulative)
    {
      hide IsChunk, ResultsAre, World.Walkable, World.Rows, World.Process, World.Of, World.Accumulate, AllFiles, Rest,
           Done;
      ghost var P, carried, k, m := pendingObjs, rincomplete, complete, part;
      RestWalkable(w, seen, k, m);
      var objs, orderedDirs, dirResults, incomplete, parts := TakeChunk(chunkSize);
      PartsWalkable(w, P, parts, pendingObjs, incomplete);
      ObjsFound(w, parts, dirResults, carried);
      ChunkNames(w, seen, k, m, parts, pendingObjs, incomplete);
      var mapped := AddMapped(objs, dirResults);
      assert AllFiles(P)[..|objs|] == objs;
      if mapped.None? {
        return false;
      }
      PartResults(w, parts, dirResults, mapped.value, carried);
      FinishChunk(orderedDirs, mapped.value, incomplete, parts, objs, carried);
      ok := true;
    }

    /** Reports the directories of a chunk that are complete, and carries the result of the other one over. */
    method FinishChunk(dirs: seq<Dir>, results: map<Dir, Totals>, incomplete: bool, ghost parts: seq<Directory>,
                       ghost objs: seq<File>, ghost carried: Option<Totals>)
      requires Reported() && NoneCurrent(parts)
      requires IsChunk(Rest(seen, complete, part), parts, pendingObjs, incomplete) && (incomplete ==> parts != [])
      requires AllFiles(Rest(seen, complete, part)) == objs + AllFiles(pendingObjs)
               && npending == |AllFiles(pendingObjs)|
      requires dirs == Names(parts) && Mapped(w, results, parts, carried) && CarriedIs(w, seen, complete, part, carried)
      requires rincomplete == if parts == [] then carried else None
      modifies this
      ensures Valid() && seen == old(seen) && npending == old(npending)
    {
      hide IsChunk, Mapped, World.Walkable, World.Rows, World.Process, AllFiles, Rest, Done, Names, NoneCurrent;
      ghost var k, m := complete, part;
      ghost var q, m' := if incomplete then |parts| - 1 else |parts|, PartAfter(parts, m, incomplete);
      ChunkDone(w, seen, k, m, parts, pendingObjs, incomplete, carried, results);
      ChunkNames(w, seen, k, m, parts, pendingObjs, incomplete);
      NoneCurrentYet(seen, k, m, |parts|);
      NewDone(seen, k, m, k + q, m', objs);
      NewRows(w, seen, k, q);
      var orderedDirs := dirs;
      if incomplete {
        var last := |orderedDirs| - 1;
        rincomplete := Some(results[orderedDirs[last]]);
        orderedDirs := orderedDirs[..last];
      }
      Report(orderedDirs, results, seen[k..k + q]);
      complete, part, processed := k + q, m', processed + objs;
    }
  }

  method ObjectsOf(w: World, root: Dir, names: seq<string>) returns (pending: seq<File>)
    requires root != ""
    ensures pending == w.Objects(root, names)
  {
    pending := [];
    for j := 0 to |names|
      invariant pending == w.Objects(root, names[..j])
    {
      assert names[..j + 1][..j] == names[..j];
      if w.isObject(names[j]) {
        pending := pending + [FullPath(root, names[j])];
      }
    }
    assert names[..|names|] == names;
  }

  /** Walks the directories: those without objects are reported at once, the others become pending and
      are drained while there is enough for a chunk. Unless the current directory itself is walked and has
      an object file, every object file is processed once, in order; every directory is reported once
      with its own totals; the cumulative result is that of all files. Otherwise, and only then, the run
      fails, and reports no directory from the current one on. */
  method Go(w: World, walk: seq<Listing>, chunkSize: nat) returns (context: MapContext, emptyDirs: seq<Dir>, ok: bool)
    requires w.Consistent() && w.IsWalk(walk) && chunkSize > 0
    ensures ok <==> forall i :: 0 <= i < |walk| && walk[i].root == "." ==> w.Objects(".", walk[i].names) == []
    ensures ok ==>
              var dirs := w.Directories(walk);
              && context.rows == w.Rows(NonEmpty(dirs)) && emptyDirs == EmptyNames(dirs)
              && context.rcumulative == w.Process(EMPTY, AllFiles(dirs)) && context.processed == AllFiles(dirs)
              && context.rincomplete == None && context.npending == 0
    ensures ok && (forall i :: 0 <= i < |walk| ==> Distinct(walk[i].names)) ==> Distinct(context.processed)
    ensures !ok ==> FailedOn(w, NonEmpty(w.Directories(walk)), context.rows)
  {
    hide World.Walkable, World.Rows, World.Process, World.Objects, AllFiles, MapContext.Valid, FailedOn, NoneCurrent,
         NonEmpty, EmptyNames, Distinct;
    NoneYet();
    ghost var dirs := w.Directories(walk);
    WalkIsWalkable(w, walk);
    CurrentInWalk(w, walk);
    context := new MapContext(w);
    emptyDirs := [];
    for i := 0 to |walk|
      invariant fresh(context) && context.w == w && context.Valid() && context.npending < chunkSize
      invariant context.seen == NonEmpty(dirs[..i]) && emptyDirs == EmptyNames(dirs[..i])
    {
      var root := walk[i].root;
      var pending := ObjectsOf(w, root, walk[i].names);
      assert dirs[i] == Directory(root, pending);
      OneMore(dirs, i);
      if pending == [] {
        emptyDirs := emptyDirs + [root];
      } else {
        NonEmptySplit(w, dirs, i + 1);
        context.AddDirectory(root, pending);
        ok := context.ProcessPendingFiles(chunkSize);
        if !ok {
          FailedEarly(w, dirs, i + 1, context.rows);
          return;
        }
      }
    }
    assert dirs[..|dirs|] == dirs;
    ok := context.ProcessOneChunk(chunkSize);
    if ok {
      AllDone(context);
      NonEmptyFiles(dirs);
      if forall i :: 0 <= i < |walk| ==> Distinct(walk[i].names) {
        FilesAreDistinct(w, walk);
      }
    } else {
      FailedEarly(w, dirs, |dirs|, context.rows);
    }
  }

  predicate Distinct(s: seq<string>) { forall i, j :: 0 <= i < j < |s| ==> s[i] != s[j] }

  lemma {:induction false} DistinctAppend(a: seq<string>, b: seq<string>)
    requires Distinct(a) && Distinct(b) && forall x :: x in a ==> x !in b
    ensures Distinct(a + b)
  {
    forall i, j | 0 <= i < j < |a + b|
      ensures (a + b)[i] != (a + b)[j]
    {
      if i < |a| <= j {
        assert (a + b)[i] in a && (a + b)[j] in b;
      }
    }
  }

  lemma {:induction false} ObjectsAreNamed(w: World, root: Dir, names: seq<string>, f: File)
    requires root != "" && f in w.Objects(root, names)
    ensures exists name :: name in names && f == FullPath(root, name)
  {
    hide FullPath;
    var n := |names| - 1;
    if f in w.Objects(root, names[..n]) {
      ObjectsAreNamed(w, root, names[..n], f);
    } else {
      assert names[n] in names;
    }
  }

  lemma {:induction false} ObjectsAreDistinct(w: World, root: Dir, names: seq<string>)
    requires Normal(root) && (forall j :: 0 <= j < |names| ==> Plain(names[j])) && Distinct(names)
    ensures Distinct(w.Objects(root, names))
  {
    hide FullPath;
    if names != [] {
      var n := |names| - 1;
      ObjectsAreDistinct(w, root, names[..n]);
      var f := FullPath(root, names[n]);
      if f in w.Objects(root, names[..n]) {
        ObjectsAreNamed(w, root, names[..n], f);
        var name :| name in names[..n] && f == FullPath(root, name);
        PathsAreDistinct(root, name, root, names[n]);
      }
      DistinctAppend(w.Objects(root, names[..n]), if w.isObject(names[n]) then [f] else []);
    }
  }

  lemma {:induction false} FilesAreNamed(w: World, walk: seq<Listing>, f: File)
    requires w.IsWalk(walk) && f in AllFiles(w.Directories(walk))
    ensures exists i, name :: 0 <= i < |walk| && name in walk[i].names && f == FullPath(walk[i].root, name)
  {
    hide FullPath, World.Objects;
    var dirs := w.Directories(walk);
    if f in dirs[0].files {
      ObjectsAreNamed(w, walk[0].root, walk[0].names, f);
    } else {
      assert dirs[1..] == w.Directories(walk[1..]);
      FilesAreNamed(w, walk[1..], f);
      var i, name :| 0 <= i < |walk[1..]| && name in walk[1..][i].names && f == FullPath(walk[1..][i].root, name);
      assert walk[1..][i] == walk[i + 1];
    }
  }

  /** No file is walked twice. */
  lemma {:induction false} FilesAreDistinct(w: World, walk: seq<Listing>)
    requires w.IsWalk(walk) && forall i :: 0 <= i < |walk| ==> Distinct(walk[i].names)
    ensures Distinct(AllFiles(w.Directories(walk)))
  {
    hide FullPath, World.Objects, Distinct;
    var dirs := w.Directories(walk);
    if walk != [] {
      assert dirs[1..] == w.Directories(walk[1..]);
      FilesAreDistinct(w, walk[1..]);
      ObjectsAreDistinct(w, walk[0].root, walk[0].names);
      forall f | f in dirs[0].files
        ensures f !in AllFiles(dirs[1..])
      {
        OnlyInFront(w, walk, f);
      }
      DistinctAppend(dirs[0].files, AllFiles(dirs[1..]));
    } else {
      NothingDistinct();
    }
  }

  lemma NothingDistinct()
    ensures Distinct([]) && AllFiles([]) == []
  {
  }

  lemma {:induction false} OnlyInFront(w: World, walk: seq<Listing>, f: File)
    requires w.IsWalk(walk) && walk != [] && f in w.Objects(walk[0].root, walk[0].names)
    ensures f !in AllFiles(w.Directories(walk[1..]))
  {
    hide FullPath, World.Objects;
    if f in AllFiles(w.Directories(walk[1..])) {
      FilesAreNamed(w, walk[1..], f);
      var i, name :| 0 <= i < |walk[1..]| && name in walk[1..][i].names && f == FullPath(walk[1..][i].root, name);
      ObjectsAreNamed(w, walk[0].root, walk[0].names, f);
      var name0 :| name0 in walk[0].names && f == FullPath(walk[0].root, name0);
      assert walk[1..][i] == walk[i + 1];
      PathsAreDistinct(walk[0].root, name0, walk[i + 1].root, name);
    }
  }

  lemma NoneYet()
    ensures NonEmpty([]) == [] && EmptyNames([]) == []
  {
  }

  lemma OneMore(dirs: seq<Directory>, i: nat)
    requires i < |dirs|
    ensures NonEmpty(dirs[..i + 1]) == NonEmpty(dirs[..i]) + if dirs[i].files == [] then [] else [dirs[i]]
    ensures EmptyNames(dirs[..i + 1]) == EmptyNames(dirs[..i]) + if dirs[i].files == [] then [dirs[i].name] else []
  {
    assert dirs[..i + 1][..i] == dirs[..i];
  }

  /** Where nothing is pending, everything that was seen is done. */
  lemma AllDone(context: MapContext)
    requires context.Valid() && context.npending == 0
    ensures context.rows == context.w.Rows(context.seen)
            && context.rcumulative == context.w.Process(EMPTY, AllFiles(context.seen))
    ensures context.processed == AllFiles(context.seen) && context.rincomplete == None && NoneCurrent(context.seen)
  {
    hide AllFiles, World.Rows, World.Process, World.Walkable;
    NothingLeft(context.w, context.seen, context.complete, context.part);
  }

  /** The directories of a walk are distinct, and have their files in them. */
  lemma {:induction false} WalkIsWalkable(w: World, walk: seq<Listing>)
    requires w.IsWalk(walk)
    ensures w.Walkable(NonEmpty(w.Directories(walk)))
    decreases |walk|
  {
    if walk != [] {
      var n := |walk| - 1;
      WalkIsWalkable(w, walk[..n]);
      LastDirectory(w, walk);
      NewDirectory(w, walk);
      ObjectsAtHome(w, walk[n].root, walk[n].names);
      hide World.Walkable, World.Objects, World.Directories, NonEmpty, HomeOf;
      var dirs, last :=
          NonEmpty(w.Directories(walk[..n])), Directory(walk[n].root, w.Objects(walk[n].root, walk[n].names));
      if last.files != [] {
        WalkableAppend(w, dirs, last);
      } else {
        assert dirs + [] == dirs;
      }
    }
  }

  lemma LastDirectory(w: World, walk: seq<Listing>)
    requires w.IsWalk(walk) && walk != []
    ensures var n := |walk| - 1;
            var last := Directory(walk[n].root, w.Objects(walk[n].root, walk[n].names));
            NonEmpty(w.Directories(walk)) == NonEmpty(w.Directories(walk[..n])) + if last.files == [] then []
              else [last]
  {
    var n := |walk| - 1;
    hide World.Objects;
    assert w.Directories(walk)[..n] == w.Directories(walk[..n]);
  }

  lemma {:induction false} NewDirectory(w: World, walk: seq<Listing>)
    requires w.IsWalk(walk) && walk != []
    ensures var n := |walk| - 1;
            var dirs := NonEmpty(w.Directories(walk[..n]));
            forall i :: 0 <= i < |dirs| ==> dirs[i].name != walk[n].root
  {
    var n := |walk| - 1;
    NonEmptyNames(w, walk[..n]);
    var dirs := NonEmpty(w.Directories(walk[..n]));
    hide NonEmpty, World.Objects;
    forall i | 0 <= i < |dirs|
      ensures dirs[i].name != walk[n].root
    {
      assert dirs[i] in dirs;
    }
  }

  lemma WalkableAppend(w: World, dirs: seq<Directory>, d: Directory)
    requires w.Walkable(dirs) && d.files != [] && d.name != "" && forall f :: f in d.files ==>
               DirName(f) == HomeOf(d.name)
    requires forall i :: 0 <= i < |dirs| ==> dirs[i].name != d.name
    ensures w.Walkable(dirs + [d])
  {
    hide DirName;
  }

  lemma {:induction false} ObjectsAtHome(w: World, root: Dir, names: seq<string>)
    requires Normal(root) && forall j :: 0 <= j < |names| ==> Plain(names[j])
    ensures forall f :: f in w.Objects(root, names) ==> DirName(f) == HomeOf(root)
  {
    if names != [] {
      var n := |names| - 1;
      ObjectsAtHome(w, root, names[..n]);
      HomeOfFile(root, names[n]);
    }
  }

  /** The directories with objects among those walked. */
  lemma {:induction false} NonEmptyNames(w: World, walk: seq<Listing>)
    requires w.IsWalk(walk)
    ensures forall d :: d in NonEmpty(w.Directories(walk)) <==> d in w.Directories(walk) && d.files != []
  {
    if walk != [] {
      var n := |walk| - 1;
      NonEmptyNames(w, walk[..n]);
      assert w.Directories(walk)[..n] == w.Directories(walk[..n]);
      assert w.Directories(walk) == w.Directories(walk[..n]) + [w.Directories(walk)[n]];
    }
  }

  lemma {:induction false} CurrentInWalk(w: World, walk: seq<Listing>)
    requires w.IsWalk(walk)
    ensures NoneCurrent(NonEmpty(w.Directories(walk)))
            <==> forall i :: 0 <= i < |walk| && walk[i].root == "." ==> w.Objects(".", walk[i].names) == []
  {
    var dirs := w.Directories(walk);
    NonEmptyNames(w, walk);
    forall i | 0 <= i < |walk| && walk[i].root == "." && w.Objects(".", walk[i].names) != []
      ensures !NoneCurrent(NonEmpty(dirs))
    {
      assert dirs[i] in NonEmpty(dirs);
    }
    forall k | 0 <= k < |NonEmpty(dirs)| && NonEmpty(dirs)[k].name == "."
      ensures exists i :: 0 <= i < |walk| && walk[i].root == "." && w.Objects(".", walk[i].names) != []
    {
      assert NonEmpty(dirs)[k] in dirs;
      var i :| 0 <= i < |dirs| && dirs[i] == NonEmpty(dirs)[k];
      assert walk[i].root == ".";
    }
  }

  /** What has failed on some of the directories has failed on all of them. */
  lemma {:induction false} FailedEarly(w: World, dirs: seq<Directory>, i: nat, rows: seq<(Dir, Totals)>)
    requires i <= |dirs|
    requires FailedOn(w, NonEmpty(dirs[..i]), rows)
    ensures FailedOn(w, NonEmpty(dirs), rows) && !NoneCurrent(NonEmpty(dirs))
  {
    NonEmptyPrefix(dirs, i);
    var k, n :| 0 <= n <= k < |NonEmpty(dirs[..i])| && NonEmpty(dirs[..i])[k].name == "."
      && rows == w.Rows(NonEmpty(dirs[..i])[..n]);
    assert NonEmpty(dirs)[..n] == NonEmpty(dirs[..i])[..n];
    assert NonEmpty(dirs)[k] == NonEmpty(dirs[..i])[k];
  }

  lemma {:induction false} NonEmptyPrefix(dirs: seq<Directory>, i: nat)
    requires i <= |dirs|
    ensures NonEmpty(dirs[..i]) <= NonEmpty(dirs)
    decreases |dirs|
  {
    if i < |dirs| {
      var n := |dirs| - 1;
      assert dirs[..n][..i] == dirs[..i];
      NonEmptyPrefix(dirs[..n], i);
    } else {
      assert dirs[..i] == dirs;
    }
  }

  function NonEmpty(dirs: seq<Directory>): seq<Directory> {
    if dirs == [] then []
    else NonEmpty(dirs[..|dirs| - 1]) + if dirs[|dirs| - 1].files == [] then [] else [dirs[|dirs| - 1]]
  }

  function EmptyNames(dirs: seq<Directory>): seq<Dir> {
    if dirs == [] then []
    else EmptyNames(dirs[..|dirs| - 1]) + if dirs[|dirs| - 1].files == [] then [dirs[|dirs| - 1].name] else []
  }

  lemma {:induction false} NonEmptyFiles(dirs: seq<Directory>)
    ensures AllFiles(NonEmpty(dirs)) == AllFiles(dirs)
  {
    hide AllFiles;
    if dirs != [] {
      var n := |dirs| - 1;
      NonEmptyFiles(dirs[..n]);
      assert dirs == dirs[..n] + [dirs[n]];
      AllFilesAppend(dirs[..n], [dirs[n]]);
      AllFilesAppend(NonEmpty(dirs[..n]), [dirs[n]]);
      AllFilesOne(dirs[n]);
      assert NonEmpty(dirs[..n]) + [] == NonEmpty(dirs[..n]) && AllFiles(dirs[..n]) + [] == AllFiles(dirs[..n]);
    }
  }

  /** The directories seen so far can be walked, too. */
  lemma {:induction false} NonEmptySplit(w: World, dirs: seq<Directory>, i: nat)
    requires i <= |dirs| && w.Walkable(NonEmpty(dirs))
    ensures w.Walkable(NonEmpty(dirs[..i]))
    decreases |dirs|
  {
    if i < |dirs| {
      var n := |dirs| - 1;
      var shorter := NonEmpty(dirs[..n]);
      assert forall j :: 0 <= j < |shorter| ==> NonEmpty(dirs)[j] == shorter[j];
      assert dirs[..n][..i] == dirs[..i];
      NonEmptySplit(w, dirs[..n], i);
    } else {
      assert dirs[..i] == dirs;
    }
  }

  /** Where no file is pending, every directory is complete. */
  lemma {:induction false} NothingLeft(w: World, dirs: seq<Directory>, k: nat, m: nat)
    requires w.Walkable(dirs) && k <= |dirs| && (m > 0 ==> k < |dirs| && m < |dirs[k].files|)
    ensures |AllFiles(Rest(dirs, k, m))| == 0 ==> k == |dirs| && m == 0 && dirs[..k] == dirs
  {
    RestAt(dirs, k, m);
    if k < |dirs| {
      assert Rest(dirs, k, m)[0].files != [];
    }
  }

  // ----- what a chunk does -----

  /** The results of the directories are their own totals. */
  ghost predicate Totalled(w: World, results: map<Dir, Totals>, dirs: seq<Directory>) {
    forall i :: 0 <= i < |dirs| ==> dirs[i].name in results && results[dirs[i].name] == w.Process(EMPTY, dirs[i].files)
  }

  /** The results are those of the parts, and of what was carried over. */
  ghost predicate Mapped(w: World, results: map<Dir, Totals>, parts: seq<Directory>, carried: Option<Totals>) {
    forall i :: 0 <= i < |parts| ==>
      parts[i].name in results && results[parts[i].name] == w.Process(Carried(carried, i), parts[i].files)
  }

  function PartAfter(parts: seq<Directory>, m: nat, incomplete: bool): nat {
    if parts == [] then m
    else if !incomplete then 0
    else (if |parts| == 1 then m else 0) + |parts[|parts| - 1].files|
  }

  lemma RestAt(dirs: seq<Directory>, k: nat, m: nat)
    requires k <= |dirs| && (m > 0 ==> k < |dirs| && m <= |dirs[k].files|)
    ensures |Rest(dirs, k, m)| == |dirs| - k
    ensures forall i :: 0 <= i < |dirs| - k ==>
              Rest(dirs, k, m)[i]
                == Directory(dirs[k + i].name, if i == 0 then dirs[k].files[m..] else dirs[k + i].files)
  {
  }

  lemma {:induction false} AppendRest(dirs: seq<Directory>, k: nat, m: nat, d: Directory)
    requires k <= |dirs| && (m > 0 ==> k < |dirs| && m <= |dirs[k].files|)
    ensures Rest(dirs + [d], k, m) == Rest(dirs, k, m) + [d] && Done(dirs + [d], k, m) == Done(dirs, k, m)
    ensures |AllFiles(Rest(dirs, k, m) + [d])| == |AllFiles(Rest(dirs, k, m))| + |d.files|
    ensures (dirs + [d])[..k] == dirs[..k]
  {
    AllFilesAppend(Rest(dirs, k, m), [d]);
    AllFilesOne(d);
    assert (dirs + [d])[..k] == dirs[..k];
  }

  lemma {:induction false} RestWalkable(w: World, dirs: seq<Directory>, k: nat, m: nat)
    requires w.Walkable(dirs) && k <= |dirs| && (m > 0 ==> k < |dirs| && m < |dirs[k].files|)
    ensures w.Walkable(Rest(dirs, k, m))
  {
    RestAt(dirs, k, m);
  }

  lemma {:induction false} PartsWalkable(w: World, P: seq<Directory>, parts: seq<Directory>, rest: seq<Directory>,
                                         incomplete: bool)
    requires w.Walkable(P) && IsChunk(P, parts, rest, incomplete)
    ensures w.Walkable(parts)
  {
    hide DirName, HomeOf;
    assert forall i :: 0 <= i < |parts| ==> parts[i].name == P[i].name;
    if incomplete {
      var last := |parts| - 1;
      forall j | 0 <= j < |parts[last].files|
        ensures DirName(parts[last].files[j]) == HomeOf(parts[last].name)
      {
        assert parts[last].files[j] == P[last].files[j];
      }
    }
  }

  /** Every file has a result to be added to, unless one is in the current directory. */
  lemma {:induction false} ObjsFound(w: World, parts: seq<Directory>, dirResults: map<Dir, Totals>,
                                     carried: Option<Totals>)
    requires w.Walkable(parts) && ResultsAre(dirResults, parts, carried)
    ensures (forall j :: 0 <= j < |AllFiles(parts)| ==> DirName(AllFiles(parts)[j]) in dirResults)
            <==> NoneCurrent(parts)
    ensures NoneLost(AllFiles(parts)) <==> NoneCurrent(parts)
  {
    hide DirName, AllFiles, World.Walkable, ResultsAre;
    NamedResults(w, parts, dirResults, carried);
    if NoneCurrent(parts) {
      forall j | 0 <= j < |AllFiles(parts)|
        ensures DirName(AllFiles(parts)[j]) in dirResults
      {
        var i := InParts(w, parts, j);
        assert parts[i].name in dirResults;
      }
    } else {
      var i :| 0 <= i < |parts| && parts[i].name == ".";
      var j := OutOfParts(w, parts, i);
      assert DirName(AllFiles(parts)[j]) == "";
    }
  }

  lemma {:induction false} NamedResults(w: World, parts: seq<Directory>, dirResults: map<Dir, Totals>,
                                        carried: Option<Totals>)
    requires w.Walkable(parts) && ResultsAre(dirResults, parts, carried)
    ensures "" !in dirResults && forall i :: 0 <= i < |parts| ==> parts[i].name in dirResults && parts[i].name != ""
  {
    hide DirName, HomeOf;
  }

  lemma {:induction false} InParts(w: World, parts: seq<Directory>, j: nat) returns (i: nat)
    requires w.Walkable(parts) && j < |AllFiles(parts)|
    ensures i < |parts| && HomeOf(parts[i].name) == DirName(AllFiles(parts)[j])
  {
    hide DirName, HomeOf;
    if j < |parts[0].files| {
      i := 0;
    } else {
      var k := InParts(w, parts[1..], j - |parts[0].files|);
      i := k + 1;
    }
  }

  lemma {:induction false} OutOfParts(w: World, parts: seq<Directory>, i: nat) returns (j: nat)
    requires w.Walkable(parts) && i < |parts|
    ensures j < |AllFiles(parts)| && DirName(AllFiles(parts)[j]) == HomeOf(parts[i].name)
  {
    hide DirName, HomeOf;
    if i == 0 {
      j := 0;
    } else {
      var k := OutOfParts(w, parts[1..], i - 1);
      j := |parts[0].files| + k;
    }
  }

  /** The parts of a chunk are the next directories. */
  lemma {:induction false} ChunkNames(w: World, dirs: seq<Directory>, k: nat, m: nat, parts: seq<Directory>,
                                      rest: seq<Directory>, incomplete: bool)
    requires k <= |dirs| && (m > 0 ==> k < |dirs| && m < |dirs[k].files|)
    requires IsChunk(Rest(dirs, k, m), parts, rest, incomplete)
    ensures k + |parts| <= |dirs|
    ensures NoneCurrent(parts) ==> NoneCurrent(dirs[k..k + |parts|])
    ensures !NoneCurrent(parts) ==> exists i :: k <= i < |dirs| && dirs[i].name == "."
  {
    RestAt(dirs, k, m);
    assert forall i :: 0 <= i < |parts| ==> parts[i].name == dirs[k + i].name;
  }

  lemma NoneCurrentYet(dirs: seq<Directory>, k: nat, m: nat, n: nat)
    requires k + n <= |dirs| && (m > 0 ==> k < |dirs|)
    requires NoneCurrent(dirs[..if m == 0 then k else k + 1]) && NoneCurrent(dirs[k..k + n])
    ensures NoneCurrent(dirs[..k + n])
  {
    var done := dirs[..k + n];
    forall i | 0 <= i < |done|
      ensures done[i].name != "."
    {
      assert if i < k then dirs[..k][i] == dirs[i] else dirs[k..k + n][i - k] == dirs[i];
      assert i < k ==> dirs[..if m == 0 then k else k + 1][i] == dirs[i];
    }
  }

  /** After all files are mapped, the results of the parts are complete. */
  lemma {:induction false} PartResults(w: World, parts: seq<Directory>, dirResults: map<Dir, Totals>,
                                       results: map<Dir, Totals>, carried: Option<Totals>)
    requires w.Walkable(parts) && NoneCurrent(parts) && ResultsAre(dirResults, parts, carried)
             && results.Keys == dirResults.Keys
    requires Summed(w, dirResults, results, AllFiles(parts))
    ensures Mapped(w, results, parts, carried)
  {
    hide World.Walkable, NoneCurrent, DirName, HomeOf, World.Of, World.Accumulate, AllFiles;
    forall i | 0 <= i < |parts|
      ensures results[parts[i].name] == w.Process(Carried(carried, i), parts[i].files)
    {
      OfParts(w, parts, i);
    }
  }

  ghost predicate CarriedIs(w: World, dirs: seq<Directory>, k: nat, m: nat, carried: Option<Totals>)
    requires m > 0 ==> k < |dirs| && m <= |dirs[k].files|
  {
    carried == if m == 0 then None else Some(w.Process(EMPTY, dirs[k].files[..m]))
  }

  /** The parts but for an incomplete one are directories, or what was left of the first one. */
  lemma {:induction false} WholeDirectories(w: World, dirs: seq<Directory>, k: nat, m: nat, parts: seq<Directory>,
                                            rest: seq<Directory>, incomplete: bool)
    requires w.Consistent() && k <= |dirs| && (m > 0 ==> k < |dirs| && m < |dirs[k].files|)
    requires IsChunk(Rest(dirs, k, m), parts, rest, incomplete)
    ensures k + |parts| <= |dirs|
    ensures forall i :: 0 <= i < |parts| ==> parts[i].name == dirs[k + i].name
    ensures forall i, carried ::
              0 <= i < (if incomplete then |parts| - 1 else |parts|) && CarriedIs(w, dirs, k, m, carried) ==>
              w.Process(Carried(carried, i), parts[i].files) == w.Process(EMPTY, dirs[k + i].files)
  {
    hide World.Process, Rest;
    RestAt(dirs, k, m);
    forall i, carried | 0 <= i < (if incomplete then |parts| - 1 else |parts|) && CarriedIs(w, dirs, k, m, carried)
      ensures w.Process(Carried(carried, i), parts[i].files) == w.Process(EMPTY, dirs[k + i].files)
    {
      assert parts[i] == Rest(dirs, k, m)[i];
      if i == 0 && m > 0 {
        ProcessAppend(w, EMPTY, dirs[k].files[..m], dirs[k].files[m..]);
        assert dirs[k].files[..m] + dirs[k].files[m..] == dirs[k].files;
      } else if i == 0 {
        assert dirs[k].files[0..] == dirs[k].files;
      }
    }
  }

  /** An incomplete part extends what was carried over, if it is the first one. */
  lemma {:induction false} PartDirectory(w: World, dirs: seq<Directory>, k: nat, m: nat, parts: seq<Directory>,
                                         rest: seq<Directory>)
    requires w.Consistent() && k <= |dirs| && (m > 0 ==> k < |dirs| && m < |dirs[k].files|)
    requires IsChunk(Rest(dirs, k, m), parts, rest, true)
    ensures var q, m' := |parts| - 1, PartAfter(parts, m, true);
            && k + q < |dirs| && 0 < m' < |dirs[k + q].files|
            && dirs[k + q].files[m'..] == rest[0].files
            && forall carried :: CarriedIs(w, dirs, k, m, carried) ==>
                 w.Process(Carried(carried, q), parts[q].files) == w.Process(EMPTY, dirs[k + q].files[..m'])
  {
    hide World.Process, Rest, IsChunk;
    NoneReported(w, EMPTY);
    PartFiles(dirs, k, m, parts, rest);
    var q := |parts| - 1;
    var files, start := dirs[k + q].files, if q == 0 then m else 0;
    assert files[..0] == [] == AllFiles([]);
    ProcessAppend(w, EMPTY, files[..start], parts[q].files);
  }

  /** The files of a directory up to the end of an incomplete part. */
  lemma {:induction false} PartFiles(dirs: seq<Directory>, k: nat, m: nat, parts: seq<Directory>, rest: seq<Directory>)
    requires k <= |dirs| && (m > 0 ==> k < |dirs| && m < |dirs[k].files|)
    requires IsChunk(Rest(dirs, k, m), parts, rest, true)
    ensures var q, m' := |parts| - 1, PartAfter(parts, m, true);
            && 0 <= q && k + q < |dirs| && 0 < m' < |dirs[k + q].files| && rest != []
            && var files, start := dirs[k + q].files, if q == 0 then m else 0;
            && start <= m' && files[m'..] == rest[0].files && files[..m'] == files[..start] + parts[q].files
  {
    hide Rest;
    RestAt(dirs, k, m);
    var q := |parts| - 1;
    var files, start := dirs[k + q].files, if q == 0 then m else 0;
    assert q > 0 ==> files[0..] == files;
    SplitFrom(files, start, parts[q].files, rest[0].files);
  }

  lemma SplitFrom(files: seq<File>, start: nat, a: seq<File>, b: seq<File>)
    requires start <= |files| && files[start..] == a + b
    ensures start + |a| <= |files| && files[..start + |a|] == files[..start] + a && files[start + |a|..] == b
  {
    assert files == files[..start] + (a + b);
  }

  lemma {:induction false} NewRest(w: World, dirs: seq<Directory>, k: nat, m: nat, parts: seq<Directory>,
                                   rest: seq<Directory>, incomplete: bool)
    requires w.Consistent() && k <= |dirs| && (m > 0 ==> k < |dirs| && m < |dirs[k].files|)
    requires IsChunk(Rest(dirs, k, m), parts, rest, incomplete)
    ensures var q, m' := if incomplete then |parts| - 1 else |parts|, PartAfter(parts, m, incomplete);
            k + q <= |dirs| && (m' > 0 ==> k + q < |dirs| && m' < |dirs[k + q].files|) && rest == Rest(dirs, k + q, m')
  {
    hide IsChunk, Rest;
    if incomplete {
      PartDirectory(w, dirs, k, m, parts, rest);
      IncompleteRest(dirs, k, m, parts, rest);
    } else {
      CompleteRest(dirs, k, m, parts, rest);
    }
  }

  lemma CompleteRest(dirs: seq<Directory>, k: nat, m: nat, parts: seq<Directory>, rest: seq<Directory>)
    requires k <= |dirs| && (m > 0 ==> k < |dirs| && m < |dirs[k].files|)
    requires IsChunk(Rest(dirs, k, m), parts, rest, false)
    ensures k + |parts| <= |dirs| && rest == Rest(dirs, k + |parts|, if parts == [] then m else 0)
  {
    RestAt(dirs, k, m);
    if parts != [] {
      assert Rest(dirs, k, m)[|parts|..] == dirs[k + |parts|..];
    }
  }

  lemma IncompleteRest(dirs: seq<Directory>, k: nat, m: nat, parts: seq<Directory>, rest: seq<Directory>)
    requires k <= |dirs| && (m > 0 ==> k < |dirs| && m < |dirs[k].files|)
    requires IsChunk(Rest(dirs, k, m), parts, rest, true)
    requires var q, m' := |parts| - 1, PartAfter(parts, m, true);
             k + q < |dirs| && 0 < m' < |dirs[k + q].files| && dirs[k + q].files[m'..] == rest[0].files
    ensures rest == Rest(dirs, k + |parts| - 1, PartAfter(parts, m, true))
  {
    var q := |parts| - 1;
    RestAt(dirs, k, m);
    hide PartAfter;
    assert Rest(dirs, k, m)[|parts|..] == dirs[k + |parts|..] == rest[1..];
    assert rest[0].name == dirs[k + q].name;
    assert rest == [rest[0]] + rest[1..];
  }

  /** What a chunk leaves behind: some more complete directories, and perhaps a part of the next one. */
  lemma {:induction false} ChunkDone(w: World, dirs: seq<Directory>, k: nat, m: nat, parts: seq<Directory>,
                                     rest: seq<Directory>,
                                     incomplete: bool, carried: Option<Totals>, results: map<Dir, Totals>)
    requires w.Consistent() && k <= |dirs| && (m > 0 ==> k < |dirs| && m < |dirs[k].files|)
             && CarriedIs(w, dirs, k, m, carried)
    requires IsChunk(Rest(dirs, k, m), parts, rest, incomplete) && (incomplete ==> parts != [])
    requires Mapped(w, results, parts, carried)
    ensures var q, m' := if incomplete then |parts| - 1 else |parts|, PartAfter(parts, m, incomplete);
            && k + q <= |dirs| && (m' > 0 ==> k + q < |dirs| && m' < |dirs[k + q].files|)
            && rest == Rest(dirs, k + q, m')
            && Names(parts)[..q] == Names(dirs[k..k + q])
            && Totalled(w, results, dirs[k..k + q])
            && (incomplete ==>
                  && m' > 0 && parts[q].name in results
                  && results[parts[q].name] == w.Process(EMPTY, dirs[k + q].files[..m']))
            && (!incomplete ==> m' == if parts == [] then m else 0)
  {
    hide IsChunk, World.Process, Rest, Carried;
    WholeDirectories(w, dirs, k, m, parts, rest, incomplete);
    NewRest(w, dirs, k, m, parts, rest, incomplete);
    if incomplete {
      PartDirectory(w, dirs, k, m, parts, rest);
    }
    var more := dirs[k..k + if incomplete then |parts| - 1 else |parts|];
    forall i | 0 <= i < |more|
      ensures more[i].name == parts[i].name && results[more[i].name] == w.Process(EMPTY, more[i].files)
    {
      assert more[i] == dirs[k + i];
    }
    assert Names(parts)[..|more|] == Names(more);
  }

  lemma {:induction false} NewRows(w: World, dirs: seq<Directory>, k: nat, q: nat)
    requires w.Consistent() && k + q <= |dirs|
    ensures w.Rows(dirs[..k + q]) == w.Rows(dirs[..k]) + w.Rows(dirs[k..k + q])
    ensures w.Process(EMPTY, AllFiles(dirs[..k + q]))
            == w.Process(w.Process(EMPTY, AllFiles(dirs[..k])), AllFiles(dirs[k..k + q]))
  {
    assert dirs[..k + q] == dirs[..k] + dirs[k..k + q];
    RowsAppend(w, dirs[..k], dirs[k..k + q]);
    AllFilesAppend(dirs[..k], dirs[k..k + q]);
    ProcessAppend(w, EMPTY, AllFiles(dirs[..k]), AllFiles(dirs[k..k + q]));
  }

  lemma {:induction false} DoneRest(dirs: seq<Directory>, k: nat, m: nat)
    requires k <= |dirs| && (m > 0 ==> k < |dirs| && m <= |dirs[k].files|)
    ensures Done(dirs, k, m) + AllFiles(Rest(dirs, k, m)) == AllFiles(dirs)
  {
    assert dirs == dirs[..k] + dirs[k..];
    AllFilesAppend(dirs[..k], dirs[k..]);
    if m > 0 {
      assert Rest(dirs, k, m)[1..] == dirs[k..][1..];
    }
  }

  lemma {:induction false} NewDone(dirs: seq<Directory>, k: nat, m: nat, k': nat, m': nat, objs: seq<File>)
    requires k <= |dirs| && (m > 0 ==> k < |dirs| && m <= |dirs[k].files|)
    requires k' <= |dirs| && (m' > 0 ==> k' < |dirs| && m' <= |dirs[k'].files|)
    requires AllFiles(Rest(dirs, k, m)) == objs + AllFiles(Rest(dirs, k', m'))
    ensures Done(dirs, k', m') == Done(dirs, k, m) + objs
  {
    hide AllFiles, Rest, Done;
    DoneRest(dirs, k, m);
    DoneRest(dirs, k', m');
    var rest := AllFiles(Rest(dirs, k', m'));
    assert (Done(dirs, k, m) + objs) + rest == Done(dirs, k, m) + (objs + rest);
    SameFront(Done(dirs, k', m'), Done(dirs, k, m) + objs, rest);
  }

  lemma SameFront(a: seq<File>, b: seq<File>, rest: seq<File>)
    requires a + rest == b + rest
    ensures a == b
  {
    assert |a| == |b|;
    assert a == (a + rest)[..|a|] && b == (b + rest)[..|b|];
  }

  function Names(parts: seq<Directory>): (names: seq<Dir>)
    ensures |names| == |parts| && forall i :: 0 <= i < |parts| ==> names[i] == parts[i].name
  {
    seq(|parts|, i requires 0 <= i < |parts| => parts[i].name)
  }

  /** The parts are whole directories in front of the pending ones, but perhaps for the last; rest is what
      is left of them. */
  ghost predicate IsChunk(pending: seq<Directory>, parts: seq<Directory>, rest: seq<Directory>, incomplete: bool) {
    && |parts| <= |pending|
    && (forall i :: 0 <= i < |parts| - 1 ==> parts[i] == pending[i])
    && (if incomplete then
          && |parts| > 0 && rest != [] && rest[1..] == pending[|parts|..]
          && var last := |parts| - 1;
          && parts[last].name == rest[0].name == pending[last].name
          && parts[last].files != [] && rest[0].files != []
          && pending[last].files == parts[last].files + rest[0].files
        else
          rest == pending[|parts|..] && (|parts| > 0 ==> parts[|parts| - 1] == pending[|parts| - 1]))
  }

  /** The results of the directories count their files, but do not have their totals yet. */
  ghost predicate ResultsAre(dirResults: map<Dir, Totals>, parts: seq<Directory>, rincomplete: Option<Totals>) {
    && (forall d :: d in dirResults ==> exists i :: 0 <= i < |parts| && parts[i].name == d)
    && forall i :: 0 <= i < |parts| ==>
         && parts[i].name in dirResults
         && dirResults[parts[i].name]
            == Carried(rincomplete, i).(nfiles := Carried(rincomplete, i).nfiles + |parts[i].files|)
  }

  /** What has been taken for a chunk: the files of some parts, their directories, and a result for each. */
  ghost predicate Taken(P: seq<Directory>, parts: seq<Directory>, rest: seq<Directory>, incomplete: bool,
                        objs: seq<File>, orderedDirs: seq<Dir>, dirResults: map<Dir, Totals>,
                        rincomplete: Option<Totals>)
  {
    && IsChunk(P, parts, rest, incomplete) && (incomplete ==> parts != [])
    && objs == AllFiles(parts) && AllFiles(P) == objs + AllFiles(rest)
    && orderedDirs == Names(parts) && ResultsAre(dirResults, parts, rincomplete)
  }

  lemma NothingTaken(P: seq<Directory>, rincomplete: Option<Totals>)
    ensures Taken(P, [], P, false, [], [], map[], rincomplete)
  {
  }

  lemma TakenParts(P: seq<Directory>, parts: seq<Directory>, rest: seq<Directory>, incomplete: bool,
                   objs: seq<File>, orderedDirs: seq<Dir>, dirResults: map<Dir, Totals>, rincomplete: Option<Totals>)
    requires Taken(P, parts, rest, incomplete, objs, orderedDirs, dirResults, rincomplete)
    ensures IsChunk(P, parts, rest, incomplete) && (incomplete ==> parts != [])
    ensures objs == AllFiles(parts) && AllFiles(P) == objs + AllFiles(rest)
    ensures orderedDirs == Names(parts) && ResultsAre(dirResults, parts, rincomplete)
  {
  }

  lemma FirstPending(w: World, P: seq<Directory>, parts: seq<Directory>, rest: seq<Directory>,
                     objs: seq<File>, orderedDirs: seq<Dir>, dirResults: map<Dir, Totals>, rincomplete: Option<Totals>)
    requires w.Walkable(P) && Taken(P, parts, rest, false, objs, orderedDirs, dirResults, rincomplete)
             && |AllFiles(rest)| > 0
    ensures rest != [] && rest[0].files != []
  {
    assert rest[0] == P[|parts|];
  }

  /** Taking n files of the first directory that is pending. */
  lemma {:induction false} NextTaken(w: World, P: seq<Directory>, parts: seq<Directory>, rest: seq<Directory>,
                                     objs: seq<File>, orderedDirs: seq<Dir>, dirResults: map<Dir, Totals>,
                                     rincomplete: Option<Totals>, n: nat, re: Totals)
    requires w.Walkable(P) && Taken(P, parts, rest, false, objs, orderedDirs, dirResults, rincomplete)
    requires rest != [] && 0 < n <= |rest[0].files|
    requires re == Carried(rincomplete, |parts|).(nfiles := Carried(rincomplete, |parts|).nfiles + n)
    ensures var files, name := rest[0].files, rest[0].name;
            var rest' := (if n == |files| then [] else [Directory(name, files[n..])]) + rest[1..];
            && Taken(P, parts + [Directory(name, files[..n])], rest', n < |files|,
                     objs + files[..n], orderedDirs + [name], dirResults[name := re], rincomplete)
            && |AllFiles(rest)| == n + |AllFiles(rest')|
  {
    hide IsChunk, ResultsAre, World.Walkable, AllFiles;
    var files, name := rest[0].files, rest[0].name;
    var taken := Directory(name, files[..n]);
    var rest' := (if n == |files| then [] else [Directory(name, files[n..])]) + rest[1..];
    assert files[..n] + files[n..] == files;
    assert n == |files| ==> files[..n] == files && rest' == rest[1..];
    NextPart(w, P, parts, rest, rest', taken, n < |files|);
    NextResult(dirResults, parts, taken, rincomplete, re);
    assert objs + AllFiles(rest) == objs + files[..n] + AllFiles(rest');
  }

  lemma {:induction false} NextResult(dirResults: map<Dir, Totals>, parts: seq<Directory>, taken: Directory,
                                      rincomplete: Option<Totals>, re: Totals)
    requires ResultsAre(dirResults, parts, rincomplete)
    requires forall i :: 0 <= i < |parts| ==> parts[i].name != taken.name
    requires re == Carried(rincomplete, |parts|).(nfiles := Carried(rincomplete, |parts|).nfiles + |taken.files|)
    ensures ResultsAre(dirResults[taken.name := re], parts + [taken], rincomplete)
  {
    var more := parts + [taken];
    var after := dirResults[taken.name := re];
    forall d | d in after
      ensures exists i :: 0 <= i < |more| && more[i].name == d
    {
      if d == taken.name {
        assert more[|parts|].name == d;
      } else {
        var i :| 0 <= i < |parts| && parts[i].name == d;
        assert more[i].name == d;
      }
    }
  }

  lemma {:induction false} NextPart(w: World, P: seq<Directory>, parts: seq<Directory>, rest: seq<Directory>,
                                    rest': seq<Directory>, taken: Directory, incomplete: bool)
    requires w.Walkable(P) && IsChunk(P, parts, rest, false) && rest != []
    requires taken.name == rest[0].name && taken.files != []
    requires if incomplete then
               |rest'| > 0 && rest'[0].files != [] && taken.files + rest'[0].files == rest[0].files
               && rest'[0].name == rest[0].name && rest'[1..] == rest[1..]
             else taken.files == rest[0].files && rest' == rest[1..]
    ensures IsChunk(P, parts + [taken], rest', incomplete)
    ensures AllFiles(parts + [taken]) == AllFiles(parts) + taken.files
    ensures AllFiles(rest) == taken.files + AllFiles(rest')
    ensures forall i :: 0 <= i < |parts| ==> parts[i].name != taken.name
  {
    hide AllFiles, World.Walkable, IsChunk;
    NextName(w, P, parts, rest);
    NextChunk(P, parts, rest, rest', taken, incomplete);
    AllFilesAppend(parts, [taken]);
    AllFilesOne(taken);
    FilesFrom(rest);
    if incomplete {
      FilesFrom(rest');
    }
  }

  lemma FilesFrom(dirs: seq<Directory>)
    requires dirs != []
    ensures AllFiles(dirs) == dirs[0].files + AllFiles(dirs[1..])
  {
  }

  /** The first of the pending directories is not among the parts. */
  lemma {:induction false} NextName(w: World, P: seq<Directory>, parts: seq<Directory>, rest: seq<Directory>)
    requires w.Walkable(P) && IsChunk(P, parts, rest, false) && rest != []
    ensures forall i :: 0 <= i < |parts| ==> parts[i].name != rest[0].name
  {
    hide DirName, HomeOf;
    assert rest[0] == P[|parts|];
    assert forall i :: 0 <= i < |parts| ==> parts[i] == P[i];
  }

  lemma NextChunk(P: seq<Directory>, parts: seq<Directory>, rest: seq<Directory>, rest': seq<Directory>,
                  taken: Directory, incomplete: bool)
    requires IsChunk(P, parts, rest, false) && rest != [] && taken.name == rest[0].name && taken.files != []
    requires if incomplete then
               |rest'| > 0 && rest'[0].files != [] && taken.files + rest'[0].files == rest[0].files
               && rest'[0].name == rest[0].name && rest'[1..] == rest[1..]
             else taken.files == rest[0].files && rest' == rest[1..]
    ensures IsChunk(P, parts + [taken], rest', incomplete)
  {
    assert rest[0] == P[|parts|];
    assert rest[1..] == P[|parts| + 1..];
    assert forall i :: 0 <= i < |parts| ==> parts[i] == P[i];
  }
}
