/** Size-based log rotation (DeepSeerLib/src/Log/FileSink.cpp) over a map from paths to contents.
    The file system is nondeterministic: opening the active file may fail, after which writes are
    ignored; removing or renaming an existing file may fail and then changes nothing; a write may be
    short.  The source ignores the last three; `failures` counts them. */
module LogRotation {

  /** The active log file and the rotated files .1, .2, ... (all distinct names). */
  datatype Path = Active | Rotated(index: int)

  function Max(a: nat, b: nat): nat { if a < b then b else a }

  function Concat(lines: seq<string>): string {
    if lines == [] then "" else Concat(lines[..|lines| - 1]) + lines[|lines| - 1]
  }

  lemma ConcatPush(lines: seq<string>, line: string)
    ensures Concat(lines + [line]) == Concat(lines) + line
  {
    assert (lines + [line])[..|lines|] == lines;
  }

  /** The lines of rotated files, given newest first, in the order they were written. */
  function OldestFirst(rotated: seq<seq<string>>): seq<string> {
    if rotated == [] then [] else OldestFirst(rotated[1..]) + rotated[0]
  }

  lemma {:induction false} OldestFirstSplit(rotated: seq<seq<string>>, keep: nat)
    requires keep <= |rotated|
    ensures OldestFirst(rotated) == OldestFirst(rotated[keep..]) + OldestFirst(rotated[..keep])
  {
    if keep > 0 {
      OldestFirstSplit(rotated[1..], keep - 1);
      assert rotated[1..][keep - 1..] == rotated[keep..];
      assert rotated[1..][..keep - 1] == rotated[..keep][1..];
    }
  }

  /** Rotating moves the boundaries between files without touching the sequence of lines. */
  lemma RotateKeepsOrder(dropped: seq<string>, rotated: seq<seq<string>>, active: seq<string>, keep: nat)
    requires keep <= |rotated|
    ensures dropped + OldestFirst(rotated) + active ==
            (dropped + OldestFirst(rotated[keep..])) + OldestFirst([active] + rotated[..keep]) + []
  {
    OldestFirstSplit(rotated, keep);
    assert ([active] + rotated[..keep])[1..] == rotated[..keep];
    Regroup(dropped, OldestFirst(rotated[keep..]), OldestFirst(rotated[..keep]), active);
  }

  lemma Regroup<T>(a: seq<T>, b: seq<T>, c: seq<T>, d: seq<T>)
    ensures a + (b + c) + d == (a + b) + (c + d) + []
  {
  }

  /** A file that was rotated out: it reached the limit with its last line and not before. */
  predicate JustFull(lines: seq<string>, maxFileSize: nat) {
    && lines != []
    && |Concat(lines)| >= maxFileSize
    && |Concat(lines[..|lines| - 1])| < Max(maxFileSize, 1)
  }

  // ---------------------------------------------------------------- which lines are where

  /** The lines of the active file, of the rotated files (newest first) and of the deleted ones. */
  datatype Shelf = Shelf(active: seq<string>, rotated: seq<seq<string>>, dropped: seq<string>)

  /** How many of n rotated files survive a rotation. */
  function Keep(n: nat, maxFiles: nat): (k: nat)
    ensures k <= n
  {
    if n <= Max(maxFiles, 1) - 1 then n else Max(maxFiles, 1) - 1
  }

  function AfterRotation(s: Shelf, maxFiles: nat): Shelf {
    var k := Keep(|s.rotated|, maxFiles);
    Shelf([], [s.active] + s.rotated[..k], s.dropped + OldestFirst(s.rotated[k..]))
  }

  /** One more line: the file is rotated exactly when it reaches its limit. */
  function Shelve(s: Shelf, line: string, maxFileSize: nat, maxFiles: nat): Shelf {
    var t := s.(active := s.active + [line]);
    if |Concat(t.active)| >= maxFileSize then AfterRotation(t, maxFiles) else t
  }

  /** Where the lines of a run that began without files are. */
  function ShelveAll(lines: seq<string>, maxFileSize: nat, maxFiles: nat): Shelf {
    if lines == [] then Shelf([], [], [])
    else Shelve(ShelveAll(lines[..|lines| - 1], maxFileSize, maxFiles), lines[|lines| - 1], maxFileSize, maxFiles)
  }

  lemma ShelveAllPush(lines: seq<string>, line: string, maxFileSize: nat, maxFiles: nat)
    ensures ShelveAll(lines + [line], maxFileSize, maxFiles) ==
            Shelve(ShelveAll(lines, maxFileSize, maxFiles), line, maxFileSize, maxFiles)
  {
    assert (lines + [line])[..|lines|] == lines;
  }

  /** The files, oldest to newest, then the active one hold a suffix of the lines, cut only between
      lines; lines are deleted only once all slots are taken; numbers and sizes are bounded and each
      rotated file overshoots by less than its last line. */
  predicate GoodShelf(s: Shelf, lines: seq<string>, maxFileSize: nat, maxFiles: nat) {
    && lines == s.dropped + OldestFirst(s.rotated) + s.active
    && |s.rotated| <= Max(maxFiles, 1)
    && (s.dropped != [] ==> |s.rotated| == Max(maxFiles, 1))
    && (forall i :: 0 <= i < |s.rotated| ==> JustFull(s.rotated[i], maxFileSize))
    && |Concat(s.active)| < Max(maxFileSize, 1)
  }

  lemma ShelveKeeps(s: Shelf, lines: seq<string>, line: string, maxFileSize: nat, maxFiles: nat)
    requires GoodShelf(s, lines, maxFileSize, maxFiles)
    ensures GoodShelf(Shelve(s, line, maxFileSize, maxFiles), lines + [line], maxFileSize, maxFiles)
  {
    var active := s.active + [line];
    assert active[..|active| - 1] == s.active;
    assert lines + [line] == s.dropped + OldestFirst(s.rotated) + active;
    if |Concat(active)| >= maxFileSize {
      RotateKeepsOrder(s.dropped, s.rotated, active, Keep(|s.rotated|, maxFiles));
      assert Keep(|s.rotated|, maxFiles) == |s.rotated| ==> s.rotated[|s.rotated|..] == [];
    }
  }

  lemma {:induction false} RunShelves(lines: seq<string>, maxFileSize: nat, maxFiles: nat)
    ensures GoodShelf(ShelveAll(lines, maxFileSize, maxFiles), lines, maxFileSize, maxFiles)
  {
    if lines != [] {
      var before := lines[..|lines| - 1];
      RunShelves(before, maxFileSize, maxFiles);
      ShelveKeeps(ShelveAll(before, maxFileSize, maxFiles), before, lines[|lines| - 1], maxFileSize, maxFiles);
      assert lines == before + [lines[|lines| - 1]];
    }
  }

  /** When the number of rotated files stays within maxFiles. */
  lemma CountRule(lines: seq<string>, line: string, maxFileSize: nat, maxFiles: nat)
    ensures var s := ShelveAll(lines, maxFileSize, maxFiles);
            && |s.rotated| <= Max(maxFiles, 1)
            && (|s.rotated| <= maxFiles <==> maxFiles >= 1 || s.rotated == [])
            && (|Shelve(s, line, maxFileSize, maxFiles).rotated| <= maxFiles <==>
                  maxFiles >= 1 || (s.rotated == [] && |Concat(s.active)| + |line| < maxFileSize))
  {
    RunShelves(lines, maxFileSize, maxFiles);
    ConcatPush(ShelveAll(lines, maxFileSize, maxFiles).active, line);
  }

  // ---------------------------------------------------------------- the rename chain on values

  /** fs::rename: replaces the target; without a source nothing happens. */
  function RenameIn<T>(m: map<Path, T>, src: Path, dst: Path): map<Path, T> {
    if src in m then (m - {src})[dst := m[src]] else m
  }

  /** The descending loop of `rotate`, from index i on: .(i-1) becomes .i, and so on down to .1. */
  function ShiftAll<T>(m: map<Path, T>, i: nat): map<Path, T>
    decreases i
  {
    if i < 2 then m else ShiftAll(RenameIn(m, Rotated(i - 1), Rotated(i)), i - 1)
  }

  /** All file operations of `rotate` but the opening. */
  function RotateMap<T>(m: map<Path, T>, maxFiles: nat): map<Path, T> {
    RenameIn(ShiftAll(m - {Rotated(maxFiles)}, maxFiles), Active, Rotated(1))
  }

  /** With slot i free the chain moves every rotated file below it up by one and touches nothing else. */
  lemma {:induction false} ShiftAllMoves<T>(m: map<Path, T>, i: nat, n: nat)
    requires 1 <= i && n < i && forall j :: j <= i ==> (Rotated(j) in m <==> 1 <= j <= n)
    ensures var r := ShiftAll(m, i);
            && (Active in r <==> Active in m) && (Active in m ==> r[Active] == m[Active])
            && (forall j {:trigger Rotated(j)} :: j <= i ==> (Rotated(j) in r <==> 2 <= j <= n + 1))
            && (forall j {:trigger Rotated(j)} :: 2 <= j <= n + 1 ==> r[Rotated(j)] == m[Rotated(j - 1)])
            && (forall j {:trigger Rotated(j)} :: j > i ==>
                  (Rotated(j) in r <==> Rotated(j) in m) && (Rotated(j) in m ==> r[Rotated(j)] == m[Rotated(j)]))
    decreases i
  {
    if i >= 2 {
      ShiftAllMoves(RenameIn(m, Rotated(i - 1), Rotated(i)), i - 1, if n == i - 1 then n - 1 else n);
    }
  }

  /** Files and lines correspond. */
  ghost predicate StoredIn(files: map<Path, string>, s: Shelf) {
    && (forall i :: Rotated(i) in files <==> 1 <= i <= |s.rotated|)
    && (forall i :: 1 <= i <= |s.rotated| ==> files[Rotated(i)] == Concat(s.rotated[i - 1]))
    && (Active in files ==> files[Active] == Concat(s.active))
    && (Active !in files ==> s.active == [])
  }

  /** Without failures the oldest file goes, the others move up and the active file becomes .1. */
  lemma RotationStores(files: map<Path, string>, s: Shelf, maxFiles: nat)
    requires StoredIn(files, s) && Active in files && |s.rotated| <= Max(maxFiles, 1)
    ensures StoredIn(RotateMap(files, maxFiles), AfterRotation(s, maxFiles)) && Active !in RotateMap(files, maxFiles)
  {
    var keep := Keep(|s.rotated|, maxFiles);
    var m := files - {Rotated(maxFiles)};
    if maxFiles >= 1 { ShiftAllMoves(m, maxFiles, keep); }
    var r := RotateMap(files, maxFiles);
    var t := AfterRotation(s, maxFiles);
    assert |t.rotated| == 1 + keep;
    forall i | 1 <= i <= 1 + keep ensures Rotated(i) in r && r[Rotated(i)] == Concat(t.rotated[i - 1]) {
      if i >= 2 { assert m[Rotated(i - 1)] == files[Rotated(i - 1)] == Concat(s.rotated[i - 2]); }
    }
  }

  lemma OpenStores(files: map<Path, string>, s: Shelf)
    requires StoredIn(files, s)
    ensures Active !in files ==> StoredIn(files[Active := ""], s)
  {
  }

  lemma AppendStores(files: map<Path, string>, s: Shelf, line: string)
    requires StoredIn(files, s) && Active in files
    ensures StoredIn(files[Active := files[Active] + line], s.(active := s.active + [line]))
    ensures |files[Active] + line| == |Concat(s.active + [line])| == |Concat(s.active)| + |line|
  {
    ConcatPush(s.active, line);
  }

  // ---------------------------------------------------------------- what survives failures

  /** Which lines, from one index up to another, each file holds. */
  type Spans = map<Path, (nat, nat)>

  /** Every file holds consecutive lines; a rotated file with a higher number holds older ones, and the
      active file holds the latest. */
  ghost predicate Ordered(spans: Spans, n: nat) {
    && (forall p :: p in spans ==> spans[p].0 <= spans[p].1 <= n)
    && (forall i, j :: Rotated(i) in spans && Rotated(j) in spans && i < j ==> spans[Rotated(j)].1 <= spans[Rotated(i)].0)
    && (Active in spans ==> spans[Active].1 == n && forall i :: Rotated(i) in spans ==> spans[Rotated(i)].1 <= spans[Active].0)
  }

  ghost predicate InRange(spans: Spans, maxFiles: nat) {
    forall i :: Rotated(i) in spans ==> 1 <= i <= Max(maxFiles, 1)
  }

  ghost predicate Kept(files: map<Path, string>, spans: Spans, history: seq<string>) {
    && files.Keys == spans.Keys
    && forall p :: p in spans ==>
         spans[p].0 <= spans[p].1 <= |history| && files[p] == Concat(history[spans[p].0..spans[p].1])
  }

  /** What every operation on files keeps, whether it succeeds or not. */
  ghost predicate Safe(files: map<Path, string>, spans: Spans, history: seq<string>, maxFiles: nat) {
    Kept(files, spans, history) && Ordered(spans, |history|) && InRange(spans, maxFiles)
  }

  lemma RenameKept(files: map<Path, string>, spans: Spans, history: seq<string>, src: Path, dst: Path)
    requires Kept(files, spans, history)
    ensures Kept(RenameIn(files, src, dst), RenameIn(spans, src, dst), history)
  {
  }

  lemma RenameOrdered(spans: Spans, n: nat, maxFiles: nat, src: Path, i: nat)
    requires Ordered(spans, n) && InRange(spans, maxFiles) && 1 <= i <= Max(maxFiles, 1)
    requires src == (if i == 1 then Active else Rotated(i - 1))
    ensures Ordered(RenameIn(spans, src, Rotated(i)), n) && InRange(RenameIn(spans, src, Rotated(i)), maxFiles)
  {
  }

  /** Order is all that survives a failed rename: with .2 stuck although .3 is free, the next rename
      overwrites it, and the oldest line is lost. */
  lemma FailedRenameLoses()
    ensures var spans: Spans := map[Rotated(2) := (0, 1), Rotated(1) := (1, 2), Active := (2, 3)];
            && Ordered(spans, 3) && Rotated(3) !in spans
            && RenameIn(RenameIn(spans, Rotated(1), Rotated(2)), Active, Rotated(1)) ==
               map[Rotated(2) := (1, 2), Rotated(1) := (2, 3)]
  {
    var spans: Spans := map[Rotated(2) := (0, 1), Rotated(1) := (1, 2), Active := (2, 3)];
    assert RenameIn(spans, Rotated(1), Rotated(2)) == map[Rotated(2) := (1, 2), Active := (2, 3)];
  }

  lemma SpanOfAppend(history: seq<string>, w: string, a: nat, b: nat)
    requires a <= b <= |history|
    ensures (history + [w])[a..b] == history[a..b]
    ensures (history + [w])[a..|history| + 1] == history[a..|history|] + [w]
  {
  }

  lemma AppendKept(files: map<Path, string>, spans: Spans, history: seq<string>, w: string)
    requires Kept(files, spans, history) && Active in files && spans[Active].1 == |history|
    ensures Kept(files[Active := files[Active] + w], spans[Active := (spans[Active].0, |history| + 1)], history + [w])
  {
    var next, a := history + [w], spans[Active].0;
    SpanOfAppend(history, w, a, |history|);
    ConcatPush(history[a..|history|], w);
    var files', spans' := files[Active := files[Active] + w], spans[Active := (a, |history| + 1)];
    forall p | p in spans' ensures spans'[p].0 <= spans'[p].1 <= |next| && files'[p] == Concat(next[spans'[p].0..spans'[p].1]) {
      if p != Active { SpanOfAppend(history, w, spans[p].0, spans[p].1); }
    }
  }

  predicate LastSucceeded(opens: seq<bool>) { opens != [] && opens[|opens| - 1] }

  // ---------------------------------------------------------------- the sink

  class FileSink {
    const maxFileSize: nat
    const maxFiles: nat
    var files: map<Path, string>
    var isOpen: bool
    var currentSize: nat
    ghost var spans: Spans                 // which accepted lines each file holds
    ghost var shelf: Shelf                 // where the lines are as long as nothing has failed
    ghost var history: seq<string>         // what each accepted write put into the file, in order
    ghost var opens: seq<bool>             // every attempt to open the active file, and whether it succeeded
    ghost var failures: nat                // removals and renames of existing files that failed, short writes

    /** As long as nothing has failed, the files hold the lines where the rule says. */
    ghost predicate Exact()
      reads this
    {
      && StoredIn(files, shelf)
      && shelf == ShelveAll(history, maxFileSize, maxFiles)
      && (isOpen ==> Active in files && currentSize == |files[Active]|)
      && (!isOpen ==> shelf.active == [])
    }

    ghost predicate Valid()
      reads this
    {
      && Safe(files, spans, history, maxFiles)
      && (isOpen ==> Active in files)
      && isOpen == LastSucceeded(opens)
      && (failures == 0 ==> Exact())
    }

    constructor (maxFileSize: nat, maxFiles: nat)
      ensures Valid() && history == [] && failures == 0
      ensures this.maxFileSize == maxFileSize && this.maxFiles == maxFiles
    {
      this.maxFileSize, this.maxFiles := maxFileSize, maxFiles;
      files, isOpen, currentSize := map[], false, 0;
      spans, shelf, history, opens, failures := map[], Shelf([], [], []), [], [], 0;
      new;
      OpenFile();
    }

    /** fopen in append mode: creates the file if needed; may fail. */
    method OpenFile()
      requires Safe(files, spans, history, maxFiles)
      modifies `files, `spans, `isOpen, `currentSize, `opens
      ensures Safe(files, spans, history, maxFiles) && opens == old(opens) + [isOpen]
      ensures files == if isOpen && Active !in old(files) then old(files)[Active := ""] else old(files)
      ensures isOpen ==> Active in files && currentSize == |files[Active]|
    {
      isOpen := *;
      opens := opens + [isOpen];
      currentSize := 0;
      if isOpen {
        if Active !in files {
          files, spans := files[Active := ""], spans[Active := (|history|, |history|)];
        }
        currentSize := |files[Active]|;
      }
    }

    /** fs::remove, with its error ignored. */
    method Remove(i: nat)
      requires Safe(files, spans, history, maxFiles)
      modifies `files, `spans, `failures
      ensures Safe(files, spans, history, maxFiles) && failures >= old(failures)
      ensures failures == old(failures) ==> files == old(files) - {Rotated(i)}
    {
      var fails: bool := *;
      if Rotated(i) in files && fails {
        failures := failures + 1;
      } else {
        files, spans := files - {Rotated(i)}, spans - {Rotated(i)};
      }
    }

    /** fs::rename to slot i from the slot below it, or from the active file, with its error ignored. */
    method Rename(src: Path, i: nat)
      requires Safe(files, spans, history, maxFiles) && 1 <= i <= Max(maxFiles, 1)
      requires src == (if i == 1 then Active else Rotated(i - 1))
      modifies `files, `spans, `failures
      ensures Safe(files, spans, history, maxFiles) && failures >= old(failures)
      ensures failures == old(failures) ==> files == RenameIn(old(files), src, Rotated(i))
    {
      var fails: bool := *;
      if src in files && fails {
        failures := failures + 1;
      } else {
        RenameKept(files, spans, history, src, Rotated(i));
        RenameOrdered(spans, |history|, maxFiles, src, i);
        files, spans := RenameIn(files, src, Rotated(i)), RenameIn(spans, src, Rotated(i));
      }
    }

    /** The descending rename chain: .i becomes .(i+1) for all rotated files. */
    method ShiftUp()
      requires Safe(files, spans, history, maxFiles)
      modifies `files, `spans, `failures
      ensures Safe(files, spans, history, maxFiles) && failures >= old(failures)
      ensures failures == old(failures) ==> files == ShiftAll(old(files), maxFiles)
    {
      var i: nat := maxFiles;
      while i >= 2
        invariant i <= maxFiles && Safe(files, spans, history, maxFiles) && failures >= old(failures)
        invariant failures == old(failures) ==> ShiftAll(files, i) == ShiftAll(old(files), maxFiles)
      {
        Rename(Rotated(i - 1), i);
        i := i - 1;
      }
    }

    /** The file operations of `rotate` before the file is opened again. */
    method RotateFiles()
      requires Safe(files, spans, history, maxFiles)
      modifies `files, `spans, `failures
      ensures Safe(files, spans, history, maxFiles) && failures >= old(failures)
      ensures failures == old(failures) ==> files == RotateMap(old(files), maxFiles)
    {
      Remove(maxFiles);
      ShiftUp();
      Rename(Active, 1);
    }

    /** The same, with the record of where the lines are. */
    method RotateLines()
      requires Safe(files, spans, history, maxFiles) && Active in files
      requires failures == 0 ==> StoredIn(files, shelf) && |shelf.rotated| <= Max(maxFiles, 1)
      modifies `files, `spans, `shelf, `failures
      ensures Safe(files, spans, history, maxFiles) && failures >= old(failures)
      ensures failures == 0 ==> StoredIn(files, shelf) && shelf == AfterRotation(old(shelf), maxFiles)
    {
      if failures == 0 { RotationStores(files, shelf, maxFiles); }
      RotateFiles();
      shelf := AfterRotation(shelf, maxFiles);
    }

    method Rotate()
      requires Safe(files, spans, history, maxFiles) && isOpen && Active in files
      requires failures == 0 ==> StoredIn(files, shelf) && |shelf.rotated| <= Max(maxFiles, 1)
      modifies `files, `spans, `isOpen, `currentSize, `shelf, `opens, `failures
      ensures Safe(files, spans, history, maxFiles) && failures >= old(failures) && opens == old(opens) + [isOpen]
      ensures isOpen ==> Active in files && currentSize == |files[Active]|
      ensures failures == 0 ==> StoredIn(files, shelf) && shelf == AfterRotation(old(shelf), maxFiles)
    {
      isOpen := false;
      RotateLines();
      if failures == 0 { OpenStores(files, shelf); }
      OpenFile();
    }

    /** What fwrite puts into the active file. */
    method AppendBytes(written: string)
      requires Safe(files, spans, history, maxFiles) && Active in files
      modifies `files, `spans, `history
      ensures Safe(files, spans, history, maxFiles)
      ensures files == old(files)[Active := old(files)[Active] + written] && history == old(history) + [written]
    {
      AppendKept(files, spans, history, written);
      files, spans := files[Active := files[Active] + written], spans[Active := (spans[Active].0, |history| + 1)];
      history := history + [written];
    }

    /** fwrite, which may be short, and the count of bytes, which ignores that. */
    method Append(formatted: string) returns (ghost written: string)
      requires Safe(files, spans, history, maxFiles) && Active in files
      requires failures == 0 ==> StoredIn(files, shelf) && currentSize == |files[Active]|
      modifies `files, `spans, `currentSize, `shelf, `history, `failures
      ensures Safe(files, spans, history, maxFiles) && Active in files && failures >= old(failures)
      ensures written <= formatted && history == old(history) + [written]
      ensures failures == 0 ==>
                && written == formatted
                && StoredIn(files, shelf) && shelf == old(shelf).(active := old(shelf).active + [formatted])
                && currentSize == |files[Active]| == |Concat(shelf.active)| == old(|Concat(shelf.active)|) + |formatted|
    {
      var n: nat :| n <= |formatted|;
      if n < |formatted| { failures := failures + 1; }
      if failures == 0 {
        AppendStores(files, shelf, formatted);
        assert formatted[..n] == formatted;
      }
      AppendBytes(formatted[..n]);
      written := formatted[..n];
      shelf := shelf.(active := shelf.active + [formatted]);
      currentSize := currentSize + |formatted|;
    }

    method AppendAndRotate(formatted: string) returns (ghost written: string)
      requires Safe(files, spans, history, maxFiles) && isOpen && Active in files && LastSucceeded(opens)
      requires failures == 0 ==>
                 StoredIn(files, shelf) && currentSize == |files[Active]| && |shelf.rotated| <= Max(maxFiles, 1)
      modifies this
      ensures Safe(files, spans, history, maxFiles) && (isOpen ==> Active in files) && isOpen == LastSucceeded(opens)
      ensures failures >= old(failures) && written <= formatted && history == old(history) + [written]
      ensures failures == 0 ==>
                && written == formatted && StoredIn(files, shelf) && shelf == Shelve(old(shelf), formatted, maxFileSize, maxFiles)
                && (if isOpen then currentSize == |files[Active]| else shelf.active == [])
    {
      written := Append(formatted);
      if currentSize >= maxFileSize {
        Rotate();
      }
    }

    /** One accepted line: appended, and the file rotated when it has reached its limit. */
    method Accept(formatted: string) returns (ghost written: string)
      requires Valid() && isOpen && (failures == 0 ==> |shelf.rotated| <= Max(maxFiles, 1))
      modifies this
      ensures Valid() && failures >= old(failures) && written <= formatted && history == old(history) + [written]
      ensures failures == 0 ==> written == formatted && shelf == Shelve(old(shelf), formatted, maxFileSize, maxFiles)
    {
      ShelveAllPush(history, formatted, maxFileSize, maxFiles);
      written := AppendAndRotate(formatted);
    }

    /** Appends a line and rotates when the file has reached its limit; ignored while no file is open.
        While nothing fails, the files hold the lines where the rule says, and more than maxFiles rotated
        files exist only if maxFiles is 0 and something was rotated. */
    method Write(formatted: string) returns (ghost written: string)
      requires Valid()
      modifies this
      ensures Valid() && failures >= old(failures) && written <= formatted
      ensures !old(isOpen) ==> unchanged(this)
      ensures old(isOpen) ==> history == old(history) + [written]
      ensures old(isOpen) && failures == 0 ==>
                written == formatted && shelf == Shelve(old(shelf), formatted, maxFileSize, maxFiles)
      ensures failures == 0 ==> (|shelf.rotated| <= maxFiles <==>
                maxFiles >= 1 || (old(shelf.rotated) == [] && !(old(isOpen) && old(|Concat(shelf.active)|) + |formatted| >= maxFileSize)))
    {
      CountRule(history, formatted, maxFileSize, maxFiles);
      written := "";
      if !isOpen { return; }
      written := Accept(formatted);
    }
  }

  /** What the first k lines became: whole lines, or what short writes left of them. */
  predicate AcceptedAs(history: seq<string>, lines: seq<string>, k: nat) {
    |history| == k <= |lines| && forall j :: 0 <= j < k ==> history[j] <= lines[j]
  }

  lemma AcceptedPush(history: seq<string>, lines: seq<string>, k: nat, written: string)
    requires k < |lines| && AcceptedAs(history, lines, k) && written <= lines[k]
    ensures AcceptedAs(history + [written], lines, k + 1)
    ensures history == lines[..k] && written == lines[k] ==> history + [written] == lines[..k + 1]
  {
  }

  method WriteAll(maxFileSize: nat, maxFiles: nat, lines: seq<string>) returns (sink: FileSink, k: nat)
    ensures sink.Valid() && sink.maxFileSize == maxFileSize && sink.maxFiles == maxFiles
    ensures AcceptedAs(sink.history, lines, k) && (k < |lines| ==> !sink.isOpen)
    ensures sink.failures == 0 ==> sink.history == lines[..k]
  {
    sink := new FileSink(maxFileSize, maxFiles);
    k := 0;
    for i := 0 to |lines|
      invariant sink.Valid() && sink.maxFileSize == maxFileSize && sink.maxFiles == maxFiles && fresh(sink)
      invariant k <= i && (k < i ==> !sink.isOpen) && AcceptedAs(sink.history, lines, k)
      invariant sink.failures == 0 ==> sink.history == lines[..k]
    {
      var open := sink.isOpen;
      ghost var before := sink.history;
      ghost var written := sink.Write(lines[i]);
      if open {
        AcceptedPush(before, lines, k, written);
        k := k + 1;
      }
    }
  }

  /** A whole run on a fresh sink.  Some prefix of the lines was accepted, all of them unless the last
      attempt to open a file failed.  Whatever else fails, every file holds consecutive accepted lines
      (or what short writes left of them), older ones under higher numbers.  If nothing failed, the
      files hold exactly the lines the rule says, which is a suffix of the accepted ones, and the last
      attempt to open a file was at the start or right after a rotation. */
  method Log(maxFileSize: nat, maxFiles: nat, lines: seq<string>) returns (sink: FileSink, k: nat)
    ensures sink.Valid() && sink.maxFileSize == maxFileSize && sink.maxFiles == maxFiles
    ensures AcceptedAs(sink.history, lines, k) && (k < |lines| ==> !LastSucceeded(sink.opens))
    ensures Kept(sink.files, sink.spans, sink.history) && Ordered(sink.spans, k) && InRange(sink.spans, maxFiles)
    ensures sink.failures == 0 ==>
              && sink.history == lines[..k] && StoredIn(sink.files, sink.shelf)
              && sink.shelf == ShelveAll(lines[..k], maxFileSize, maxFiles)
              && GoodShelf(sink.shelf, lines[..k], maxFileSize, maxFiles)
              && (k < |lines| ==> sink.shelf.active == [])
  {
    sink, k := WriteAll(maxFileSize, maxFiles, lines);
    RunShelves(lines[..k], maxFileSize, maxFiles);
  }
}
