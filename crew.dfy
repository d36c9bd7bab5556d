/** crew.c: a crew of worker threads that search a directory tree for a
    string. A run starts with one work item (the root path); a worker that
    takes a directory item queues one item per directory entry, and a
    worker that takes a regular file reports whether the file contains the
    string. `work_count` counts the items queued or being processed, and
    the run is over when it drops to zero.

    The file system is a map from path to what lstat, opendir/readdir_r
    and fopen/fgets would give for it. Each region the crew mutex protects
    is one method, except that the processing of one item, with the
    enqueues it makes, is a single step (Process). A thread blocked on a
    condition variable takes no step
    (a step's wait condition is its precondition), and each worker's
    position in its loop is a field of the crew. */
module Crew {

  /** The crew's fixed capacity. */
  const CREW_SIZE := 4
  /** The error number create_crew returns for a crew that is too large. */
  const EINVAL := 22

  /** The kinds of file a worker does not search. */
  datatype SpecialKind = Fifo | CharDevice | BlockDevice | Socket | UnknownKind

  /** What a path names. A directory lists `names`, the entries readdir_r
      returns before the end of the stream or, if `readFails`, before it
      reports an error. A regular file yields `chunks`, the successive
      buffers fgets fills, followed by end of file or, if `readFails`, by
      a read error. `opens` says whether opendir or fopen succeeds. */
  datatype Entry =
    | Symlink
    | Directory(opens: bool, names: seq<string>, readFails: bool)
    | Regular(opens: bool, chunks: seq<string>, readFails: bool)
    | Special(kind: SpecialKind)

  /** Paths that lstat succeeds on, with what they name. */
  type FileSystem = map<string, Entry>

  /** One work item: a path to examine and the run's search string. */
  datatype Work = Work(path: string, search: string)

  /** What a worker reports for one item. */
  datatype Outcome =
    | LinkSkipped
    | Expanded(children: nat, readFailed: bool)
    | DirOpenFailed
    | Found(chunk: nat)
    | NotFound
    | FileReadFailed
    | FileOpenFailed
    | Unsupported(kind: SpecialKind)
    | StatFailed

  /** Where a worker thread is in worker_routine: waiting for the first
      run, waiting for an item, processing an item, done processing and
      about to release it, back from a failed opendir or fopen and about
      to take the `continue`, or gone. */
  datatype WorkerState =
    | Starting
    | Idle
    | Busy(work: Work)
    | Finishing(work: Work)
    | Dropping(work: Work)
    | Exited

  // ---------------------------------------------------------------------
  // Searching one file

  /** strstr: `needle` occurs in `hay`. */
  predicate Contains(hay: string, needle: string) {
    exists i :: 0 <= i <= |hay| - |needle| && needle <= hay[i..]
  }

  /** The outcome of reading a regular file chunk by chunk. */
  datatype ScanResult = Match(chunk: nat) | NoMatch | ReadError

  /** The fgets loop over a regular file: stops at the first chunk that
      contains `search`, so at most one match is reported per file, and
      otherwise reports a read error or, at end of file, nothing. */
  method ScanFile(chunks: seq<string>, readFails: bool, search: string) returns (r: ScanResult)
    ensures r.Match? ==> r.chunk < |chunks| && Contains(chunks[r.chunk], search)
    ensures r.Match? ==> forall j :: 0 <= j < r.chunk ==> !Contains(chunks[j], search)
    ensures !r.Match? ==> forall j :: 0 <= j < |chunks| ==> !Contains(chunks[j], search)
    ensures r.ReadError? ==> readFails
    ensures r.NoMatch? ==> !readFails
  {
    var i := 0;
    while true
      invariant 0 <= i <= |chunks|
      invariant forall j :: 0 <= j < i ==> !Contains(chunks[j], search)
      decreases |chunks| - i
    {
      if i == |chunks| {
        // fgets returned NULL: a read error or the end of the file
        if readFails {
          return ReadError;
        }
        return NoMatch;
      }
      if Contains(chunks[i], search) {
        return Match(i);
      }
      i := i + 1;
    }
  }

  /** What a worker reports for a regular file it could open. */
  ghost predicate ScanReport(chunks: seq<string>, readFails: bool, search: string, outcome: Outcome) {
    match outcome
    case Found(i) =>
      && i < |chunks| && Contains(chunks[i], search)
      && forall j :: 0 <= j < i ==> !Contains(chunks[j], search)
    case NotFound => !readFails && forall j :: 0 <= j < |chunks| ==> !Contains(chunks[j], search)
    case FileReadFailed => readFails && forall j :: 0 <= j < |chunks| ==> !Contains(chunks[j], search)
    case _ => false
  }

  // ---------------------------------------------------------------------
  // Expanding one directory

  /** readdir's entries for the directory itself and its parent. */
  predicate IsDotEntry(name: string) {
    name == "." || name == ".."
  }

  /** The path built for entry `name` of directory `parent`. */
  function ChildPath(parent: string, name: string): (p: string)
    ensures |p| == |parent| + 1 + |name|
  {
    parent + "/" + name
  }

  /** The work items a directory item `w` with entries `names` gives
      rise to, in listing order. */
  function ChildItems(w: Work, names: seq<string>): seq<Work> {
    if names == [] then []
    else
      var last := names[|names| - 1];
      ChildItems(w, names[..|names| - 1])
        + (if IsDotEntry(last) then [] else [Work(ChildPath(w.path, last), w.search)])
  }

  /** The parent's path and the entry name can be read back from a child
      path. */
  lemma ChildPathSplits(parent: string, name: string)
    ensures ChildPath(parent, name)[..|parent| + 1] == parent + "/"
    ensures ChildPath(parent, name)[|parent| + 1..] == name
  {
  }

  /** Expansion skips "." and "..", and makes one item for every other
      entry, with the path parent + "/" + name and the parent's search
      string. */
  lemma {:induction false} ChildItemsAreEntries(w: Work, names: seq<string>)
    ensures forall c :: c in ChildItems(w, names) ==> c.search == w.search
    ensures forall c :: c in ChildItems(w, names) <==>
      exists n :: n in names && !IsDotEntry(n) && c == Work(ChildPath(w.path, n), w.search)
  {
    if names != [] {
      var init, last := names[..|names| - 1], names[|names| - 1];
      ChildItemsAreEntries(w, init);
      assert names == init + [last];
      forall c | c in ChildItems(w, names)
        ensures exists n :: n in names && !IsDotEntry(n) && c == Work(ChildPath(w.path, n), w.search)
      {
        if c in ChildItems(w, init) {
          var n :| n in init && !IsDotEntry(n) && c == Work(ChildPath(w.path, n), w.search);
          assert n in names;
        } else {
          assert c == Work(ChildPath(w.path, last), w.search);
        }
      }
      forall n | n in names && !IsDotEntry(n)
        ensures Work(ChildPath(w.path, n), w.search) in ChildItems(w, names)
      {
        if n in init {
          assert Work(ChildPath(w.path, n), w.search) in ChildItems(w, init);
        } else {
          assert n == last;
        }
      }
    }
  }

  /** The items a worker queues for `x` when the file system is `fs`:
      the children of an openable directory, nothing otherwise. */
  function Listing(fs: FileSystem, x: Work): seq<Work> {
    if x.path in fs && fs[x.path].Directory? && fs[x.path].opens
    then ChildItems(x, fs[x.path].names)
    else []
  }

  /** All the children of `x` are in `s`. */
  ghost predicate ChildrenIn(fs: FileSystem, x: Work, s: set<Work>) {
    forall c :: c in Listing(fs, x) ==> c in s
  }

  /** Every item in `s` has all of its children in `s`. */
  ghost predicate Closed(fs: FileSystem, s: set<Work>) {
    forall x :: x in s ==> ChildrenIn(fs, x, s)
  }

  /** `walk` leads from `root` down the tree, each item a child of the
      one before it. */
  ghost predicate WalkFrom(fs: FileSystem, root: Work, walk: seq<Work>) {
    && |walk| >= 1 && walk[0] == root
    && forall i :: 0 <= i < |walk| - 1 ==> walk[i + 1] in Listing(fs, walk[i])
  }

  /** A closed set that holds the root holds every item reachable from
      it. */
  lemma {:induction false} ClosedHoldsWalks(fs: FileSystem, s: set<Work>, root: Work, walk: seq<Work>)
    requires Closed(fs, s) && root in s
    requires WalkFrom(fs, root, walk)
    ensures walk[|walk| - 1] in s
  {
    if |walk| > 1 {
      var prefix := walk[..|walk| - 1];
      assert WalkFrom(fs, root, prefix);
      ClosedHoldsWalks(fs, s, root, prefix);
      assert walk[|walk| - 1] in Listing(fs, walk[|walk| - 2]);
    }
  }

  // ---------------------------------------------------------------------
  // The items the workers hold

  /** The item a worker in state `s` holds, if any. */
  function HeldItem(s: WorkerState): seq<Work> {
    if s.Busy? || s.Finishing? || s.Dropping? then [s.work] else []
  }

  /** The items the workers `ws` hold, one per holding worker. */
  function HeldItems(ws: seq<WorkerState>): seq<Work> {
    if ws == [] then [] else HeldItem(ws[0]) + HeldItems(ws[1..])
  }

  /** Changing one worker's state changes the held items by what that
      worker held before and holds after. */
  lemma {:induction false} HeldItemsUpdate(ws: seq<WorkerState>, w: nat, s: WorkerState)
    requires w < |ws|
    ensures |HeldItems(ws[w := s])| + |HeldItem(ws[w])| == |HeldItems(ws)| + |HeldItem(s)|
    ensures forall x :: x in HeldItems(ws) ==> x in HeldItems(ws[w := s]) || x in HeldItem(ws[w])
    ensures forall x :: x in HeldItems(ws[w := s]) ==> x in HeldItems(ws) || x in HeldItem(s)
    ensures forall x :: x in HeldItem(s) ==> x in HeldItems(ws[w := s])
  {
    var t := ws[w := s];
    if w > 0 {
      assert t[0] == ws[0] && ws[1..][w - 1] == ws[w];
      assert t[1..] == ws[1..][w - 1 := s];
      HeldItemsUpdate(ws[1..], w - 1, s);
    } else {
      assert t[1..] == ws[1..];
    }
  }

  /** Workers that hold nothing hold nothing. */
  lemma {:induction false} NoneHeld(ws: seq<WorkerState>)
    requires forall i :: 0 <= i < |ws| ==> !ws[i].Busy? && !ws[i].Finishing? && !ws[i].Dropping?
    ensures HeldItems(ws) == []
  {
    if ws != [] {
      NoneHeld(ws[1..]);
    }
  }

  /** A worker at a processing stage holds its item. */
  lemma {:induction false} HoldersAreCounted(ws: seq<WorkerState>, w: nat)
    requires w < |ws| && (ws[w].Busy? || ws[w].Finishing? || ws[w].Dropping?)
    ensures ws[w].work in HeldItems(ws)
  {
    if w > 0 {
      assert ws[1..][w - 1] == ws[w];
      HoldersAreCounted(ws[1..], w - 1);
    }
  }

  /** When no item is held, no worker is processing one. */
  lemma EmptyHands(ws: seq<WorkerState>)
    requires HeldItems(ws) == []
    ensures forall i :: 0 <= i < |ws| ==> !ws[i].Busy? && !ws[i].Finishing? && !ws[i].Dropping?
  {
    forall i | 0 <= i < |ws| && (ws[i].Busy? || ws[i].Finishing? || ws[i].Dropping?)
      ensures false
    {
      HoldersAreCounted(ws, i);
    }
  }

  /** What a worker reports for item `x` when its path names `e`. */
  ghost predicate Reports(e: Entry, x: Work, outcome: Outcome) {
    match e
    case Symlink => outcome == LinkSkipped
    case Directory(opens, names, readFails) =>
      if opens then outcome == Expanded(|ChildItems(x, names)|, readFails)
      else outcome == DirOpenFailed
    case Regular(opens, chunks, readFails) =>
      if opens then ScanReport(chunks, readFails, x.search, outcome)
      else outcome == FileOpenFailed
    case Special(kind) => outcome == Unsupported(kind)
  }

  /** The outcomes after which worker_routine takes the `continue` that
      skips the decrement. */
  predicate OpenFailed(outcome: Outcome) {
    outcome == DirOpenFailed || outcome == FileOpenFailed
  }

  // ---------------------------------------------------------------------
  // The crew

  class Crew {
    /** The size the crew was created with. */
    var crewSize: int
    /** The number of items queued or being processed. */
    var workCount: int
    /** The work queue, `first` to `last`. */
    var queue: seq<Work>
    /** Each worker thread's position in worker_routine. */
    var workers: seq<WorkerState>
    /** The file system the current run searches. */
    ghost var tree: FileSystem
    /** The current run's root item. */
    ghost var root: Work
    /** Whether a run has been started and not yet awaited. */
    ghost var running: bool
    /** The items created in the current run. */
    ghost var issued: set<Work>
    /** The items released (counted down) in the current run. */
    ghost var retired: set<Work>
    /** The items a worker dropped without counting them down. */
    ghost var dropped: seq<Work>

    /** The count is the number of items queued, held by a worker or
        dropped, and the items created in the run are exactly those
        queued, held, released or dropped. */
    ghost predicate Accounted(ws: seq<WorkerState>)
      reads this
    {
      && |ws| == CREW_SIZE
      && workCount == |queue| + |HeldItems(ws)| + |dropped|
      && (running ==> root in issued)
      && forall x :: x in issued <==> x in queue || x in HeldItems(ws) || x in retired || x in dropped
    }

    /** Every released item, and every item a worker is about to release,
        has had all its children created. */
    ghost predicate Covered(ws: seq<WorkerState>)
      reads this
    {
      && (forall x :: x in retired ==> ChildrenIn(tree, x, issued))
      && (forall i :: 0 <= i < |ws| && (ws[i].Finishing? || ws[i].Dropping?) ==>
            ChildrenIn(tree, ws[i].work, issued))
    }

    ghost predicate Valid()
      reads this
    {
      Accounted(workers) && Covered(workers)
    }

    /** A busy worker all of whose item's children have been created can
        move on to the decrement or to the `continue` and keep the
        invariant. */
    lemma Settles(w: nat, next: WorkerState)
      requires Valid() && w < |workers| && workers[w].Busy?
      requires next == Finishing(workers[w].work) || next == Dropping(workers[w].work)
      requires ChildrenIn(tree, workers[w].work, issued)
      ensures Accounted(workers[w := next]) && Covered(workers[w := next])
    {
      HoldersAreCounted(workers, w);
      HeldItemsUpdate(workers, w, next);
    }

    /** create_crew. A size above the capacity is refused with EINVAL
        before anything is touched. Otherwise the count is zero, the queue
        empty, and CREW_SIZE workers wait for the first run (the loop
        starts CREW_SIZE threads whatever the requested size). */
    method Create(crewSize: int) returns (status: int)
      modifies this
      ensures crewSize > CREW_SIZE ==> status == EINVAL && unchanged(this)
      ensures crewSize <= CREW_SIZE ==>
        && status == 0 && Valid()
        && this.crewSize == crewSize && workCount == 0 && queue == []
        && workers == seq(CREW_SIZE, _ => Starting) && !running
    {
      if crewSize > CREW_SIZE {
        return EINVAL;
      }
      this.crewSize := crewSize;
      workCount := 0;
      queue := [];
      workers := seq(CREW_SIZE, _ => Starting);
      NoneHeld(workers);
      running := false;
      issued, retired, dropped := {}, {}, [];
      status := 0;
    }

    /** Appending an item at the tail of the queue (an empty queue makes
        it both first and last) and counting it. */
    method Enqueue(item: Work)
      requires Valid()
      modifies this`queue, this`workCount, this`issued
      ensures Valid()
      ensures queue == old(queue) + [item] && workCount == old(workCount) + 1
      ensures issued == old(issued) + {item}
    {
      queue := queue + [item];
      workCount := workCount + 1;
      issued := issued + {item};
    }

    /** crew_start up to its final wait. Once no run is active it queues
        the root item, so the count becomes one. If signalling the workers
        fails (`signalStatus` is not 0), it frees the item, empties the
        queue, zeroes the count and returns that status. The pathconf
        limits it computes are not modelled, and with them neither the
        unchecked copy of a child path into a `path_max` buffer nor the
        race in which a worker sizes its directory-entry buffer before
        `name_max` is set. */
    method Start(path: string, search: string, signalStatus: int, ghost fs: FileSystem)
      returns (status: int)
      requires Valid() && workCount == 0
      modifies this`tree, this`root, this`issued, this`retired, this`queue, this`workCount, this`running
      ensures Valid() && workers == old(workers) && dropped == []
      ensures status == signalStatus
      ensures status == 0 ==>
        && queue == [Work(path, search)] && workCount == 1
        && running && root == Work(path, search) && tree == fs
        && issued == {root} && retired == {}
      ensures status != 0 ==> queue == [] && workCount == 0
    {
      EmptyHands(workers);
      tree := fs;
      root := Work(path, search);
      issued, retired := {root}, {};
      queue := [Work(path, search)];
      workCount := 1;
      running := true;
      if signalStatus != 0 {
        queue := [];
        workCount := 0;
        issued := {};
        running := false;
        return signalStatus;
      }
      status := 0;
    }

    /** The end of crew_start: once the count is zero it returns 0. At
        that point nothing is queued, held or dropped, every item created
        in the run has been released, and so every item reachable from
        the root has been processed. */
    method AwaitDone() returns (status: int)
      requires Valid() && running && workCount == 0
      ensures status == 0
      ensures queue == [] && HeldItems(workers) == [] && dropped == []
      ensures retired == issued && root in retired
      ensures forall walk :: WalkFrom(tree, root, walk) ==> walk[|walk| - 1] in retired
    {
      assert retired == issued;
      forall walk | WalkFrom(tree, root, walk)
        ensures walk[|walk| - 1] in retired
      {
        ClosedHoldsWalks(tree, retired, root, walk);
      }
      status := 0;
    }

    /** A new worker's first wait: once the count is non-zero it enters
        its loop. */
    method Begin(w: nat)
      requires Valid() && w < |workers| && workers[w] == Starting && workCount != 0
      modifies this`workers
      ensures Valid() && workers == old(workers)[w := Idle]
    {
      HeldItemsUpdate(workers, w, Idle);
      workers := workers[w := Idle];
    }

    /** The top of the worker loop: once the queue is non-empty the worker
        unlinks its head and holds it. The count does not change: the item
        is now in flight. */
    method Dequeue(w: nat) returns (work: Work)
      requires Valid() && w < |workers| && workers[w] == Idle && queue != []
      modifies this`queue, this`workers
      ensures Valid()
      ensures work == old(queue)[0] && queue == old(queue)[1..]
      ensures workers == old(workers)[w := Busy(work)]
    {
      work := queue[0];
      assert queue == [work] + queue[1..];
      HeldItemsUpdate(workers, w, Busy(work));
      queue := queue[1..];
      workers := workers[w := Busy(work)];
    }

    /** The worker's processing of the item it holds: lstat classifies the
        path. A symbolic link is not followed; a directory has one item
        queued per entry other than "." and ".."; a regular file is
        searched; anything else is reported by type. A failed lstat aborts
        the whole process, and nothing further happens. After a failed
        opendir or fopen the worker is left about to take the `continue`;
        after any other outcome, about to release the item. */
    method Process(w: nat, fs: FileSystem) returns (outcome: Outcome)
      requires Valid() && w < |workers| && workers[w].Busy? && fs == tree
      modifies this`queue, this`workCount, this`issued, this`workers
      ensures Valid()
      ensures var x := old(workers[w]).work;
        && queue == old(queue) + Listing(fs, x)
        && workCount == old(workCount) + |Listing(fs, x)|
        && (x.path !in fs <==> outcome == StatFailed)
        && workers == (if x.path !in fs then old(workers)
                       else if OpenFailed(outcome) then old(workers)[w := Dropping(x)]
                       else old(workers)[w := Finishing(x)])
        && (x.path in fs ==> Reports(fs[x.path], x, outcome))
    {
      var x := workers[w].work;
      if x.path !in fs {
        return StatFailed;
      }
      match fs[x.path] {
        case Symlink =>
          outcome := LinkSkipped;
        case Directory(opens, names, readFails) =>
          if !opens {
            outcome := DirOpenFailed;
          } else {
            Expand(w, names);
            outcome := Expanded(|ChildItems(x, names)|, readFails);
          }
        case Regular(opens, chunks, readFails) =>
          if !opens {
            outcome := FileOpenFailed;
          } else {
            var r := ScanFile(chunks, readFails, x.search);
            outcome := match r
              case Match(i) => Found(i)
              case NoMatch => NotFound
              case ReadError => FileReadFailed;
          }
        case Special(kind) =>
          outcome := Unsupported(kind);
      }
      // The worker now holds a processed item whose children (if any)
      // are all created: it heads for the `continue` if opening it
      // failed and for the decrement otherwise.
      var next := if OpenFailed(outcome) then Dropping(x) else Finishing(x);
      Settles(w, next);
      workers := workers[w := next];
    }

    /** The readdir_r loop for the directory item worker `w` holds: every
        entry but "." and ".." becomes an item whose path is the
        directory's path, "/" and the entry name, with the same search
        string, and is queued and counted before the directory item itself
        is released. */
    method Expand(w: nat, names: seq<string>)
      requires Valid() && w < |workers| && workers[w].Busy?
      modifies this`queue, this`workCount, this`issued
      ensures Valid()
      ensures queue == old(queue) + ChildItems(workers[w].work, names)
      ensures workCount == old(workCount) + |ChildItems(workers[w].work, names)|
      ensures old(issued) <= issued
      ensures forall c :: c in ChildItems(workers[w].work, names) ==> c in issued
    {
      var x := workers[w].work;
      var i := 0;
      while i < |names|
        invariant 0 <= i <= |names| && Valid()
        invariant queue == old(queue) + ChildItems(x, names[..i])
        invariant workCount == old(workCount) + |ChildItems(x, names[..i])|
        invariant old(issued) <= issued
        invariant forall c :: c in ChildItems(x, names[..i]) ==> c in issued
      {
        var name := names[i];
        assert names[..i + 1][..i] == names[..i];
        if !IsDotEntry(name) {
          var child := Work(ChildPath(x.path, name), x.search);
          Enqueue(child);
        }
        i := i + 1;
      }
      assert names[..i] == names;
    }

    /** The decrement at the end of the worker loop: the worker releases
        its item. The worker that brings the count to zero signals the run
        as done and leaves its loop; any other goes back for more work. */
    method Finish(w: nat) returns (exited: bool)
      requires Valid() && w < |workers| && workers[w].Finishing?
      modifies this`workCount, this`retired, this`workers
      ensures Valid()
      ensures workCount == old(workCount) - 1
      ensures retired == old(retired) + {old(workers[w]).work}
      ensures exited <==> workCount == 0
      ensures workers == old(workers)[w := if exited then Exited else Idle]
    {
      var x := workers[w].work;
      HoldersAreCounted(workers, w);
      assert ChildrenIn(tree, x, issued);
      workCount := workCount - 1;
      retired := retired + {x};
      exited := workCount == 0;
      var next := if exited then Exited else Idle;
      HeldItemsUpdate(workers, w, next);
      workers := workers[w := next];
    }

    /** The `continue` taken when opendir or fopen fails: the worker goes
        back to the top of its loop without the decrement, so the item is
        never counted down. */
    method Abandon(w: nat)
      requires Valid() && w < |workers| && workers[w].Dropping?
      modifies this`dropped, this`workers
      ensures Valid()
      ensures workers == old(workers)[w := Idle]
      ensures dropped == old(dropped) + [old(workers[w]).work]
      ensures workCount == old(workCount)
    {
      var x := workers[w].work;
      HoldersAreCounted(workers, w);
      dropped := dropped + [x];
      HeldItemsUpdate(workers, w, Idle);
      workers := workers[w := Idle];
    }

    /** The evidently intended handling of a failed opendir or fopen: no
        `continue`, so the worker falls through to the decrement like
        after any other outcome. */
    method FallThrough(w: nat)
      requires Valid() && w < |workers| && workers[w].Dropping?
      modifies this`workers
      ensures Valid()
      ensures workers == old(workers)[w := Finishing(old(workers[w]).work)]
      ensures workCount == old(workCount)
    {
      var x := workers[w].work;
      HoldersAreCounted(workers, w);
      HeldItemsUpdate(workers, w, Finishing(x));
      workers := workers[w := Finishing(x)];
    }
  }

  /** While an item is dropped the count cannot reach zero, so the run's
      final wait never ends. */
  lemma DroppedItemBlocksDone(c: Crew)
    requires c.Valid() && c.dropped != []
    ensures c.workCount > 0
  {
  }

  /** main up to crew_start's final wait: a crew of CREW_SIZE workers,
      none started yet, with the root item queued and counted. */
  method StartSearch(path: string, search: string, fs: FileSystem) returns (crew: Crew)
    ensures fresh(crew) && crew.Valid() && crew.running
    ensures crew.tree == fs && crew.root == Work(path, search)
    ensures crew.queue == [Work(path, search)] && crew.workCount == 1
    ensures crew.workers == seq(CREW_SIZE, _ => Starting) && crew.dropped == []
  {
    crew := new Crew;
    var status := crew.Create(CREW_SIZE);
    status := crew.Start(path, search, 0, fs);
  }

  /** As written, a run whose root is a directory that cannot be opened
      never ends. Processing leaves the worker headed for the `continue`
      (`Dropping`), where the decrement of Finish is not enabled; the only
      step left drops the root, after which nothing is queued and no
      worker holds an item, yet the count stays at one, so no worker can
      ever decrement it and crew_start waits forever. */
  method UnopenableRootAsWritten()
    returns (outcome: Outcome, afterOpen: WorkerState, count: int, queued: nat, held: nat)
    ensures outcome == DirOpenFailed && afterOpen == Dropping(Work("top", "needle"))
    ensures count == 1 && queued == 0 && held == 0
  {
    var fs := map["top" := Directory(false, [], false)];
    var crew := StartSearch("top", "needle", fs);
    crew.Begin(0);
    var work := crew.Dequeue(0);
    outcome := crew.Process(0, fs);
    afterOpen := crew.workers[0];
    crew.Abandon(0);
    count, queued, held := crew.workCount, |crew.queue|, |HeldItems(crew.workers)|;
  }

  /** With the `continue` removed, so that the item is released even when
      opening fails, the same run ends: the count reaches zero, the worker
      that took the root leaves its loop, and crew_start returns 0. */
  method UnopenableRootCorrected() returns (outcome: Outcome, exited: bool, status: int)
    ensures outcome == DirOpenFailed
    ensures exited && status == 0
  {
    var fs := map["top" := Directory(false, [], false)];
    var crew := StartSearch("top", "needle", fs);
    crew.Begin(0);
    var work := crew.Dequeue(0);
    outcome := crew.Process(0, fs);
    crew.FallThrough(0);
    exited := crew.Finish(0);
    status := crew.AwaitDone();
  }
}
