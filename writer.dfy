/** The DL2 writer's driver: the input file list, the `force_mode` choice,
    the append-only output table, and the nested file/event loop with its
    cooperative stop flag. */
module Dl2Writer {
  import opened Schema
  import opened FileOrder
  import opened Reconstruction

  // ---------------------------------------------------------------------
  // Command line and configuration

  datatype Args = Args(indir: string, infileList: seq<string>, mode: string, forceTailcut: bool)

  /** The `General` section of the configuration, as far as this core sets it. */
  datatype General = General(site: string, arrayName: string, forceTailcut: bool, forceMode: string)

  /** The configuration records the flag and, unconditionally, the mode
      `"tail"`. */
  function Configure(g: General, args: Args): (g': General)
    ensures g'.site == g.site && g'.arrayName == g.arrayName
    ensures g'.forceTailcut == args.forceTailcut && g'.forceMode == "tail"
  {
    g.(forceTailcut := args.forceTailcut, forceMode := "tail")
  }

  /** The mode under which the model files are loaded: `"tail"` when the
      tail-cut flag is set, the command-line mode otherwise. */
  function ForceMode(args: Args): (m: string)
    ensures args.forceTailcut ==> m == "tail"
    ensures !args.forceTailcut ==> m == args.mode
  {
    if args.forceTailcut then "tail" else args.mode
  }

  /** The mode written into the configuration and the mode used for the
      model files agree exactly when the flag is set or the command-line mode
      is already `"tail"`. */
  lemma ConfiguredModeAgreement(g: General, args: Args)
    ensures Configure(g, args).forceMode == ForceMode(args) <==> args.forceTailcut || args.mode == "tail"
  {
  }

  // ---------------------------------------------------------------------
  // Input file list

  /** The path handed to `glob` for one pattern. */
  function PatternPath(indir: string, pattern: string): string
  {
    indir + "/" + pattern
  }

  /** The names matched by the patterns, pattern by pattern, each pattern's
      matches in the order `glob` returns them. */
  function Matched(indir: string, patterns: seq<string>, glob: string -> seq<string>): seq<string>
  {
    if patterns == [] then []
    else Matched(indir, patterns[..|patterns| - 1], glob) + glob(PatternPath(indir, patterns[|patterns| - 1]))
  }

  /** A name is in the list exactly when some pattern matched it. */
  lemma {:induction false} MatchedMembers(indir: string, patterns: seq<string>, glob: string -> seq<string>, name: string)
    ensures name in Matched(indir, patterns, glob) <==>
      exists k :: 0 <= k < |patterns| && name in glob(PatternPath(indir, patterns[k]))
  {
    if patterns != [] {
      var init := patterns[..|patterns| - 1];
      MatchedMembers(indir, init, glob, name);
      if name in Matched(indir, patterns, glob) {
        if name !in Matched(indir, init, glob) {
          assert name in glob(PatternPath(indir, patterns[|patterns| - 1]));
        } else {
          var k :| 0 <= k < |init| && name in glob(PatternPath(indir, init[k]));
          assert init[k] == patterns[k];
        }
      }
      if exists k :: 0 <= k < |patterns| && name in glob(PatternPath(indir, patterns[k])) {
        var k :| 0 <= k < |patterns| && name in glob(PatternPath(indir, patterns[k]));
        if k < |init| {
          assert init[k] == patterns[k];
        }
      }
    }
  }

  /** The sorted input list. */
  function InputFiles(args: Args, glob: string -> seq<string>): seq<string>
  {
    SortStrings(Matched(args.indir, args.infileList, glob))
  }

  /** How the start-up ends: with the file list, with the "no files found"
      exit, or (as written) with the list never bound. */
  datatype Startup = Files(names: seq<string>) | NoFilesFound | UnboundFileList

  /** The file-list step as intended: an empty list, whether no pattern was
      given or none matched, ends the run before any event. */
  function InputList(args: Args, glob: string -> seq<string>): (r: Startup)
    ensures !r.UnboundFileList?
    ensures r.NoFilesFound? <==> Matched(args.indir, args.infileList, glob) == []
    ensures r.Files? ==> Sorted(r.names) && multiset(r.names) == multiset(Matched(args.indir, args.infileList, glob))
  {
    var names := InputFiles(args, glob);
    SortStringsCorrect(Matched(args.indir, args.infileList, glob));
    if names == [] then NoFilesFound else Files(names)
  }

  /** The file-list step as written: the list is only bound when some pattern
      was given, so with none the emptiness test reads an unbound name. */
  function InputListAsWritten(args: Args, glob: string -> seq<string>): (r: Startup)
    ensures r.UnboundFileList? <==> args.infileList == []
    ensures args.infileList != [] ==> r == InputList(args, glob)
  {
    if args.infileList != [] then InputList(args, glob) else UnboundFileList
  }

  /** Without any pattern the written code fails where the intended one
      reports that no files were found. */
  lemma NoPatternsDiverge(indir: string, mode: string, flag: bool, glob: string -> seq<string>)
    ensures InputListAsWritten(Args(indir, [], mode, flag), glob) == UnboundFileList
    ensures InputList(Args(indir, [], mode, flag), glob) == NoFilesFound
  {
  }

  /** The file-list loop: the matches of every pattern concatenated, then
      sorted. */
  method CollectInputFiles(indir: string, patterns: seq<string>, glob: string -> seq<string>)
    returns (filenames: seq<string>)
    ensures filenames == SortStrings(Matched(indir, patterns, glob))
    ensures Sorted(filenames) && multiset(filenames) == multiset(Matched(indir, patterns, glob))
  {
    filenames := [];
    for i := 0 to |patterns|
      invariant filenames == Matched(indir, patterns[..i], glob)
    {
      assert patterns[..i + 1][..i] == patterns[..i];
      filenames := filenames + glob(PatternPath(indir, patterns[i]));
    }
    assert patterns[..|patterns|] == patterns;
    SortStringsCorrect(filenames);
    filenames := SortStrings(filenames);
  }

  // ---------------------------------------------------------------------
  // Output table

  /** The `reco_events` table: rows appended so far, and how many of them a
      flush has written out. */
  class RecoTable {
    var rows: seq<Row>
    var flushed: nat

    ghost predicate Valid()
      reads this
    {
      flushed <= |rows|
    }

    /** The rows already written to storage. */
    function Durable(): seq<Row>
      reads this
      requires Valid()
    {
      rows[..flushed]
    }

    constructor ()
      ensures Valid() && rows == [] && flushed == 0
    {
      rows := [];
      flushed := 0;
    }

    /** `row.append()`: the row joins the buffer; nothing is written yet. */
    method Append(r: Row)
      requires Valid()
      modifies this
      ensures Valid()
      ensures rows == old(rows) + [r] && flushed == old(flushed)
      ensures Durable() == old(Durable())
    {
      rows := rows + [r];
    }

    /** `flush()`: every buffered row is written. */
    method Flush()
      requires Valid()
      modifies this
      ensures Valid()
      ensures rows == old(rows) && flushed == |rows|
      ensures Durable() == rows
    {
      flushed := |rows|;
    }
  }

  // ---------------------------------------------------------------------
  // Reference semantics of the file/event loop

  /** The event sequences of the named files, as the preparer yields them. */
  function Sources(names: seq<string>, eventsOf: string -> seq<Event>): (files: seq<seq<Event>>)
    ensures |files| == |names|
    ensures forall k :: 0 <= k < |names| ==> files[k] == eventsOf(names[k])
  {
    seq(|names|, k requires 0 <= k < |names| => eventsOf(names[k]))
  }

  predicate EventsOk(env: Env, evs: seq<Event>)
  {
    forall j :: 0 <= j < |evs| ==> Reconstructible(env, evs[j])
  }

  predicate FilesOk(env: Env, files: seq<seq<Event>>)
  {
    forall i :: 0 <= i < |files| ==> EventsOk(env, files[i])
  }

  /** One row per event, in event order. */
  function RowsOf(env: Env, evs: seq<Event>): (rs: seq<Row>)
    requires EventsOk(env, evs)
    ensures |rs| == |evs|
  {
    if evs == [] then [] else [RowOf(env, evs[0])] + RowsOf(env, evs[1..])
  }

  /** Row `j` is the row of event `j`. */
  lemma {:induction false} RowsOfAt(env: Env, evs: seq<Event>, j: nat)
    requires EventsOk(env, evs) && j < |evs|
    ensures RowsOf(env, evs)[j] == RowOf(env, evs[j])
  {
    if j > 0 {
      RowsOfAt(env, evs[1..], j - 1);
    }
  }

  /** The rows of each file's events, file by file. */
  function FileRows(env: Env, files: seq<seq<Event>>): (rss: seq<seq<Row>>)
    requires FilesOk(env, files)
    ensures |rss| == |files|
    ensures forall k :: 0 <= k < |files| ==> rss[k] == RowsOf(env, files[k])
  {
    seq(|files|, k requires 0 <= k < |files| => RowsOf(env, files[k]))
  }

  /** The rows of all files, in file order and then event order. */
  function Flatten(rss: seq<seq<Row>>): seq<Row>
  {
    if rss == [] then [] else rss[0] + Flatten(rss[1..])
  }

  /** The rows written when `cur` holds the rows of the events still to come
      in the current file, `later` the rows of the files after it, and the
      stop flag is read for the `t`-th time next (`sig(t)` is its value at
      that read). The flag is read after each event's row and after each
      file. */
  function Continue(cur: seq<Row>, later: seq<seq<Row>>, sig: nat -> bool, t: nat): seq<Row>
    decreases |later|, 2, |cur|
  {
    if cur == [] then AfterFile(later, sig, t)
    else
      var rest := if sig(t) then AfterFile(later, sig, t + 1)
                  else Continue(cur[1..], later, sig, t + 1);
      [cur[0]] + rest
  }

  /** The rows still to come at the check after a file. */
  function AfterFile(later: seq<seq<Row>>, sig: nat -> bool, t: nat): seq<Row>
    decreases |later|, 1, 0
  {
    if sig(t) then [] else RunFrom(later, sig, t + 1)
  }

  /** The rows produced by the loop over the files, starting at read `t`. */
  function RunFrom(files: seq<seq<Row>>, sig: nat -> bool, t: nat): seq<Row>
    decreases |files|, 0, 0
  {
    if files == [] then [] else Continue(files[0], files[1..], sig, t)
  }

  /** The signal handler only ever raises the flag: once read up, it stays up. */
  ghost predicate Latching(sig: nat -> bool)
  {
    forall u: nat :: sig(u) ==> sig(u + 1)
  }

  predicate IsPrefix(a: seq<Row>, b: seq<Row>)
  {
    |a| <= |b| && a == b[..|a|]
  }

  /** Whenever the flag latches, the output is a prefix of the
      one-row-per-event sequence: rows are never reordered, skipped or
      duplicated. */
  lemma {:induction false} ContinueIsPrefix(cur: seq<Row>, later: seq<seq<Row>>, sig: nat -> bool, t: nat)
    requires Latching(sig)
    ensures IsPrefix(Continue(cur, later, sig, t), cur + Flatten(later))
    decreases |later|, 2, |cur|
  {
    if cur == [] {
      assert cur + Flatten(later) == Flatten(later);
      AfterFileIsPrefix(later, sig, t);
    } else {
      assert cur + Flatten(later) == [cur[0]] + (cur[1..] + Flatten(later));
      if sig(t) {
        assert sig(t + 1);
        assert Continue(cur, later, sig, t) == [cur[0]];
      } else {
        ContinueIsPrefix(cur[1..], later, sig, t + 1);
      }
    }
  }

  lemma {:induction false} AfterFileIsPrefix(later: seq<seq<Row>>, sig: nat -> bool, t: nat)
    requires Latching(sig)
    ensures IsPrefix(AfterFile(later, sig, t), Flatten(later))
    decreases |later|, 1, 0
  {
    if !sig(t) {
      RunFromIsPrefix(later, sig, t + 1);
    }
  }

  lemma {:induction false} RunFromIsPrefix(files: seq<seq<Row>>, sig: nat -> bool, t: nat)
    requires Latching(sig)
    ensures IsPrefix(RunFrom(files, sig, t), Flatten(files))
    decreases |files|, 0, 0
  {
    if files != [] {
      ContinueIsPrefix(files[0], files[1..], sig, t);
    }
  }

  /** With the flag never raised, every remaining row of the current file and
      of the later files is written, in order. */
  lemma {:induction false} NeverStoppedContinue(cur: seq<Row>, later: seq<seq<Row>>, sig: nat -> bool, t: nat)
    requires forall u :: !sig(u)
    ensures Continue(cur, later, sig, t) == cur + Flatten(later)
    decreases |later|, 2, |cur|
  {
    if cur == [] {
      assert cur + Flatten(later) == Flatten(later);
      assert Continue(cur, later, sig, t) == RunFrom(later, sig, t + 1);
      if later != [] {
        NeverStoppedContinue(later[0], later[1..], sig, t + 1);
      }
    } else {
      NeverStoppedContinue(cur[1..], later, sig, t + 1);
      Associative([cur[0]], cur[1..], Flatten(later));
      assert cur == [cur[0]] + cur[1..];
    }
  }

  /** The record-count invariant: without a stop, the table holds exactly one
      row per event read, in file order and then event order. */
  lemma NeverStoppedWritesAll(env: Env, files: seq<seq<Event>>, sig: nat -> bool)
    requires FilesOk(env, files)
    requires forall u :: !sig(u)
    ensures RunFrom(FileRows(env, files), sig, 0) == Flatten(FileRows(env, files))
  {
    var rss := FileRows(env, files);
    if rss != [] {
      NeverStoppedContinue(rss[0], rss[1..], sig, 0);
    }
  }

  /** Once the flag is up (and the handler never lowers it), the event in
      progress still gets its row and nothing after it is processed: no
      further event of the file, and no further file. */
  lemma StopKeepsOnlyCurrentRow(cur: seq<Row>, later: seq<seq<Row>>, sig: nat -> bool, t: nat)
    requires forall u :: t <= u ==> sig(u)
    ensures Continue(cur, later, sig, t) == if cur == [] then [] else [cur[0]]
  {
    assert sig(t) && sig(t + 1);
  }

  /** Raised before the run starts, the flag lets through at most the row of
      the first event of the first file. */
  lemma StopBeforeRun(env: Env, files: seq<seq<Event>>, sig: nat -> bool)
    requires FilesOk(env, files)
    requires forall u :: sig(u)
    ensures RunFrom(FileRows(env, files), sig, 0) ==
      if files == [] || files[0] == [] then [] else [RowOf(env, files[0][0])]
  {
    var rss := FileRows(env, files);
    if files != [] {
      StopKeepsOnlyCurrentRow(rss[0], rss[1..], sig, 0);
    }
  }

  lemma Associative(a: seq<Row>, b: seq<Row>, c: seq<Row>)
    ensures (a + b) + c == a + (b + c)
  {
  }

  /** The rows of a file's loop when it leaves after `k` events: the first
      `k` rows, then whatever comes at the check after the file. It leaves
      after `k` events when the first `k - 1` reads were down and either the
      `k`-th read was up or the file has no more events. */
  lemma {:induction false} ContinueLeavesAfter(cur: seq<Row>, later: seq<seq<Row>>, sig: nat -> bool, t: nat, k: nat)
    requires 1 <= k <= |cur|
    requires forall u :: t <= u < t + k - 1 ==> !sig(u)
    requires sig(t + k - 1) || k == |cur|
    ensures Continue(cur, later, sig, t) == cur[..k] + AfterFile(later, sig, t + k)
    decreases k
  {
    var after := AfterFile(later, sig, t + k);
    if k == 1 {
      assert cur[..1] == [cur[0]];
      if !sig(t) {
        assert cur[1..] == [];
        assert Continue(cur[1..], later, sig, t + 1) == after;
      }
    } else {
      assert !sig(t);
      ContinueLeavesAfter(cur[1..], later, sig, t + 1, k - 1);
      assert Continue(cur, later, sig, t) == [cur[0]] + (cur[1..][..k - 1] + after);
      Associative([cur[0]], cur[1..][..k - 1], after);
      assert [cur[0]] + cur[1..][..k - 1] == cur[..k];
    }
  }

  /** How the loop over a file whose events have the rows `cur` ends when it
      started at read `t0` and the next read is `t`: it appended the first
      `t - t0` rows to `start`, every read before the last was down, and it
      stopped before the end of the file only on a read that was up. */
  predicate LeftFileAt(start: seq<Row>, rows: seq<Row>, cur: seq<Row>, sig: nat -> bool, t0: nat, t: nat)
  {
    t0 <= t <= t0 + |cur| &&
    rows == start + cur[..t - t0] &&
    (forall u :: t0 <= u < t - 1 ==> !sig(u)) &&
    (cur != [] ==> t > t0) &&
    (t < t0 + |cur| ==> t > t0 && sig(t - 1))
  }

  /** A file loop that appended the first `k` rows and then left, after a
      read that was up or at the end of the file, meets the reference
      definition: what it appended, followed by what comes at the check
      after the file, is everything `Continue` produces. */
  lemma LeftAfter(rows: seq<Row>, start: seq<Row>, cur: seq<Row>, later: seq<seq<Row>>, sig: nat -> bool, t: nat, k: nat)
    requires 1 <= k <= |cur| && rows == start + cur[..k]
    requires forall u :: t <= u < t + k - 1 ==> !sig(u)
    requires sig(t + k - 1) || k == |cur|
    ensures rows + AfterFile(later, sig, t + k) == start + Continue(cur, later, sig, t)
    ensures LeftFileAt(start, rows, cur, sig, t, t + k)
  {
    ContinueLeavesAfter(cur, later, sig, t, k);
    Associative(start, cur[..k], AfterFile(later, sig, t + k));
  }

  // ---------------------------------------------------------------------
  // The loops

  /** One event: its row is built, the table flushed, and the row appended,
      so every earlier row is written and the new one is buffered. */
  method WriteEvent(env: Env, events: seq<Event>, j: nat, table: RecoTable)
    requires EventsOk(env, events) && j < |events| && table.Valid()
    modifies table
    ensures table.Valid()
    ensures table.rows == old(table.rows) + [RowsOf(env, events)[j]]
    ensures table.flushed == |old(table.rows)|
  {
    RowsOfAt(env, events, j);
    var row := ReconstructEvent(env, events[j]);
    table.Flush();
    table.Append(row);
  }

  /** The event loop over one file: for each event the row is built, the
      table flushed and the row appended, then the stop flag is read. Returns
      the index of the next read. */
  method WriteFile(env: Env, events: seq<Event>, ghost later: seq<seq<Row>>,
                   sig: nat -> bool, t0: nat, table: RecoTable) returns (t: nat)
    requires EventsOk(env, events)
    requires table.Valid()
    modifies table
    ensures table.Valid()
    ensures table.rows + AfterFile(later, sig, t) == old(table.rows) + Continue(RowsOf(env, events), later, sig, t0)
    ensures events != [] ==> table.flushed == |table.rows| - 1
    ensures events == [] ==> table.flushed == old(table.flushed)
    ensures LeftFileAt(old(table.rows), table.rows, RowsOf(env, events), sig, t0, t)
  {
    ghost var rs := RowsOf(env, events);
    t := t0;
    if events == [] {
      assert rs[..0] == [];
      return;
    }
    var j := 0;
    while j < |events|
      invariant 0 <= j <= |events|
      invariant t == t0 + j
      invariant table.Valid()
      invariant table.rows == old(table.rows) + rs[..j]
      invariant forall u :: t0 <= u < t ==> !sig(u)
      invariant j > 0 ==> table.flushed == |table.rows| - 1
    {
      WriteEvent(env, events, j, table);
      assert rs[..j + 1] == rs[..j] + [rs[j]];
      var stop := sig(t);
      t := t + 1;
      if stop {
        LeftAfter(table.rows, old(table.rows), rs, later, sig, t0, j + 1);
        return;
      }
      j := j + 1;
    }
    LeftAfter(table.rows, old(table.rows), rs, later, sig, t0, j);
  }

  /** The file loop: after each file the stop flag is read again. A final
      flush writes out the last row. */
  method WriteEvents(env: Env, names: seq<string>, eventsOf: string -> seq<Event>,
                     sig: nat -> bool, table: RecoTable)
    requires FilesOk(env, Sources(names, eventsOf))
    requires table.Valid()
    modifies table
    ensures table.Valid()
    ensures table.rows == old(table.rows) + RunFrom(FileRows(env, Sources(names, eventsOf)), sig, 0)
    ensures table.Durable() == table.rows
  {
    ghost var files := FileRows(env, Sources(names, eventsOf));
    ghost var goal := old(table.rows) + RunFrom(files, sig, 0);
    var t: nat := 0;
    var i := 0;
    while i < |names|
      invariant 0 <= i <= |names|
      invariant table.Valid()
      invariant table.rows + RunFrom(files[i..], sig, t) == goal
    {
      var events := eventsOf(names[i]);
      assert files[i..] == [RowsOf(env, events)] + files[i + 1..];
      assert EventsOk(env, events);
      t := WriteFile(env, events, files[i + 1..], sig, t, table);
      var stop := sig(t);
      t := t + 1;
      if stop {
        break;
      }
      i := i + 1;
    }
    assert table.rows == goal;
    table.Flush();
  }

  /** The whole run. Exit status -1 and no table when the input list is
      empty; otherwise the table holds the rows of the loops, all written. */
  method WriteDl2(args: Args, glob: string -> seq<string>, loadModels: string -> Env,
                  eventsOf: string -> seq<Event>, sig: nat -> bool)
    returns (exitCode: int, rows: seq<Row>, durable: seq<Row>)
    requires FilesOk(loadModels(ForceMode(args)), Sources(InputFiles(args, glob), eventsOf))
    ensures exitCode == -1 <==> InputList(args, glob) == NoFilesFound
    ensures exitCode == -1 || exitCode == 0
    ensures exitCode == -1 ==> rows == []
    ensures exitCode == 0 ==>
      rows == RunFrom(FileRows(loadModels(ForceMode(args)), Sources(InputFiles(args, glob), eventsOf)), sig, 0)
    ensures durable == rows
  {
    var forceMode := args.mode;
    if args.forceTailcut {
      forceMode := "tail";
    }
    var filenamelist := CollectInputFiles(args.indir, args.infileList, glob);
    if filenamelist == [] {
      return -1, [], [];
    }
    var env := loadModels(forceMode);
    var table := new RecoTable();
    WriteEvents(env, filenamelist, eventsOf, sig, table);
    exitCode, rows, durable := 0, table.rows, table.Durable();
  }
}
