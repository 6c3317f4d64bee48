/** The retention cycler of storage/cycler.go: a per-name ledger file of
    packages, loaded at the start of every run, grown by the new package,
    trimmed to the newest `keep` entries with a delete call for every key of
    every evicted package, and saved on the way out.

    The file system, JSON decoding and the backend's delete are environment
    oracles: the outcome of each file-system step is a parameter, a ledger
    file is either a decodable list of packages or malformed bytes, and the
    delete call numbered `i` in a run fails exactly when `i` is in `failAt`. */
module Storage {
  import opened Retention

  /** The bytes of a ledger file, as far as the cycler can tell them apart. */
  datatype FileContent = Json(packages: seq<Package>) | Malformed(raw: string)

  /** Which of the file-system steps of `load` fail. */
  datatype LoadFaults = LoadFaults(mkdirFails: bool, bootstrapWriteFails: bool, readFails: bool)

  /** Which of the steps of `save` fail. */
  datatype SaveFaults = SaveFaults(marshalFails: bool, writeFails: bool)

  /** One call of the delete callback and whether it succeeded. */
  datatype DeleteCall = DeleteCall(key: string, ok: bool)

  /** The cycler's fields together with the files of the cycler directory. */
  datatype State = State(files: map<string, FileContent>, packages: seq<Package>, isLoaded: bool)

  const NoLoadFaults := LoadFaults(false, false, false)
  const NoSaveFaults := SaveFaults(false, false)

  /** The ledger file of cycler `name` inside the cycler directory. */
  function LedgerFile(name: string): (path: string)
    ensures |path| == |name| + 5 && path[..|name|] == name && path[|name|..] == ".json"
  {
    name + ".json"
  }

  /** Cyclers of different names keep their ledgers in different files, as
      long as the names hold no path separator: `filepath.Join` cleans the
      path, so "a//b" and "a/b" would share a file. */
  lemma LedgerFilesDistinct(name: string, other: string)
    requires name != other
    requires '/' !in name && '/' !in other
    ensures LedgerFile(name) != LedgerFile(other)
  {
    if |name| == |other| {
      assert LedgerFile(name)[..|name|] == name;
      assert LedgerFile(other)[..|other|] == other;
    }
  }

  /** `json.Unmarshal` of a decoded ledger into the list the cycler already
      holds. The list takes the length of the file's list. An element that
      overlaps an existing one is decoded into it, so a field the file omits
      keeps its old value. Only `file_keys` can be omitted: `save` drops it
      when it is empty. An element beyond the old list is modelled as
      starting from zero. */
  function DecodeInto(held: seq<Package>, decoded: seq<Package>): (r: seq<Package>)
    ensures |r| == |decoded|
    ensures held == [] ==> r == decoded
    decreases |decoded|
  {
    if decoded == [] then []
    else
      var d := decoded[0];
      var first := if held != [] && d.fileKeys == [] then d.(fileKeys := held[0].fileKeys) else d;
      [first] + DecodeInto(if held == [] then [] else held[1..], decoded[1..])
  }

  /** Element by element, decoding into a list keeps the file's key and
      creation time, and takes the member keys from the file unless the file
      has none and the old list had an element at that index. */
  lemma {:induction false} DecodeIntoAt(held: seq<Package>, decoded: seq<Package>, i: nat)
    requires i < |decoded|
    decreases i
    ensures DecodeInto(held, decoded)[i].fileKey == decoded[i].fileKey
    ensures DecodeInto(held, decoded)[i].createdAt == decoded[i].createdAt
    ensures DecodeInto(held, decoded)[i].fileKeys
         == if i < |held| && decoded[i].fileKeys == [] then held[i].fileKeys else decoded[i].fileKeys
  {
    if i > 0 {
      DecodeIntoAt(if held == [] then [] else held[1..], decoded[1..], i - 1);
    }
  }

  /** A cycler that already holds a composite package and then loads a file
      whose first package is a plain one ends up with a composite package:
      the old member keys survive the decode, so evicting it deletes the old
      member key and a directory key for the new package. */
  lemma StaleMemberKeysSurviveDecode(t0: int, t1: int)
    ensures var loaded := DecodeInto([Package("old", ["old/1"], t0)], [Package("x", [], t1)]);
      loaded == [Package("x", ["old/1"], t1)] &&
      EvictKeys(loaded[0]) == ["old/1", "x/"]
  {
    var loaded := DecodeInto([Package("old", ["old/1"], t0)], [Package("x", [], t1)]);
    assert loaded[0] == Package("x", ["old/1"], t1);
    assert loaded == [loaded[0]];
    assert !HasSlashSuffix("x") && "x" + "/" == "x/";
  }

  /** What `load` does to the state. */
  function AfterLoad(name: string, s: State, f: LoadFaults): (r: State)
    // Only the bootstrap "[]" is ever written, and only to a missing ledger.
    ensures r.files == s.files ||
            (LedgerFile(name) !in s.files && r.files == s.files[LedgerFile(name) := Json([])])
    ensures !f.mkdirFails && !f.bootstrapWriteFails && LedgerFile(name) !in s.files ==>
              r.files == s.files[LedgerFile(name) := Json([])]
    ensures f.mkdirFails || (LedgerFile(name) !in s.files && f.bootstrapWriteFails) ==> r.files == s.files
    // Loaded exactly when every step up to the read succeeded, or already loaded.
    ensures r.isLoaded <==>
              s.isLoaded ||
              (!f.mkdirFails && (LedgerFile(name) in s.files || !f.bootstrapWriteFails) && !f.readFails)
    // A failing step leaves the fields as they were.
    ensures f.mkdirFails || f.readFails || (LedgerFile(name) !in s.files && f.bootstrapWriteFails) ==>
              r.packages == s.packages && r.isLoaded == s.isLoaded
    // The packages change only by decoding the ledger file into them.
    ensures r.packages != s.packages ==>
              LedgerFile(name) in r.files && r.files[LedgerFile(name)].Json? &&
              r.packages == DecodeInto(s.packages, r.files[LedgerFile(name)].packages)
    // When no step fails the file is decoded into the list; a file that does
    // not decode leaves the list as it was.
    ensures !f.mkdirFails && !f.readFails && (LedgerFile(name) in s.files || !f.bootstrapWriteFails) ==>
              LedgerFile(name) in r.files &&
              (r.files[LedgerFile(name)].Json? ==>
                 r.packages == DecodeInto(s.packages, r.files[LedgerFile(name)].packages)) &&
              (r.files[LedgerFile(name)].Malformed? ==> r.packages == s.packages)
  {
    var path := LedgerFile(name);
    if f.mkdirFails then s
    else if path !in s.files && f.bootstrapWriteFails then s
    else
      var files := if path in s.files then s.files else s.files[path := Json([])];
      if f.readFails then s.(files := files)
      else
        match files[path]
        case Json(ps) => State(files, DecodeInto(s.packages, ps), true)
        case Malformed(_) => State(files, s.packages, true)
  }

  /** What `save` does to the files. */
  function AfterSave(name: string, s: State, f: SaveFaults): (r: map<string, FileContent>)
    ensures !s.isLoaded ==> r == s.files
    ensures r == s.files || r == s.files[LedgerFile(name) := Json(s.packages)]
    ensures s.isLoaded && !f.marshalFails && !f.writeFails ==>
              LedgerFile(name) in r && r[LedgerFile(name)] == Json(s.packages)
    ensures forall other :: other != LedgerFile(name) && other in s.files ==>
              other in r && r[other] == s.files[other]
  {
    if !s.isLoaded || f.marshalFails || f.writeFails then s.files
    else s.files[LedgerFile(name) := Json(s.packages)]
  }

  /** The log of a run's delete calls: call `i` is on `trace[i]` and fails
      exactly when `i` is in `failAt`. */
  function Attempts(trace: seq<string>, failAt: set<nat>): (log: seq<DeleteCall>)
    ensures |log| == |trace|
  {
    if trace == [] then []
    else Attempts(trace[..|trace| - 1], failAt) + [DeleteCall(trace[|trace| - 1], |trace| - 1 !in failAt)]
  }

  /** Attempting one more key appends one entry to the log. */
  lemma {:induction false} AttemptsExtend(trace: seq<string>, key: string, failAt: set<nat>)
    ensures Attempts(trace + [key], failAt)
         == Attempts(trace, failAt) + [DeleteCall(key, |trace| !in failAt)]
  {
    assert (trace + [key])[..|trace|] == trace;
  }

  /** The log holds one entry per key of the trace, in order, and entry `i`
      failed exactly when call `i` was made to fail. */
  lemma {:induction false} AttemptsAt(trace: seq<string>, failAt: set<nat>)
    ensures forall i :: 0 <= i < |trace| ==>
              Attempts(trace, failAt)[i].key == trace[i] &&
              (Attempts(trace, failAt)[i].ok <==> i !in failAt)
  {
    if trace != [] {
      var init := trace[..|trace| - 1];
      AttemptsAt(init, failAt);
      forall i | 0 <= i < |init|
        ensures trace[i] == init[i]
      {
      }
    }
  }

  /** What `run` does: the final state and the log of delete calls. */
  function AfterRun(name: string, s: State, p: Package, keep: nat,
                    lf: LoadFaults, sf: SaveFaults, failAt: set<nat>): (r: (State, seq<DeleteCall>))
    ensures r.0.isLoaded == AfterLoad(name, s, lf).isLoaded
    ensures keep == 0 ==> r.1 == []
  {
    var loaded := AfterLoad(name, s, lf);
    var grown := loaded.packages + [p];
    var trimmed := loaded.(packages := Retained(grown, keep));
    (trimmed.(files := AfterSave(name, trimmed, sf)), Attempts(DeleteTrace(Evicted(grown, keep)), failAt))
  }

  /** The ledger after a run: the newest package always survives, behind the
      older survivors in their original order; with `keep == 0` nothing is
      evicted, otherwise exactly min(keep, n + 1) packages remain. */
  lemma RunRetainsNewest(name: string, s: State, p: Package, keep: nat,
                         lf: LoadFaults, sf: SaveFaults, failAt: set<nat>)
    ensures var before := AfterLoad(name, s, lf).packages;
      var after := AfterRun(name, s, p, keep, lf, sf, failAt).0.packages;
      var grown := before + [p];
      |after| > 0 && after[|after| - 1] == p &&
      after == grown[|grown| - |after|..] &&
      (keep == 0 ==> after == grown) &&
      (keep > 0 ==> |after| == if |before| + 1 <= keep then |before| + 1 else keep)
  {
  }

  /** The delete calls of a run: with `keep == 0` there are none; otherwise
      every key of every evicted package is attempted exactly once, oldest
      package first, whatever the failures. A failure shows only in the log. */
  lemma RunDeleteCalls(name: string, s: State, p: Package, keep: nat,
                       lf: LoadFaults, sf: SaveFaults, failAt: set<nat>)
    ensures var grown := AfterLoad(name, s, lf).packages + [p];
      var r := AfterRun(name, s, p, keep, lf, sf, failAt);
      var trace := DeleteTrace(grown[..|grown| - |r.0.packages|]);
      (keep == 0 ==> r.1 == []) &&
      |r.1| == |trace| &&
      forall i :: 0 <= i < |r.1| ==> r.1[i].key == trace[i] && (r.1[i].ok <==> i !in failAt)
  {
    var grown := AfterLoad(name, s, lf).packages + [p];
    AttemptsAt(DeleteTrace(Evicted(grown, keep)), failAt);
  }

  /** Persistence after a run: the flag is what loading left; an unloaded
      ledger is never written; a successful save writes the post-eviction list. */
  lemma RunSavesAfterEviction(name: string, s: State, p: Package, keep: nat,
                              lf: LoadFaults, sf: SaveFaults, failAt: set<nat>)
    ensures var loaded := AfterLoad(name, s, lf);
      var r := AfterRun(name, s, p, keep, lf, sf, failAt).0;
      r.isLoaded == loaded.isLoaded &&
      (!r.isLoaded ==> r.files == loaded.files) &&
      (r.isLoaded && !sf.marshalFails && !sf.writeFails ==>
         r.files == loaded.files[LedgerFile(name) := Json(r.packages)])
  {
  }

  /** With no failing call, the log of two traces is the log of each in turn. */
  lemma {:induction false} AttemptsAppend(a: seq<string>, b: seq<string>)
    ensures Attempts(a + b, {}) == Attempts(a, {}) + Attempts(b, {})
  {
    if b != [] {
      var init := b[..|b| - 1];
      AttemptsAppend(a, init);
      assert (a + b)[..|a + b| - 1] == a + init;
    } else {
      assert a + b == a;
    }
  }

  /** A failing delete changes nothing but its own log entry: the state after
      a run, and the keys attempted, are the same whichever calls fail. */
  lemma DeleteFailuresIgnored(name: string, s: State, p: Package, keep: nat,
                              lf: LoadFaults, sf: SaveFaults, failAt: set<nat>, failAt': set<nat>)
    ensures AfterRun(name, s, p, keep, lf, sf, failAt).0 == AfterRun(name, s, p, keep, lf, sf, failAt').0
    ensures var log, log' := AfterRun(name, s, p, keep, lf, sf, failAt).1, AfterRun(name, s, p, keep, lf, sf, failAt').1;
      |log| == |log'| && forall i :: 0 <= i < |log| ==> log[i].key == log'[i].key
  {
    var grown := AfterLoad(name, s, lf).packages + [p];
    AttemptsAt(DeleteTrace(Evicted(grown, keep)), failAt);
    AttemptsAt(DeleteTrace(Evicted(grown, keep)), failAt');
  }

  /** A ledger file that does not decode is still marked loaded, so the run
      overwrites it with the ledger it built from the cycler's prior packages. */
  lemma CorruptLedgerIsOverwritten(name: string, raw: string, files: map<string, FileContent>,
                                   p: Package, keep: nat)
    requires LedgerFile(name) in files && files[LedgerFile(name)] == Malformed(raw)
    ensures var r := AfterRun(name, State(files, [], false), p, keep, NoLoadFaults, NoSaveFaults, {}).0;
      r.isLoaded && r.packages == [p] && r.files[LedgerFile(name)] == Json([p])
  {
  }

  /** A ledger file that exists but cannot be read is left untouched by a run
      of a fresh cycler: the save is skipped because nothing was loaded. */
  lemma ReadFailureLeavesLedger(name: string, files: map<string, FileContent>, p: Package, keep: nat,
                                sf: SaveFaults, failAt: set<nat>)
    requires LedgerFile(name) in files
    ensures var r := AfterRun(name, State(files, [], false), p, keep,
                              LoadFaults(false, false, true), sf, failAt).0;
      !r.isLoaded && r.files == files
  {
  }

  /** A run by a fresh cycler whose steps all succeed continues the history
      in the ledger file (bootstrapped empty when missing): it saves the
      retained part of that history plus the new package, and deletes the
      keys of the rest. This is how the ledger survives process restarts. */
  lemma FreshRunOnLedger(name: string, files: map<string, FileContent>, ledger: seq<Package>,
                         p: Package, keep: nat)
    requires LedgerFile(name) in files ==> files[LedgerFile(name)] == Json(ledger)
    requires LedgerFile(name) !in files ==> ledger == []
    ensures var r := AfterRun(name, State(files, [], false), p, keep, NoLoadFaults, NoSaveFaults, {});
      LedgerFile(name) in r.0.files &&
      r.0.files[LedgerFile(name)] == Json(Retained(ledger + [p], keep)) &&
      r.1 == Attempts(DeleteTrace(Evicted(ledger + [p], keep)), {})
  {
    var loaded := AfterLoad(name, State(files, [], false), NoLoadFaults);
    assert loaded.isLoaded && loaded.packages == ledger;
  }

  /** Successive runs, each by a fresh cycler of the same name, with every
      file-system step and every delete succeeding. A fresh cycler per run is
      an assumption of this model about the callers of `run`. Returns the
      final files and the concatenated logs; no file but the ledger changes. */
  function RunAll(name: string, files: map<string, FileContent>, news: seq<Package>, keep: nat)
    : (r: (map<string, FileContent>, seq<DeleteCall>))
    decreases |news|
    ensures keep == 0 ==> r.1 == []
  {
    if news == [] then (files, [])
    else
      var first := AfterRun(name, State(files, [], false), news[0], keep, NoLoadFaults, NoSaveFaults, {});
      var rest := RunAll(name, first.0.files, news[1..], keep);
      (rest.0, first.1 + rest.1)
  }

  /** One fault-free run peeled off the front of `RunAll`: the files it
      leaves hold the retained history, and its log is that of one eviction
      round over the grown history. */
  lemma RunAllFirst(name: string, files: map<string, FileContent>, ledger: seq<Package>,
                    news: seq<Package>, keep: nat)
    returns (files': map<string, FileContent>, log: seq<DeleteCall>)
    requires LedgerFile(name) in files ==> files[LedgerFile(name)] == Json(ledger)
    requires LedgerFile(name) !in files ==> ledger == []
    requires news != []
    ensures LedgerFile(name) in files' && files'[LedgerFile(name)] == Json(Retained(ledger + [news[0]], keep))
    ensures log == Attempts(DeleteTrace(Evicted(ledger + [news[0]], keep)), {})
    ensures RunAll(name, files, news, keep)
         == (RunAll(name, files', news[1..], keep).0, log + RunAll(name, files', news[1..], keep).1)
  {
    var first := AfterRun(name, State(files, [], false), news[0], keep, NoLoadFaults, NoSaveFaults, {});
    FreshRunOnLedger(name, files, ledger, news[0], keep);
    files', log := first.0.files, first.1;
  }

  /** A run log followed by no further runs is that run's log. A proof
      step of `RunAllKeepsLastN`, kept apart so that the unfolded runs in
      that lemma stay out of this small fact's proof. */
  lemma RunAllEmptyTail(name: string, r: (map<string, FileContent>, seq<DeleteCall>),
                        files: map<string, FileContent>, log: seq<DeleteCall>, keep: nat)
    requires r == (RunAll(name, files, [], keep).0, log + RunAll(name, files, [], keep).1)
    ensures r == (files, log)
  {
    assert log + [] == log;
  }

  /** Runs change no file of the cycler directory but the ledger file. */
  lemma {:induction false} RunAllTouchesOnlyLedger(name: string, files: map<string, FileContent>,
                                                   news: seq<Package>, keep: nat, other: string)
    requires other != LedgerFile(name) && other in files
    decreases |news|
    ensures other in RunAll(name, files, news, keep).0
    ensures RunAll(name, files, news, keep).0[other] == files[other]
  {
    if news != [] {
      var first := AfterRun(name, State(files, [], false), news[0], keep, NoLoadFaults, NoSaveFaults, {});
      RunAllTouchesOnlyLedger(name, first.0.files, news[1..], keep, other);
    }
  }

  /** The history bookkeeping behind `RunAllKeepsLastN`: one round of
      retention on the grown ledger followed by one round over the rest of
      the history is one round over everything. */
  lemma HistorySplit(ledger: seq<Package>, news: seq<Package>, keep: nat)
    requires |news| > 1
    ensures var grown, more := ledger + [news[0]], news[1..];
      Retained(Retained(grown, keep) + more, keep) == Retained(ledger + news, keep) &&
      Attempts(DeleteTrace(Evicted(grown, keep)), {})
        + Attempts(DeleteTrace(Evicted(Retained(grown, keep) + more, keep)), {})
      == Attempts(DeleteTrace(Evicted(ledger + news, keep)), {})
  {
    var grown, more := ledger + [news[0]], news[1..];
    var kept := Retained(grown, keep);
    assert ledger + news == grown + more;
    RetainedOfRetained(grown, more, keep);
    DeleteTraceAppend(Evicted(grown, keep), Evicted(kept + more, keep));
    AttemptsAppend(DeleteTrace(Evicted(grown, keep)), DeleteTrace(Evicted(kept + more, keep)));
  }

  /** Across any number of runs the ledger file holds exactly what one
      "keep last N" pass over the whole history would keep, and the deletes
      made along the way are exactly those of one pass: every package beyond
      the newest `keep` is evicted once, oldest first. */
  lemma {:induction false} RunAllKeepsLastN(name: string, files: map<string, FileContent>,
                                            ledger: seq<Package>, news: seq<Package>, keep: nat)
    requires LedgerFile(name) in files ==> files[LedgerFile(name)] == Json(ledger)
    requires LedgerFile(name) !in files ==> ledger == []
    requires news != []
    decreases |news|
    ensures var r := RunAll(name, files, news, keep);
      LedgerFile(name) in r.0 && r.0[LedgerFile(name)] == Json(Retained(ledger + news, keep)) &&
      r.1 == Attempts(DeleteTrace(Evicted(ledger + news, keep)), {})
  {
    var files', log := RunAllFirst(name, files, ledger, news, keep);
    if |news| == 1 {
      assert ledger + news == ledger + [news[0]] by { assert news == [news[0]]; }
      assert news[1..] == [];
      RunAllEmptyTail(name, RunAll(name, files, news, keep), files', log, keep);
    } else {
      HistorySplit(ledger, news, keep);
      RunAllKeepsLastN(name, files', Retained(ledger + [news[0]], keep), news[1..], keep);
    }
  }

  /** With `keep == 0` the ledger only grows: after any number of runs it
      holds the whole history and no delete was ever called. */
  lemma RunAllAppendOnly(name: string, files: map<string, FileContent>,
                         ledger: seq<Package>, news: seq<Package>)
    requires LedgerFile(name) in files ==> files[LedgerFile(name)] == Json(ledger)
    requires LedgerFile(name) !in files ==> ledger == []
    requires news != []
    ensures LedgerFile(name) in RunAll(name, files, news, 0).0
    ensures RunAll(name, files, news, 0).0[LedgerFile(name)] == Json(ledger + news)
    ensures RunAll(name, files, news, 0).1 == []
  {
    RunAllKeepsLastN(name, files, ledger, news, 0);
  }

  /** With `keep > 0` the ledger file holds at most `keep` packages after
      any number of runs, exactly `keep` once the history is that long, and
      it always ends with the newest package, whatever the file held before. */
  lemma RunAllBounded(name: string, files: map<string, FileContent>,
                      ledger: seq<Package>, news: seq<Package>, keep: nat)
    requires LedgerFile(name) in files ==> files[LedgerFile(name)] == Json(ledger)
    requires LedgerFile(name) !in files ==> ledger == []
    requires |news| > 0 && keep > 0
    ensures var r, final := RunAll(name, files, news, keep), Retained(ledger + news, keep);
      LedgerFile(name) in r.0 && r.0[LedgerFile(name)] == Json(final) &&
      |final| <= keep && (|ledger| + |news| >= keep ==> |final| == keep) &&
      final != [] && final[|final| - 1] == news[|news| - 1]
  {
    RetainedEndsWithNewest(ledger, news, keep);
    RunAllKeepsLastN(name, files, ledger, news, keep);
  }

  /** A ledger file longer than `keep`, as left by a larger `keep` or by
      runs with `keep == 0`, is trimmed in a single run: three packages under
      `keep == 1` plus a new one leave only the new one, and every older
      package is evicted in that run, oldest first. */
  lemma LoweredKeepTrims(name: string, files: map<string, FileContent>, x: Package, y: Package, z: Package, p: Package)
    requires LedgerFile(name) in files && files[LedgerFile(name)] == Json([x, y, z])
    ensures var r := RunAll(name, files, [p], 1);
      LedgerFile(name) in r.0 && r.0[LedgerFile(name)] == Json([p]) &&
      r.1 == Attempts(DeleteTrace([x, y, z]), {})
  {
    assert [x, y, z] + [p] == [x, y, z, p];
    assert Retained([x, y, z, p], 1) == [p] && Evicted([x, y, z, p], 1) == [x, y, z] by {
      assert [x, y, z, p][3..] == [p];
      assert [x, y, z, p][..3] == [x, y, z];
    }
    RunAllKeepsLastN(name, files, [x, y, z], [p], 1);
  }

  /** The history of `RetentionScenario` under one "keep last 2" pass. */
  lemma ScenarioHistory(a: Package, b: Package, c: Package, d: Package)
    requires a.fileKeys == [] && b.fileKeys == []
    ensures Retained([a, b, c, d], 2) == [c, d]
    ensures Attempts(DeleteTrace(Evicted([a, b, c, d], 2)), {})
         == [DeleteCall(a.fileKey, true), DeleteCall(b.fileKey, true)]
  {
    var history := [a, b, c, d];
    assert Evicted(history, 2) == [a, b] by {
      assert history[..2] == [a, b];
    }
    assert DeleteTrace([a, b]) == [a.fileKey, b.fileKey] by {
      assert [a, b][1..] == [b];
      assert [b][1..] == [];
    }
    assert Attempts([a.fileKey, b.fileKey], {}) == [DeleteCall(a.fileKey, true), DeleteCall(b.fileKey, true)] by {
      assert [a.fileKey, b.fileKey][..1] == [a.fileKey];
      assert [a.fileKey][..0] == [];
    }
  }

  /** Keep two, four runs with the single-file packages "a", "b", "c" and
      "d" and no ledger file to start from: the ledger ends as [c, d], and
      delete is called on "a" and then on "b". */
  lemma RetentionScenario(name: string, files: map<string, FileContent>, t1: int, t2: int, t3: int, t4: int)
    requires LedgerFile(name) !in files
    ensures var a, b, c, d := Package("a", [], t1), Package("b", [], t2), Package("c", [], t3), Package("d", [], t4);
      var r := RunAll(name, files, [a, b, c, d], 2);
      LedgerFile(name) in r.0 && r.0[LedgerFile(name)] == Json([c, d]) &&
      r.1 == [DeleteCall("a", true), DeleteCall("b", true)]
  {
    var a, b, c, d := Package("a", [], t1), Package("b", [], t2), Package("c", [], t3), Package("d", [], t4);
    assert [] + [a, b, c, d] == [a, b, c, d];
    ScenarioHistory(a, b, c, d);
    RunAllKeepsLastN(name, files, [], [a, b, c, d], 2);
  }

  /** The inner loop of an eviction round: calls delete on each of `keys` in
      order, numbering the calls on from those already in `log`. A failed
      delete is only logged and the loop goes on. */
  method DeleteEach(keys: seq<string>, ghost done: seq<string>, log: seq<DeleteCall>, failAt: set<nat>)
    returns (calls: seq<DeleteCall>)
    requires log == Attempts(done, failAt)
    ensures calls == Attempts(done + keys, failAt)
  {
    calls := log;
    ghost var trace := done;
    var rest := keys;
    while rest != []
      invariant trace + rest == done + keys
      invariant calls == Attempts(trace, failAt)
    {
      // deletePackage(rest[0])
      var ok := |calls| !in failAt;
      AttemptsExtend(trace, rest[0], failAt);
      assert trace + rest == (trace + [rest[0]]) + rest[1..];
      calls, trace, rest := calls + [DeleteCall(rest[0], ok)], trace + [rest[0]], rest[1..];
    }
    assert trace == done + keys;
  }

  /** The files of the cycler directory (the oracle for `os.WriteFile`). */
  class FileStore {
    var files: map<string, FileContent>

    constructor (files: map<string, FileContent>)
      ensures this.files == files
    {
      this.files := files;
    }
  }

  class Cycler {
    const name: string
    var packages: seq<Package>
    var isLoaded: bool

    /** The fields of this cycler together with the files of `store`. */
    function Snapshot(store: FileStore): State
      reads this, store
    {
      State(store.files, packages, isLoaded)
    }

    /** A cycler as created for one run: nothing loaded yet. */
    constructor (name: string)
      ensures this.name == name && packages == [] && !isLoaded
    {
      this.name := name;
      packages := [];
      isLoaded := false;
    }

    /** Appends a package with the given keys; `createdAt` is the clock
        reading taken at the call. */
    method Add(fileKey: string, fileKeys: seq<string>, createdAt: int)
      modifies this`packages
      ensures packages == old(packages) + [Package(fileKey, fileKeys, createdAt)]
      ensures packages[..|old(packages)|] == old(packages)
    {
      packages := packages + [Package(fileKey, fileKeys, createdAt)];
    }

    /** Removes and returns the head of the ledger while it holds more than
        `keep` packages. The head is indexed unconditionally once the length
        exceeds `keep`, so a negative `keep` on an empty ledger panics. */
    method ShiftByKeep(keep: int) returns (first: Option<Package>)
      requires |packages| > keep ==> packages != []
      modifies this`packages
      ensures |old(packages)| <= keep ==> first == None && packages == old(packages)
      ensures |old(packages)| > keep ==>
                first == Some(old(packages)[0]) && packages == old(packages)[1..]
    {
      if |packages| <= keep {
        return None;
      }
      first, packages := Some(packages[0]), packages[1..];
    }

    /** Loads the ledger file, first bootstrapping it to an empty list when it
        is missing. Each file-system step may fail, which ends the load. */
    method Load(store: FileStore, faults: LoadFaults)
      modifies this`packages, this`isLoaded, store
      ensures Snapshot(store) == AfterLoad(name, old(Snapshot(store)), faults)
    {
      var path := LedgerFile(name);
      if faults.mkdirFails {
        return;
      }
      if path !in store.files {
        if faults.bootstrapWriteFails {
          return;
        }
        store.files := store.files[path := Json([])];
      }
      if faults.readFails {
        return;
      }
      match store.files[path] {
        case Json(ps) =>
          packages := DecodeInto(packages, ps);
        case Malformed(_) =>
          // the decoding error is logged and the load still counts as done
      }
      isLoaded := true;
    }

    /** Writes the ledger file, unless the ledger was never loaded. */
    method Save(store: FileStore, faults: SaveFaults)
      modifies store
      ensures store.files == AfterSave(name, old(Snapshot(store)), faults)
    {
      if !isLoaded {
        return;
      }
      if faults.marshalFails || faults.writeFails {
        return;
      }
      store.files := store.files[LedgerFile(name) := Json(packages)];
    }

    /** The eviction loop of a run: shifts the head off while more than
        `keep` packages remain and calls delete on every key of each shifted
        package, numbering the calls from 0. */
    method EvictOverflow(keep: int, failAt: set<nat>) returns (calls: seq<DeleteCall>)
      requires keep > 0
      modifies this`packages
      ensures packages == Retained(old(packages), keep)
      ensures calls == Attempts(DeleteTrace(Evicted(old(packages), keep)), failAt)
    {
      ghost var grown := packages;
      ghost var evicted: seq<Package> := [];
      calls := [];
      while true
        invariant evicted + packages == grown
        invariant evicted == [] || |packages| >= keep
        invariant calls == Attempts(DeleteTrace(evicted), failAt)
        decreases |packages|
      {
        var pkg := ShiftByKeep(keep);
        if pkg.None? {
          break;
        }
        var keys := EvictKeys(pkg.value);
        calls := DeleteEach(keys, DeleteTrace(evicted), calls, failAt);
        DeleteTraceSnoc(evicted, pkg.value);
        assert (evicted + [pkg.value]) + packages == evicted + ([pkg.value] + packages);
        evicted := evicted + [pkg.value];
      }
      StopsAtKeep(grown, evicted, packages, keep);
    }

    /** One retention run: load, append the new package, evict from the head
        while more than `keep` packages remain (unless `keep == 0`), calling
        delete on every key of every evicted package, and finally save.
        Returns the log of delete calls, which the source only writes to its
        logger; failed deletes do not stop the run. */
    method Run(fileKey: string, fileKeys: seq<string>, keep: int, createdAt: int,
               store: FileStore, loadFaults: LoadFaults, saveFaults: SaveFaults, failAt: set<nat>)
      returns (calls: seq<DeleteCall>)
      requires keep >= 0
      modifies this`packages, this`isLoaded, store
      ensures (Snapshot(store), calls)
           == AfterRun(name, old(Snapshot(store)), Package(fileKey, fileKeys, createdAt),
                       keep, loadFaults, saveFaults, failAt)
    {
      ghost var p := Package(fileKey, fileKeys, createdAt);
      ghost var spec := AfterRun(name, Snapshot(store), p, keep, loadFaults, saveFaults, failAt);
      ghost var loaded := AfterLoad(name, Snapshot(store), loadFaults);
      Load(store, loadFaults);
      Add(fileKey, fileKeys, createdAt);
      // The save is deferred in the source: it runs after eviction, both on
      // the `keep == 0` return and at the end of the eviction loop.
      if keep != 0 {
        calls := EvictOverflow(keep, failAt);
      } else {
        calls := [];
      }
      assert Snapshot(store) == loaded.(packages := Retained(loaded.packages + [p], keep));
      assert calls == spec.1;
      Save(store, saveFaults);
    }
  }
}
