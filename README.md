# Retention cycler of vtsbackup, in Dafny

vtsbackup keeps a ledger of the backup packages it has uploaded under each
cycler name (the code that chooses the name is not part of this model). The ledger is a JSON file `<name>.json` in the cycler directory.
Each package has a file key, an optional list of member file keys (a composite
package, whose file key is then a directory), and a creation time. A run
of the cycler:

1. loads the ledger, first bootstrapping it to `[]` when the file is missing;
2. appends the package just uploaded;
3. unless `keep == 0`, shifts packages off the head while more than `keep`
   remain, calling the backend's delete on every member key and then on the
   package's own key, with a `/` appended for a composite package;
4. saves the ledger on the way out. The save is deferred, so it writes the
   post-eviction list.

The project has two modules:

- `Retention` (`retention.dfy`) holds the list logic:
  - `Package` and the key expansion `EvictKeys`;
  - `Retained` and `Evicted`, the "keep last N" split of a ledger;
  - `DeleteTrace`, the sequence of keys handed to delete.
- `Storage` (`cycler.dfy`) holds the cycler:
  - a `Cycler` class with the source's fields `packages` and `isLoaded`;
  - its methods `Add`, `ShiftByKeep`, `Load`, `Save` and `Run`;
  - the eviction loops `EvictOverflow` and `DeleteEach`.

  Each method's contract ties its result and new state to pure functions:

  - `Add` and `ShiftByKeep` state the new list directly;
  - `Load`, `Save` and `Run` are proved equal to `AfterLoad`, `AfterSave`
    and `AfterRun`;
  - `EvictOverflow` is proved to leave `Retained` and to log the attempts
    over the trace of `Evicted`;
  - `DeleteEach` is proved to extend the log as `Attempts` does.

  Lemmas about those functions state what a run promises. `RunAll` chains
  runs of fresh cyclers of one name. That each run uses a fresh cycler is
  an assumption of this model: the callers of `run` are not part of it.
  The lemmas about `RunAll` show that the ledger file always holds exactly
  what a single "keep last N" pass over the whole history keeps, whatever
  list of packages the file held before, or none. A file that does not
  decode is not covered: `CorruptLedgerIsOverwritten` shows that its history
  is lost.

The environment is modelled as parameters:

- The cycler directory is a `FileStore`, a map from file name to content.
  Content is either a decodable list of packages (`Json`) or bytes that do
  not decode (`Malformed`).
- Whether each file-system step fails is given by `LoadFaults` and
  `SaveFaults`.
- The delete callback's outcomes are given as the set `failAt` of call
  numbers that fail.
- The clock reading is the `createdAt` argument.
- The source only logs each delete call. `Run` returns those calls as a
  list of `DeleteCall(key, ok)`.

Three behaviours of the code are modelled as written:

- **A ledger file that does not decode is overwritten.** `isLoaded` is set
  even when unmarshalling fails, so the save writes the cycler's in-memory
  list over the file. The earlier history in that file is lost, and its
  packages are never evicted. `CorruptLedgerIsOverwritten` shows this.
- **Decoding reuses the list the cycler holds.** `json.Unmarshal` decodes
  into the existing elements. `file_keys` is omitted for a plain package, so
  a plain package in the file, loaded by a cycler that already held a
  composite package at that index, keeps the old member keys.
  `StaleMemberKeysSurviveDecode` shows this. A fresh cycler holds nothing,
  so the lemmas about `RunAll` are unaffected.
- **The save runs after eviction.** It does not persist the list before
  eviction. A delete that fails is only logged, and the saved ledger no
  longer lists that package.

## Model

| member | source | states |
|---|---|---|
| Retention.OwnKey | storage/cycler.go:86-89 | The own key gains a trailing "/" exactly when the package is composite and its key lacks one. Otherwise it is the file key unchanged. The result ends in "/" iff the package is composite or its key already did, so there is never a double slash. |
| Retention.EvictKeys | storage/cycler.go:90 | The keys deleted for a package are its member keys in order, followed by exactly one more: its own key. |
| Retention.CompositeKeyExample | storage/cycler.go:86-90 | Evicting "gen5" with parts "gen5/part1" and "gen5/part2" deletes both parts and then "gen5/". A key already ending in "/" is not given a second one. |
| Retention.Retained | storage/cycler.go:57-85 | With keep 0 the ledger is unchanged. Otherwise min(keep, n) packages remain, and they are the ledger's suffix in the original order. |
| Retention.Evicted | storage/cycler.go:57-65 | The evicted packages followed by the retained ones give back the ledger. Nothing is evicted when keep is 0. |
| Retention.DeleteTrace | storage/cycler.go:86-98 | The delete trace has at least one key per evicted package. It is empty iff nothing was evicted. |
| Retention.DeleteTraceSnoc | storage/cycler.go:80-99 | Evicting one more package appends exactly that package's delete calls: its member keys, then its own key. |
| Retention.DeleteTraceAppend | storage/cycler.go:80-99 | Evicting a and then b issues a's delete calls followed by b's. |
| Retention.EvictedKeysInOrder | storage/cycler.go:86-98 | The calls for any evicted package are its member keys, then its own key. They sit right between the calls for the packages evicted before it and those evicted after it. |
| Retention.StopsAtKeep | storage/cycler.go:57-65 | Shifting heads off until no more than keep remain leaves exactly the retained packages, and the packages shifted off are exactly the evicted ones. |
| Retention.RetainedOfRetained | storage/cycler.go:67-100 | Retaining, then appending more and retaining again, equals retaining once over everything. The two eviction rounds together evict what one round would. |
| Retention.RetainedEndsWithNewest | storage/cycler.go:80-85 | With keep > 0, retention over any history leaves at most keep packages, exactly keep once the history is that long, with the newest package last. |
| Storage.LedgerFile | storage/cycler.go:70 | The ledger file's name is the cycler's name followed by ".json". |
| Storage.LedgerFilesDistinct | storage/cycler.go:70 | Cyclers of different names use different ledger files, provided neither name holds a path separator (which `filepath.Join` would clean). |
| Storage.AfterLoad | storage/cycler.go:102-128 | Only the bootstrap "[]" is ever written, and only to a missing ledger; without faults it is written. A failing mkdir, or a failing bootstrap write for a missing ledger, leaves every file unchanged. isLoaded becomes true iff mkdir, the bootstrap (when needed) and the read all succeed. A failing step leaves the fields unchanged. The packages change only to the decoded content of the file. When no step fails, the file is decoded into the list the cycler held, and a file that does not decode leaves the list as it was. |
| Storage.DecodeInto | storage/cycler.go:123 | Decoding into a held list gives the file's length. It gives exactly the file's list when the cycler held nothing. |
| Storage.DecodeIntoAt | storage/cycler.go:123 | Element i keeps the file's key and creation time. Its member keys come from the file, unless the file has none and the held list had an element i; then the old member keys stay. |
| Storage.StaleMemberKeysSurviveDecode | storage/cycler.go:123 | A cycler holding ["old" with part "old/1"] that loads a file with the plain package "x" ends with "x" carrying part "old/1". Evicting it deletes "old/1" and then "x/". |
| Storage.AfterSave | storage/cycler.go:130-149 | A ledger that was not loaded is never written. A save either writes nothing or writes the current packages to the ledger file, and it writes them when no step fails. All other files are unchanged. |
| Storage.Attempts | storage/cycler.go:90-98 | The log has one entry per attempted key. |
| Storage.AttemptsExtend | storage/cycler.go:90-98 | Attempting one more key appends one entry with that key. The entry's outcome is that of call number `|trace|`. |
| Storage.AttemptsAt | storage/cycler.go:90-98 | Log entry i is for the i-th key of the trace. It failed exactly when call i failed. |
| Storage.AttemptsAppend | storage/cycler.go:90-98 | When no call fails, the log of two traces is the log of each in turn. |
| Storage.AfterRun | storage/cycler.go:67-100 | A run leaves the loaded flag as loading left it, and with keep 0 it makes no delete call. Its other effects are stated by the lemmas below. |
| Storage.RunRetainsNewest | storage/cycler.go:73-85 | After a run the ledger ends with the new package, behind the older survivors in their original order. With keep 0 nothing is evicted. Otherwise exactly min(keep, n + 1) packages remain. |
| Storage.RunDeleteCalls | storage/cycler.go:76-98 | With keep 0 delete is never called. Otherwise every key of every evicted package is attempted exactly once, oldest package first. Entry i of the log failed exactly when call i failed. |
| Storage.RunSavesAfterEviction | storage/cycler.go:74 | A run leaves isLoaded as loading left it. If nothing was loaded, the files stay as loading left them. A save without faults writes the post-eviction list. |
| Storage.DeleteFailuresIgnored | storage/cycler.go:92-97 | A failing delete changes nothing but its own log entry. The state after a run and the keys attempted are the same whichever calls fail. |
| Storage.CorruptLedgerIsOverwritten | storage/cycler.go:123-127 | A ledger file that does not decode still counts as loaded, so a fresh cycler's run overwrites it with just the new package. |
| Storage.ReadFailureLeavesLedger | storage/cycler.go:118-122 | A fresh cycler whose read fails does not load, and it leaves every file unchanged, even if the save steps would succeed. |
| Storage.FreshRunOnLedger | storage/cycler.go:67-128 | A fault-free run of a fresh cycler on a ledger file saves the retained part of that history plus the new package. A missing file counts as an empty ledger. The run deletes the keys of the rest, in order. |
| Storage.RunAll | storage/cycler.go:67-100 | Successive fault-free runs of fresh cyclers of one name. With keep 0 they make no delete call. |
| Storage.RunAllTouchesOnlyLedger | storage/cycler.go:102-149 | Any number of runs leave every file other than the cycler's own ledger file unchanged. |
| Storage.RunAllFirst | storage/cycler.go:67-100 | Peeling the first run off a sequence of runs: the files it leaves hold the retained grown history. Its log is that of one eviction round. |
| Storage.HistorySplit | storage/cycler.go:80-99 | One retention round on the grown ledger, then one over the rest of the history, keeps and deletes what one round over everything would. |
| Storage.RunAllKeepsLastN | storage/cycler.go:67-149 | After any number of fault-free runs, the ledger file holds exactly what a single "keep last N" pass over the whole history keeps, including a file that held more than keep packages at the start. The concatenated delete log is exactly that pass's evictions, oldest first. |
| Storage.RunAllAppendOnly | storage/cycler.go:76-78 | With keep 0 the ledger file ends up holding the whole history, and delete is never called. |
| Storage.RunAllBounded | storage/cycler.go:80-85 | With keep > 0 the ledger file holds at most keep packages after any number of runs, whatever list of packages the file held before, or none (for a file that does not decode see `Storage.CorruptLedgerIsOverwritten`), and exactly keep once the history is that long. It always ends with the newest package. |
| Storage.LoweredKeepTrims | storage/cycler.go:80-99 | A ledger file of three packages under keep 1 is trimmed in one run to just the new package, and the three older packages are evicted in that run, oldest first. |
| Storage.ScenarioHistory | storage/cycler.go:80-98 | For a, b, c, d kept at 2, the pass keeps [c, d]. It deletes the keys of a and then b, and both deletes succeed. |
| Storage.RetentionScenario | storage/cycler.go:67-100 | keep = 2 and four runs with keys a, b, c, d, starting with no ledger file: the ledger file ends as [c, d], and delete is called on "a" and then on "b". |
| Storage.DeleteEach | storage/cycler.go:90-98 | The inner loop extends the log with one entry per key, in order, continuing the call numbering. |
| Storage.Cycler.Add | storage/cycler.go:49-55 | Appends exactly one package with the given keys at the tail. All earlier packages are unchanged. |
| Storage.Cycler.ShiftByKeep | storage/cycler.go:57-65 | Returns None and leaves the list unchanged when its length is at most keep. Otherwise it returns the former head and the list loses its head. |
| Storage.Cycler.Load | storage/cycler.go:102-128 | The new fields and files are those of `AfterLoad` applied to the old ones. |
| Storage.Cycler.Save | storage/cycler.go:130-149 | The new files are those of `AfterSave` applied to the old state. |
| Storage.Cycler.EvictOverflow | storage/cycler.go:80-99 | The list becomes `Retained(old, keep)`. The returned log is the attempts over the delete trace of `Evicted(old, keep)`. |
| Storage.Cycler.Run | storage/cycler.go:67-100 | The new fields, the files and the returned delete log are those of `AfterRun` applied to the old state. |

## Left out

- JSON encoding and decoding are not modelled byte for byte. A ledger file is
  either a decoded list or malformed. A decode error leaves the in-memory list
  unchanged, and partial decoding on type errors is not modelled.
- Storage.DecodeInto: a file is taken to omit `file_keys` exactly when the
  list is empty, as `save` writes it. A hand-written `"file_keys": []` would
  clear the old member keys, which the model does not capture. An element
  decoded beyond the held list is modelled as starting from zero.
- The `time.Time` layout is not modelled: `createdAt` is an integer supplied
  by the caller in place of `time.Now()`. Nothing is assumed about its order.
- The cycler directory path (`config.VtsBackupDir`, `filepath.Join`) is
  reduced to the file name `<name>.json` inside one `FileStore`.
- Storage.LedgerFilesDistinct: the cleaning done by `filepath.Join` is not
  modelled, so the lemma is stated only for names without a "/".
- A write that fails leaves the old file content; a torn or truncated write
  is not modelled.
- Logging is not modelled. The delete outcomes the source logs are returned
  as a list instead.
- `shiftByKeep` returns a pointer into the slice's backing array. The model
  returns the package by value, so aliasing is not modelled.
- Concurrent runs on the same ledger are not modelled. The source has no
  locking.
- storage/local.go (the local backend's delete), config/config.go and the web
  API are not part of this model. Whether a delete removes directories or
  tolerates missing files is left to the `failAt` oracle.
- Storage.Cycler.Run: requires keep >= 0. With a negative keep, `shiftByKeep`
  empties the list and then indexes the empty slice, which panics. The
  deferred save that runs during that panic is not modelled.
- Storage.RunAllKeepsLastN: covers only runs in which every file-system step
  and every delete succeeds. Faulty runs are covered one at a time by the
  single-run lemmas.
