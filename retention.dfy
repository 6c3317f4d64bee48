/** The list logic of the retention cycler (storage/cycler.go): what a ledger
    keeps under a "keep last N" policy, which packages it evicts, and which keys
    are handed to the backend's delete for each evicted package. */
module Retention {

  /** One backed-up generation (Go `Package`). When `fileKeys` is non-empty the
      package is composite and `fileKey` names the directory that holds it.
      `createdAt` stands for the `time.Time` taken when the package was added. */
  datatype Package = Package(fileKey: string, fileKeys: seq<string>, createdAt: int)

  datatype Option<T> = None | Some(value: T)

  /** `strings.HasSuffix(s, "/")` */
  predicate HasSlashSuffix(s: string) {
    |s| > 0 && s[|s| - 1] == '/'
  }

  predicate IsComposite(p: Package) {
    p.fileKeys != []
  }

  /** The package's own key as handed to the delete callback: a composite
      package's key becomes a directory key, with a trailing "/" added only
      when it does not already have one. */
  function OwnKey(p: Package): (k: string)
    ensures k == p.fileKey <==> !IsComposite(p) || HasSlashSuffix(p.fileKey)
    ensures k != p.fileKey ==> k == p.fileKey + "/" && !HasSlashSuffix(p.fileKey)
    ensures HasSlashSuffix(k) <==> IsComposite(p) || HasSlashSuffix(p.fileKey)
  {
    if IsComposite(p) && !HasSlashSuffix(p.fileKey) then p.fileKey + "/" else p.fileKey
  }

  /** The keys passed to the delete callback when `p` is evicted, in call
      order: every member key, then the package's own key. */
  function EvictKeys(p: Package): (keys: seq<string>)
    ensures |keys| == |p.fileKeys| + 1 && keys[|p.fileKeys|] == OwnKey(p)
    ensures forall i :: 0 <= i < |p.fileKeys| ==> keys[i] == p.fileKeys[i]
  {
    p.fileKeys + [OwnKey(p)]
  }

  /** A composite package "gen5" holding two part files is evicted by
      deleting both parts and then the directory key "gen5/"; had its key
      already ended in "/", no second slash is added. */
  lemma CompositeKeyExample(t: int)
    ensures EvictKeys(Package("gen5", ["gen5/part1", "gen5/part2"], t)) == ["gen5/part1", "gen5/part2", "gen5/"]
    ensures EvictKeys(Package("gen5/", ["gen5/part1"], t)) == ["gen5/part1", "gen5/"]
  {
    assert !HasSlashSuffix("gen5") && "gen5" + "/" == "gen5/";
    assert HasSlashSuffix("gen5/");
  }

  /** The packages that survive retention: with `keep == 0` everything, else
      the newest `keep` (all of them when there are no more than `keep`). */
  function Retained(ledger: seq<Package>, keep: nat): (r: seq<Package>)
    ensures keep == 0 ==> r == ledger
    ensures keep > 0 ==> |r| == if |ledger| <= keep then |ledger| else keep
    ensures r == ledger[|ledger| - |r|..]
  {
    if keep == 0 || |ledger| <= keep then ledger else ledger[|ledger| - keep..]
  }

  /** The packages removed from the head of the ledger, oldest first. */
  function Evicted(ledger: seq<Package>, keep: nat): (r: seq<Package>)
    ensures r + Retained(ledger, keep) == ledger
    ensures keep == 0 ==> r == []
  {
    ledger[..|ledger| - |Retained(ledger, keep)|]
  }

  /** The whole sequence of delete calls made while evicting `evicted`,
      package by package, oldest first. */
  function DeleteTrace(evicted: seq<Package>): (r: seq<string>)
    ensures |r| >= |evicted|
    ensures r == [] <==> evicted == []
  {
    if evicted == [] then [] else EvictKeys(evicted[0]) + DeleteTrace(evicted[1..])
  }

  /** Evicting `a` and then `b` issues the calls of `a` followed by those of `b`. */
  lemma {:induction false} DeleteTraceAppend(a: seq<Package>, b: seq<Package>)
    ensures DeleteTrace(a + b) == DeleteTrace(a) + DeleteTrace(b)
  {
    if a == [] {
      assert a + b == b;
    } else {
      assert (a + b)[1..] == a[1..] + b;
      DeleteTraceAppend(a[1..], b);
    }
  }

  /** Evicting one more package appends exactly its own delete calls. */
  lemma DeleteTraceSnoc(evicted: seq<Package>, p: Package)
    ensures DeleteTrace(evicted + [p]) == DeleteTrace(evicted) + EvictKeys(p)
  {
    assert DeleteTrace([p]) == EvictKeys(p) by {
      assert [p][1..] == [];
    }
    DeleteTraceAppend(evicted, [p]);
  }

  /** Every key of every evicted package is attempted exactly once and in
      order: the calls for an evicted package `p` come right after those for
      the packages evicted before it and right before those evicted after it. */
  lemma EvictedKeysInOrder(before: seq<Package>, p: Package, after: seq<Package>)
    ensures DeleteTrace(before + [p] + after)
         == DeleteTrace(before) + EvictKeys(p) + DeleteTrace(after)
  {
    DeleteTraceSnoc(before, p);
    DeleteTraceAppend(before, [p]);
    DeleteTraceAppend(before + [p], after);
  }

  /** Shifting the head off until no more than `keep` packages remain leaves
      exactly the retained packages and has shifted off exactly the evicted
      ones: the characterisation of the eviction loop's exit. */
  lemma StopsAtKeep(ledger: seq<Package>, shifted: seq<Package>, rest: seq<Package>, keep: nat)
    requires keep > 0 && shifted + rest == ledger
    requires |rest| <= keep
    requires shifted == [] || |rest| >= keep
    ensures rest == Retained(ledger, keep) && shifted == Evicted(ledger, keep)
  {
    var kept := Retained(ledger, keep);
    assert |kept| == |rest|;
    assert rest == ledger[|shifted|..];
    assert shifted == ledger[..|shifted|];
  }

  /** Retaining, then appending more packages and retaining again, keeps the
      same packages as retaining once over everything, and the two rounds of
      eviction together remove exactly what one round would. This is what
      lets successive runs share one ledger. */
  lemma RetainedOfRetained(ledger: seq<Package>, more: seq<Package>, keep: nat)
    ensures Retained(Retained(ledger, keep) + more, keep) == Retained(ledger + more, keep)
    ensures Evicted(ledger, keep) + Evicted(Retained(ledger, keep) + more, keep)
         == Evicted(ledger + more, keep)
  {
    if keep > 0 && |ledger| > keep {
      var kept := Retained(ledger, keep);
      var gone := Evicted(ledger, keep);
      var all := ledger + more;
      assert |kept| == keep && |gone| == |ledger| - keep;
      assert all == gone + (kept + more);
      assert Retained(all, keep) == all[|gone| + |more|..];
      assert Retained(kept + more, keep) == (kept + more)[|more|..];
      assert all[|gone| + |more|..] == (kept + more)[|more|..];
      assert Evicted(all, keep) == all[..|gone| + |more|];
      assert Evicted(kept + more, keep) == (kept + more)[..|more|];
      assert all[..|gone| + |more|] == gone + (kept + more)[..|more|];
    }
  }

  /** However long the history, retention with `keep > 0` leaves at most
      `keep` packages, exactly `keep` once the history is that long, and the
      newest package last. */
  lemma RetainedEndsWithNewest(ledger: seq<Package>, news: seq<Package>, keep: nat)
    requires news != [] && keep > 0
    ensures var r := Retained(ledger + news, keep);
      |r| <= keep && (|ledger| + |news| >= keep ==> |r| == keep) &&
      r != [] && r[|r| - 1] == news[|news| - 1]
  {
    var all := ledger + news;
    assert all[|all| - 1] == news[|news| - 1];
  }
}
