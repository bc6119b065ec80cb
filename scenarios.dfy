/**
 * End-to-end properties of a capture, for the situations the library's own
 * test suite sets up: a path that is missing, a directory, a regular file,
 * and a base path next to a variant with the extension appended.
 */
module Scenarios {
  import opened Wrappers
  import opened Processor
  import opened Handler

  /** A path that does not exist captures to nothing, and no error. */
  lemma MissingPathCapturesNothing(path: Path, stat: StatOracle)
    requires stat(path) == StatError(ENOENT)
    ensures Capture(path, NoOptions, stat) == Success([])
  {
    AllMissingGivesEmpty([path], stat);
  }

  /** A path that exists captures to exactly one entry: that path, typed 1 for a regular file and 2 otherwise. */
  lemma ExistingPathCapturesItself(path: Path, stat: StatOracle)
    requires stat(path).Stats?
    ensures Capture(path, NoOptions, stat) == Success([Entry(path, KindOf(stat(path).isFile))])
  {
    DefaultCandidates(path);
    AllExistingAreKept([path], stat);
    var entries := Process([path], stat).value;
    assert entries == [entries[0]];
  }

  /** Base and extended path both exist: sort 2 reports the base first, sort 1 the extended path first. */
  lemma BothVariantsInRequestedOrder(path: Path, extension: string, stat: StatOracle)
    requires extension != ""
    requires stat(path).Stats? && stat(path + extension).Stats?
    ensures var base := Entry(path, KindOf(stat(path).isFile));
            var extended := Entry(path + extension, KindOf(stat(path + extension).isFile));
            Capture(path, Options(Some(extension), None), stat) == Success([base, extended])
            && Capture(path, Options(Some(extension), Some(BaseFirstSort)), stat) == Success([base, extended])
            && Capture(path, Options(Some(extension), Some(ExtensionFirst)), stat) == Success([extended, base])
  {
    var extended := path + extension;
    BaseFirstOrder(path, extension);
    assert Candidates(path, Settings(extension, BaseFirstSort)) == [path, extended];
    BothOfTwoFound(path, extended, stat);
    ExtensionFirstOrder(path, extension);
    assert Candidates(path, Settings(extension, ExtensionFirst)) == [extended, path];
    BothOfTwoFound(extended, path, stat);
  }

  /** Two candidates that both exist are both reported, in candidate order. */
  lemma BothOfTwoFound(a: Path, b: Path, stat: StatOracle)
    requires stat(a).Stats? && stat(b).Stats?
    ensures Process([a, b], stat) == Success([Entry(a, KindOf(stat(a).isFile)), Entry(b, KindOf(stat(b).isFile))])
  {
    AllExistingAreKept([a, b], stat);
    var entries := Process([a, b], stat).value;
    assert entries == [entries[0], entries[1]];
  }

  /** Only the extended path exists: it alone is reported, whichever of the two orders is asked for. */
  lemma MissingVariantIsDropped(path: Path, extension: string, sort: SortValue, stat: StatOracle)
    requires extension != ""
    requires sort == BaseFirstSort || sort == ExtensionFirst
    requires stat(path) == StatError(ENOENT) && stat(path + extension).Stats?
    ensures Capture(path, Options(Some(extension), Some(sort)), stat)
            == Success([Entry(path + extension, KindOf(stat(path + extension).isFile))])
  {
    var extended := path + extension;
    assert extended != path by {
      assert |extended| > |path|;
    }
    if sort == BaseFirstSort {
      BaseFirstOrder(path, extension);
      assert Candidates(path, Settings(extension, sort)) == [path, extended];
      OneOfTwoFound(path, extended, stat);
    } else {
      ExtensionFirstOrder(path, extension);
      assert Candidates(path, Settings(extension, sort)) == [extended, path];
      OneOfTwoFound(extended, path, stat);
    }
  }

  /** Of two candidates, the one that is missing is dropped and the other reported. */
  lemma OneOfTwoFound(a: Path, b: Path, stat: StatOracle)
    requires (stat(a) == StatError(ENOENT) && stat(b).Stats?) || (stat(a).Stats? && stat(b) == StatError(ENOENT))
    ensures stat(b).Stats? ==> Process([a, b], stat) == Success([Entry(b, KindOf(stat(b).isFile))])
    ensures stat(a).Stats? ==> Process([a, b], stat) == Success([Entry(a, KindOf(stat(a).isFile))])
  {
    var first, second := ProbeOne(a, stat), ProbeOne(b, stat);
    var slots := ProbeAll([a, b], stat);
    assert slots == [first, second];
    assert slots[..1] == [first] && [first][..0] == [];
    assert Survivors([first]) == (if first.Present? then [first.entry] else []);
    assert Survivors(slots) == Survivors([first]) + (if second.Present? then [second.entry] else []);
    assert SomeRejection(slots).None?;
    assert Process([a, b], stat) == Success(Survivors(slots));
    if stat(b).Stats? {
      assert first == Absent && second == Present(Entry(b, KindOf(stat(b).isFile)));
      assert Survivors(slots) == [Entry(b, KindOf(stat(b).isFile))];
    } else {
      assert first == Present(Entry(a, KindOf(stat(a).isFile))) && second == Absent;
      assert Survivors(slots) == [Entry(a, KindOf(stat(a).isFile))];
    }
  }

  /** A sort value other than 1 and 2 captures nothing and never fails, whatever the filesystem holds. */
  lemma UnknownSortCapturesNothing(path: Path, extension: Option<string>, sort: SortValue, stat: StatOracle)
    requires sort != Num(1) && sort != Num(2)
    ensures Capture(path, Options(extension, Some(sort)), stat) == Success([])
  {
    UnknownSortHasNoCandidates(path, WithDefaults(Options(extension, Some(sort))));
  }

  /** One candidate failing with a code other than ENOENT fails the whole capture, with no partial result. */
  lemma FatalProbeFailsCapture(path: Path, options: Options, stat: StatOracle, p: Path)
    requires p in Candidates(path, WithDefaults(options))
    requires IsFatal(stat(p))
    ensures Capture(path, options, stat).Failure?
  {
    var candidates := Candidates(path, WithDefaults(options));
    var i :| 0 <= i < |candidates| && candidates[i] == p;
  }

  /** Without a callback the promise never rejects: a failure comes back as the resolved value. */
  lemma NoCallbackNeverRejects(path: Path, options: Options, stat: StatOracle, p: Path)
    requires p in Candidates(path, WithDefaults(options))
    requires IsFatal(stat(p))
    ensures Deliver(Capture(path, options, stat), false).Resolved?
    ensures Deliver(Capture(path, options, stat), false).value.ErrorObject?
  {
    FatalProbeFailsCapture(path, options, stat, p);
  }

  /**
   * The suite's mixed case: "test/tmp/same_name" is a directory and
   * "test/tmp/same_name.txt" a regular file. Sort 1 gives the file (type 1)
   * first, then the directory (type 2).
   */
  lemma SameNameScenario(stat: StatOracle)
    requires stat("test/tmp/same_name") == Stats(false)
    requires stat("test/tmp/same_name.txt") == Stats(true)
    ensures Capture("test/tmp/same_name", Options(Some(".txt"), Some(ExtensionFirst)), stat)
            == Success([Entry("test/tmp/same_name.txt", File), Entry("test/tmp/same_name", Directory)])
    ensures Capture("test/tmp/same_name", Options(Some(".txt"), None), stat)
            == Success([Entry("test/tmp/same_name", Directory), Entry("test/tmp/same_name.txt", File)])
  {
    assert "test/tmp/same_name" + ".txt" == "test/tmp/same_name.txt";
    BothVariantsInRequestedOrder("test/tmp/same_name", ".txt", stat);
  }
}
