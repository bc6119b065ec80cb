/**
 * The existence prober of fs-capture (`CAP_ENGINE.Processor`).
 *
 * Every candidate path is handed to the platform's `stat` call. A path that
 * exists becomes an entry typed 1 (regular file) or 2 (anything else); a path
 * whose lookup fails with the code ENOENT is dropped; any other failure makes
 * the whole batch fail. The platform call is an oracle `stat` from paths to
 * outcomes, and the concurrent map is a map whose results keep input order.
 */
module Processor {
  import opened Wrappers

  type Path = string
  type ErrorCode = string

  /** The one error code the prober recovers from: "no such file or directory". */
  const ENOENT: ErrorCode := "ENOENT"

  /** What the platform's `stat` call reports for one path. */
  datatype StatResult = Stats(isFile: bool) | StatError(code: ErrorCode)

  /** The filesystem as seen at probe time. */
  type StatOracle = Path -> StatResult

  /**
   * The type of a captured entry. `Directory` stands for every kind of entry
   * that is not a regular file (directories, sockets, devices, ...), exactly as
   * the numeric type 2 does.
   */
  datatype EntryKind = File | Directory

  /** The number that the entry's `type` field carries. */
  function TypeCode(kind: EntryKind): (code: int)
    ensures code == 1 || code == 2
    ensures code == 1 <==> kind == File
  {
    if kind == File then 1 else 2
  }

  /** The type the stat's file-or-not answer gives: a regular file, or anything else. */
  function KindOf(isFile: bool): (k: EntryKind)
    ensures TypeCode(k) == (if isFile then 1 else 2)
  {
    if isFile then File else Directory
  }

  /** One captured entry: the candidate path it was probed from, and its type. */
  datatype Entry = Entry(path: Path, kind: EntryKind)

  /** The per-candidate outcome of the concurrent map, before filtering. */
  datatype Slot = Present(entry: Entry) | Absent | Rejected(code: ErrorCode)

  /** A stat outcome that aborts the whole batch. */
  predicate IsFatal(s: StatResult) {
    s.StatError? && s.code != ENOENT
  }

  /** Probes one candidate: an entry when it exists, absence on ENOENT, otherwise the error. */
  function ProbeOne(path: Path, stat: StatOracle): (slot: Slot)
    ensures slot.Present? <==> stat(path).Stats?
    ensures slot.Present? ==> slot.entry.path == path
    ensures slot.Present? ==> (TypeCode(slot.entry.kind) == 1 <==> stat(path).isFile)
    ensures slot.Absent? <==> stat(path) == StatError(ENOENT)
    ensures slot.Rejected? <==> IsFatal(stat(path))
    ensures slot.Rejected? ==> stat(path) == StatError(slot.code)
  {
    match stat(path)
    case Stats(isFile) => Present(Entry(path, KindOf(isFile)))
    case StatError(code) => if code == ENOENT then Absent else Rejected(code)
  }

  /** The concurrent map: one slot per candidate, collected in candidate order. */
  function ProbeAll(paths: seq<Path>, stat: StatOracle): (slots: seq<Slot>)
    ensures |slots| == |paths|
    ensures forall i :: 0 <= i < |paths| ==> slots[i] == ProbeOne(paths[i], stat)
    decreases |paths|
  {
    if paths == [] then []
    else ProbeAll(paths[..|paths| - 1], stat) + [ProbeOne(paths[|paths| - 1], stat)]
  }

  /**
   * The error the failed batch reports. Which failing probe wins in the
   * concurrent original depends on completion order; this picks the first in
   * candidate order, and its contract claims only that it is one of them.
   */
  function SomeRejection(slots: seq<Slot>): (r: Option<ErrorCode>)
    ensures r.None? <==> forall i :: 0 <= i < |slots| ==> !slots[i].Rejected?
    ensures r.Some? ==> exists i :: 0 <= i < |slots| && slots[i] == Rejected(r.value)
  {
    if slots == [] then None
    else if slots[0].Rejected? then Some(slots[0].code)
    else
      var rest := SomeRejection(slots[1..]);
      assert forall i :: 1 <= i < |slots| ==> slots[i] == slots[1..][i - 1];
      rest
  }

  /** The filter step: the entries of the present slots, in slot order. */
  function Survivors(slots: seq<Slot>): (entries: seq<Entry>)
    ensures |entries| <= |slots|
    ensures forall e :: e in entries ==> Present(e) in slots
    decreases |slots|
  {
    if slots == [] then []
    else
      var init := slots[..|slots| - 1];
      var last := slots[|slots| - 1];
      var kept := Survivors(init);
      assert forall e :: e in kept ==> Present(e) in slots by {
        forall e | e in kept ensures Present(e) in slots {
          var i :| 0 <= i < |init| && init[i] == Present(e);
          assert slots[i] == Present(e);
        }
      }
      kept + (if last.Present? then [last.entry] else [])
  }

  /**
   * `CAP_ENGINE.Processor`: fails when some probe fails with a code other than
   * ENOENT, and otherwise yields the entries of the candidates that exist.
   */
  function Process(paths: seq<Path>, stat: StatOracle): (r: Result<seq<Entry>, ErrorCode>)
    ensures r.Failure? <==> exists i :: 0 <= i < |paths| && IsFatal(stat(paths[i]))
    ensures r.Failure? ==> exists i :: 0 <= i < |paths| && stat(paths[i]) == StatError(r.error) && r.error != ENOENT
    ensures r.Success? ==> |r.value| <= |paths|
  {
    var slots := ProbeAll(paths, stat);
    match SomeRejection(slots)
    case Some(code) => Failure(code)
    case None => Success(Survivors(slots))
  }

  /** The indices of the candidates that exist, in increasing order. */
  function FoundIndices(paths: seq<Path>, stat: StatOracle): (idx: seq<nat>)
    ensures |idx| <= |paths|
    ensures forall k :: 0 <= k < |idx| ==> idx[k] < |paths|
    ensures forall k, l :: 0 <= k < l < |idx| ==> idx[k] < idx[l]
    ensures forall i :: 0 <= i < |paths| ==> (i in idx <==> stat(paths[i]).Stats?)
    decreases |paths|
  {
    if paths == [] then []
    else
      var n := |paths| - 1;
      var before := FoundIndices(paths[..n], stat);
      assert forall i :: 0 <= i < n ==> paths[..n][i] == paths[i];
      before + (if stat(paths[n]).Stats? then [n] else [])
  }

  /** The entry that probing an existing path yields. */
  function EntryAt(path: Path, stat: StatOracle): (e: Entry)
    requires stat(path).Stats?
    ensures Present(e) == ProbeOne(path, stat)
  {
    Entry(path, KindOf(stat(path).isFile))
  }

  /**
   * Order preservation of map-then-filter: the surviving entries are, one for
   * one and in order, those of the candidates that exist.
   */
  lemma {:induction false} SurvivorsAreFoundInOrder(paths: seq<Path>, stat: StatOracle)
    ensures var idx := FoundIndices(paths, stat);
            var entries := Survivors(ProbeAll(paths, stat));
            |entries| == |idx|
            && forall k :: 0 <= k < |idx| ==> entries[k] == EntryAt(paths[idx[k]], stat)
    decreases |paths|
  {
    if paths != [] {
      var n := |paths| - 1;
      var init := paths[..n];
      SurvivorsAreFoundInOrder(init, stat);
      var slots := ProbeAll(paths, stat);
      assert slots[..n] == ProbeAll(init, stat);
      var before := Survivors(ProbeAll(init, stat));
      var idxBefore := FoundIndices(init, stat);
      var last := if stat(paths[n]).Stats? then [EntryAt(paths[n], stat)] else [];
      assert Survivors(slots) == before + last;
      assert FoundIndices(paths, stat) == idxBefore + (if stat(paths[n]).Stats? then [n] else []);
      forall k | 0 <= k < |idxBefore|
        ensures (before + last)[k] == EntryAt(paths[idxBefore[k]], stat)
      {
        assert init[idxBefore[k]] == paths[idxBefore[k]];
      }
    }
  }

  /** On success the batch is, in candidate order, the entries of exactly the existing candidates. */
  lemma ProcessIsFoundCandidates(paths: seq<Path>, stat: StatOracle)
    ensures var idx := FoundIndices(paths, stat);
            var r := Process(paths, stat);
            r.Success? ==>
              |r.value| == |idx| && forall k :: 0 <= k < |idx| ==> r.value[k] == EntryAt(paths[idx[k]], stat)
  {
    SurvivorsAreFoundInOrder(paths, stat);
  }

  /**
   * All-or-nothing success: with no fatal probe, the batch yields exactly the
   * existing candidates, each typed from its stat, in candidate order.
   */
  lemma ProcessSucceedsWithFound(paths: seq<Path>, stat: StatOracle)
    requires forall i :: 0 <= i < |paths| ==> !IsFatal(stat(paths[i]))
    ensures Process(paths, stat).Success?
    ensures var idx := FoundIndices(paths, stat);
            var entries := Process(paths, stat).value;
            |entries| == |idx|
            && (forall k :: 0 <= k < |idx| ==> entries[k].path == paths[idx[k]])
            && (forall k :: 0 <= k < |idx| ==> (entries[k].kind == File <==> stat(paths[idx[k]]).isFile))
  {
    SurvivorsAreFoundInOrder(paths, stat);
  }

  /** A candidate that exists is never dropped. */
  lemma ExistingCandidateIsKept(paths: seq<Path>, stat: StatOracle, i: nat)
    requires i < |paths| && stat(paths[i]).Stats?
    requires Process(paths, stat).Success?
    ensures EntryAt(paths[i], stat) in Process(paths, stat).value
  {
    SurvivorsAreFoundInOrder(paths, stat);
    var idx := FoundIndices(paths, stat);
    var k :| 0 <= k < |idx| && idx[k] == i;
    assert Process(paths, stat).value[k] == EntryAt(paths[i], stat);
  }

  /** Distinct candidates give distinct entry paths: nothing is duplicated. */
  lemma DistinctCandidatesGiveDistinctEntries(paths: seq<Path>, stat: StatOracle)
    requires forall i, j :: 0 <= i < j < |paths| ==> paths[i] != paths[j]
    requires Process(paths, stat).Success?
    ensures var entries := Process(paths, stat).value;
            forall k, l :: 0 <= k < l < |entries| ==> entries[k].path != entries[l].path
  {
    SurvivorsAreFoundInOrder(paths, stat);
  }

  /** When every candidate is missing, the batch succeeds with nothing. */
  lemma AllMissingGivesEmpty(paths: seq<Path>, stat: StatOracle)
    requires forall i :: 0 <= i < |paths| ==> stat(paths[i]) == StatError(ENOENT)
    ensures Process(paths, stat) == Success([])
  {
    NoPresentSlotNoSurvivor(ProbeAll(paths, stat));
  }

  /** Filtering keeps nothing from slots none of which is present. */
  lemma {:induction false} NoPresentSlotNoSurvivor(slots: seq<Slot>)
    requires forall i :: 0 <= i < |slots| ==> !slots[i].Present?
    ensures Survivors(slots) == []
    decreases |slots|
  {
    if slots != [] {
      NoPresentSlotNoSurvivor(slots[..|slots| - 1]);
    }
  }

  /** When every candidate exists, every one yields an entry, in candidate order. */
  lemma AllExistingAreKept(paths: seq<Path>, stat: StatOracle)
    requires forall i :: 0 <= i < |paths| ==> stat(paths[i]).Stats?
    ensures Process(paths, stat).Success?
    ensures var entries := Process(paths, stat).value;
            |entries| == |paths| && forall i :: 0 <= i < |paths| ==> entries[i] == EntryAt(paths[i], stat)
  {
    var slots := ProbeAll(paths, stat);
    assert SomeRejection(slots).None? by {
      assert forall i :: 0 <= i < |slots| ==> slots[i].Present?;
    }
    SurvivorsAreFoundInOrder(paths, stat);
    AllFoundIndices(paths, stat);
    var entries := Survivors(slots);
    var idx := FoundIndices(paths, stat);
    forall i | 0 <= i < |paths|
      ensures entries[i] == EntryAt(paths[i], stat)
    {
      assert idx[i] == i;
    }
  }

  /** When every candidate exists, the found indices are 0, 1, ..., |paths| - 1. */
  lemma {:induction false} AllFoundIndices(paths: seq<Path>, stat: StatOracle)
    requires forall i :: 0 <= i < |paths| ==> stat(paths[i]).Stats?
    ensures var idx := FoundIndices(paths, stat);
            |idx| == |paths| && forall k :: 0 <= k < |idx| ==> idx[k] == k
    decreases |paths|
  {
    if paths != [] {
      var n := |paths| - 1;
      assert forall i :: 0 <= i < n ==> paths[..n][i] == paths[i];
      AllFoundIndices(paths[..n], stat);
    }
  }
}
