# fs-capture in Dafny

fs-capture turns a path into the filesystem entries that actually exist for it. The caller
gives a base path and, optionally, an extension and a sort order. The handler builds zero, one or
two candidate paths: the base path, and the base path with the extension appended. The
processor stats every candidate. A candidate that exists becomes an entry
`{path, type}`, with type 1 for a regular file and 2 for anything else. A candidate whose
stat fails with ENOENT is dropped. Any other stat error fails the whole capture.

The model has four modules:

- `Wrappers` (wrappers.dfy): `Option` and `Result`.
- `Processor` (processor.dfy): `CAP_ENGINE.Processor`. The platform's `stat` call is an
  oracle `StatOracle = Path -> StatResult`, where `StatResult = Stats(isFile) | StatError(code)`.
  The concurrent `Promise.map` becomes a map whose results stay in candidate order
  (`ProbeAll`). The `.filter` step becomes `Survivors`, and the batch's failure becomes
  `SomeRejection`. Its central lemma, `SurvivorsAreFoundInOrder`, shows that the result is
  exactly the subsequence of existing candidates, in candidate order.
- `Handler` (handler.dfy): `CAP_ENGINE.Handler`. It merges in the defaults, handles the
  argument shuffle when a function is passed as the options, and builds the candidate list
  imperatively (`BuildCandidates`). That method is proved equal to the reference definition
  `Candidates`: sort 2 is the base-first order, sort 1 is that order reversed, and any other
  value gives no candidates. The module also has the end-to-end `Capture` and the delivery
  to a callback or a promise (`Deliver`, `Handle`).
- `Scenarios` (scenarios.dfy): end-to-end lemmas for the situations the library's test
  suite sets up.

The sort option is compared with strict equality in a `switch` that has no default case.
So every value other than the numbers 1 and 2 yields an empty candidate list, and the
capture then succeeds with no entries. A caller who passes `sort: '1'` or `sort: 3` gets
an empty result rather than an error; the model follows the code
(`UnknownSortHasNoCandidates`, `UnknownSortCapturesNothing`).

Only the error code `ENOENT` is recovered. Any other code, `ENOTDIR` included, fails the
batch.

## Model

| member | source | states |
|---|---|---|
| `Processor.TypeCode` | lib/fs-capture.js:91 | the entry type is 1 or 2, and it is 1 exactly for a regular file |
| `Processor.KindOf` | lib/fs-capture.js:91 | the entry type is 1 when the stat says regular file and 2 otherwise |
| `Processor.ProbeOne` | lib/fs-capture.js:86-97 | a stat result yields an entry for that same path, typed 1 iff it is a regular file; ENOENT yields absence; any other code yields a rejection carrying that code |
| `Processor.ProbeAll` | lib/fs-capture.js:85-98 | the map gives one outcome per candidate, and the outcome at index i is the probe of candidate i, whatever the completion order |
| `Processor.SomeRejection` | lib/fs-capture.js:85-97 | there is no batch error iff no probe was rejected; a reported error is the code of some rejected probe |
| `Processor.Survivors` | lib/fs-capture.js:99-101 | the filter keeps no more entries than there were outcomes, and every kept entry is one that a probe produced |
| `Processor.Process` | lib/fs-capture.js:84-102 | the batch fails iff some candidate's stat fails with a code other than ENOENT, and the error is such a candidate's code; on success there are at most as many entries as candidates |
| `Processor.FoundIndices` | lib/fs-capture.js:99-101 | the indices of the existing candidates, strictly increasing and in range; index i is listed iff candidate i exists |
| `Processor.SurvivorsAreFoundInOrder` | lib/fs-capture.js:85-101 | map then filter yields, one for one and in candidate order, the entries of exactly the existing candidates |
| `Processor.ProcessIsFoundCandidates` | lib/fs-capture.js:84-102 | a successful batch is, one for one and in candidate order, the entries of exactly the existing candidates |
| `Processor.ProcessSucceedsWithFound` | lib/fs-capture.js:84-102 | with no fatal stat the batch succeeds; entry k has the path of the k-th existing candidate and is a file iff that stat says so |
| `Processor.ExistingCandidateIsKept` | lib/fs-capture.js:85-101 | on success, a candidate that exists is never dropped |
| `Processor.DistinctCandidatesGiveDistinctEntries` | lib/fs-capture.js:85-101 | distinct candidates give entries with distinct paths: no entry appears twice |
| `Processor.AllMissingGivesEmpty` | lib/fs-capture.js:95-101 | when every stat reports ENOENT, the batch succeeds with no entries (absence is not an error) |
| `Processor.NoPresentSlotNoSurvivor` | lib/fs-capture.js:99-101 | the filter keeps nothing from outcomes none of which is an entry |
| `Processor.AllExistingAreKept` | lib/fs-capture.js:85-101 | when every candidate exists, entry i is the entry of candidate i, for every i |
| `Handler.WithDefaults` | lib/fs-capture.js:47 | a missing extension becomes "" and a missing sort becomes 2; a given option is kept |
| `Handler.Normalize` | lib/fs-capture.js:42-45 | a function passed as the options becomes the callback, and the options are then empty |
| `Handler.BuildCandidates` | lib/fs-capture.js:49-63 | the list built by the switch is the reference candidate list: base-first for sort 2, its reverse for sort 1, empty otherwise |
| `Handler.DefaultCandidates` | lib/fs-capture.js:47-63 | with no options the candidate list is exactly [path] |
| `Handler.BaseFirstOrder` | lib/fs-capture.js:58-63 | sort 2: the base path first, then path + extension iff the extension is not empty |
| `Handler.ExtensionFirstOrder` | lib/fs-capture.js:52-57 | sort 1: path + extension first, then the base path iff the extension is not empty |
| `Handler.OrdersMirror` | lib/fs-capture.js:51-63 | with an extension, sort 1 is the reverse of sort 2; without one, both give [path] |
| `Handler.UnknownSortHasNoCandidates` | lib/fs-capture.js:51-64 | a sort other than the numbers 1 and 2 yields no candidates |
| `Handler.CandidatesDistinct` | lib/fs-capture.js:51-63 | at most two candidates, never the same path twice |
| `Handler.Capture` | lib/fs-capture.js:47-66 | at most two entries, each for one of the candidates; a failure carries the non-ENOENT code of some candidate |
| `Handler.CaptureIsFoundCandidates` | lib/fs-capture.js:47-102 | for all inputs: the capture fails iff some candidate's stat fails with a code other than ENOENT; otherwise entry k is the entry of the k-th existing candidate, in candidate order |
| `Handler.Deliver` | lib/fs-capture.js:67-74 | with a callback it gets exactly one of error and results; without one the promise resolves with the entries, or with the error as its value |
| `Handler.Handle` | lib/fs-capture.js:41-75 | the handler delivers the capture of the normalized options to the normalized callback |
| `Scenarios.MissingPathCapturesNothing` | lib/fs-capture.js:95-101 | a missing path captures to the empty list, not to an error |
| `Scenarios.ExistingPathCapturesItself` | test/test.default.js:171-187 | an existing path captures to exactly one entry: that path, typed from its stat |
| `Scenarios.BothVariantsInRequestedOrder` | test/test.default.js:207-245 | both variants exist: the default and sort 2 give [base, extended]; sort 1 gives [extended, base] |
| `Scenarios.MissingVariantIsDropped` | lib/fs-capture.js:95-101 | only path + extension exists: it alone is reported under either order |
| `Scenarios.BothOfTwoFound` | lib/fs-capture.js:85-101 | two candidates that both exist are both reported, in candidate order, each typed from its stat |
| `Scenarios.OneOfTwoFound` | lib/fs-capture.js:85-101 | of two candidates with one missing, only the other is reported |
| `Scenarios.UnknownSortCapturesNothing` | lib/fs-capture.js:51-66 | a sort other than 1 and 2 captures nothing and never fails, whatever the filesystem holds |
| `Scenarios.FatalProbeFailsCapture` | lib/fs-capture.js:85-97 | one candidate with a non-ENOENT stat error fails the whole capture |
| `Scenarios.NoCallbackNeverRejects` | lib/fs-capture.js:71-74 | without a callback a failed capture still resolves, with the error object as its value |
| `Scenarios.SameNameScenario` | test/test.default.js:367-406 | a directory "test/tmp/same_name" next to a file "test/tmp/same_name.txt": the default order gives [directory (2), file (1)], and sort 1 gives [file (1), directory (2)] |

## Left out

- The `stats` record that each entry carries. It is the platform's own metadata object. Only whether it describes a regular file is modelled.
- The real `fs.stat` call. It is the oracle `StatOracle`, which stands for one snapshot of the filesystem. It follows symbolic links, and it never changes while the probes run.
- The concurrency of `Promise.map`. The probes are a map whose results stay in candidate order, which is how the results are collected.
- Processor.SomeRejection: when several candidates fail, it picks the first in candidate order. The original reports whichever rejection settles first. The contracts of `SomeRejection`, `Process` and `Capture` claim only that the error comes from some failing candidate.
- The value the promise resolves with when a callback is given: that is the callback's return value, and it is not modelled. `Deliver` records the arguments the callback receives.
- A callback that throws. Its exception would be caught by the same `.catch`, and the callback would be invoked a second time with the error. The model calls the callback once.
- `Object.assign` details beyond the two defaults: an option passed explicitly as `undefined`, a non-string extension, a non-object options value, and extra fields.
- Sort values are `Num(n)` for integer numbers and `NonNumeric` for everything else, such as strings, fractions and booleans. Strict equality makes them all miss both cases.
