/**
 * The entry point of fs-capture (`CAP_ENGINE.Handler`): fills in the
 * options, builds the ordered candidate list from the base path and the
 * extension, hands it to the prober, and delivers the outcome to a callback
 * or as the value of the returned promise.
 */
module Handler {
  import opened Wrappers
  import opened Processor

  /**
   * The value of the `sort` option. The selector is compared with strict
   * equality against the numbers 1 and 2, so every value that is not an
   * integer number (a string "1", a fraction, a boolean, ...) is `NonNumeric`.
   */
  datatype SortValue = Num(n: int) | NonNumeric

  /** Extension first: the extended path is probed, and reported, before the base path. */
  const ExtensionFirst: SortValue := Num(1)

  /** Base first, the default. */
  const BaseFirstSort: SortValue := Num(2)

  /** The options object as the caller passes it; a field left out is `None`. */
  datatype Options = Options(extension: Option<string>, sort: Option<SortValue>)

  const NoOptions := Options(None, None)

  /** The options after the defaults are merged in. */
  datatype Settings = Settings(extension: string, sort: SortValue)

  /** The second argument of the handler: nothing, an options object, or a function. */
  datatype SecondArg = Omitted | Given(options: Options) | Function

  /** Merges the caller's options over the defaults: extension "" and sort 2. */
  function WithDefaults(o: Options): (s: Settings)
    ensures o.extension.None? ==> s.extension == ""
    ensures o.extension.Some? ==> s.extension == o.extension.value
    ensures o.sort.None? ==> s.sort == BaseFirstSort
    ensures o.sort.Some? ==> s.sort == o.sort.value
  {
    Settings(o.extension.GetOr(""), o.sort.GetOr(BaseFirstSort))
  }

  /**
   * The argument shuffle: a function passed in place of the options is the
   * callback, and the options are then empty. Otherwise the callback is
   * whatever the third argument says.
   */
  function Normalize(second: SecondArg, callbackGiven: bool): (r: (Options, bool))
    ensures second.Function? ==> r == (NoOptions, true)
    ensures second.Omitted? ==> r == (NoOptions, callbackGiven)
    ensures second.Given? ==> r == (second.options, callbackGiven)
  {
    match second
    case Omitted => (NoOptions, callbackGiven)
    case Given(o) => (o, callbackGiven)
    case Function => (NoOptions, true)
  }

  /** The path variants in base-first order: the base, then the extended path when the extension is not empty. */
  function BaseFirst(path: Path, extension: string): (r: seq<Path>)
  {
    if extension == "" then [path] else [path, path + extension]
  }

  function Reversed<T>(s: seq<T>): (r: seq<T>)
    ensures |r| == |s|
    ensures forall i :: 0 <= i < |s| ==> r[i] == s[|s| - 1 - i]
  {
    if s == [] then [] else Reversed(s[1..]) + [s[0]]
  }

  /**
   * The candidate list the handler builds, stated declaratively: sort 2 is the
   * base-first order, sort 1 is the same variants reversed, and any other sort
   * value selects nothing.
   */
  function Candidates(path: Path, s: Settings): (r: seq<Path>)
  {
    if s.sort == BaseFirstSort then BaseFirst(path, s.extension)
    else if s.sort == ExtensionFirst then Reversed(BaseFirst(path, s.extension))
    else []
  }

  /**
   * Builds the candidate list step by step, as the handler's switch does:
   * start empty, assign the first candidate for the selected case, then push
   * the second one when the extension is not empty.
   */
  method BuildCandidates(path: Path, options: Options) returns (paths: seq<Path>)
    ensures paths == Candidates(path, WithDefaults(options))
  {
    var settings := WithDefaults(options);
    paths := [];
    match settings.sort {
      case Num(1) =>
        paths := [path + settings.extension];
        if settings.extension != "" {
          paths := paths + [path];
        }
        assert path + "" == path;
        ghost var variants := BaseFirst(path, settings.extension);
        assert |paths| == |Reversed(variants)|;
        assert forall i :: 0 <= i < |paths| ==> paths[i] == Reversed(variants)[i];
      case Num(2) =>
        paths := [path];
        if settings.extension != "" {
          paths := paths + [path + settings.extension];
        }
      case _ =>
    }
  }

  /** With no options at all, the one candidate is the path itself. */
  lemma DefaultCandidates(path: Path)
    ensures Candidates(path, WithDefaults(NoOptions)) == [path]
  {
  }

  /** Sort 2: the base path first, followed by the extended path exactly when the extension is not empty. */
  lemma BaseFirstOrder(path: Path, extension: string)
    ensures var r := Candidates(path, Settings(extension, BaseFirstSort));
            1 <= |r| && r[0] == path
            && (|r| == 2 <==> extension != "")
            && (|r| == 2 ==> r[1] == path + extension)
  {
  }

  /** Sort 1: the extended path first, followed by the base path exactly when the extension is not empty. */
  lemma ExtensionFirstOrder(path: Path, extension: string)
    ensures var r := Candidates(path, Settings(extension, ExtensionFirst));
            1 <= |r| && r[0] == path + extension
            && (|r| == 2 <==> extension != "")
            && (|r| == 2 ==> r[1] == path)
  {
    assert path + "" == path;
  }

  /** With an extension the two orders are mirror images; without one they coincide as [path]. */
  lemma OrdersMirror(path: Path, extension: string)
    ensures extension != "" ==>
              Candidates(path, Settings(extension, ExtensionFirst))
              == Reversed(Candidates(path, Settings(extension, BaseFirstSort)))
    ensures extension == "" ==>
              Candidates(path, Settings(extension, ExtensionFirst)) == [path]
              && Candidates(path, Settings(extension, BaseFirstSort)) == [path]
  {
  }

  /** A sort value other than the numbers 1 and 2 selects no candidate. */
  lemma UnknownSortHasNoCandidates(path: Path, s: Settings)
    requires s.sort != Num(1) && s.sort != Num(2)
    ensures Candidates(path, s) == []
  {
  }

  /** At most two candidates, and never the same path twice. */
  lemma CandidatesDistinct(path: Path, s: Settings)
    ensures var r := Candidates(path, s);
            |r| <= 2 && forall i, j :: 0 <= i < j < |r| ==> r[i] != r[j]
  {
    if s.extension != "" {
      assert |path + s.extension| > |path|;
    }
  }

  /** The whole capture: defaults, candidate list, probe and filter. */
  function Capture(path: Path, options: Options, stat: StatOracle): (r: Result<seq<Entry>, ErrorCode>)
    ensures r.Success? ==> |r.value| <= 2
    ensures r.Success? ==> forall e :: e in r.value ==> e.path in Candidates(path, WithDefaults(options))
    ensures r.Failure? ==> exists p :: p in Candidates(path, WithDefaults(options)) && stat(p) == StatError(r.error) && r.error != ENOENT
  {
    var candidates := Candidates(path, WithDefaults(options));
    CandidatesDistinct(path, WithDefaults(options));
    var r := Process(candidates, stat);
    if r.Success? then
      assert forall e :: e in r.value ==> Present(e) in ProbeAll(candidates, stat);
      r
    else
      r
  }

  /**
   * The end-to-end result: the capture fails exactly when some candidate's
   * stat fails with a code other than ENOENT, and otherwise yields, in
   * candidate order, the entries of exactly the candidates that exist.
   */
  lemma CaptureIsFoundCandidates(path: Path, options: Options, stat: StatOracle)
    ensures var c := Candidates(path, WithDefaults(options));
            Capture(path, options, stat).Failure? <==> exists i :: 0 <= i < |c| && IsFatal(stat(c[i]))
    ensures var c := Candidates(path, WithDefaults(options));
            var idx := FoundIndices(c, stat);
            var r := Capture(path, options, stat);
            r.Success? ==>
              |r.value| == |idx| && forall k :: 0 <= k < |idx| ==> r.value[k] == EntryAt(c[idx[k]], stat)
  {
    var c := Candidates(path, WithDefaults(options));
    assert Capture(path, options, stat) == Process(c, stat);
    ProcessIsFoundCandidates(c, stat);
  }

  /** What the caller gets: the callback's two arguments, or the value the promise settles with. */
  datatype Delivery =
    | CallbackInvoked(err: Option<ErrorCode>, results: Option<seq<Entry>>)
    | Resolved(value: PromiseValue)

  /** The value of a promise that was given no callback: the entries, or the error object itself. */
  datatype PromiseValue = Entries(entries: seq<Entry>) | ErrorObject(code: ErrorCode)

  /**
   * Hands the outcome to the caller. With a callback it is called as
   * (null, results) or (err, null). Without one the promise resolves either way:
   * a failure arrives as the resolved value, never as a rejection.
   */
  function Deliver(r: Result<seq<Entry>, ErrorCode>, hasCallback: bool): (d: Delivery)
    ensures d.CallbackInvoked? <==> hasCallback
    ensures d.CallbackInvoked? ==> (d.err.None? <==> d.results.Some?)
    ensures d.CallbackInvoked? && r.Success? ==> d.results == Some(r.value)
    ensures d.CallbackInvoked? && r.Failure? ==> d.err == Some(r.error)
    ensures d.Resolved? && r.Success? ==> d.value == Entries(r.value)
    ensures d.Resolved? && r.Failure? ==> d.value == ErrorObject(r.error)
  {
    if hasCallback then
      match r
      case Success(entries) => CallbackInvoked(None, Some(entries))
      case Failure(e) => CallbackInvoked(Some(e), None)
    else
      match r
      case Success(entries) => Resolved(Entries(entries))
      case Failure(e) => Resolved(ErrorObject(e))
  }

  /**
   * `CAP_ENGINE.Handler`: normalizes the arguments, builds the candidate list,
   * probes it and delivers the outcome.
   */
  method Handle(path: Path, second: SecondArg, callbackGiven: bool, stat: StatOracle) returns (d: Delivery)
    ensures var (options, hasCallback) := Normalize(second, callbackGiven);
            d == Deliver(Capture(path, options, stat), hasCallback)
  {
    var options, hasCallback := NoOptions, callbackGiven;
    match second {
      case Function =>
        hasCallback := true;
      case Given(o) =>
        options := o;
      case Omitted =>
    }
    var paths := BuildCandidates(path, options);
    var outcome := Process(paths, stat);
    d := Deliver(outcome, hasCallback);
  }
}
