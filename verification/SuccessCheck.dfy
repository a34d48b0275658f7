/**
 The field comparison check of rollout/checks/success_check.go: snapshots of the compared
 paths, two nested polls over them, failure checks and timeout reports.  JSON paths are
 uninterpreted; what the server, the clock and the failure checks do is an environment.
 */
module SuccessCheck {
  import opened Wrappers

  /** Values are compared for equality only. */
  datatype Value = Int(n: int) | Json(text: string)

  /** A value by path if the path is not empty, else `fixed` if it is given, else `fixedInt`. */
  datatype Expected = Expected(path: string, fixed: Option<Value>, fixedInt: int)

  datatype Comparison = Comparison(name: string, path: string, default: Option<Value>, expected: Expected)

  datatype Error =
    | BadPath(path: string)
    | NoSingleResult(path: string)
    | PathFailed(path: string)
    | ReadFailed
    | NoClient
    | UnknownCheck
    | CheckError
    | ReportFailed
    | TimedOut

  // ---- Snapshots ----

  /** What a path yields on an object; a path that is not found yields no results. */
  datatype Found = Results(values: seq<seq<Value>>) | Failed

  /** An object is what the paths yield on it. */
  type Document = string -> Found

  /** A parsed path with the default it was last registered with. */
  type Paths = map<string, Option<Value>>

  type Snapshot = map<string, Value>

  function FindResult(path: string, default: Option<Value>, doc: Document): Result<Value, Error> {
    match doc(path)
    case Failed => Err(PathFailed(path))
    case Results(rs) =>
      if |rs| == 1 && |rs[0]| == 1 then Ok(rs[0][0])
      else if |rs| == 0 && default.Some? then Ok(default.value)
      else Err(NoSingleResult(path))
  }

  /** The paths that one comparison looks up. */
  function PathsOf(c: Comparison): set<string> {
    {c.path} + if c.expected.path != "" then {c.expected.path} else {}
  }

  function AllPaths(cs: seq<Comparison>): set<string> {
    if cs == [] then {} else AllPaths(cs[..|cs| - 1]) + PathsOf(cs[|cs| - 1])
  }

  /** The default a path ends up with: the last registration counts, and value paths have none. */
  function DefaultOf(cs: seq<Comparison>, path: string): Option<Value> {
    if cs == [] then None
    else
      var c := cs[|cs| - 1];
      if c.expected.path == path && path != "" then None
      else if c.path == path then c.default
      else DefaultOf(cs[..|cs| - 1], path)
  }

  /** A comparison looks a path up: for the observed value, or for the expected one. */
  predicate Mentions(c: Comparison, path: string) {
    c.path == path || (c.expected.path == path && path != "")
  }

  /** The paths of comparisons, each with the default that its last mention gives it. */
  ghost predicate PathsAre(cs: seq<Comparison>, paths: Paths) {
    && (forall p :: p in paths <==> exists i :: 0 <= i < |cs| && Mentions(cs[i], p))
    && (forall i, p :: 0 <= i < |cs| && Mentions(cs[i], p) && (forall j :: i < j < |cs| ==> !Mentions(cs[j], p)) ==>
         paths[p] == if cs[i].expected.path == p && p != "" then None else cs[i].default)
  }

  lemma {:induction false} AllPathsMeans(cs: seq<Comparison>, p: string)
    ensures p in AllPaths(cs) <==> exists i :: 0 <= i < |cs| && Mentions(cs[i], p)
  {
    if cs != [] {
      var init := cs[..|cs| - 1];
      AllPathsMeans(init, p);
      assert p in AllPaths(cs) <==> p in AllPaths(init) || Mentions(cs[|cs| - 1], p);
      assert forall i :: 0 <= i < |init| ==> init[i] == cs[i];
    }
  }

  lemma {:induction false} DefaultOfMeans(cs: seq<Comparison>, p: string, i: nat)
    requires i < |cs| && Mentions(cs[i], p) && forall j :: i < j < |cs| ==> !Mentions(cs[j], p)
    ensures DefaultOf(cs, p) == if cs[i].expected.path == p && p != "" then None else cs[i].default
  {
    if i < |cs| - 1 {
      DefaultOfMeans(cs[..|cs| - 1], p, i);
    }
  }

  /** The last mention of a path. */
  lemma {:induction false} LastMention(cs: seq<Comparison>, p: string) returns (i: nat)
    requires p in AllPaths(cs)
    ensures i < |cs| && Mentions(cs[i], p) && forall j :: i < j < |cs| ==> !Mentions(cs[j], p)
  {
    i := |cs| - 1;
    if !Mentions(cs[i], p) {
      i := LastMention(cs[..|cs| - 1], p);
    }
  }

  /** Registration leaves exactly these paths, with these defaults. */
  lemma RegistrationMeans(cs: seq<Comparison>, paths: Paths)
    ensures PathsAre(cs, paths) <==> paths.Keys == AllPaths(cs) && forall p :: p in paths ==> paths[p] == DefaultOf(cs, p)
  {
    forall p
      ensures p in AllPaths(cs) <==> exists i :: 0 <= i < |cs| && Mentions(cs[i], p)
    {
      AllPathsMeans(cs, p);
    }
    if PathsAre(cs, paths) {
      assert forall p :: p in paths <==> p in AllPaths(cs);
      assert paths.Keys == AllPaths(cs);
      forall p | p in paths
        ensures paths[p] == DefaultOf(cs, p)
      {
        var i := LastMention(cs, p);
        DefaultOfMeans(cs, p, i);
      }
    }
    forall i, p | 0 <= i < |cs| && Mentions(cs[i], p) && (forall j :: i < j < |cs| ==> !Mentions(cs[j], p))
      ensures DefaultOf(cs, p) == if cs[i].expected.path == p && p != "" then None else cs[i].default
    {
      DefaultOfMeans(cs, p, i);
    }
  }

  /**
   NewCheckRunner: registers the paths in order, and fails at the first that does not parse.
   */
  method RegisterPaths(cs: seq<Comparison>, parses: string -> bool) returns (r: Result<Paths, Error>)
    ensures r.Ok? <==> forall p :: p in AllPaths(cs) ==> parses(p)
    ensures r.Ok? ==> r.value.Keys == AllPaths(cs)
    ensures r.Ok? ==> forall p :: p in r.value ==> r.value[p] == DefaultOf(cs, p)
    ensures r.Ok? ==> PathsAre(cs, r.value) && forall i, p :: 0 <= i < |cs| && Mentions(cs[i], p) ==> parses(p)
    ensures r.Err? ==> r.error.BadPath? && r.error.path in AllPaths(cs) && !parses(r.error.path)
  {
    var paths: Paths := map[];
    for i := 0 to |cs|
      invariant Registered(cs[..i], parses, paths)
    {
      var c := cs[i];
      PathsGrow(cs, i, cs[..i] + [c]);
      if !parses(c.path) {
        return Err(BadPath(c.path));
      }
      ghost var before := paths;
      paths := paths[c.path := c.default];
      if c.expected.path != "" {
        if !parses(c.expected.path) {
          return Err(BadPath(c.expected.path));
        }
        paths := paths[c.expected.path := None];
      }
      RegisteredMore(cs[..i], c, parses, before);
    }
    assert cs[..|cs|] == cs;
    RegistrationMeans(cs, paths);
    r := Ok(paths);
  }

  /** The paths of these comparisons parse, and are registered with their defaults. */
  ghost predicate Registered(cs: seq<Comparison>, parses: string -> bool, paths: Paths) {
    && (forall p :: p in AllPaths(cs) ==> parses(p))
    && paths.Keys == AllPaths(cs)
    && (forall p :: p in paths ==> paths[p] == DefaultOf(cs, p))
  }

  lemma LastComparison(cs: seq<Comparison>, c: Comparison, p: string)
    ensures AllPaths(cs + [c]) == AllPaths(cs) + PathsOf(c)
    ensures DefaultOf(cs + [c], p) ==
      if c.expected.path == p && p != "" then None else if c.path == p then c.default else DefaultOf(cs, p)
  {
    assert (cs + [c])[..|cs|] == cs;
  }

  /** What registering one comparison does to the map. */
  function Register(paths: Paths, c: Comparison): Paths {
    var first := paths[c.path := c.default];
    if c.expected.path != "" then first[c.expected.path := None] else first
  }

  lemma RegisterMeans(paths: Paths, c: Comparison)
    ensures Register(paths, c).Keys == paths.Keys + PathsOf(c)
    ensures forall p :: p in Register(paths, c) ==>
      Register(paths, c)[p] ==
      if c.expected.path == p && p != "" then None else if c.path == p then c.default else paths[p]
  {
  }

  lemma RegisteredMore(cs: seq<Comparison>, c: Comparison, parses: string -> bool, paths: Paths)
    requires Registered(cs, parses, paths)
    requires parses(c.path) && (c.expected.path != "" ==> parses(c.expected.path))
    ensures Registered(cs + [c], parses, Register(paths, c))
  {
    RegisterMeans(paths, c);
    var more := cs + [c];
    forall p | p in Register(paths, c)
      ensures Register(paths, c)[p] == DefaultOf(more, p)
    {
      LastComparison(cs, c, p);
    }
    LastComparison(cs, c, "");
  }

  /** The paths of the next comparison are among all. */
  lemma PathsGrow(cs: seq<Comparison>, i: nat, upTo: seq<Comparison>)
    requires i < |cs| && upTo == cs[..i] + [cs[i]]
    ensures cs[..i + 1] == upTo
    ensures PathsOf(cs[i]) <= AllPaths(upTo) <= AllPaths(cs)
  {
    assert cs[..i + 1] == upTo;
    LastComparison(cs[..i], cs[i], "");
    AllPathsGrow(cs, i + 1);
  }

  lemma {:induction false} AllPathsGrow(cs: seq<Comparison>, i: nat)
    requires i <= |cs|
    ensures AllPaths(cs[..i]) <= AllPaths(cs)
  {
    if i == |cs| {
      assert cs[..i] == cs;
    } else {
      AllPathsGrow(cs[..|cs| - 1], i);
      assert cs[..|cs| - 1][..i] == cs[..i];
    }
  }

  ghost predicate Readable(paths: Paths, doc: Document) {
    forall p :: p in paths ==> FindResult(p, paths[p], doc).Ok?
  }

  ghost function Read(paths: Paths, doc: Document): Snapshot
    requires Readable(paths, doc)
  {
    map p | p in paths :: FindResult(p, paths[p], doc).value
  }

  /** The value that a path shows on an object: its single result, or its default if there is no result. */
  ghost predicate Shows(paths: Paths, doc: Document, path: string, v: Value) {
    && path in paths && doc(path).Results?
    && (doc(path).values == [[v]] || (doc(path).values == [] && paths[path] == Some(v)))
  }

  ghost predicate ShowsAll(paths: Paths, doc: Document) {
    forall p :: p in paths ==> exists v :: Shows(paths, doc, p, v)
  }

  /** An error that a path gives: it cannot be evaluated, or does not show a value. */
  ghost predicate Blames(paths: Paths, doc: Document, e: Error) {
    || (e.PathFailed? && e.path in paths && doc(e.path).Failed?)
    || (e.NoSingleResult? && e.path in paths && doc(e.path).Results? && !exists v :: Shows(paths, doc, e.path, v))
  }

  /** An object can be read exactly if every path shows a value, and is read as these values. */
  lemma ReadMeans(paths: Paths, doc: Document)
    ensures Readable(paths, doc) <==> ShowsAll(paths, doc)
    ensures Readable(paths, doc) ==>
      Read(paths, doc).Keys == paths.Keys && forall p, v :: p in paths ==> (Shows(paths, doc, p, v) <==> Read(paths, doc)[p] == v)
    ensures forall p :: p in paths && FindResult(p, paths[p], doc).Err? ==> Blames(paths, doc, FindResult(p, paths[p], doc).error)
  {
    forall p, v | p in paths
      ensures Shows(paths, doc, p, v) <==> FindResult(p, paths[p], doc) == Ok(v)
    {
      FindMeans(paths, doc, p, v);
    }
    assert forall p :: p in paths && FindResult(p, paths[p], doc).Ok? ==>
      Shows(paths, doc, p, FindResult(p, paths[p], doc).value);
  }

  lemma FindMeans(paths: Paths, doc: Document, p: string, v: Value)
    requires p in paths
    ensures Shows(paths, doc, p, v) <==> FindResult(p, paths[p], doc) == Ok(v)
  {
    if doc(p).Results? && |doc(p).values| == 1 && |doc(p).values[0]| == 1 {
      var result := doc(p).values[0];
      assert result == [result[0]] && doc(p).values == [result];
    }
  }

  /**
   currentValues: the map of paths is walked in whatever order; a snapshot does not depend
   on it, and fails exactly when some path does.
   */
  method CurrentValues(paths: Paths, doc: Document) returns (r: Result<Snapshot, Error>)
    ensures r.Ok? <==> Readable(paths, doc)
    ensures r.Ok? ==> r.value == Read(paths, doc)
    ensures r.Ok? <==> ShowsAll(paths, doc)
    ensures r.Ok? ==> r.value.Keys == paths.Keys && forall p :: p in paths ==> Shows(paths, doc, p, r.value[p])
    ensures r.Err? ==> Blames(paths, doc, r.error)
  {
    ReadMeans(paths, doc);
    var res: Snapshot := map[];
    var left := paths.Keys;
    while left != {}
      invariant left <= paths.Keys
      invariant res.Keys == paths.Keys - left
      invariant forall p :: p in res ==> FindResult(p, paths[p], doc) == Ok(res[p])
      decreases left
    {
      var p :| p in left;
      var v := FindResult(p, paths[p], doc);
      if v.Err? {
        return Err(v.error);
      }
      res := res[p := v.value];
      left := left - {p};
    }
    r := Ok(res);
  }

  // ---- Comparisons ----

  /** A missing entry of a Go map reads as the nil interface. */
  function Lookup(s: Snapshot, path: string): Option<Value> {
    if path in s then Some(s[path]) else None
  }

  function ExpectedValue(c: Comparison, s: Snapshot): Option<Value> {
    if c.expected.path != "" then Lookup(s, c.expected.path)
    else if c.expected.fixed.None? then Some(Int(c.expected.fixedInt))
    else c.expected.fixed
  }

  predicate Holds(c: Comparison, s: Snapshot) {
    Lookup(s, c.path) == ExpectedValue(c, s)
  }

  predicate AllHold(cs: seq<Comparison>, s: Snapshot) {
    forall i :: 0 <= i < |cs| ==> Holds(cs[i], s)
  }

  /** checkComparisons: every comparison is made and reported, and all of them must hold. */
  method CheckComparisons(cs: seq<Comparison>, s: Snapshot) returns (success: bool, reports: seq<bool>)
    ensures success <==> AllHold(cs, s)
    ensures |reports| == |cs| && forall i :: 0 <= i < |cs| ==> reports[i] == Holds(cs[i], s)
    ensures success <==> forall i :: 0 <= i < |cs| ==> reports[i]
    ensures forall i :: 0 <= i < |cs| && cs[i].path in s ==>
      var c := cs[i];
      && (c.expected.path != "" && c.expected.path in s ==> (reports[i] <==> s[c.path] == s[c.expected.path]))
      && (c.expected.path == "" && c.expected.fixed.Some? ==> (reports[i] <==> s[c.path] == c.expected.fixed.value))
      && (c.expected.path == "" && c.expected.fixed.None? ==> (reports[i] <==> s[c.path] == Int(c.expected.fixedInt)))
  {
    success, reports := true, [];
    for i := 0 to |cs|
      invariant success <==> forall k :: 0 <= k < i ==> Holds(cs[k], s)
      invariant |reports| == i && forall k :: 0 <= k < i ==> reports[k] == Holds(cs[k], s)
    {
      var succeeded := Holds(cs[i], s);
      if !succeeded {
        success := false;
      }
      reports := reports + [succeeded];
    }
  }

  /**
   A comparison never uses a missing entry: every path it looks up is in every snapshot,
   under the default that was registered last.
   */
  lemma {:induction false} SnapshotsAreComplete(cs: seq<Comparison>, i: nat, paths: Paths, doc: Document)
    requires i < |cs| && paths.Keys == AllPaths(cs) && Readable(paths, doc)
    ensures cs[i].path in Read(paths, doc)
    ensures cs[i].expected.path != "" ==> cs[i].expected.path in Read(paths, doc)
    ensures Holds(cs[i], Read(paths, doc)) ==> Lookup(Read(paths, doc), cs[i].path).Some?
  {
    AllPathsGrow(cs, i + 1);
    assert cs[..i + 1][..i] == cs[..i];
    assert PathsOf(cs[i]) <= AllPaths(cs);
  }

  /** The value that a comparison expects of an object: by path, else the fixed one, else the number. */
  ghost predicate Expects(c: Comparison, paths: Paths, doc: Document, v: Value) {
    if c.expected.path != "" then Shows(paths, doc, c.expected.path, v)
    else match c.expected.fixed case Some(fixed) => v == fixed case None => v == Int(c.expected.fixedInt)
  }

  /** What a comparison observes on an object is what it expects. */
  ghost predicate Agrees(c: Comparison, paths: Paths, doc: Document) {
    exists v :: Shows(paths, doc, c.path, v) && Expects(c, paths, doc, v)
  }

  /** On the snapshot of an object a comparison holds exactly if it agrees with the object. */
  lemma HoldsMeans(cs: seq<Comparison>, i: nat, paths: Paths, doc: Document)
    requires i < |cs| && paths.Keys == AllPaths(cs) && Readable(paths, doc)
    ensures Holds(cs[i], Read(paths, doc)) <==> Agrees(cs[i], paths, doc)
  {
    SnapshotsAreComplete(cs, i, paths, doc);
    ReadMeans(paths, doc);
    var s := Read(paths, doc);
    assert Shows(paths, doc, cs[i].path, s[cs[i].path]);
  }

  /** So the comparisons succeed exactly if all of them agree with the object. */
  lemma AllHoldMeans(cs: seq<Comparison>, paths: Paths, doc: Document)
    requires paths.Keys == AllPaths(cs) && Readable(paths, doc)
    ensures AllHold(cs, Read(paths, doc)) <==> forall i :: 0 <= i < |cs| ==> Agrees(cs[i], paths, doc)
  {
    forall i | 0 <= i < |cs|
      ensures Holds(cs[i], Read(paths, doc)) <==> Agrees(cs[i], paths, doc)
    {
      HoldsMeans(cs, i, paths, doc);
    }
  }

  // ---- Failure checks ----

  /** A failure definition: whether its check is known, and whether it has a report. */
  datatype FailureDefinition = FailureDefinition(known: bool, report: bool)

  datatype CheckResult = Passes | FailedError | OtherError

  /** One pass over the failure checks: what each of them says, and whether a report gets through. */
  datatype Pass = Pass(results: seq<CheckResult>, reportOk: bool)

  function ResultAt(p: Pass, i: nat): CheckResult {
    if i < |p.results| then p.results[i] else Passes
  }

  /** The first definition that ends a pass: an unknown check, or one that does not pass. */
  predicate EndsPass(fs: seq<FailureDefinition>, p: Pass, i: nat)
    requires i < |fs|
  {
    !fs[i].known || !ResultAt(p, i).Passes?
  }

  /** A reported failure counts as no error. */
  function EndOfPass(f: FailureDefinition, r: CheckResult, reportOk: bool): Option<Error> {
    if !f.known then Some(UnknownCheck)
    else if f.report && r.FailedError? then (if reportOk then None else Some(ReportFailed))
    else Some(CheckError)
  }

  function PassOutcome(fs: seq<FailureDefinition>, p: Pass, i: nat): Option<Error>
    requires i <= |fs|
    decreases |fs| - i
  {
    if i == |fs| then None
    else if EndsPass(fs, p, i) then EndOfPass(fs[i], ResultAt(p, i), p.reportOk)
    else PassOutcome(fs, p, i + 1)
  }

  /**
   A pass goes by without an error exactly if every definition passes, or if the first that
   does not is a failure with a report, and the report gets through.
   */
  lemma {:induction false} PassExactly(fs: seq<FailureDefinition>, p: Pass, i: nat)
    requires i <= |fs|
    ensures PassOutcome(fs, p, i).None? <==>
      || (forall j :: i <= j < |fs| ==> fs[j].known && ResultAt(p, j).Passes?)
      || (exists k :: i <= k < |fs|
           && fs[k].known && fs[k].report && ResultAt(p, k).FailedError? && p.reportOk
           && forall j :: i <= j < k ==> fs[j].known && ResultAt(p, j).Passes?)
    decreases |fs| - i
  {
    if i < |fs| && !EndsPass(fs, p, i) {
      PassExactly(fs, p, i + 1);
    }
  }

  predicate GoesBy(f: FailureDefinition, p: Pass, i: nat) {
    f.known && (i < |p.results| ==> p.results[i] == Passes)
  }

  /** Definition k is the first that does not go by. */
  ghost predicate EndsFirst(fs: seq<FailureDefinition>, p: Pass, k: nat) {
    && k < |fs| && !GoesBy(fs[k], p, k)
    && forall j :: 0 <= j < k ==> GoesBy(fs[j], p, j)
  }

  /** What comes of a pass that ends with a definition: its error, and the number of reports made. */
  ghost predicate EndsAs(f: FailureDefinition, p: Pass, k: nat, err: Option<Error>, reports: nat) {
    if !f.known then err == Some(UnknownCheck) && reports == 0
    else if f.report && k < |p.results| && p.results[k] == FailedError then
      err == (if p.reportOk then None else Some(ReportFailed)) && reports == 1
    else err == Some(CheckError) && reports == 0
  }

  /** The first definition that does not go by decides a pass. */
  lemma {:induction false} PassMeans(fs: seq<FailureDefinition>, p: Pass, i: nat) returns (reports: nat)
    requires i <= |fs| && forall j :: 0 <= j < i ==> GoesBy(fs[j], p, j)
    ensures (forall j :: 0 <= j < |fs| ==> GoesBy(fs[j], p, j)) ==> PassOutcome(fs, p, i).None?
    ensures forall k: nat :: EndsFirst(fs, p, k) ==> EndsAs(fs[k], p, k, PassOutcome(fs, p, i), reports)
    decreases |fs| - i
  {
    reports := 0;
    if i < |fs| && GoesBy(fs[i], p, i) {
      reports := PassMeans(fs, p, i + 1);
    } else if i < |fs| && fs[i].known && fs[i].report && ResultAt(p, i).FailedError? {
      reports := 1;
    }
  }

  /** checkFailed: the outcome of a pass, and the number of reports it made. */
  method CheckFailed(fs: seq<FailureDefinition>, p: Pass) returns (err: Option<Error>, reports: nat)
    ensures err == PassOutcome(fs, p, 0)
    ensures reports <= 1
    ensures (forall j :: 0 <= j < |fs| ==> GoesBy(fs[j], p, j)) ==> err.None? && reports == 0
    ensures forall k: nat :: EndsFirst(fs, p, k) ==> EndsAs(fs[k], p, k, err, reports)
  {
    for i := 0 to |fs|
      invariant PassOutcome(fs, p, 0) == PassOutcome(fs, p, i)
      invariant forall j :: 0 <= j < i ==> GoesBy(fs[j], p, j)
    {
      if !fs[i].known {
        return Some(UnknownCheck), 0;
      }
      var r := ResultAt(p, i);
      if !r.Passes? {
        if fs[i].report && r.FailedError? {
          if !p.reportOk {
            return Some(ReportFailed), 1;
          }
          return None, 1;
        }
        return Some(CheckError), 0;
      }
    }
    err, reports := None, 0;
  }

  // ---- The two polls ----

  /** One call of the inner condition: the read object, if the read succeeds, and a pass. */
  datatype InnerTick = InnerTick(read: Option<Document>, pass: Pass)

  /** One call of the outer condition; `inner` are the calls of the inner one before it times out. */
  datatype OuterTick = OuterTick(read: Option<Document>, pass: Pass, inner: seq<InnerTick>)

  datatype Definition = Definition(
    comparisons: seq<Comparison>,
    failures: seq<FailureDefinition>,
    reportTimeout: bool)

  /** How an iteration of the outer poll ends. */
  datatype Verdict = Success | Abort(error: Error) | ProgressTimeout | Changed

  datatype Work = Work(gets: nat, passes: nat, reports: nat, timeoutReports: nat, innerSuccess: bool)

  ghost function Observe(paths: Paths, read: Option<Document>): Option<Snapshot> {
    if read.Some? && Readable(paths, read.value) then Some(Read(paths, read.value)) else None
  }

  /** An inner call that ends the inner poll: an error or an observed change. */
  ghost predicate Decides(d: Definition, paths: Paths, outer: Snapshot, t: InnerTick) {
    Observe(paths, t.read) != Some(outer) || PassOutcome(d.failures, t.pass, 0).Some?
  }

  ghost predicate InnerErrs(d: Definition, paths: Paths, t: InnerTick) {
    Observe(paths, t.read).None? || PassOutcome(d.failures, t.pass, 0).Some?
  }

  /** The verdict is that of the first deciding call; without one, progress has timed out. */
  ghost predicate InnerVerdict(d: Definition, paths: Paths, outer: Snapshot, ticks: seq<InnerTick>, v: Verdict) {
    if forall i :: 0 <= i < |ticks| ==> !Decides(d, paths, outer, ticks[i]) then v == ProgressTimeout
    else
      exists k :: 0 <= k < |ticks| && Decides(d, paths, outer, ticks[k])
        && (forall i :: 0 <= i < k ==> !Decides(d, paths, outer, ticks[i]))
        && (if InnerErrs(d, paths, ticks[k]) then v.Abort? else v == Changed)
  }

  ghost predicate OuterVerdict(d: Definition, paths: Paths, t: OuterTick, v: Verdict) {
    var seen := Observe(paths, t.read);
    if seen.None? then v.Abort?
    else if AllHold(d.comparisons, seen.value) then v == Success
    else if PassOutcome(d.failures, t.pass, 0).Some? then v.Abort?
    else InnerVerdict(d, paths, seen.value, t.inner, v)
  }

  method PollInner(d: Definition, paths: Paths, outer: Snapshot, ticks: seq<InnerTick>)
    returns (v: Verdict, w: Work)
    requires !AllHold(d.comparisons, outer)
    ensures InnerVerdict(d, paths, outer, ticks, v)
    ensures !v.Success?
    ensures w.gets <= |ticks| && w.passes <= |ticks| && w.reports <= w.passes
    ensures w.timeoutReports == 0 && !w.innerSuccess
  {
    w := Work(0, 0, 0, 0, false);
    for i := 0 to |ticks|
      invariant w.gets == w.passes == i && w.reports <= i && w.timeoutReports == 0 && !w.innerSuccess
      invariant forall k :: 0 <= k < i ==> !Decides(d, paths, outer, ticks[k])
    {
      w := w.(gets := w.gets + 1);
      if ticks[i].read.None? {
        return Abort(ReadFailed), w;
      }
      var inner := CurrentValues(paths, ticks[i].read.value);
      if inner.Err? {
        return Abort(inner.error), w;
      }
      var hasChanged := outer != inner.value;
      // The comparisons are made on the outer values again.
      var success, _ := CheckComparisons(d.comparisons, outer);
      if success {
        w := w.(innerSuccess := true);
        return Changed, w;
      }
      var err, reports := CheckFailed(d.failures, ticks[i].pass);
      w := w.(passes := w.passes + 1, reports := w.reports + reports);
      if err.Some? {
        return Abort(err.value), w;
      }
      if hasChanged {
        return Changed, w;
      }
    }
    v := ProgressTimeout;
  }

  method PollOuterOnce(d: Definition, paths: Paths, t: OuterTick) returns (v: Verdict, w: Work)
    ensures OuterVerdict(d, paths, t, v)
    ensures t.read.None? ==> v == Abort(ReadFailed)
    ensures t.read.Some? && !ShowsAll(paths, t.read.value) ==> v.Abort? && Blames(paths, t.read.value, v.error)
    ensures paths.Keys == AllPaths(d.comparisons) ==>
      (v.Success? <==>
        && t.read.Some? && ShowsAll(paths, t.read.value)
        && forall i :: 0 <= i < |d.comparisons| ==> Agrees(d.comparisons[i], paths, t.read.value))
    ensures w.gets <= 1 + |t.inner| && w.passes <= 1 + |t.inner| && w.reports <= w.passes
    ensures w.timeoutReports == 0 && !w.innerSuccess
  {
    w := Work(1, 0, 0, 0, false);
    if t.read.None? {
      return Abort(ReadFailed), w;
    }
    var outer := CurrentValues(paths, t.read.value);
    if outer.Err? {
      return Abort(outer.error), w;
    }
    if paths.Keys == AllPaths(d.comparisons) {
      AllHoldMeans(d.comparisons, paths, t.read.value);
    }
    var success, _ := CheckComparisons(d.comparisons, outer.value);
    if success {
      return Success, w;
    }
    var err, reports := CheckFailed(d.failures, t.pass);
    w := w.(passes := 1, reports := reports);
    if err.Some? {
      return Abort(err.value), w;
    }
    var inner: Work;
    v, inner := PollInner(d, paths, outer.value, t.inner);
    w := Work(1 + inner.gets, 1 + inner.passes, reports + inner.reports, 0, inner.innerSuccess);
  }

  /** What the check returns after a last verdict: a wait that timed out is reported if so configured. */
  function Conclusion(d: Definition, v: Verdict, reportOk: bool): Option<Error> {
    match v
    case Success => None
    case Abort(e) => Some(e)
    case _ => if !d.reportTimeout then Some(TimedOut) else if reportOk then None else Some(ReportFailed)
  }

  /** How many calls of the two conditions the first n iterations can make. */
  function Calls(ticks: seq<OuterTick>, n: nat): nat
    requires n <= |ticks|
  {
    if n == 0 then 0 else Calls(ticks, n - 1) + 1 + |ticks[n - 1].inner|
  }

  /** With at most m inner calls an iteration, n iterations make at most n * (1 + m) calls. */
  lemma {:induction false} CallsAreBounded(ticks: seq<OuterTick>, n: nat, m: nat)
    requires n <= |ticks| && forall i :: 0 <= i < |ticks| ==> |ticks[i].inner| <= m
    ensures Calls(ticks, n) <= n * (1 + m)
  {
    if n > 0 {
      CallsAreBounded(ticks, n - 1, m);
      assert n * (1 + m) == (n - 1) * (1 + m) + (1 + m);
    }
  }

  /**
   CheckRunner.Execute.  `ticks` are the calls of the outer condition before the overall
   timeout.  The check goes on exactly while changes are observed, and its outcome is that
   of the last iteration.  At most one read and one pass for every call of a condition, at
   most one report a pass, one timeout report, and never a success in the inner poll.
   */
  method ExecuteCheck(d: Definition, paths: Paths, client: bool, ticks: seq<OuterTick>, reportOk: bool)
    returns (err: Option<Error>, polls: nat, last: Verdict, w: Work)
    requires ticks != [] && forall i :: 0 <= i < |ticks| ==> ticks[i].inner != []
    ensures !client ==> err == Some(NoClient) && polls == 0 && w == Work(0, 0, 0, 0, false)
    ensures client ==>
      && EndsAt(d, paths, ticks, polls, last)
      && err == Conclusion(d, last, reportOk)
      && (last.Success? ==> err == None)
      && (last.Abort? ==> err == Some(last.error))
      && (last.ProgressTimeout? || last.Changed? ==>
           err == if !d.reportTimeout then Some(TimedOut) else if reportOk then None else Some(ReportFailed))
      && w.gets <= Calls(ticks, polls) && w.passes <= Calls(ticks, polls) && w.reports <= w.passes
      && w.timeoutReports == (if d.reportTimeout && (last.ProgressTimeout? || last.Changed?) then 1 else 0)
    ensures !w.innerSuccess
  {
    if !client {
      return Some(NoClient), 0, Changed, Work(0, 0, 0, 0, false);
    }
    polls, last, w := PollOuter(d, paths, ticks);
    match last
    case Success =>
      err := None;
    case Abort(e) =>
      err := Some(e);
    case _ =>
      err := Some(TimedOut);
      if d.reportTimeout {
        w := w.(timeoutReports := 1);
        err := if reportOk then None else Some(ReportFailed);
      }
  }

  /** Each of the first n iterations has seen a change. */
  ghost predicate AllChanged(d: Definition, paths: Paths, ticks: seq<OuterTick>, n: nat)
    requires n <= |ticks|
  {
    forall i :: 0 <= i < n ==> OuterVerdict(d, paths, ticks[i], Changed)
  }

  /** The outer poll ends after `polls` calls, every earlier one having seen a change. */
  ghost predicate EndsAt(d: Definition, paths: Paths, ticks: seq<OuterTick>, polls: nat, last: Verdict) {
    && 1 <= polls <= |ticks|
    && AllChanged(d, paths, ticks, polls - 1)
    && OuterVerdict(d, paths, ticks[polls - 1], last)
    && (last == Changed ==> polls == |ticks|)
  }

  lemma OneMoreChange(d: Definition, paths: Paths, ticks: seq<OuterTick>, n: nat)
    requires n < |ticks| && AllChanged(d, paths, ticks, n) && OuterVerdict(d, paths, ticks[n], Changed)
    ensures AllChanged(d, paths, ticks, n + 1)
  {
  }

  method PollOuter(d: Definition, paths: Paths, ticks: seq<OuterTick>)
    returns (polls: nat, last: Verdict, w: Work)
    requires ticks != []
    ensures EndsAt(d, paths, ticks, polls, last)
    ensures w.gets <= Calls(ticks, polls) && w.passes <= Calls(ticks, polls) && w.reports <= w.passes
    ensures !w.innerSuccess && w.timeoutReports == 0
  {
    polls, last, w := 0, Changed, Work(0, 0, 0, 0, false);
    for i := 0 to |ticks|
      invariant AllChanged(d, paths, ticks, i)
      invariant polls == i && last == Changed
      invariant w.gets <= Calls(ticks, i) && w.passes <= Calls(ticks, i) && w.reports <= w.passes
      invariant !w.innerSuccess && w.timeoutReports == 0
    {
      var once: Work;
      last, once := PollOuterOnce(d, paths, ticks[i]);
      w := Work(w.gets + once.gets, w.passes + once.passes, w.reports + once.reports, 0, once.innerSuccess);
      polls := i + 1;
      if last != Changed {
        return;
      }
      OneMoreChange(d, paths, ticks, i);
    }
  }

  /** Verdicts are determined by the environment, up to which error is reported. */
  lemma VerdictIsDetermined(d: Definition, paths: Paths, t: OuterTick, v: Verdict, v': Verdict)
    requires OuterVerdict(d, paths, t, v) && OuterVerdict(d, paths, t, v')
    ensures v == v' || (v.Abort? && v'.Abort?)
  {
    var seen := Observe(paths, t.read);
    if seen.Some? && !AllHold(d.comparisons, seen.value) && PassOutcome(d.failures, t.pass, 0).None?
       && exists i :: 0 <= i < |t.inner| && Decides(d, paths, seen.value, t.inner[i]) {
      var k :| 0 <= k < |t.inner| && Decides(d, paths, seen.value, t.inner[k])
        && (forall i :: 0 <= i < k ==> !Decides(d, paths, seen.value, t.inner[i]))
        && (if InnerErrs(d, paths, t.inner[k]) then v.Abort? else v == Changed);
      var k' :| 0 <= k' < |t.inner| && Decides(d, paths, seen.value, t.inner[k'])
        && (forall i :: 0 <= i < k' ==> !Decides(d, paths, seen.value, t.inner[i]))
        && (if InnerErrs(d, paths, t.inner[k']) then v'.Abort? else v' == Changed);
      assert k == k';
    }
  }

  /** Nothing goes wrong in an iteration, and its outer snapshot fails the comparisons. */
  ghost predicate FailsQuietly(d: Definition, paths: Paths, t: OuterTick) {
    && Observe(paths, t.read).Some?
    && !AllHold(d.comparisons, Observe(paths, t.read).value)
    && PassOutcome(d.failures, t.pass, 0).None?
    && forall i :: 0 <= i < |t.inner| ==> !InnerErrs(d, paths, t.inner[i])
  }

  /**
   Stagnation: such an iteration is followed by another poll exactly if some inner snapshot
   differs from the outer one; otherwise the whole check ends there as a timeout.
   */
  lemma EveryFurtherPollIsPaidFor(d: Definition, paths: Paths, t: OuterTick, v: Verdict)
    requires OuterVerdict(d, paths, t, v) && FailsQuietly(d, paths, t)
    ensures v == Changed <==> exists i :: 0 <= i < |t.inner| && Observe(paths, t.inner[i].read) != Observe(paths, t.read)
    ensures v == Changed || v == ProgressTimeout
  {
  }

  ghost predicate Satisfied(d: Definition, paths: Paths, t: OuterTick) {
    Observe(paths, t.read).Some? && AllHold(d.comparisons, Observe(paths, t.read).value)
  }

  lemma SuccessIsSatisfied(d: Definition, paths: Paths, t: OuterTick, v: Verdict)
    requires OuterVerdict(d, paths, t, v)
    ensures v == Success <==> Satisfied(d, paths, t)
  {
  }

  /** Only the last outer snapshot can satisfy the comparisons, and it does exactly on success. */
  lemma OnlyTheLast(d: Definition, paths: Paths, ticks: seq<OuterTick>, polls: nat, last: Verdict)
    requires EndsAt(d, paths, ticks, polls, last)
    ensures last == Success <==> Satisfied(d, paths, ticks[polls - 1])
    ensures forall i :: 0 <= i < polls - 1 ==> !Satisfied(d, paths, ticks[i])
  {
    SuccessIsSatisfied(d, paths, ticks[polls - 1], last);
    forall i | 0 <= i < polls - 1
      ensures !Satisfied(d, paths, ticks[i])
    {
      SuccessIsSatisfied(d, paths, ticks[i], Changed);
    }
  }

  /**
   The check returns nil exactly if one of its outer snapshots satisfied every comparison, or
   if a wait timed out, for lack of progress or altogether, and that was reported.
   */
  lemma NilExactly(d: Definition, paths: Paths, ticks: seq<OuterTick>, polls: nat, last: Verdict, reportOk: bool)
    requires EndsAt(d, paths, ticks, polls, last)
    ensures Conclusion(d, last, reportOk).None? <==>
      || (exists i :: 0 <= i < polls && Satisfied(d, paths, ticks[i]))
      || ((last == ProgressTimeout || (last == Changed && polls == |ticks|)) && d.reportTimeout && reportOk)
    ensures last == Success <==> Satisfied(d, paths, ticks[polls - 1])
  {
    OnlyTheLast(d, paths, ticks, polls, last);
  }
}
