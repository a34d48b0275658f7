/**
 What a success check comes to, told by the objects that are read and by the failure checks,
 without the snapshots and the polls that find it out.
 */
module Observations {
  import opened Wrappers
  import opened SuccessCheck
  import opened Checks

  /** An object is read, and every path shows a value on it. */
  ghost predicate Reads(paths: Paths, read: Option<Document>) {
    read.Some? && ShowsAll(paths, read.value)
  }

  ghost predicate SameValues(paths: Paths, doc: Document, doc': Document) {
    forall p, v :: p in paths ==> (Shows(paths, doc, p, v) <==> Shows(paths, doc', p, v))
  }

  /** Every failure check passes, or the first that does not is a failure that was reported. */
  ghost predicate GoesOn(fs: seq<FailureDefinition>, p: Pass) {
    || (forall j :: 0 <= j < |fs| ==> GoesBy(fs[j], p, j))
    || (exists k: nat :: EndsFirst(fs, p, k) && Reported(fs[k], p, k))
  }

  predicate Reported(f: FailureDefinition, p: Pass, k: nat) {
    f.known && f.report && k < |p.results| && p.results[k] == FailedError && p.reportOk
  }

  lemma {:induction false} FirstToEnd(fs: seq<FailureDefinition>, p: Pass, n: nat) returns (k: nat)
    requires n < |fs| && !GoesBy(fs[n], p, n)
    ensures k <= n && EndsFirst(fs, p, k)
  {
    if j: nat :| j < n && !GoesBy(fs[j], p, j) {
      k := FirstToEnd(fs, p, j);
    } else {
      k := n;
    }
  }

  lemma GoesOnMeans(fs: seq<FailureDefinition>, p: Pass)
    ensures PassOutcome(fs, p, 0).None? <==> GoesOn(fs, p)
  {
    var reports := PassMeans(fs, p, 0);
    if j: nat :| j < |fs| && !GoesBy(fs[j], p, j) {
      var k := FirstToEnd(fs, p, j);
      assert EndsAs(fs[k], p, k, PassOutcome(fs, p, 0), reports);
    }
  }

  /** What every comparison observes is what it expects. */
  ghost predicate Fulfils(d: Definition, paths: Paths, read: Option<Document>) {
    Reads(paths, read) && forall i :: 0 <= i < |d.comparisons| ==> Agrees(d.comparisons[i], paths, read.value)
  }

  /** The inner poll is reached. */
  ghost predicate Waits(d: Definition, paths: Paths, t: OuterTick) {
    Reads(paths, t.read) && !Fulfils(d, paths, t.read) && GoesOn(d.failures, t.pass)
  }

  /** A call of the inner condition that is no error. */
  ghost predicate Sound(d: Definition, paths: Paths, t: InnerTick) {
    Reads(paths, t.read) && GoesOn(d.failures, t.pass)
  }

  /** One that sees the values of the outer object, too. */
  ghost predicate Calm(d: Definition, paths: Paths, outer: Document, t: InnerTick) {
    Sound(d, paths, t) && SameValues(paths, outer, t.read.value)
  }

  /** The first k calls of the inner condition are calm, and call k is not. */
  ghost predicate DisturbedAt(d: Definition, paths: Paths, outer: Document, ticks: seq<InnerTick>, k: nat) {
    && k < |ticks| && !Calm(d, paths, outer, ticks[k])
    && forall i :: 0 <= i < k ==> Calm(d, paths, outer, ticks[i])
  }

  /** How one call of the outer condition ends. */
  ghost predicate Ends(d: Definition, paths: Paths, t: OuterTick, v: Verdict) {
    match v
    case Success => Fulfils(d, paths, t.read)
    case Changed =>
      && Waits(d, paths, t)
      && exists k: nat :: DisturbedAt(d, paths, t.read.value, t.inner, k) && Sound(d, paths, t.inner[k])
    case ProgressTimeout => Waits(d, paths, t) && forall i :: 0 <= i < |t.inner| ==> Calm(d, paths, t.read.value, t.inner[i])
    case Abort(_) =>
      && !Fulfils(d, paths, t.read)
      && (Waits(d, paths, t) ==>
           exists k: nat :: DisturbedAt(d, paths, t.read.value, t.inner, k) && !Sound(d, paths, t.inner[k]))
  }

  /** A snapshot is what the paths show, and two are equal exactly if they show the same. */
  lemma ObserveMeans(paths: Paths, read: Option<Document>, outer: Document)
    requires Readable(paths, outer)
    ensures Observe(paths, read).Some? <==> Reads(paths, read)
    ensures Observe(paths, read) == Some(Read(paths, outer)) <==> Reads(paths, read) && SameValues(paths, outer, read.value)
  {
    ReadMeans(paths, outer);
    if read.Some? {
      ReadMeans(paths, read.value);
    }
    if Reads(paths, read) && SameValues(paths, outer, read.value) {
      forall p | p in paths
        ensures Read(paths, read.value)[p] == Read(paths, outer)[p]
      {
        assert Shows(paths, outer, p, Read(paths, outer)[p]);
      }
      assert Read(paths, read.value) == Read(paths, outer);
    }
  }

  /** The outer snapshot satisfies the comparisons exactly if the object read fulfils them. */
  lemma SatisfiedMeans(d: Definition, paths: Paths, t: OuterTick)
    requires paths.Keys == AllPaths(d.comparisons)
    ensures Satisfied(d, paths, t) <==> Fulfils(d, paths, t.read)
    ensures Observe(paths, t.read).Some? <==> Reads(paths, t.read)
  {
    if t.read.Some? {
      ReadMeans(paths, t.read.value);
      if Readable(paths, t.read.value) {
        AllHoldMeans(d.comparisons, paths, t.read.value);
      }
    }
  }

  lemma InnerMeans(d: Definition, paths: Paths, outer: Document, t: InnerTick)
    requires Readable(paths, outer)
    ensures Decides(d, paths, Read(paths, outer), t) <==> !Calm(d, paths, outer, t)
    ensures InnerErrs(d, paths, t) <==> !Sound(d, paths, t)
  {
    ObserveMeans(paths, t.read, outer);
    GoesOnMeans(d.failures, t.pass);
  }

  lemma {:induction false} FirstDisturbance(d: Definition, paths: Paths, outer: Document, ticks: seq<InnerTick>, n: nat)
    returns (k: nat)
    requires n < |ticks| && !Calm(d, paths, outer, ticks[n])
    ensures k <= n && DisturbedAt(d, paths, outer, ticks, k)
  {
    if j: nat :| j < n && !Calm(d, paths, outer, ticks[j]) {
      k := FirstDisturbance(d, paths, outer, ticks, j);
    } else {
      k := n;
    }
  }

  /** Calls are told apart alike by snapshots and by objects. */
  ghost predicate ToldApart(d: Definition, paths: Paths, outer: Document, ticks: seq<InnerTick>)
    requires Readable(paths, outer)
  {
    forall i :: 0 <= i < |ticks| ==>
      && (Decides(d, paths, Read(paths, outer), ticks[i]) <==> !Calm(d, paths, outer, ticks[i]))
      && (InnerErrs(d, paths, ticks[i]) <==> !Sound(d, paths, ticks[i]))
  }

  lemma DisturbedVerdict(d: Definition, paths: Paths, outer: Document, ticks: seq<InnerTick>, k: nat, v: Verdict)
    requires Readable(paths, outer) && ToldApart(d, paths, outer, ticks) && DisturbedAt(d, paths, outer, ticks, k)
    ensures InnerVerdict(d, paths, Read(paths, outer), ticks, v) <==> if Sound(d, paths, ticks[k]) then v == Changed else v.Abort?
  {
    var s := Read(paths, outer);
    assert Decides(d, paths, s, ticks[k]);
    assert forall i :: 0 <= i < k ==> !Decides(d, paths, s, ticks[i]);
  }

  lemma InnerVerdictMeans(d: Definition, paths: Paths, outer: Document, ticks: seq<InnerTick>, v: Verdict)
    requires Readable(paths, outer)
    ensures InnerVerdict(d, paths, Read(paths, outer), ticks, v) <==>
      match v
      case Success => false
      case Changed => exists k: nat :: DisturbedAt(d, paths, outer, ticks, k) && Sound(d, paths, ticks[k])
      case ProgressTimeout => forall i :: 0 <= i < |ticks| ==> Calm(d, paths, outer, ticks[i])
      case Abort(_) => exists k: nat :: DisturbedAt(d, paths, outer, ticks, k) && !Sound(d, paths, ticks[k])
  {
    forall i | 0 <= i < |ticks|
      ensures Decides(d, paths, Read(paths, outer), ticks[i]) <==> !Calm(d, paths, outer, ticks[i])
      ensures InnerErrs(d, paths, ticks[i]) <==> !Sound(d, paths, ticks[i])
    {
      InnerMeans(d, paths, outer, ticks[i]);
    }
    assert ToldApart(d, paths, outer, ticks);
    if i: nat :| i < |ticks| && !Calm(d, paths, outer, ticks[i]) {
      var k := FirstDisturbance(d, paths, outer, ticks, i);
      DisturbedVerdict(d, paths, outer, ticks, k, v);
      OneDisturbance(d, paths, outer, ticks, k);
    } else {
      QuietVerdict(d, paths, outer, ticks, v);
    }
  }

  lemma QuietVerdict(d: Definition, paths: Paths, outer: Document, ticks: seq<InnerTick>, v: Verdict)
    requires Readable(paths, outer) && ToldApart(d, paths, outer, ticks)
    requires forall i :: 0 <= i < |ticks| ==> Calm(d, paths, outer, ticks[i])
    ensures InnerVerdict(d, paths, Read(paths, outer), ticks, v) <==> v == ProgressTimeout
    ensures !exists k: nat :: DisturbedAt(d, paths, outer, ticks, k)
  {
  }

  lemma OneDisturbance(d: Definition, paths: Paths, outer: Document, ticks: seq<InnerTick>, k: nat)
    requires DisturbedAt(d, paths, outer, ticks, k)
    ensures forall j: nat :: DisturbedAt(d, paths, outer, ticks, j) ==> j == k
    ensures !(forall i :: 0 <= i < |ticks| ==> Calm(d, paths, outer, ticks[i]))
  {
  }

  /** The verdict of an iteration, from what it meets, exactly. */
  lemma VerdictMeans(d: Definition, paths: Paths, t: OuterTick, v: Verdict)
    requires paths.Keys == AllPaths(d.comparisons)
    ensures OuterVerdict(d, paths, t, v) <==> Ends(d, paths, t, v)
  {
    SatisfiedMeans(d, paths, t);
    GoesOnMeans(d.failures, t.pass);
    if Reads(paths, t.read) {
      ReadMeans(paths, t.read.value);
      InnerVerdictMeans(d, paths, t.read.value, t.inner, v);
    }
  }

  /** Each of the first n iterations is followed by another. */
  ghost predicate Continues(d: Definition, paths: Paths, ticks: seq<OuterTick>, n: nat) {
    n <= |ticks| && forall i :: 0 <= i < n ==> Ends(d, paths, ticks[i], Changed)
  }

  lemma {:induction false} ContinuesMeans(d: Definition, paths: Paths, ticks: seq<OuterTick>, n: nat)
    requires paths.Keys == AllPaths(d.comparisons) && n <= |ticks|
    ensures AllChanged(d, paths, ticks, n) <==> Continues(d, paths, ticks, n)
  {
    forall i | 0 <= i < n
      ensures OuterVerdict(d, paths, ticks[i], Changed) <==> Ends(d, paths, ticks[i], Changed)
    {
      VerdictMeans(d, paths, ticks[i], Changed);
    }
  }

  /** Where the outer poll ends, and how: at its first iteration that is not followed by another. */
  lemma EndMeans(d: Definition, paths: Paths, ticks: seq<OuterTick>, polls: nat, last: Verdict)
    requires paths.Keys == AllPaths(d.comparisons) && 1 <= polls <= |ticks|
    ensures EndsAt(d, paths, ticks, polls, last) <==>
      && Continues(d, paths, ticks, polls - 1)
      && Ends(d, paths, ticks[polls - 1], last)
      && (last == Changed ==> polls == |ticks|)
  {
    ContinuesMeans(d, paths, ticks, polls - 1);
    VerdictMeans(d, paths, ticks[polls - 1], last);
  }

  /** After n changes the object fulfils the comparisons, or waiting has timed out and that was reported. */
  ghost predicate EndsWell(check: Check, paths: Paths, n: nat) {
    && n < |check.ticks|
    && Continues(check.d, paths, check.ticks, n)
    && GoodEnd(check, paths, n)
  }

  ghost predicate GoodEnd(check: Check, paths: Paths, n: nat)
    requires n < |check.ticks|
  {
    var t := check.ticks[n];
    || Fulfils(check.d, paths, t.read)
    || (&& check.d.reportTimeout && check.reportOk
        && (Ends(check.d, paths, t, ProgressTimeout) || (n == |check.ticks| - 1 && Ends(check.d, paths, t, Changed))))
  }

  /**
   A check passes exactly if its paths parse, it has a client, and after some number of
   changes the object fulfils every comparison, or waiting timed out and that was reported.
   */
  lemma PassesMeans(check: Check, parses: string -> bool, paths: Paths)
    requires PathsAre(check.d.comparisons, paths)
    ensures Checks.Passes(check, parses) <==>
      && (forall p :: p in paths ==> parses(p)) && check.client
      && exists n: nat :: EndsWell(check, paths, n)
  {
    RegistrationMeans(check.d.comparisons, paths);
    if Checks.Passes(check, parses) {
      var paths', polls, last :| PathsFor(check, paths') && Succeeds(check, paths', polls, last);
      PathsAreDetermined(check, paths, paths');
      SuccessEndsWell(check, paths, polls, last);
    }
    if n: nat :| EndsWell(check, paths, n) {
      var last := GoodEndIsSuccess(check, paths, n);
    }
  }

  /** A wait that timed out, for lack of progress or altogether, and was reported. */
  predicate TimeoutReported(check: Check, polls: nat, last: Verdict) {
    check.d.reportTimeout && check.reportOk && (last == ProgressTimeout || (last == Changed && polls == |check.ticks|))
  }

  lemma SuccessIsAtTheEnd(check: Check, paths: Paths, polls: nat, last: Verdict)
    requires Succeeds(check, paths, polls, last)
    ensures 1 <= polls <= |check.ticks|
    ensures Satisfied(check.d, paths, check.ticks[polls - 1]) || TimeoutReported(check, polls, last)
  {
    OnlyTheLast(check.d, paths, check.ticks, polls, last);
  }

  lemma SuccessEndsWell(check: Check, paths: Paths, polls: nat, last: Verdict)
    requires paths.Keys == AllPaths(check.d.comparisons) && Succeeds(check, paths, polls, last)
    ensures 1 <= polls && EndsWell(check, paths, polls - 1)
  {
    SuccessIsAtTheEnd(check, paths, polls, last);
    assert GoodEnd(check, paths, polls - 1) by {
      SatisfiedMeans(check.d, paths, check.ticks[polls - 1]);
      EndMeans(check.d, paths, check.ticks, polls, last);
    }
    assert Continues(check.d, paths, check.ticks, polls - 1) by {
      EndMeans(check.d, paths, check.ticks, polls, last);
    }
  }

  lemma GoodEndIsSuccess(check: Check, paths: Paths, n: nat) returns (last: Verdict)
    requires paths.Keys == AllPaths(check.d.comparisons) && EndsWell(check, paths, n)
    ensures Succeeds(check, paths, n + 1, last)
  {
    var t := check.ticks[n];
    last := if Fulfils(check.d, paths, t.read) then Success
      else if Ends(check.d, paths, t, ProgressTimeout) then ProgressTimeout else Changed;
    EndMeans(check.d, paths, check.ticks, n + 1, last);
    SatisfiedMeans(check.d, paths, t);
  }
}
