/**
 The success checks of a step, of rollout/checks/checks.go: the known failure checks, and one
 check runner after another until one returns an error.
 */
module Checks {
  import opened Wrappers
  import opened SuccessCheck

  /** The names of the failure checks, each registered once. */
  method NewChecks(names: seq<string>) returns (r: Result<set<string>, string>)
    ensures r.Ok? <==> forall i, j :: 0 <= i < j < |names| ==> names[i] != names[j]
    ensures r.Ok? ==> forall n :: n in r.value <==> n in names
    ensures r.Err? ==> exists i, j :: 0 <= i < j < |names| && names[i] == names[j] == r.error
  {
    var known: set<string> := {};
    for i := 0 to |names|
      invariant forall n :: n in known <==> n in names[..i]
      invariant forall x, y :: 0 <= x < y < i ==> names[x] != names[y]
    {
      if names[i] in known {
        return Err(names[i]);
      }
      known := known + {names[i]};
    }
    assert names[..|names|] == names;
    r := Ok(known);
  }

  /** A definition, and what its runner is going to meet. */
  datatype Check = Check(d: Definition, client: bool, ticks: seq<OuterTick>, reportOk: bool)

  predicate Meets(check: Check) {
    check.ticks != [] && forall i :: 0 <= i < |check.ticks| ==> check.ticks[i].inner != []
  }

  ghost predicate Parses(check: Check, parses: string -> bool) {
    forall p :: p in AllPaths(check.d.comparisons) ==> parses(p)
  }

  /** A map of paths as the constructor of a runner leaves it. */
  ghost predicate PathsFor(check: Check, paths: Paths) {
    paths.Keys == AllPaths(check.d.comparisons) && forall p :: p in paths ==> paths[p] == DefaultOf(check.d.comparisons, p)
  }

  /** One of the outer snapshots satisfies every comparison, or a timeout was reported. */
  ghost predicate Succeeds(check: Check, paths: Paths, polls: nat, last: Verdict) {
    && EndsAt(check.d, paths, check.ticks, polls, last)
    && (|| (exists i :: 0 <= i < polls && Satisfied(check.d, paths, check.ticks[i]))
        || ((last == ProgressTimeout || (last == Changed && polls == |check.ticks|)) && check.d.reportTimeout && check.reportOk))
  }

  /** A check that returns nil: its paths parse, it has a client, and it succeeds. */
  ghost predicate Passes(check: Check, parses: string -> bool) {
    && Parses(check, parses) && check.client
    && exists paths, polls, last :: PathsFor(check, paths) && Succeeds(check, paths, polls, last)
  }

  lemma PathsAreDetermined(check: Check, paths: Paths, paths': Paths)
    requires PathsFor(check, paths) && PathsFor(check, paths')
    ensures paths == paths'
  {
  }

  /** Where a poll ends without a change, no other can have seen one. */
  lemma NoLaterEnd(d: Definition, paths: Paths, ticks: seq<OuterTick>, polls: nat, last: Verdict, n: nat)
    requires EndsAt(d, paths, ticks, polls, last) && n < |ticks| && AllChanged(d, paths, ticks, n)
    ensures n < polls
  {
    if polls <= n {
      VerdictIsDetermined(d, paths, ticks[polls - 1], last, Changed);
    }
  }

  /** How far a check polls, and whether it succeeds, is determined by what it meets. */
  lemma EndIsDetermined(d: Definition, paths: Paths, ticks: seq<OuterTick>,
      polls: nat, last: Verdict, polls': nat, last': Verdict)
    requires EndsAt(d, paths, ticks, polls, last) && EndsAt(d, paths, ticks, polls', last')
    ensures polls == polls' && (last == last' || (last.Abort? && last'.Abort?))
  {
    NoLaterEnd(d, paths, ticks, polls, last, polls' - 1);
    NoLaterEnd(d, paths, ticks, polls', last', polls - 1);
    assert polls == polls';
    LastIsDetermined(d, paths, ticks, polls, last, last');
  }

  lemma LastIsDetermined(d: Definition, paths: Paths, ticks: seq<OuterTick>, polls: nat, last: Verdict, last': Verdict)
    requires EndsAt(d, paths, ticks, polls, last) && EndsAt(d, paths, ticks, polls, last')
    ensures last == last' || (last.Abort? && last'.Abort?)
  {
    VerdictIsDetermined(d, paths, ticks[polls - 1], last, last');
  }

  method RunCheck(check: Check, parses: string -> bool) returns (err: Option<Error>)
    requires Meets(check)
    ensures err.None? <==> Passes(check, parses)
  {
    var paths := RegisterPaths(check.d.comparisons, parses);
    if paths.Err? {
      return Some(paths.error);
    }
    var polls, last, w;
    err, polls, last, w := ExecuteCheck(check.d, paths.value, check.client, check.ticks, check.reportOk);
    if check.client {
      NilExactly(check.d, paths.value, check.ticks, polls, last, check.reportOk);
      NilMeansPasses(check, parses, paths.value, polls, last);
    }
  }

  lemma NilMeansPasses(check: Check, parses: string -> bool, paths: Paths, polls: nat, last: Verdict)
    requires Parses(check, parses) && check.client && PathsFor(check, paths)
    requires EndsAt(check.d, paths, check.ticks, polls, last)
    ensures Passes(check, parses) <==> Succeeds(check, paths, polls, last)
  {
    if Passes(check, parses) {
      var paths', polls', last' :| PathsFor(check, paths') && Succeeds(check, paths', polls', last');
      PathsAreDetermined(check, paths, paths');
      EndIsDetermined(check.d, paths, check.ticks, polls, last, polls', last');
    }
  }

  /** The checks of a step pass exactly if each of them does; the first that does not ends them. */
  method RunChecks(checks: seq<Check>, parses: string -> bool) returns (err: Option<Error>, ran: nat)
    requires forall i :: 0 <= i < |checks| ==> Meets(checks[i])
    ensures ran <= |checks| && forall i :: 0 <= i < ran ==> Passes(checks[i], parses)
    ensures err.None? ==> ran == |checks|
    ensures err.Some? ==> ran < |checks| && !Passes(checks[ran], parses)
  {
    for i := 0 to |checks|
      invariant forall k :: 0 <= k < i ==> Passes(checks[k], parses)
    {
      err := RunCheck(checks[i], parses);
      if err.Some? {
        return err, i;
      }
    }
    err, ran := None, |checks|;
  }
}
