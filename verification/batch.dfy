/** The batch loop of `main` (main.py lines 71-98): a left-to-right fold
    over the `(name, record)` entries of the packages dictionary that
    threads the records, `update_dict` and `error_list`. */
module Batch {
  import opened Wrappers
  import opened Evaluator
  import opened Adapters

  /** One `(package, p_dict)` item of `packages_dict.items()`. */
  type Entry = (string, Record)

  /** What the loop has built so far: the records already processed (in
      place, in iteration order), the keys of `update_dict`, `error_list`,
      and the outcome logged for each processed package. */
  datatype Report = Report(
    records: seq<Entry>,
    updated: set<string>,
    errors: seq<string>,
    log: seq<(string, Kind)>)

  /** A run either goes through every entry or ends with the uncaught
      exception raised while processing `package`. */
  datatype RunResult = Completed(report: Report) | Aborted(package: string, fault: Fault)

  /** Dictionary keys are unique. */
  predicate DistinctNames(entries: seq<Entry>) {
    forall i, j :: 0 <= i < j < |entries| ==> entries[i].0 != entries[j].0
  }

  /** One iteration of the loop body (lines 79-98) for one package: the
      logged kind and the record afterwards, or the exception that escapes. */
  function Check(name: string, rec: Record, web: Web): (r: Result<(Kind, Record), Fault>)
    ensures r == Failure(UnknownSource) <==> !KnownSource(rec.source)
    ensures r.Success? ==> r.value.1.source == rec.source
    ensures r.Success? && !r.value.0.IsUpdate() ==> r.value.1 == rec
    ensures r.Success? && r.value.0 == NoInfo <==> Search(rec.source, name, web) == Success(NotFound)
    ensures r.Failure? <==> Search(rec.source, name, web).Failure?
    ensures r.Failure? ==> r.error == Search(rec.source, name, web).error
    ensures Search(rec.source, name, web).Success? && Search(rec.source, name, web).value.Found? ==>
              r == Success(Evaluate(rec, Search(rec.source, name, web).value.obs))
  {
    match Search(rec.source, name, web)
    case Failure(fault) => Failure(fault)
    case Success(NotFound) => Success((NoInfo, rec))
    case Success(Found(obs)) => Success(Evaluate(rec, obs))
  }

  /** The packages logged as not found, in log order. */
  function ErrorNames(log: seq<(string, Kind)>): (names: seq<string>)
    ensures |names| <= |log|
    ensures forall n :: n in names <==> exists i :: 0 <= i < |log| && log[i] == (n, NoInfo)
  {
    if log == [] then []
    else
      var last := log[|log| - 1];
      var names := ErrorNames(log[..|log| - 1]);
      assert forall i :: 0 <= i < |log| - 1 ==> log[..|log| - 1][i] == log[i];
      if last.1 == NoInfo then names + [last.0] else names
  }

  /** `error_list` is built by appending (line 83), so it keeps iteration
      order: the not-found packages of a longer log are those of its first
      part followed by those of the rest. */
  lemma {:induction false} ErrorNamesAppend(a: seq<(string, Kind)>, b: seq<(string, Kind)>)
    ensures ErrorNames(a + b) == ErrorNames(a) + ErrorNames(b)
    decreases |b|
  {
    if b == [] {
      assert a + b == a;
    } else {
      var init := b[..|b| - 1];
      assert (a + b)[..|a + b| - 1] == a + init;
      assert (a + b)[|a + b| - 1] == b[|b| - 1];
      ErrorNamesAppend(a, init);
    }
  }

  /** A single log entry contributes its package exactly when it is not
      found. */
  lemma ErrorNamesSingle(entry: (string, Kind))
    ensures ErrorNames([entry]) == if entry.1 == NoInfo then [entry.0] else []
  {
    assert [entry][..0] == [];
  }

  /** The packages logged with an update. */
  function UpdatedNames(log: seq<(string, Kind)>): (names: set<string>)
    ensures forall n :: n in names <==> exists i :: 0 <= i < |log| && log[i].0 == n && log[i].1.IsUpdate()
  {
    if log == [] then {}
    else
      var last := log[|log| - 1];
      var names := UpdatedNames(log[..|log| - 1]);
      assert forall i :: 0 <= i < |log| - 1 ==> log[..|log| - 1][i] == log[i];
      if last.1.IsUpdate() then names + {last.0} else names
  }

  /** The loop body as a function of the entry it processes. */
  type Body = Entry -> Result<(Kind, Record), Fault>

  /** `Check` against a fixed web. */
  function CheckOn(web: Web): Body {
    (e: Entry) => Check(e.0, e.1, web)
  }

  /** Lines 83, 88 and 94: a processed package is appended to the records
      and the log; `update_dict` gains it after an update, `error_list`
      after a not-found. An escaping exception ends the step. */
  function Step(st: Report, e: Entry, body: Body): (r: Result<Report, Fault>)
    ensures r.Failure? <==> body(e).Failure?
    ensures r.Success? ==>
              && st.records <= r.value.records && |r.value.records| == |st.records| + 1
              && r.value.records[|st.records|].0 == e.0
              && st.log <= r.value.log && |r.value.log| == |st.log| + 1
              && st.errors <= r.value.errors
              && st.updated <= r.value.updated
  {
    match body(e)
    case Failure(fault) => Failure(fault)
    case Success((kind, rec)) =>
      Success(Report(
        st.records + [(e.0, rec)],
        if kind.IsUpdate() then st.updated + {e.0} else st.updated,
        if kind == NoInfo then st.errors + [e.0] else st.errors,
        st.log + [(e.0, kind)]))
  }

  /** The loop over the entries not yet processed. */
  function RunFrom(st: Report, rest: seq<Entry>, body: Body): (r: RunResult)
    ensures r.Completed? ==>
              && st.records <= r.report.records && |r.report.records| == |st.records| + |rest|
              && st.log <= r.report.log && |r.report.log| == |st.log| + |rest|
    ensures r.Aborted? ==> exists i :: 0 <= i < |rest| && r.package == rest[i].0
    decreases |rest|
  {
    if rest == [] then Completed(st)
    else match Step(st, rest[0], body)
      case Failure(fault) => Aborted(rest[0].0, fault)
      case Success(st') => RunFrom(st', rest[1..], body)
  }

  /** The loop started with nothing processed, empty `update_dict` and
      empty `error_list`. */
  function Loop(entries: seq<Entry>, body: Body): (r: RunResult)
    ensures r.Completed? ==> |r.report.records| == |entries| && |r.report.log| == |entries|
  {
    RunFrom(Report([], {}, [], []), entries, body)
  }

  /** `main(packages_dict)`. */
  function Run(entries: seq<Entry>, web: Web): (r: RunResult)
    ensures r.Completed? ==> |r.report.records| == |entries| && |r.report.log| == |entries|
    ensures r.Aborted? ==> exists i :: 0 <= i < |entries| && r.package == entries[i].0
  {
    Loop(entries, CheckOn(web))
  }

  /** The report of a run over `done` agrees package by package with `body`,
      and its two collections are read off its log. */
  ghost predicate Describes(st: Report, done: seq<Entry>, body: Body) {
    && |st.records| == |done|
    && |st.log| == |done|
    && (forall i :: 0 <= i < |done| ==>
          && st.records[i].0 == done[i].0
          && st.log[i].0 == done[i].0
          && body(done[i]) == Success((st.log[i].1, st.records[i].1)))
    && st.errors == ErrorNames(st.log)
    && st.updated == UpdatedNames(st.log)
  }

  /** No entry makes the loop body raise. */
  ghost predicate NoEscape(entries: seq<Entry>, body: Body) {
    forall i :: 0 <= i < |entries| ==> body(entries[i]).Success?
  }

  lemma NoEscapeUncons(rest: seq<Entry>, body: Body)
    requires rest != []
    ensures NoEscape(rest, body) <==> body(rest[0]).Success? && NoEscape(rest[1..], body)
  {
    if body(rest[0]).Success? && NoEscape(rest[1..], body) {
      forall i | 0 <= i < |rest|
        ensures body(rest[i]).Success?
      {
        if i > 0 { assert rest[i] == rest[1..][i - 1]; }
      }
    }
  }

  lemma StepDescribes(st: Report, done: seq<Entry>, e: Entry, body: Body)
    requires Describes(st, done, body)
    requires Step(st, e, body).Success?
    ensures Describes(Step(st, e, body).value, done + [e], body)
  {
    var st' := Step(st, e, body).value;
    assert st'.log[..|st'.log| - 1] == st.log;
  }

  lemma {:induction false} RunFromCompletes(st: Report, rest: seq<Entry>, body: Body)
    ensures RunFrom(st, rest, body).Completed? <==> NoEscape(rest, body)
    decreases |rest|
  {
    if rest != [] {
      NoEscapeUncons(rest, body);
      var step := Step(st, rest[0], body);
      if step.Success? {
        RunFromCompletes(step.value, rest[1..], body);
      }
    }
  }

  lemma {:induction false} RunFromDescribes(st: Report, done: seq<Entry>, rest: seq<Entry>, body: Body)
    requires Describes(st, done, body)
    requires RunFrom(st, rest, body).Completed?
    ensures Describes(RunFrom(st, rest, body).report, done + rest, body)
    decreases |rest|
  {
    if rest == [] {
      assert done + rest == done;
    } else {
      var step := Step(st, rest[0], body);
      assert step.Success?;
      StepDescribes(st, done, rest[0], body);
      RunFromDescribes(step.value, done + [rest[0]], rest[1..], body);
      assert done + [rest[0]] + rest[1..] == done + rest;
    }
  }

  /** The loop completes exactly when no entry makes its body raise, and
      then it reports every entry once, in iteration order, with the kind
      and record that the body gives it; `error_list` holds the not-found
      packages in order and `update_dict` the updated ones. */
  lemma LoopReport(entries: seq<Entry>, body: Body)
    ensures Loop(entries, body).Completed? <==> NoEscape(entries, body)
    ensures Loop(entries, body).Completed? ==> Describes(Loop(entries, body).report, entries, body)
  {
    RunFromCompletes(Report([], {}, [], []), entries, body);
    if Loop(entries, body).Completed? {
      RunFromDescribes(Report([], {}, [], []), [], entries, body);
      assert [] + entries == entries;
    }
  }

  lemma {:induction false} RunFromAborts(st: Report, rest: seq<Entry>, body: Body)
    ensures RunFrom(st, rest, body).Aborted? ==>
              exists i :: 0 <= i < |rest|
                && NoEscape(rest[..i], body)
                && body(rest[i]) == Failure(RunFrom(st, rest, body).fault)
                && RunFrom(st, rest, body).package == rest[i].0
    decreases |rest|
  {
    if rest != [] {
      match Step(st, rest[0], body)
      case Failure(_) =>
        assert NoEscape(rest[..0], body);
      case Success(st') =>
        RunFromAborts(st', rest[1..], body);
        if RunFrom(st, rest, body).Aborted? {
          var i :| 0 <= i < |rest[1..]|
                && NoEscape(rest[1..][..i], body)
                && body(rest[1..][i]) == Failure(RunFrom(st', rest[1..], body).fault)
                && RunFrom(st', rest[1..], body).package == rest[1..][i].0;
          assert rest[..i + 1] == [rest[0]] + rest[1..][..i];
          assert NoEscape(rest[..i + 1], body);
        }
    }
  }

  /** A loop that ends early ends at the first entry whose body raises:
      every entry before it went through. */
  lemma LoopAborts(entries: seq<Entry>, body: Body)
    ensures Loop(entries, body).Aborted? ==>
              exists i :: 0 <= i < |entries|
                && NoEscape(entries[..i], body)
                && body(entries[i]) == Failure(Loop(entries, body).fault)
                && Loop(entries, body).package == entries[i].0
  {
    RunFromAborts(Report([], {}, [], []), entries, body);
  }

  /** `main` completes exactly when every package has a known source, every
      request gets an answer, and no adapter meets a page without the
      element it looks for. Then every
      package is reported once, in order, with the outcome of its own loop
      iteration: no other package's processing touches its record. */
  lemma RunReport(entries: seq<Entry>, web: Web)
    ensures Run(entries, web).Completed? <==>
              forall i :: 0 <= i < |entries| ==> Check(entries[i].0, entries[i].1, web).Success?
    ensures Run(entries, web).Completed? ==>
              var rep := Run(entries, web).report;
              && |rep.records| == |entries| && |rep.log| == |entries|
              && (forall i :: 0 <= i < |entries| ==>
                    && rep.records[i].0 == entries[i].0
                    && rep.log[i].0 == entries[i].0
                    && Check(entries[i].0, entries[i].1, web) == Success((rep.log[i].1, rep.records[i].1)))
              && rep.errors == ErrorNames(rep.log)
              && rep.updated == UpdatedNames(rep.log)
  {
    LoopReport(entries, CheckOn(web));
  }

  /** An unknown or missing source, like a request without an answer or a
      page without the expected element, ends the whole run at the first
      package that has one. */
  lemma RunAborts(entries: seq<Entry>, web: Web)
    ensures Run(entries, web).Aborted? ==>
              exists i :: 0 <= i < |entries|
                && (forall j :: 0 <= j < i ==> Check(entries[j].0, entries[j].1, web).Success?)
                && Check(entries[i].0, entries[i].1, web) == Failure(Run(entries, web).fault)
                && Run(entries, web).package == entries[i].0
    ensures (exists i :: 0 <= i < |entries| && !KnownSource(entries[i].1.source)) ==> Run(entries, web).Aborted?
  {
    LoopAborts(entries, CheckOn(web));
    LoopReport(entries, CheckOn(web));
    if Run(entries, web).Aborted? {
      var i :| 0 <= i < |entries|
                && NoEscape(entries[..i], CheckOn(web))
                && CheckOn(web)(entries[i]) == Failure(Run(entries, web).fault)
                && Run(entries, web).package == entries[i].0;
      forall j | 0 <= j < i
        ensures Check(entries[j].0, entries[j].1, web).Success?
      {
        assert entries[..i][j] == entries[j];
      }
    }
  }

  /** In a completed run, a package whose adapter found an observation
      ends with the record and the kind that `Evaluate` gives for it
      (lines 80, 85-96). */
  lemma FoundIsEvaluated(entries: seq<Entry>, web: Web, i: int, obs: Observation)
    requires Run(entries, web).Completed?
    requires 0 <= i < |entries|
    requires Search(entries[i].1.source, entries[i].0, web) == Success(Found(obs))
    ensures Run(entries, web).report.records[i] == (entries[i].0, Evaluate(entries[i].1, obs).1)
    ensures Run(entries, web).report.log[i] == (entries[i].0, Evaluate(entries[i].1, obs).0)
  {
    RunReport(entries, web);
  }

  /** With distinct names in the log, a not-found package is listed in
      `error_list` exactly once. */
  lemma {:induction false} ErrorNamesOnce(log: seq<(string, Kind)>, i: int)
    requires forall j, k :: 0 <= j < k < |log| ==> log[j].0 != log[k].0
    requires 0 <= i < |log| && log[i].1 == NoInfo
    ensures multiset(ErrorNames(log))[log[i].0] == 1
  {
    var n := log[i].0;
    var init := log[..|log| - 1];
    assert forall j :: 0 <= j < |log| - 1 ==> init[j] == log[j];
    if i == |log| - 1 {
      assert n !in ErrorNames(init);
      assert multiset(ErrorNames(init))[n] == 0;
    } else {
      ErrorNamesOnce(init, i);
      assert log[|log| - 1].0 != n;
    }
  }

  /** What `main` leaves behind for one package of a completed run, when
      the package names are distinct (they are dictionary keys): it is in
      `update_dict` exactly when its record changed, in `error_list` exactly
      when its adapter found nothing, never in both, and a not-found package
      is listed once with its record untouched. */
  lemma PackageOutcome(entries: seq<Entry>, web: Web, i: int)
    requires DistinctNames(entries)
    requires Run(entries, web).Completed?
    requires 0 <= i < |entries|
    ensures var rep := Run(entries, web).report;
            var (name, rec) := entries[i];
            && (name in rep.updated <==> rep.records[i] != entries[i])
            && (name in rep.errors <==> Search(rec.source, name, web) == Success(NotFound))
            && !(name in rep.updated && name in rep.errors)
            && (Search(rec.source, name, web) == Success(NotFound) ==>
                  multiset(rep.errors)[name] == 1 && rep.records[i] == entries[i])
  {
    RunReport(entries, web);
    var rep := Run(entries, web).report;
    var (name, rec) := entries[i];
    var res := Check(name, rec, web).value;
    assert res == (rep.log[i].1, rep.records[i].1);
    // Only entry i carries this name in the log.
    assert forall j :: 0 <= j < |rep.log| && rep.log[j].0 == name ==> j == i;
    if name in rep.updated {
      var j :| 0 <= j < |rep.log| && rep.log[j].0 == name && rep.log[j].1.IsUpdate();
      var obs := Search(rec.source, name, web).value.obs;
      assert Evaluate(rec, obs) == res;
    }
    if rep.records[i] != entries[i] {
      assert rep.log[i].1.IsUpdate();
    }
    if Search(rec.source, name, web) == Success(NotFound) {
      ErrorNamesOnce(rep.log, i);
    }
  }
}
