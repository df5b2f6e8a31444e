/** The per-package update evaluator: the priority-ordered comparison of a
    recorded package against a fresh observation (main.py lines 85-98). */
module Evaluator {
  import opened Wrappers

  /** One entry of the packages dictionary. Each field is the dictionary
      key of the same name ("source", "stable", "pre-release", "link"),
      `None` when the key is absent. */
  datatype Record = Record(
    source: Option<string>,
    stable: Option<string>,
    preRelease: Option<string>,
    link: Option<string>)

  /** What an adapter returns: `(latest_v, stable, link)`. */
  datatype Observation = Observation(version: string, stable: bool, link: string)

  /** The outcome logged for one package: "Pre-release … found",
      "Stable release … found", "No new versions found", "No info found". */
  datatype Kind = PreReleaseFound | StableFound | NoNewVersion | NoInfo {
    /** The kinds that put the package into `update_dict`. */
    predicate IsUpdate() {
      PreReleaseFound? || StableFound?
    }
  }

  /** A field as `p_dict.get(key, "")` reads it. */
  function Recorded(field: Option<string>): string {
    field.GetOr("")
  }

  /** The pre-release condition of line 85. */
  predicate PreReleaseChanged(r: Record, o: Observation) {
    !o.stable && Recorded(r.preRelease) != o.version
  }

  /** The stable condition of line 91. */
  predicate StableChanged(r: Record, o: Observation) {
    Recorded(r.stable) != o.version
  }

  /** The record already holds the observed version where this observation
      belongs: in "pre-release" for a non-stable one, in "stable" for a
      stable one. */
  predicate Reflects(r: Record, o: Observation) {
    if o.stable then Recorded(r.stable) == o.version
    else Recorded(r.preRelease) == o.version
  }

  /** Lines 85-98: the pre-release branch is tried first and, when it fires,
      skips the stable comparison; otherwise a differing stable field is
      overwritten; otherwise nothing changes. Either branch also overwrites
      "link". A non-stable observation whose version already is the recorded
      pre-release falls through to the stable comparison. */
  function Evaluate(r: Record, o: Observation): (res: (Kind, Record))
    ensures res.0 != NoInfo
    ensures res.0 == NoNewVersion <==> res.1 == r
    ensures res.0 == PreReleaseFound <==> PreReleaseChanged(r, o)
    ensures res.0 == StableFound <==> !PreReleaseChanged(r, o) && StableChanged(r, o)
    ensures Reflects(res.1, o)
    ensures res.0 == PreReleaseFound ==> res.1.preRelease == Some(o.version)
    ensures res.0 == StableFound ==> res.1.stable == Some(o.version)
    ensures res.1.source == r.source
    ensures res.0 != StableFound ==> res.1.stable == r.stable
    ensures res.0 != PreReleaseFound ==> res.1.preRelease == r.preRelease
    ensures res.0.IsUpdate() ==> res.1.link == Some(o.link)
    ensures !res.0.IsUpdate() ==> res.1.link == r.link
  {
    if !o.stable && Recorded(r.preRelease) != o.version then
      (PreReleaseFound, r.(preRelease := Some(o.version), link := Some(o.link)))
    else if Recorded(r.stable) != o.version then
      (StableFound, r.(stable := Some(o.version), link := Some(o.link)))
    else
      (NoNewVersion, r)
  }

  /** A change is reported exactly when the record did not yet reflect the
      observation, except that a non-stable version that is already the
      recorded pre-release is still compared with "stable". */
  lemma ChangeReportedUnlessReflected(r: Record, o: Observation)
    ensures o.stable ==> (Evaluate(r, o).0.IsUpdate() <==> !Reflects(r, o))
    ensures !o.stable && !Reflects(r, o) ==> Evaluate(r, o).0 == PreReleaseFound
  {
  }

  /** Priority law: an observation that would change both fields records
      only the pre-release and leaves "stable" as it was. */
  lemma PreReleaseTakesPriority(r: Record, o: Observation)
    requires PreReleaseChanged(r, o) && StableChanged(r, o)
    ensures Evaluate(r, o).0 == PreReleaseFound
    ensures Evaluate(r, o).1.stable == r.stable
    ensures Evaluate(r, o).1.preRelease == Some(o.version)
  {
  }

  /** The fall-through of lines 85 and 91 as written: a non-stable version
      equal to the recorded pre-release is written into "stable". */
  lemma RepeatedPreReleaseBecomesStable(r: Record, o: Observation)
    requires !o.stable && Recorded(r.preRelease) == o.version
    requires Recorded(r.stable) != o.version
    ensures Evaluate(r, o) == (StableFound, r.(stable := Some(o.version), link := Some(o.link)))
  {
  }

  /** A stable observation converges in one step: evaluating it again on the
      updated record changes nothing. */
  lemma StableIdempotent(r: Record, o: Observation)
    requires o.stable
    ensures Evaluate(Evaluate(r, o).1, o) == (NoNewVersion, Evaluate(r, o).1)
  {
  }

  /** Every observation converges within two steps: the third evaluation of
      the same observation changes nothing. */
  lemma ConvergesWithinTwoSteps(r: Record, o: Observation)
    ensures var r2 := Evaluate(Evaluate(r, o).1, o).1;
            Evaluate(r2, o) == (NoNewVersion, r2)
  {
  }

  /** The two-step bound is reached: a new pre-release fires the pre-release
      branch, then the stable branch, and only then is quiet. */
  lemma NewPreReleaseTakesTwoSteps(r: Record, o: Observation)
    requires PreReleaseChanged(r, o) && StableChanged(r, o)
    ensures var (k1, r1) := Evaluate(r, o);
            var (k2, r2) := Evaluate(r1, o);
            var (k3, r3) := Evaluate(r2, o);
            k1 == PreReleaseFound && k2 == StableFound && k3 == NoNewVersion
            && Recorded(r2.stable) == o.version && Recorded(r2.preRelease) == o.version
  {
  }

  /** Absent fields compare as "": an empty version against a record without
      fields is no change, whatever its stability. */
  lemma EmptyVersionOnBareRecord(source: Option<string>, stable: bool, link: string)
    ensures var r := Record(source, None, None, None);
            Evaluate(r, Observation("", stable, link)) == (NoNewVersion, r)
  {
  }

  /** Three worked examples: a new stable version, a first pre-release on a
      bare record, and an unchanged stable version. */
  lemma Scenarios(link: string)
    ensures Evaluate(Record(Some("pypi"), Some("1.2"), None, None), Observation("1.3", true, link))
            == (StableFound, Record(Some("pypi"), Some("1.3"), None, Some(link)))
    ensures Evaluate(Record(Some("cran"), None, None, None), Observation("0.9-pre-release", false, link))
            == (PreReleaseFound, Record(Some("cran"), None, Some("0.9-pre-release"), Some(link)))
    ensures Evaluate(Record(None, Some("2.0"), None, None), Observation("2.0", true, link))
            == (NoNewVersion, Record(None, Some("2.0"), None, None))
  {
  }
}
