/** The retention gauge (retention_telemetry.go): a value per part of a run that must tell
    the whole history of runs. */
module RetentionTelemetry {

  datatype Part = Part(resource: string, step: string)

  /** How a run ends: well, with failures in named parts, or failing as a whole. */
  datatype RunEnd = Succeeded | FailedIn(failures: seq<Part>) | FailedWhole

  const WHOLE := Part("retention", "run")

  function PartsOf(run: RunEnd): set<Part> {
    match run
    case Succeeded => {}
    case FailedIn(failures) => set p | p in failures
    case FailedWhole => {WHOLE}
  }

  type Gauge = map<Part, int>

  function Raised(gauge: Gauge, parts: set<Part>, value: int): Gauge {
    map p | p in gauge.Keys + parts :: if p in parts then value else gauge[p]
  }

  /** The gauge after one report: first the parts no longer failed, then the failed ones. */
  function Reported(gauge: Gauge, before: set<Part>, now: set<Part>): Gauge {
    Raised(Raised(gauge, before - now, 0), now, 1)
  }

  method Record(gauge: Gauge, parts: set<Part>, skip: set<Part>, value: int) returns (r: Gauge)
    ensures r == Raised(gauge, parts - skip, value)
  {
    r := gauge;
    var left := parts;
    while left != {}
      invariant left <= parts && r == Raised(gauge, parts - left - skip, value)
      decreases left
    {
      var p :| p in left;
      if p !in skip {
        r := r[p := value];
      }
      left := left - {p};
    }
  }

  class Telemetry {
    var failed: set<Part>
    var gauge: Gauge

    constructor ()
      ensures failed == {} && gauge == map[]
    {
      failed, gauge := {}, map[];
    }

    /** report. The two loops range over Go maps, in any order. */
    method Report(run: RunEnd)
      modifies this
      ensures failed == PartsOf(run)
      ensures gauge == Reported(old(gauge), old(failed), PartsOf(run))
    {
      var now: set<Part> := {};
      match run {
        case Succeeded =>
        case FailedIn(failures) =>
          for i := 0 to |failures|
            invariant now == set p | p in failures[..i]
          {
            assert failures[..i+1] == failures[..i] + [failures[i]];
            now := now + {failures[i]};
          }
          assert failures[..|failures|] == failures;
        case FailedWhole => now := {WHOLE};
      }
      gauge := Record(gauge, failed, now, 0);
      gauge := Record(gauge, now, {}, 1);
      failed := now;
    }

    /** Any sequence of reports on a new instrument. */
    method ReportAll(runs: seq<RunEnd>)
      requires failed == {} && gauge == map[]
      modifies this
      ensures failed == LastFailed(runs) && gauge == GaugeAfter(runs)
    {
      for i := 0 to |runs|
        invariant failed == LastFailed(runs[..i]) && gauge == GaugeAfter(runs[..i])
      {
        assert runs[..i+1][..i] == runs[..i];
        Report(runs[i]);
      }
      assert runs[..|runs|] == runs;
    }
  }

  function LastFailed(runs: seq<RunEnd>): set<Part> {
    if runs == [] then {} else PartsOf(runs[|runs|-1])
  }

  function GaugeAfter(runs: seq<RunEnd>): Gauge {
    if runs == [] then map[]
    else
      var earlier := runs[..|runs|-1];
      Reported(GaugeAfter(earlier), LastFailed(earlier), PartsOf(runs[|runs|-1]))
  }

  /** The run failed in this part; a run that failed as a whole failed in one part of its own. */
  predicate Fails(run: RunEnd, p: Part) {
    (run.FailedIn? && p in run.failures) || (run.FailedWhole? && p == Part("retention", "run"))
  }

  lemma PartsMeaning(run: RunEnd, p: Part)
    ensures p in PartsOf(run) <==> Fails(run, p)
  {
  }

  predicate EverFailed(runs: seq<RunEnd>, p: Part) { exists i :: 0 <= i < |runs| && Fails(runs[i], p) }

  /** What an alert may read off the gauge, for every history: 1 exactly when the last run
      failed the part, 0 exactly when only earlier ones did, unset exactly when none did. */
  lemma {:induction false} GaugeTellsHistory(runs: seq<RunEnd>, p: Part)
    ensures p in GaugeAfter(runs) <==> EverFailed(runs, p)
    ensures p in GaugeAfter(runs) ==> GaugeAfter(runs)[p] == if Fails(runs[|runs|-1], p) then 1 else 0
  {
    if runs != [] {
      var n := |runs| - 1;
      var earlier := runs[..n];
      GaugeTellsHistory(earlier, p);
      PartsMeaning(runs[n], p);
      if n > 0 { PartsMeaning(earlier[n-1], p); }
      if i :| 0 <= i < |earlier| && Fails(earlier[i], p) { assert Fails(runs[i], p); }
      if i :| 0 <= i < n && Fails(runs[i], p) { assert Fails(earlier[i], p); }
    }
  }
}
