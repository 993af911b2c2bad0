/** frontend/src/services/defectService.ts: the defect status union of the
    `Defect` interface and `generateDemoDefectStats`, the placeholder
    statistics shown for a project while no statistics endpoint exists. */
module DefectService {
  import opened Models

  // ------------------------------------------------------ demo statistics

  datatype DefectStats = DefectStats(active: int, resolved: int, total: int)

  /** JavaScript's `%` on integers: truncating, the result takes the
      dividend's sign. */
  function JsRem(a: int, b: int): (r: int)
    requires b > 0
    ensures a >= 0 ==> 0 <= r < b && r == a % b
    ensures a < 0 ==> -b < r <= 0 && -r == (-a) % b
  {
    if a >= 0 then a % b else -((-a) % b)
  }

  /** `Math.floor(a / b)` for integers and a positive divisor. */
  function FloorDiv(a: int, b: int): (q: int)
    requires b > 0
    ensures q * b <= a < q * b + b
  {
    a / b
  }

  /** `projectId * 13 % 100`. */
  function Seed(projectId: int): (seed: int)
    ensures projectId >= 0 ==> 0 <= seed < 100
    ensures projectId < 0 ==> -100 < seed <= 0
  {
    JsRem(projectId * 13, 100)
  }

  function GenerateDemoDefectStats(projectId: int): DefectStats
  {
    var seed := Seed(projectId);
    var active := FloorDiv(seed, 10) + 1;
    var resolved := JsRem(FloorDiv(seed, 5), 10) + 1;
    DefectStats(active, resolved, active + resolved)
  }

  /** For a project id (never negative) both counts lie in 1..10 and the
      total is their sum. */
  lemma DemoStatsBounds(projectId: int)
    requires projectId >= 0
    ensures var s := GenerateDemoDefectStats(projectId);
            && 1 <= s.active <= 10 && 1 <= s.resolved <= 10
            && s.total == s.active + s.resolved && 2 <= s.total <= 20
  {
  }

  /** The figures depend only on the id modulo 100, so they are stable for
      a project and repeat every hundred projects. */
  lemma DemoStatsPeriodic(projectId: int)
    requires projectId >= 0
    ensures GenerateDemoDefectStats(projectId + 100) == GenerateDemoDefectStats(projectId)
  {
    var x := projectId * 13;
    assert (projectId + 100) * 13 == x + 1300;
    assert (x + 1300) % 100 == x % 100 by {
      assert x + 1300 == (x / 100 + 13) * 100 + x % 100;
    }
  }

  /** The 1..10 range needs a non-negative id: JavaScript's `%` keeps the
      sign, and id -1 gives a negative count. */
  lemma DemoStatsNegativeId()
    ensures GenerateDemoDefectStats(-1) == DefectStats(-1, -2, -3)
  {
    assert Seed(-1) == -13;
    assert FloorDiv(-13, 10) == -2;
    assert FloorDiv(-13, 5) == -3;
  }

  // ------------------------------------------------------ status union

  /** The `status` union of the `Defect` interface as written. */
  function FrontDefectStatusesAsWritten(): set<string>
  {
    {"new", "in_progress", "review", "closed", "cancelled"}
  }

  /** The back end's cancelled status is spelled `canceled`; the front-end
      union spells it `cancelled`, so a cancelled defect the back end
      returns falls outside the front-end type, and a status the front end
      would send is one no back-end constant names. */
  lemma CancelledSpellingMismatch()
    ensures DefectStatusCanceled in DefectStatuses()
    ensures DefectStatusCanceled !in FrontDefectStatusesAsWritten()
    ensures "cancelled" in FrontDefectStatusesAsWritten() && "cancelled" !in DefectStatuses()
  {
  }

  /** The union with the back end's spelling. */
  function FrontDefectStatuses(): set<string>
  {
    {"new", "in_progress", "review", "closed", DefectStatusCanceled}
  }

  /** With the back end's spelling the two enumerations coincide. */
  lemma FrontStatusesMatchBackEnd()
    ensures FrontDefectStatuses() == DefectStatuses()
    ensures forall s :: s in DefectStatuses() <==> s in FrontDefectStatuses()
  {
  }
}
