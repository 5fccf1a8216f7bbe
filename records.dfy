/** The `KbtResult` table: one row per period, three text columns. */
module Records {

  /** A stored row. The generated `id` and the `created_at` timestamp are
      not part of this model. */
  datatype Record = Record(period: string, number: string, color: string)

  /** Column widths of `period String(20)`, `number String(10)` and `color String(10)`. */
  const PeriodWidth: nat := 20
  const NumberWidth: nat := 10
  const ColorWidth: nat := 10

  /** The row fits the declared column widths. */
  predicate Fits(r: Record) {
    |r.period| <= PeriodWidth && |r.number| <= NumberWidth && |r.color| <= ColorWidth
  }

  function PeriodsOf(rs: seq<Record>): (ps: set<string>)
    ensures forall k :: 0 <= k < |rs| ==> rs[k].period in ps
    ensures forall p :: p in ps ==> exists k :: 0 <= k < |rs| && rs[k].period == p
  {
    set r | r in rs :: r.period
  }

  /** The `unique=True` constraint on `period`: no two rows share a period. */
  predicate UniquePeriods(rs: seq<Record>) {
    forall i, j :: 0 <= i < j < |rs| ==> rs[i].period != rs[j].period
  }

  /** Appending a row adds exactly its period. */
  lemma PeriodsOfAppend(rs: seq<Record>, r: Record)
    ensures PeriodsOf(rs + [r]) == PeriodsOf(rs) + {r.period}
  {
    assert forall k :: 0 <= k < |rs| ==> (rs + [r])[k] == rs[k];
  }

  /** Appending a row whose period is new keeps the periods unique. */
  lemma AppendFresh(rs: seq<Record>, r: Record)
    requires UniquePeriods(rs) && r.period !in PeriodsOf(rs)
    ensures UniquePeriods(rs + [r])
    ensures PeriodsOf(rs + [r]) == PeriodsOf(rs) + {r.period}
  {
    PeriodsOfAppend(rs, r);
  }
}
