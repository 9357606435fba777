/**
 The sales funnel report (internal/crmapi/sales_funnel_report.go): one pass over the leads' evidence, later stages
 implying the call that must have happened, with percents as exact fractions rounded half up.
 */
module Funnel {
  import opened Prelude

  datatype Currency = UAH | PLN | EUR | USD

  /** An amount in cents; the currency is None when it is missing or unknown. */
  datatype Evidence = Evidence(explicitReached: bool, explicitNotReached: bool, closedNoContact: bool,
                               invited: bool, visited: bool, scheduled: bool, completed: bool, calculation: bool,
                               amount: Option<int>, currency: Option<Currency>)

  datatype Stage = Leads | Calls | Reached | NotReached | Invited | Visited | Scheduled | Completed | Calculation

  predicate WasInvited(e: Evidence) {
    e.invited || e.visited
  }

  predicate WasScheduled(e: Evidence) {
    e.scheduled || e.completed
  }

  predicate WasReached(e: Evidence) {
    e.explicitReached || WasInvited(e) || WasScheduled(e) || e.calculation
  }

  predicate WasNotReached(e: Evidence) {
    !WasReached(e) && (e.explicitNotReached || e.closedNoContact)
  }

  /** Whether a lead counts in a stage. */
  predicate In(e: Evidence, stage: Stage) {
    match stage
    case Leads => true
    case Calls => WasReached(e) || WasNotReached(e)
    case Reached => WasReached(e)
    case NotReached => WasNotReached(e)
    case Invited => WasInvited(e)
    case Visited => e.visited
    case Scheduled => WasScheduled(e)
    case Completed => e.completed
    case Calculation => e.calculation
  }

  function Count(rows: seq<Evidence>, stage: Stage): nat {
    if rows == [] then 0 else Count(rows[..|rows| - 1], stage) + if In(rows[|rows| - 1], stage) then 1 else 0
  }

  // ---- percents ------------------------------------------------------------------------------

  /** count / base * 100, rounded half up. */
  function Percent(count: nat, base: nat): nat {
    if base == 0 then 0 else (200 * count + base) / (2 * base)
  }

  /** The stage a stage is measured against. */
  function BaseOf(stage: Stage): Stage {
    match stage
    case Leads => Leads
    case Calls => Leads
    case Reached => Calls
    case NotReached => Calls
    case Invited => Reached
    case Visited => Invited
    case Scheduled => Reached
    case Completed => Scheduled
    case Calculation => Reached
  }

  lemma {:induction false} Scaled(d: int, a: int, b: int)
    requires d > 0
    ensures a < b ==> d * (a + 1) <= d * b
  {
  }

  lemma {:induction false} QuotientIs(x: int, d: int, q: int)
    requires d > 0 && d * q <= x < d * q + d
    ensures x / d == q
  {
    var k := x / d;
    assert d * k <= x < d * k + d;
    Scaled(d, k, q);
    Scaled(d, q, k);
  }

  /** Rounding half up is the whole part, and one more from a half on; of nothing it is zero. */
  lemma {:induction false} PercentIs(count: nat, base: nat)
    ensures Percent(count, base)
         == if base == 0 then 0 else 100 * count / base + if 2 * (100 * count % base) >= base then 1 else 0
  {
    if base > 0 {
      PercentRounds(count, base);
    }
  }

  lemma {:induction false} PercentRounds(count: nat, base: nat)
    requires base > 0
    ensures Percent(count, base) == 100 * count / base + if 2 * (100 * count % base) >= base then 1 else 0
  {
    var k, r := 100 * count / base, 100 * count % base;
    assert 100 * count == base * k + r;
    var up := if 2 * r >= base then 1 else 0;
    assert 2 * base * (k + up) == 2 * (base * k) + 2 * base * up;
    QuotientIs(200 * count + base, 2 * base, k + up);
  }

  lemma {:induction false} PercentBounds(count: nat, base: nat)
    requires count <= base
    ensures Percent(count, base) <= 100
    ensures base > 0 && count == base ==> Percent(count, base) == 100
  {
    if base > 0 {
      var q := Percent(count, base);
      assert 2 * base * q <= 200 * count + base;
      Scaled(2 * base, 100, q);
      if count == base {
        QuotientIs(200 * count + base, 2 * base, 100);
      }
    }
  }

  /** Two parts of one whole add up to 100, or to 101 exactly when both are rounded up from a half. */
  lemma {:induction false} PercentsAddUp(a: nat, b: nat)
    requires a + b > 0
    ensures var sum := Percent(a, a + b) + Percent(b, a + b);
            sum == if 2 * (100 * a % (a + b)) == a + b then 101 else 100
  {
    var n := a + b;
    var k, r := 100 * a / n, 100 * a % n;
    assert 100 * a == n * k + r;
    PercentIs(a, n);
    PercentIs(b, n);
    assert 100 * b == n * (100 - k) - r;
    if r == 0 {
      Division(100 * b, n, 100 - k, 0);
    } else {
      Complement(b, n, k, r);
    }
  }

  lemma {:induction false} Complement(b: nat, n: nat, k: int, r: int)
    requires 0 < r < n && 100 * b == n * (100 - k) - r
    ensures 100 * b / n == 99 - k && 100 * b % n == n - r
  {
    assert n * (100 - k) == n * (99 - k) + n;
    Division(100 * b, n, 99 - k, n - r);
  }

  lemma {:induction false} Division(x: int, d: int, q: int, r: int)
    requires d > 0 && x == d * q + r && 0 <= r < d
    ensures x / d == q && x % d == r
  {
    QuotientIs(x, d, q);
    assert x == d * (x / d) + x % d;
  }

  // ---- contract totals -----------------------------------------------------------------------

  datatype Total = Total(currency: Currency, total: int)

  predicate Signed(e: Evidence, c: Currency) {
    e.amount.Some? && e.amount.value > 0 && e.currency == Some(c)
  }

  function SumOf(rows: seq<Evidence>, c: Currency): nat {
    if rows == [] then 0
    else SumOf(rows[..|rows| - 1], c) + if Signed(rows[|rows| - 1], c) then rows[|rows| - 1].amount.value else 0
  }

  /** Each currency at most once, with its sum, and exactly those in which something was signed. */
  predicate AreTotals(totals: seq<Total>, rows: seq<Evidence>) {
    && (forall i, j :: 0 <= i < j < |totals| ==> totals[i].currency != totals[j].currency)
    && (forall i :: 0 <= i < |totals| ==> totals[i].total == SumOf(rows, totals[i].currency) > 0)
    && (forall c: Currency :: SumOf(rows, c) > 0 ==> exists i :: 0 <= i < |totals| && totals[i].currency == c)
  }

  /** addSalesFunnelContract. */
  method AddContract(totals: seq<Total>, e: Evidence, ghost rows: seq<Evidence>) returns (r: seq<Total>)
    requires AreTotals(totals, rows)
    ensures AreTotals(r, rows + [e])
  {
    r := totals;
    assert (rows + [e])[..|rows|] == rows;
    if e.amount.None? || e.amount.value <= 0 || e.currency.None? {
      assert forall c: Currency :: SumOf(rows + [e], c) == SumOf(rows, c);
      return;
    }
    var code := e.currency.value;
    for i := 0 to |totals|
      invariant r == totals
      invariant forall k :: 0 <= k < i ==> totals[k].currency != code
    {
      if totals[i].currency == code {
        r := totals[i := totals[i].(total := totals[i].total + e.amount.value)];
        Added(totals, r, e, rows, code);
        return;
      }
    }
    r := totals + [Total(code, e.amount.value)];
    assert SumOf(rows, code) == 0;
    assert r[|totals|].currency == code;
    Added(totals, r, e, rows, code);
  }

  lemma {:induction false} Added(before: seq<Total>, after: seq<Total>, e: Evidence, rows: seq<Evidence>,
                                 code: Currency)
    requires AreTotals(before, rows) && Signed(e, code) && |before| <= |after| <= |before| + 1
    requires forall i :: 0 <= i < |before| ==> after[i].currency == before[i].currency
    requires forall i :: 0 <= i < |before| && before[i].currency != code ==> after[i] == before[i]
    requires forall i :: 0 <= i < |after| && after[i].currency == code ==>
               after[i].total == SumOf(rows, code) + e.amount.value
    requires |after| > |before| ==> after[|before|].currency == code
                                    && forall i :: 0 <= i < |before| ==> before[i].currency != code
    requires exists i :: 0 <= i < |after| && after[i].currency == code
    ensures AreTotals(after, rows + [e])
  {
    assert (rows + [e])[..|rows|] == rows;
    forall c: Currency ensures SumOf(rows + [e], c) == SumOf(rows, c) + if c == code then e.amount.value else 0 {}
    forall c: Currency | SumOf(rows + [e], c) > 0 ensures exists i :: 0 <= i < |after| && after[i].currency == c {
      if c != code {
        var i :| 0 <= i < |before| && before[i].currency == c;
        assert after[i].currency == c;
      }
    }
  }

  // ---- the report ----------------------------------------------------------------------------

  datatype Counts = Counts(leads: nat, calls: nat, reached: nat, notReached: nat, invited: nat, visited: nat,
                           scheduled: nat, completed: nat, calculation: nat)

  function Of(c: Counts, stage: Stage): nat {
    match stage
    case Leads => c.leads
    case Calls => c.calls
    case Reached => c.reached
    case NotReached => c.notReached
    case Invited => c.invited
    case Visited => c.visited
    case Scheduled => c.scheduled
    case Completed => c.completed
    case Calculation => c.calculation
  }

  /** The counters after one more lead. */
  method AddLead(c: Counts, row: Evidence) returns (r: Counts)
    ensures forall stage: Stage :: Of(r, stage) == Of(c, stage) + if In(row, stage) then 1 else 0
  {
    var invited := row.invited || row.visited;
    var scheduled := row.scheduled || row.completed;
    var downstream := invited || scheduled || row.calculation;
    var reached := row.explicitReached || downstream;
    var notReached := !reached && (row.explicitNotReached || row.closedNoContact);
    r := c.(leads := c.leads + 1);
    if reached || notReached {
      r := r.(calls := r.calls + 1);
    }
    if reached {
      r := r.(reached := r.reached + 1);
    }
    if notReached {
      r := r.(notReached := r.notReached + 1);
    }
    if invited {
      r := r.(invited := r.invited + 1);
    }
    if row.visited {
      r := r.(visited := r.visited + 1);
    }
    if scheduled {
      r := r.(scheduled := r.scheduled + 1);
    }
    if row.completed {
      r := r.(completed := r.completed + 1);
    }
    if row.calculation {
      r := r.(calculation := r.calculation + 1);
    }
  }

  /** The percent of every stage, each against its own base. */
  method Percents(c: Counts) returns (p: Counts)
    ensures forall stage: Stage :: Of(p, stage) == Percent(Of(c, stage), Of(c, BaseOf(stage)))
  {
    p := Counts(Percent(c.leads, c.leads), Percent(c.calls, c.leads), Percent(c.reached, c.calls),
                Percent(c.notReached, c.calls), Percent(c.invited, c.reached), Percent(c.visited, c.invited),
                Percent(c.scheduled, c.reached), Percent(c.completed, c.scheduled), Percent(c.calculation, c.reached));
  }

  method Aggregate(rows: seq<Evidence>) returns (counts: Counts, percents: Counts, totals: seq<Total>)
    ensures forall stage: Stage :: Of(counts, stage) == Count(rows, stage)
    ensures forall stage: Stage :: Of(percents, stage) == Percent(Count(rows, stage), Count(rows, BaseOf(stage)))
    ensures AreTotals(totals, rows)
  {
    counts := Counts(0, 0, 0, 0, 0, 0, 0, 0, 0);
    totals := [];
    for i := 0 to |rows|
      invariant forall stage: Stage :: Of(counts, stage) == Count(rows[..i], stage)
      invariant AreTotals(totals, rows[..i])
    {
      forall stage: Stage {
        CountStep(rows, i, stage);
      }
      counts := AddLead(counts, rows[i]);
      totals := AddContract(totals, rows[i], rows[..i]);
      assert rows[..i + 1] == rows[..i] + [rows[i]];
    }
    assert rows[..|rows|] == rows;
    percents := Percents(counts);
  }

  lemma {:induction false} CountStep(rows: seq<Evidence>, i: nat, stage: Stage)
    requires i < |rows|
    ensures Count(rows[..i + 1], stage) == Count(rows[..i], stage) + if In(rows[i], stage) then 1 else 0
  {
    assert rows[..i + 1][..i] == rows[..i];
  }

  /** The funnel narrows: for every list of evidence. */
  lemma {:induction false} FunnelNarrows(rows: seq<Evidence>)
    ensures Count(rows, Reached) + Count(rows, NotReached) == Count(rows, Calls) <= Count(rows, Leads) == |rows|
    ensures Count(rows, Visited) <= Count(rows, Invited) <= Count(rows, Reached)
    ensures Count(rows, Completed) <= Count(rows, Scheduled) <= Count(rows, Reached)
    ensures Count(rows, Calculation) <= Count(rows, Reached)
  {
    if rows != [] {
      FunnelNarrows(rows[..|rows| - 1]);
    }
  }

  /** Every percent of the report is at most 100, and reached and not reached add up to 100, or 101 at a tie. */
  lemma {:induction false} ReportPercents(rows: seq<Evidence>, stage: Stage)
    ensures Percent(Count(rows, stage), Count(rows, BaseOf(stage))) <= 100
    ensures var calls := Count(rows, Calls);
            calls > 0 ==>
              var sum := Percent(Count(rows, Reached), calls) + Percent(Count(rows, NotReached), calls);
              sum == if 2 * (100 * Count(rows, Reached) % calls) == calls then 101 else 100
  {
    FunnelNarrows(rows);
    PercentBounds(Count(rows, stage), Count(rows, BaseOf(stage)));
    if Count(rows, Calls) > 0 {
      PercentsAddUp(Count(rows, Reached), Count(rows, NotReached));
    }
  }

  // ---- the evidence --------------------------------------------------------------------------

  /** Whatever comes after a call proves the call, and a later stage the earlier one of its branch. */
  lemma {:induction false} EvidenceIs(e: Evidence)
    ensures In(e, Leads)
    ensures In(e, Reached) <==> || e.explicitReached || e.invited || e.visited || e.scheduled || e.completed
                                || e.calculation
    ensures In(e, NotReached) <==> !In(e, Reached) && (e.explicitNotReached || e.closedNoContact)
    ensures In(e, Calls) <==> In(e, Reached) || In(e, NotReached)
    ensures In(e, Invited) <==> e.invited || e.visited
    ensures In(e, Visited) <==> e.visited
    ensures In(e, Scheduled) <==> e.scheduled || e.completed
    ensures In(e, Completed) <==> e.completed
    ensures In(e, Calculation) <==> e.calculation
  {
  }

  /** Calls are of all leads, their outcomes of the calls, and every later stage of the one it follows. */
  lemma {:induction false} BasesAre()
    ensures BaseOf(Leads) == BaseOf(Calls) == Leads && BaseOf(Reached) == BaseOf(NotReached) == Calls
    ensures BaseOf(Invited) == BaseOf(Scheduled) == BaseOf(Calculation) == Reached
    ensures BaseOf(Visited) == Invited && BaseOf(Completed) == Scheduled
  {
  }

  /** An amount counts when it is positive and its currency is known. */
  lemma {:induction false} SumIs(rows: seq<Evidence>, e: Evidence, c: Currency)
    ensures SumOf(rows + [e], c)
         == SumOf(rows, c) + if e.currency == Some(c) && e.amount.Some? && e.amount.value > 0 then e.amount.value else 0
  {
    assert (rows + [e])[..|rows|] == rows;
  }
}
