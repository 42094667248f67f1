/** The chart's downsampling rule: the schedule is plotted in full when it
    has at most 120 months, and otherwise only every sixth month, starting
    with the first, is plotted. */
module LoanChart {
  import opened LoanTypes
  import opened Amortization

  /** Longest schedule that is plotted month by month. */
  const FullDetailLimit: nat := 120

  /** Stride used for longer schedules. */
  const LongStride: nat := 6

  /** The index stride for a schedule of `length` entries. */
  function Stride(length: nat): (step: nat)
    ensures step == LongStride <==> length > FullDetailLimit
    ensures step == 1 <==> length <= FullDetailLimit
  {
    if length > FullDetailLimit then LongStride else 1
  }

  /** `data.filter((_, index) => index % step === 0)`: the elements whose
      index is a multiple of `step`, in their original order.  Defined from
      the back so that the index of the element under test is `|data| - 1`. */
  function KeepEvery<T>(data: seq<T>, step: nat): seq<T>
    requires step >= 1
    decreases |data|
  {
    if data == [] then []
    else
      var rest := KeepEvery(data[..|data| - 1], step);
      if (|data| - 1) % step == 0 then rest + [data[|data| - 1]] else rest
  }

  /** The indices `0, 1, ..., n - 1`. */
  function Indices(n: nat): (s: seq<nat>)
    ensures |s| == n
    ensures forall i :: 0 <= i < n ==> s[i] == i
  {
    seq(n, i requires 0 <= i < n => i)
  }

  /** The records the chart plots. */
  function SampledData(data: seq<AmortizationPeriod>): seq<AmortizationPeriod>
  {
    KeepEvery(data, Stride(|data|))
  }

  /** The positions in `data` of the records the chart plots. */
  function SampledPositions(length: nat): seq<nat>
  {
    KeepEvery<nat>(Indices(length), Stride(length))
  }

  /** `idx` is a strictly increasing list of positions of `data` and `r`
      holds the elements at those positions. */
  predicate SubsequenceAt<T(==)>(r: seq<T>, data: seq<T>, idx: seq<nat>)
  {
    |idx| == |r| &&
    (forall j :: 0 <= j < |idx| ==> idx[j] < |data| && r[j] == data[idx[j]]) &&
    (forall j, j' :: 0 <= j < j' < |idx| ==> idx[j] < idx[j'])
  }

  /** Months strictly increase along the sequence. */
  predicate MonthsIncreasing(s: seq<AmortizationPeriod>)
  {
    forall j, j' :: 0 <= j < j' < |s| ==> s[j].month < s[j'].month
  }

  // ---------------------------------------------------------------------------
  // The filter for any stride
  // ---------------------------------------------------------------------------

  /** Filtering the elements and filtering their positions go hand in hand:
      element `j` of the output is the element of `data` at the `j`-th kept
      position. */
  lemma {:induction false} KeepEveryPositions<T>(data: seq<T>, step: nat)
    requires step >= 1
    ensures |KeepEvery(data, step)| == |KeepEvery<nat>(Indices(|data|), step)|
    ensures forall j :: 0 <= j < |KeepEvery(data, step)| ==>
      KeepEvery<nat>(Indices(|data|), step)[j] < |data| &&
      KeepEvery(data, step)[j] == data[KeepEvery<nat>(Indices(|data|), step)[j]]
    decreases |data|
  {
    if data != [] {
      var n := |data|;
      var init := data[..n - 1];
      KeepEveryPositions(init, step);
      var r0, idx0 := KeepEvery(init, step), KeepEvery<nat>(Indices(n - 1), step);
      assert Indices(n)[..n - 1] == Indices(n - 1);
      var r, idx := KeepEvery(data, step), KeepEvery<nat>(Indices(n), step);
      if (n - 1) % step == 0 {
        assert r == r0 + [data[n - 1]];
        assert idx == idx0 + [n - 1];
      } else {
        assert r == r0 && idx == idx0;
      }
    }
  }

  /** The kept positions are exactly the multiples of `step` below `n`, in
      strictly increasing order. */
  lemma {:induction false} KeptPositions(n: nat, step: nat)
    requires step >= 1
    ensures forall j :: 0 <= j < |KeepEvery<nat>(Indices(n), step)| ==>
      KeepEvery<nat>(Indices(n), step)[j] < n && KeepEvery<nat>(Indices(n), step)[j] % step == 0
    ensures forall j, j' :: 0 <= j < j' < |KeepEvery<nat>(Indices(n), step)| ==>
      KeepEvery<nat>(Indices(n), step)[j] < KeepEvery<nat>(Indices(n), step)[j']
    ensures forall i :: 0 <= i < n && i % step == 0 ==> i in KeepEvery<nat>(Indices(n), step)
    decreases n
  {
    if n > 0 {
      KeptPositions(n - 1, step);
      var idx0 := KeepEvery<nat>(Indices(n - 1), step);
      assert Indices(n)[..n - 1] == Indices(n - 1);
      var idx := KeepEvery<nat>(Indices(n), step);
      if (n - 1) % step == 0 {
        assert idx == idx0 + [n - 1];
      } else {
        assert idx == idx0;
      }
    }
  }

  /** With stride 1 every element is kept. */
  lemma {:induction false} KeepEveryOne<T>(data: seq<T>)
    ensures KeepEvery(data, 1) == data
    decreases |data|
  {
    if data != [] {
      KeepEveryOne(data[..|data| - 1]);
    }
  }

  /** With stride 6 the kept positions are `0, 6, 12, ...`, one for every
      started block of six. */
  lemma {:induction false} SixthPositions(n: nat)
    ensures |KeepEvery<nat>(Indices(n), LongStride)| == (n + 5) / 6
    ensures forall j :: 0 <= j < |KeepEvery<nat>(Indices(n), LongStride)| ==>
      KeepEvery<nat>(Indices(n), LongStride)[j] == 6 * j
    decreases n
  {
    if n > 0 {
      assert Indices(n)[..n - 1] == Indices(n - 1);
      SixthPositions(n - 1);
    }
  }

  // ---------------------------------------------------------------------------
  // The chart's rule
  // ---------------------------------------------------------------------------

  /** A schedule of at most 120 months is plotted unchanged. */
  lemma ShortScheduleUnchanged(data: seq<AmortizationPeriod>)
    requires |data| <= FullDetailLimit
    ensures SampledData(data) == data
  {
    KeepEveryOne(data);
  }

  /** A longer schedule is plotted as the records at positions `0, 6, 12,
      ...`, in their original order, one for every started block of six. */
  lemma LongScheduleSampled(data: seq<AmortizationPeriod>)
    requires |data| > FullDetailLimit
    ensures var r := SampledData(data);
      |r| == (|data| + 5) / 6 &&
      forall j :: 0 <= j < |r| ==> r[j] == data[6 * j]
  {
    KeepEveryPositions(data, LongStride);
    SixthPositions(|data|);
  }

  /** The number of plotted records. */
  lemma SampledLength(data: seq<AmortizationPeriod>)
    ensures |SampledData(data)| ==
      if |data| <= FullDetailLimit then |data| else (|data| + 5) / 6
  {
    if |data| <= FullDetailLimit {
      ShortScheduleUnchanged(data);
    } else {
      LongScheduleSampled(data);
    }
  }

  /** The plotted records are an order-preserving subsequence of the
      schedule, taken at exactly the positions that are multiples of the
      stride. */
  lemma SampledIsSubsequence(data: seq<AmortizationPeriod>)
    ensures SubsequenceAt(SampledData(data), data, SampledPositions(|data|))
    ensures forall i :: 0 <= i < |data| && i % Stride(|data|) == 0 ==>
      i in SampledPositions(|data|)
    ensures forall i :: i in SampledPositions(|data|) ==>
      i < |data| && i % Stride(|data|) == 0
  {
    KeepEveryPositions(data, Stride(|data|));
    KeptPositions(|data|, Stride(|data|));
  }

  /** A non-empty schedule always keeps its first record. */
  lemma FirstRecordKept(data: seq<AmortizationPeriod>)
    requires |data| > 0
    ensures |SampledData(data)| > 0 && SampledData(data)[0] == data[0]
  {
    SampledLength(data);
    if |data| <= FullDetailLimit {
      ShortScheduleUnchanged(data);
    } else {
      LongScheduleSampled(data);
    }
  }

  /** Sampling keeps the months strictly increasing. */
  lemma SampledMonthsIncreasing(data: seq<AmortizationPeriod>)
    requires MonthsIncreasing(data)
    ensures MonthsIncreasing(SampledData(data))
  {
    SampledIsSubsequence(data);
  }

  /** When record `k` is month `k + 1`, the plotted months are `1, 1 + s,
      1 + 2s, ...` for the stride `s`. */
  lemma SampledMonths(data: seq<AmortizationPeriod>)
    requires forall k :: 0 <= k < |data| ==> data[k].month == k + 1
    ensures var r := SampledData(data);
      forall j :: 0 <= j < |r| ==> r[j].month == Stride(|data|) * j + 1
  {
    if |data| <= FullDetailLimit {
      ShortScheduleUnchanged(data);
    } else {
      LongScheduleSampled(data);
    }
  }

  /** On a computed schedule the plotted months are `1, 1 + s, 1 + 2s, ...`
      for the stride `s`, and they strictly increase. */
  lemma SampledScheduleMonths(details: LoanDetails)
    requires ValidTerms(details)
    ensures var s := Calculate(details).schedule;
      var r := SampledData(s);
      MonthsIncreasing(r) &&
      forall j :: 0 <= j < |r| ==> r[j].month == Stride(|s|) * j + 1
  {
    var rate := MonthlyRate(details.interestRate);
    var n := NumberOfPayments(details.termYears);
    var s := Schedule(details.principal, rate, MonthlyPayment(details.principal, rate, n), n);
    assert Calculate(details).schedule == s;
    ScheduleMonthsNumbered(details.principal, rate, MonthlyPayment(details.principal, rate, n), n);
    assert MonthsIncreasing(s);
    SampledMonthsIncreasing(s);
    SampledMonths(s);
  }
}
