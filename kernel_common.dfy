/** Arithmetic and output logic shared by the /proc kernel modules: the CPU usage
    computed from two /proc/stat samples, the page and unit conversions, the
    millisecond timestamp and the separator placement of the JSON arrays. All
    quantities are C `unsigned long` / `unsigned long long`, so every sum,
    difference and product wraps modulo 2^64. */
module KernelCommon {
  import opened Common

  // ---------------------------------------------------------------------------
  // CPU usage from /proc/stat
  // ---------------------------------------------------------------------------

  /** The eight counters of the `cpu` line of /proc/stat, in jiffies. */
  datatype CpuFields = CpuFields(
    user: u64, nice: u64, system: u64, idle: u64,
    iowait: u64, irq: u64, softirq: u64, steal: u64)

  /** `idle + iowait`. */
  function TotalIdle(f: CpuFields): u64 {
    Wrap64(f.idle + f.iowait)
  }

  /** The sum of all eight counters. */
  function Total(f: CpuFields): u64 {
    Wrap64(f.user + f.nice + f.system + f.idle + f.iowait + f.irq + f.softirq + f.steal)
  }

  /** `(1000 * (diff_total - diff_idle) / diff_total + 5) / 10`, or 0 when the
      total did not move: the busy share in percent, rounded to nearest. */
  function UsageFromDelta(diffTotal: u64, diffIdle: u64): (r: u64)
    ensures diffTotal == 0 ==> r == 0
  {
    if diffTotal == 0 then 0
    else Wrap64(Wrap64(1000 * Wrap64(diffTotal - diffIdle)) / diffTotal + 5) / 10
  }

  lemma MulLe(a: int, b: int, d: nat)
    requires a <= b
    ensures a * d <= b * d
  {
  }

  /** Integer division brackets the dividend. */
  lemma DivBracket(x: nat, d: nat)
    requires 0 < d
    ensures (x / d) * d <= x < (x / d) * d + d
  {
  }

  lemma DivNonNegative(x: nat, d: nat)
    requires 0 < d
    ensures 0 <= x / d
  {
  }

  /** The rounding of `((1000 * b) / d + 5) / 10` on unbounded naturals: the
      nearest integer to 100*b/d, halves up. */
  lemma RoundHalfUp(b: nat, d: nat)
    requires 0 < d && b <= d
    ensures (1000 * b) / d <= 1000
    ensures var r := ((1000 * b) / d + 5) / 10;
      (2 * r - 1) * d <= 200 * b < (2 * r + 1) * d && r <= 100
  {
    var q := (1000 * b) / d;
    DivBracket(1000 * b, d);
    MulLe(b, d, 1000);
    assert q <= 1000 by {
      if q > 1000 {
        MulLe(1001, q, d);
      }
    }
    var r := (q + 5) / 10;
    assert 10 * r - 5 <= q <= 10 * r + 4;
    MulLe(10 * r - 5, q, d);
    MulLe(q + 1, 10 * r + 5, d);
    ScaleDown(r, d, b);
    assert r <= 100;
  }

  lemma ScaleDown(r: int, d: nat, b: nat)
    requires (10 * r - 5) * d <= 1000 * b < (10 * r + 5) * d
    ensures (2 * r - 1) * d <= 200 * b < (2 * r + 1) * d
  {
    assert (10 * r - 5) * d == 5 * ((2 * r - 1) * d);
    assert (10 * r + 5) * d == 5 * ((2 * r + 1) * d);
  }

  /** Without wrap-around the usage is the busy share 100*busy/total rounded to
      the nearest integer (halves up), and at most 100. */
  lemma UsageRounding(diffTotal: u64, diffIdle: u64)
    requires diffIdle <= diffTotal && 0 < diffTotal && 1000 * diffTotal < TWO_64
    ensures var r := UsageFromDelta(diffTotal, diffIdle);
      var busy := diffTotal - diffIdle;
      (2 * r - 1) * diffTotal <= 200 * busy < (2 * r + 1) * diffTotal && r <= 100
  {
    UsageWithoutWrap(diffTotal, diffIdle);
    RoundHalfUp(diffTotal - diffIdle, diffTotal);
  }

  /** Without wrap-around none of the unsigned operations of the usage formula
      wraps. */
  lemma UsageWithoutWrap(diffTotal: u64, diffIdle: u64)
    requires diffIdle <= diffTotal && 0 < diffTotal && 1000 * diffTotal < TWO_64
    ensures UsageFromDelta(diffTotal, diffIdle) == ((1000 * (diffTotal - diffIdle)) / diffTotal + 5) / 10
  {
    var busy := Wrap64(diffTotal - diffIdle);
    assert busy == diffTotal - diffIdle;
    MulLe(busy, diffTotal, 1000);
    var scaled := Wrap64(1000 * busy);
    assert scaled == 1000 * busy;
    RoundHalfUp(busy, diffTotal);
    var q := scaled / diffTotal;
    DivNonNegative(scaled, diffTotal);
    assert 0 <= q <= 1000;
    var rounded := Wrap64(q + 5);
    assert rounded == q + 5;
    assert UsageFromDelta(diffTotal, diffIdle) == rounded / 10;
  }

  /** A third of the time busy reads 33; two thirds 67; one eighth (12.5) rounds up to 13. */
  lemma UsageExamples()
    ensures UsageFromDelta(3, 2) == 33
    ensures UsageFromDelta(3, 1) == 67
    ensures UsageFromDelta(8, 7) == 13
  {
    assert Wrap64(1000) == 1000 && Wrap64(2000) == 2000 && Wrap64(333 + 5) == 338 && Wrap64(666 + 5) == 671;
    assert Wrap64(125 + 5) == 130;
  }

  /** An idle delta larger than the total delta (counters read out of step)
      wraps the busy count and yields an arbitrary, possibly huge, figure. */
  lemma UsageIdleAheadWraps()
    ensures UsageFromDelta(1, 2) == Wrap64(Wrap64(1000 * (TWO_64 - 1)) + 5) / 10
  {
  }

  /** The counters kept between reads: the idle and total figures of the last
      successful sample (initially 0). */
  class CpuCounters {
    var prevIdle: u64
    var prevTotal: u64

    constructor ()
      ensures prevIdle == 0 && prevTotal == 0
    {
      prevIdle := 0;
      prevTotal := 0;
    }

    /** The block after a successful eight-field parse: the usage against the
        previous sample, then the new sample becomes the previous one. */
    method Advance(f: CpuFields) returns (usage: u64)
      modifies this
      ensures usage == UsageFromDelta(Wrap64(Total(f) - old(prevTotal)), Wrap64(TotalIdle(f) - old(prevIdle)))
      ensures prevIdle == TotalIdle(f) && prevTotal == Total(f)
    {
      var totalIdle: int := TotalIdle(f);
      var total: int := Total(f);
      var diffIdle: int := Wrap64(totalIdle - prevIdle);
      var diffTotal: int := Wrap64(total - prevTotal);
      if diffTotal != 0 {
        var busy: int := Wrap64(diffTotal - diffIdle);
        var q: int := Wrap64(1000 * busy) / diffTotal;
        usage := Wrap64(q + 5) / 10;
      } else {
        usage := 0;
      }
      prevIdle := totalIdle;
      prevTotal := total;
    }
  }

  /** Every counter of `curr` is at least its value in `prev`. */
  predicate CountersAdvanced(prev: CpuFields, curr: CpuFields) {
    prev.user <= curr.user && prev.nice <= curr.nice && prev.system <= curr.system &&
    prev.idle <= curr.idle && prev.iowait <= curr.iowait && prev.irq <= curr.irq &&
    prev.softirq <= curr.softirq && prev.steal <= curr.steal
  }

  /** Two consecutive samples whose counters only grew and whose sums do not
      overflow: the usage is the share of the elapsed jiffies not spent idle or
      waiting for I/O, rounded to the nearest percent. */
  lemma UsageBetweenSamples(prev: CpuFields, curr: CpuFields)
    requires CountersAdvanced(prev, curr)
    requires 1000 * (curr.user + curr.nice + curr.system + curr.idle + curr.iowait + curr.irq + curr.softirq + curr.steal) < TWO_64
    requires Total(prev) < Total(curr)
    ensures var dT := Total(curr) - Total(prev);
      var dI := TotalIdle(curr) - TotalIdle(prev);
      var r := UsageFromDelta(Wrap64(Total(curr) - Total(prev)), Wrap64(TotalIdle(curr) - TotalIdle(prev)));
      0 <= dI <= dT && (2 * r - 1) * dT <= 200 * (dT - dI) < (2 * r + 1) * dT && r <= 100
  {
    SampleDeltas(prev, curr);
    UsageRounding(Total(curr) - Total(prev), TotalIdle(curr) - TotalIdle(prev));
  }

  /** Growing counters without overflow give non-wrapping deltas, the idle one
      bounded by the total one. */
  lemma SampleDeltas(prev: CpuFields, curr: CpuFields)
    requires CountersAdvanced(prev, curr)
    requires 1000 * (curr.user + curr.nice + curr.system + curr.idle + curr.iowait + curr.irq + curr.softirq + curr.steal) < TWO_64
    requires Total(prev) < Total(curr)
    ensures var dT := Total(curr) - Total(prev);
      var dI := TotalIdle(curr) - TotalIdle(prev);
      0 <= dI <= dT && 1000 * dT < TWO_64 &&
      Wrap64(Total(curr) - Total(prev)) == dT && Wrap64(TotalIdle(curr) - TotalIdle(prev)) == dI
  {
    assert Total(curr) == curr.user + curr.nice + curr.system + curr.idle + curr.iowait + curr.irq + curr.softirq + curr.steal;
    assert Total(prev) == prev.user + prev.nice + prev.system + prev.idle + prev.iowait + prev.irq + prev.softirq + prev.steal;
    assert TotalIdle(curr) == curr.idle + curr.iowait;
    assert TotalIdle(prev) == prev.idle + prev.iowait;
  }

  // ---------------------------------------------------------------------------
  // Units and time
  // ---------------------------------------------------------------------------

  /** `part * 100 / whole` on unsigned long, or 0 when the whole is 0. */
  function PercentOf(part: u64, whole: u64): (p: u64)
    ensures whole == 0 ==> p == 0
  {
    if whole > 0 then Wrap64(part * 100) / whole else 0
  }

  /** Division by a positive number preserves order. */
  lemma DivMonotone(a: nat, b: nat, d: nat)
    requires a <= b && 0 < d
    ensures a / d <= b / d
  {
    if a / d > b / d {
      DivBracket(a, d);
      DivBracket(b, d);
      MulLe(b / d + 1, a / d, d);
    }
  }

  /** The share of a part within a whole whose hundredfold does not overflow is
      the exact truncated percentage, at most 100. */
  lemma PercentOfPart(part: u64, whole: u64)
    requires part <= whole && whole * 100 < TWO_64
    ensures whole > 0 ==> PercentOf(part, whole) == part * 100 / whole
    ensures PercentOf(part, whole) <= 100
  {
    if whole > 0 {
      MulLe(part, whole, 100);
      assert Wrap64(part * 100) == part * 100;
      DivMonotone(part * 100, whole * 100, whole);
      assert whole * 100 / whole == 100;
    }
  }

  /** The page size of the targeted kernels. */
  const PageSize: nat := 4096

  /** `count * unit / 1024` on unsigned long: a byte count in KiB. */
  function KbFromUnits(count: u64, unit: u64): (r: u64)
    ensures count * unit < TWO_64 ==> r == count * unit / 1024
  {
    Wrap64(count * unit) / 1024
  }

  /** Without overflow, converting pages to KiB multiplies by four. */
  lemma KbFromPages(pages: u64)
    requires pages * PageSize < TWO_64
    ensures KbFromUnits(pages, PageSize) == 4 * pages
  {
  }

  /** `tv_sec * 1000 + tv_nsec / 1000000` on unsigned long long. */
  function TsMs(sec: i64, nsec: int): (r: u64)
    requires 0 <= nsec < 1000000000
  {
    Wrap64(Wrap64(sec) * 1000 + nsec / 1000000)
  }

  /** For non-negative times within range the timestamp is exact milliseconds
      and never goes backwards while the clock advances. */
  lemma TsMsMonotone(sec: i64, nsec: int, sec': i64, nsec': int)
    requires 0 <= nsec < 1000000000 && 0 <= nsec' < 1000000000
    requires 0 <= sec && 0 <= sec' && sec' * 1000 + 1000 < TWO_64
    requires sec < sec' || (sec == sec' && nsec <= nsec')
    ensures TsMs(sec, nsec) == sec * 1000 + nsec / 1000000
    ensures TsMs(sec, nsec) <= TsMs(sec', nsec')
  {
    assert Wrap64(sec) == sec && Wrap64(sec') == sec';
    assert nsec / 1000000 < 1000 && nsec' / 1000000 < 1000;
    if sec == sec' {
      assert nsec / 1000000 <= nsec' / 1000000;
    }
  }

  // ---------------------------------------------------------------------------
  // JSON output
  // ---------------------------------------------------------------------------

  /** A numeric member of a JSON object, as printed. */
  datatype JsonField = JsonField(key: string, value: int)

  function Keys(fs: seq<JsonField>): (ks: seq<string>)
    ensures |ks| == |fs|
    ensures forall i :: 0 <= i < |fs| ==> ks[i] == fs[i].key
  {
    seq(|fs|, i requires 0 <= i < |fs| => fs[i].key)
  }

  /** An array element as printed, or the separator printed between elements. */
  datatype Chunk<T> = Item(v: T) | Separator

  /** The elements with one separator between consecutive elements and none
      before the first or after the last. */
  function Interleaved<T>(xs: seq<T>): seq<Chunk<T>> {
    if |xs| <= 1 then seq(|xs|, i requires 0 <= i < |xs| => Item(xs[i]))
    else Interleaved(xs[..|xs| - 1]) + [Separator, Item(xs[|xs| - 1])]
  }

  /** Element k sits at position 2k and every odd position is a separator, so
      there are exactly n-1 separators for n elements. */
  lemma {:induction false} InterleavedShape<T>(xs: seq<T>)
    ensures |xs| == 0 ==> Interleaved(xs) == []
    ensures |xs| > 0 ==> |Interleaved(xs)| == 2 * |xs| - 1
    ensures forall k :: 0 <= k < |xs| ==> Interleaved(xs)[2 * k] == Item(xs[k])
    ensures forall k :: 0 <= k < |xs| - 1 ==> Interleaved(xs)[2 * k + 1] == Separator
  {
    if |xs| > 1 {
      var init := xs[..|xs| - 1];
      InterleavedShape(init);
      assert forall k :: 0 <= k < |init| ==> init[k] == xs[k];
    }
  }

  /** The print loop with the `first` flag: a separator before every element
      except the first. */
  method EmitArray<T>(xs: seq<T>) returns (out: seq<Chunk<T>>)
    ensures out == Interleaved(xs)
  {
    out := [];
    var first := true;
    for i := 0 to |xs|
      invariant first <==> i == 0
      invariant out == Interleaved(xs[..i])
    {
      assert xs[..i + 1][..i] == xs[..i];
      if !first {
        out := out + [Separator];
      } else {
        first := false;
      }
      out := out + [Item(xs[i])];
    }
    assert xs[..|xs|] == xs;
  }
}
