/** The RAM module: the totals of `si_meminfo` converted to KiB, the used amount
    and the used percentage, as one JSON object. */
module KernelRam {
  import opened Common
  import opened KernelCommon

  datatype RamReport = RamReport(total: u64, libre: u64, uso: u64, porcentaje: u64)

  /** ram_show: totals in KiB; `uso = total - libre` with no guard (unsigned,
      so it wraps if free ever exceeded total); the percentage only when the
      total is non-zero. */
  function RamShow(totalram: u64, freeram: u64, memUnit: u64): (r: RamReport)
    ensures r.total == KbFromUnits(totalram, memUnit) && r.libre == KbFromUnits(freeram, memUnit)
    ensures (r.total - r.libre - r.uso) % TWO_64 == 0
    ensures r.total == 0 ==> r.porcentaje == 0
  {
    var total := KbFromUnits(totalram, memUnit);
    var free := KbFromUnits(freeram, memUnit);
    var used := Wrap64(total - free);
    var pct := PercentOf(used, total);
    RamReport(total, free, used, pct)
  }

  /** The members of the printed object, in order. */
  function RamFields(r: RamReport): (fs: seq<JsonField>)
    ensures Keys(fs) == ["total", "libre", "uso", "porcentaje"]
    ensures fs[0].value == r.total && fs[1].value == r.libre && fs[2].value == r.uso && fs[3].value == r.porcentaje
  {
    [JsonField("total", r.total), JsonField("libre", r.libre), JsonField("uso", r.uso), JsonField("porcentaje", r.porcentaje)]
  }

  /** Converting a smaller page count gives a smaller KiB figure, and neither
      overflows. */
  lemma KbOrdered(freeram: u64, totalram: u64, memUnit: u64)
    requires freeram <= totalram && totalram * memUnit < TWO_64
    ensures KbFromUnits(freeram, memUnit) <= KbFromUnits(totalram, memUnit)
    ensures KbFromUnits(totalram, memUnit) * 100 < TWO_64
  {
    MulLe(freeram, totalram, memUnit);
    DivMonotone(freeram * memUnit, totalram * memUnit, 1024);
  }

  /** With free memory at most the total and no overflow: used and free add up to
      the total, and the percentage is the used share of it, at most 100. */
  lemma RamConsistent(totalram: u64, freeram: u64, memUnit: u64)
    requires freeram <= totalram && totalram * memUnit < TWO_64
    ensures var r := RamShow(totalram, freeram, memUnit);
      r.uso + r.libre == r.total &&
      r.porcentaje <= 100 &&
      (r.total > 0 ==> r.porcentaje == r.uso * 100 / r.total)
  {
    KbOrdered(freeram, totalram, memUnit);
    var r := RamShow(totalram, freeram, memUnit);
    assert r.uso == r.total - r.libre;
    PercentOfPart(r.uso, r.total);
  }

  /** One fully used 4 KiB page reads 100%; two 2 KiB units, one of them free, read 50%. */
  lemma RamExample()
    ensures RamShow(1, 0, 4096) == RamReport(4, 0, 4, 100)
    ensures RamShow(2, 1, 2048) == RamReport(4, 2, 2, 50)
  {
    assert Wrap64(4096) == 4096 && Wrap64(400) == 400 && Wrap64(200) == 200;
  }
}
