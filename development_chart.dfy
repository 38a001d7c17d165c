/** The growth chart: which measurements it plots and in what order, the baby's
    series for the selected quantity, and the percentile reference lines. */
module DevelopmentChart {

  import opened Common
  import opened Sorting

  /** A measurement. `measuredAt` is the timestamp `data_medicao` parses to;
      the three quantities are optional columns. */
  datatype Measurement = Measurement(
    id: string,
    measuredAt: int,
    ageMonths: real,
    weightKg: Option<real>,
    lengthCm: Option<real>,
    bmi: Option<real>,
    notes: Option<string>)

  /** The chart's `type` property. */
  datatype Quantity = Weight | Length | Bmi

  const WhoReference := "Dados de referência - OMS"
  const WhoDefault := "Dados padrão baseados em padrões médicos da OMS"

  /** Rows seeded as reference data carry one of two fixed notes; everything else was measured. */
  predicate IsMeasured(m: Measurement)
  {
    m.notes != Some(WhoReference) && m.notes != Some(WhoDefault)
  }

  /** Code-point order on strings, standing for `localeCompare`: `a` comes
      no later than `b`. */
  predicate LexLe(a: string, b: string)
  {
    a == [] || (b != [] && (a[0] < b[0] || (a[0] == b[0] && LexLe(a[1..], b[1..]))))
  }

  lemma {:induction false} LexTotal(a: string, b: string)
    ensures LexLe(a, b) || LexLe(b, a)
  {
    if a != [] && b != [] && a[0] == b[0] {
      LexTotal(a[1..], b[1..]);
    }
  }

  lemma {:induction false} LexTransitive(a: string, b: string, c: string)
    requires LexLe(a, b) && LexLe(b, c)
    ensures LexLe(a, c)
  {
    if a != [] && b != [] && c != [] && a[0] == b[0] && b[0] == c[0] {
      LexTransitive(a[1..], b[1..], c[1..]);
    }
  }

  /** Only equal strings compare both ways, so distinct ids are never tied. */
  lemma {:induction false} LexAntisymmetric(a: string, b: string)
    requires LexLe(a, b) && LexLe(b, a)
    ensures a == b
  {
    if a != [] && b != [] {
      LexAntisymmetric(a[1..], b[1..]);
      assert a == [a[0]] + a[1..] && b == [b[0]] + b[1..];
    }
  }

  /** The comparator of `realData`: later measurements first, then ids in ascending order. */
  predicate ShownBefore(a: Measurement, b: Measurement)
  {
    a.measuredAt > b.measuredAt || (a.measuredAt == b.measuredAt && LexLe(a.id, b.id))
  }

  lemma ShownBeforeIsPreorder()
    ensures TotalPreorder(ShownBefore)
  {
    forall a: Measurement, b: Measurement ensures ShownBefore(a, b) || ShownBefore(b, a) {
      LexTotal(a.id, b.id);
    }
    forall a: Measurement, b: Measurement, c: Measurement | ShownBefore(a, b) && ShownBefore(b, c)
      ensures ShownBefore(a, c)
    {
      if a.measuredAt == b.measuredAt == c.measuredAt {
        LexTransitive(a.id, b.id, c.id);
      }
    }
  }

  /** `realData`: the measured items, most recent first, ties broken by id. */
  function RealData(data: seq<Measurement>): (r: seq<Measurement>)
    ensures multiset(r) == multiset(Filter(data, IsMeasured))
    ensures forall m :: m in r <==> m in data && IsMeasured(m)
    ensures forall i, j :: 0 <= i < j < |r| ==>
              r[i].measuredAt > r[j].measuredAt || (r[i].measuredAt == r[j].measuredAt && LexLe(r[i].id, r[j].id))
  {
    var kept := Filter(data, IsMeasured);
    ShownBeforeIsPreorder();
    SortBySorted(kept, ShownBefore);
    var r := SortBy(kept, ShownBefore);
    assert forall m :: m in r <==> m in kept by {
      forall m ensures m in r <==> m in kept {
        assert m in r <==> m in multiset(r);
        assert m in kept <==> m in multiset(kept);
      }
    }
    r
  }

  /** Measurements with distinct ids that share a timestamp appear in ascending id order. */
  lemma SameDateOrderedById(data: seq<Measurement>, i: int, j: int)
    requires 0 <= i < j < |RealData(data)|
    requires RealData(data)[i].measuredAt == RealData(data)[j].measuredAt
    requires RealData(data)[i].id != RealData(data)[j].id
    ensures !LexLe(RealData(data)[j].id, RealData(data)[i].id)
  {
    var r := RealData(data);
    if LexLe(r[j].id, r[i].id) {
      LexAntisymmetric(r[i].id, r[j].id);
    }
  }

  /** The column the selected quantity reads. */
  function ValueOf(m: Measurement, q: Quantity): Option<real>
  {
    match q
    case Weight => m.weightKg
    case Length => m.lengthCm
    case Bmi => m.bmi
  }

  /** A chart point; `y` is absent when the measurement lacks the quantity. */
  datatype Point = Point(x: real, y: Option<real>)

  /** `realData.map(item => ({ x: item.idade_meses, y: ... }))`. */
  function Plot(ms: seq<Measurement>, q: Quantity): (r: seq<Point>)
    ensures |r| == |ms|
    ensures forall i :: 0 <= i < |ms| ==> r[i].x == ms[i].ageMonths && r[i].y == ValueOf(ms[i], q)
  {
    if ms == [] then [] else [Point(ms[0].ageMonths, ValueOf(ms[0], q))] + Plot(ms[1..], q)
  }

  predicate HasY(p: Point) { p.y.Some? }

  /** The baby's series: the plotted points, without those whose `y` is missing. */
  function BabySeries(realData: seq<Measurement>, q: Quantity): (r: seq<Point>)
    ensures |r| <= |realData|
    ensures forall i :: 0 <= i < |r| ==> r[i].y.Some?
  {
    Filter(Plot(realData, q), HasY)
  }

  /** Dropping the empty points afterwards is plotting only the measurements
      that have the quantity: the series holds one point per such measurement, in order. */
  lemma {:induction false} SeriesPlotsMeasuredOnly(ms: seq<Measurement>, q: Quantity)
    ensures BabySeries(ms, q) == Plot(Filter(ms, (m: Measurement) => ValueOf(m, q).Some?), q)
  {
    if ms != [] {
      SeriesPlotsMeasuredOnly(ms[1..], q);
      assert Plot(ms, q) == [Point(ms[0].ageMonths, ValueOf(ms[0], q))] + Plot(ms[1..], q);
      var has := (m: Measurement) => ValueOf(m, q).Some?;
      assert Filter(ms, has) == (if has(ms[0]) then [ms[0]] else []) + Filter(ms[1..], has);
      if has(ms[0]) {
        assert Plot(Filter(ms, has), q) == [Point(ms[0].ageMonths, ValueOf(ms[0], q))] + Plot(Filter(ms[1..], has), q);
      }
    }
  }

  /** A row of the reference table: the percentile values at one age. */
  datatype ReferenceRow = ReferenceRow(
    ageMonths: real, p3: real, p10: real, p25: real, p50: real, p75: real, p90: real, p97: real)

  datatype Percentile = P3 | P10 | P25 | P50 | P75 | P90 | P97

  function Rank(p: Percentile): nat
  {
    match p
    case P3 => 3
    case P10 => 10
    case P25 => 25
    case P50 => 50
    case P75 => 75
    case P90 => 90
    case P97 => 97
  }

  function PercentileValue(row: ReferenceRow, p: Percentile): real
  {
    match p
    case P3 => row.p3
    case P10 => row.p10
    case P25 => row.p25
    case P50 => row.p50
    case P75 => row.p75
    case P90 => row.p90
    case P97 => row.p97
  }

  /** `getReferenceLabels`: the caption of each reference line the quantity draws. */
  function ReferenceLabels(q: Quantity): (labels: map<Percentile, string>)
    ensures q == Bmi ==> labels.Keys == {P97, P90, P75, P50, P25, P10, P3}
    ensures q != Bmi ==> labels.Keys == {P97, P90, P50, P10, P3}
    ensures forall p :: p in labels ==> labels[p] != ""
  {
    match q
    case Weight =>
      map[P97 := "Peso elevado para a idade", P90 := "Peso adequado para a idade",
          P50 := "Peso adequado para a idade", P10 := "Baixo peso para a idade",
          P3 := "Muito baixo peso para a idade"]
    case Length =>
      map[P97 := "Comprimento adequado", P90 := "Comprimento adequado",
          P50 := "Comprimento adequado", P10 := "Baixo comprimento",
          P3 := "Muito baixo comprimento"]
    case Bmi =>
      map[P97 := "Obesidade", P90 := "Sobrepeso", P75 := "Risco de sobrepeso",
          P50 := "Eutrofia (normal)", P25 := "Eutrofia (normal)", P10 := "Magreza",
          P3 := "Magreza acentuada"]
  }

  /** `labels.percentil_N || fallback`. */
  function LabelOr(labels: map<Percentile, string>, p: Percentile, fallback: string): string
  {
    if p in labels && labels[p] != "" then labels[p] else fallback
  }

  datatype XY = XY(x: real, y: real)

  /** One reference line: a point per reference row at that row's age. */
  datatype Dataset = Dataset(caption: string, percentile: Percentile, data: seq<XY>)

  function Line(reference: seq<ReferenceRow>, p: Percentile): (r: seq<XY>)
    ensures |r| == |reference|
    ensures forall j :: 0 <= j < |reference| ==> r[j] == XY(reference[j].ageMonths, PercentileValue(reference[j], p))
  {
    seq(|reference|, j requires 0 <= j < |reference| => XY(reference[j].ageMonths, PercentileValue(reference[j], p)))
  }

  /** The percentiles the quantity draws lines for, highest first. */
  function Drawn(q: Quantity): seq<Percentile>
  {
    if q == Bmi then [P97, P90, P75, P50, P25, P10, P3] else [P97, P90, P50, P10, P3]
  }

  /** The drawn percentiles are exactly the labelled ones, in strictly descending order. */
  lemma DrawnFacts(q: Quantity)
    ensures forall i, j :: 0 <= i < j < |Drawn(q)| ==> Rank(Drawn(q)[i]) > Rank(Drawn(q)[j])
    ensures forall p :: p in ReferenceLabels(q) <==> p in Drawn(q)
  {
  }

  /** `{ label: labels.percentil_N || fallback, data: referenceData.map(...) }`. */
  function ReferenceDataset(labels: map<Percentile, string>, p: Percentile, fallback: string,
                            reference: seq<ReferenceRow>): (d: Dataset)
    ensures d.percentile == p && d.data == Line(reference, p)
    ensures p in labels && labels[p] != "" ==> d.caption == labels[p]
    ensures p !in labels || labels[p] == "" ==> d.caption == fallback
  {
    Dataset(LabelOr(labels, p, fallback), p, Line(reference, p))
  }

  /** The captions `createReferenceDatasets` falls back on, in the order of `Drawn`. */
  function Fallbacks(q: Quantity): seq<string>
  {
    if q == Bmi then
      ["Obesidade", "Sobrepeso", "Risco de sobrepeso", "Eutrofia (normal)", "Eutrofia (normal)",
       "Magreza", "Magreza acentuada"]
    else ["Elevado", "Adequado", "Mediana", "Baixo", "Muito baixo"]
  }

  /** What the reference lines promise: every labelled percentile drawn, and
      nothing else, highest first, each captioned from the label map with
      one point per reference row. */
  ghost predicate DrawsReferenceLines(q: Quantity, reference: seq<ReferenceRow>, datasets: seq<Dataset>)
  {
    && (forall p :: p in ReferenceLabels(q) <==> exists i :: 0 <= i < |datasets| && datasets[i].percentile == p)
    && (forall i, j :: 0 <= i < j < |datasets| ==> Rank(datasets[i].percentile) > Rank(datasets[j].percentile))
    && (forall i :: 0 <= i < |datasets| ==>
          && datasets[i].percentile in ReferenceLabels(q)
          && datasets[i].caption == ReferenceLabels(q)[datasets[i].percentile]
          && datasets[i].data == Line(reference, datasets[i].percentile))
  }

  /** Lines in the order of `Drawn` cover exactly the labelled percentiles. */
  lemma DrawnCover(q: Quantity, datasets: seq<Dataset>)
    requires |datasets| == |Drawn(q)|
    requires forall i :: 0 <= i < |datasets| ==> datasets[i].percentile == Drawn(q)[i]
    ensures forall p :: p in ReferenceLabels(q) <==> exists i :: 0 <= i < |datasets| && datasets[i].percentile == p
  {
    DrawnFacts(q);
    var d := Drawn(q);
    forall p | p in ReferenceLabels(q) ensures exists i :: 0 <= i < |datasets| && datasets[i].percentile == p {
      assert p in d;
      var i :| 0 <= i < |d| && d[i] == p;
      assert datasets[i].percentile == p;
    }
    forall i | 0 <= i < |datasets| ensures datasets[i].percentile in ReferenceLabels(q) {
      assert d[i] in d;
    }
  }

  /** Lines drawn in the order of `Drawn` with the fallbacks of `Fallbacks` have the promised shape. */
  lemma DrawnLines(q: Quantity, reference: seq<ReferenceRow>, datasets: seq<Dataset>)
    requires |datasets| == |Drawn(q)| == |Fallbacks(q)|
    requires forall i :: 0 <= i < |datasets| ==>
               datasets[i] == ReferenceDataset(ReferenceLabels(q), Drawn(q)[i], Fallbacks(q)[i], reference)
    ensures DrawsReferenceLines(q, reference, datasets)
  {
    var d := Drawn(q);
    var labels := ReferenceLabels(q);
    assert forall i :: 0 <= i < |datasets| ==> datasets[i].percentile == d[i];
    DrawnCover(q, datasets);
    DrawnFacts(q);
    forall i | 0 <= i < |datasets|
      ensures d[i] in labels && datasets[i].caption == labels[d[i]]
    {
      assert d[i] in d;
    }
  }

  /** The seven lines pushed for the body-mass index, highest percentile first. */
  function BmiLines(labels: map<Percentile, string>, reference: seq<ReferenceRow>): (r: seq<Dataset>)
    ensures |r| == |Drawn(Bmi)| == |Fallbacks(Bmi)|
    ensures forall i :: 0 <= i < |r| ==> r[i] == ReferenceDataset(labels, Drawn(Bmi)[i], Fallbacks(Bmi)[i], reference)
  {
    [ ReferenceDataset(labels, P97, "Obesidade", reference),
      ReferenceDataset(labels, P90, "Sobrepeso", reference),
      ReferenceDataset(labels, P75, "Risco de sobrepeso", reference),
      ReferenceDataset(labels, P50, "Eutrofia (normal)", reference),
      ReferenceDataset(labels, P25, "Eutrofia (normal)", reference),
      ReferenceDataset(labels, P10, "Magreza", reference),
      ReferenceDataset(labels, P3, "Magreza acentuada", reference) ]
  }

  /** The five lines pushed for weight and for length, highest percentile first. */
  function GrowthLines(q: Quantity, labels: map<Percentile, string>, reference: seq<ReferenceRow>): (r: seq<Dataset>)
    requires q != Bmi
    ensures |r| == |Drawn(q)| == |Fallbacks(q)|
    ensures forall i :: 0 <= i < |r| ==> r[i] == ReferenceDataset(labels, Drawn(q)[i], Fallbacks(q)[i], reference)
  {
    [ ReferenceDataset(labels, P97, "Elevado", reference),
      ReferenceDataset(labels, P90, "Adequado", reference),
      ReferenceDataset(labels, P50, "Mediana", reference),
      ReferenceDataset(labels, P10, "Baixo", reference),
      ReferenceDataset(labels, P3, "Muito baixo", reference) ]
  }

  /** `createReferenceDatasets`: nothing without reference rows; otherwise one
      line per labelled percentile, highest first, each captioned from the
      label map and holding one point per reference row. */
  method CreateReferenceDatasets(q: Quantity, reference: seq<ReferenceRow>) returns (datasets: seq<Dataset>)
    ensures reference == [] ==> datasets == []
    ensures reference != [] ==> |datasets| == (if q == Bmi then 7 else 5) && DrawsReferenceLines(q, reference, datasets)
  {
    var labels := ReferenceLabels(q);
    datasets := [];
    if q == Bmi {
      if |reference| > 0 {
        datasets := datasets + BmiLines(labels, reference);
        DrawnLines(q, reference, datasets);
      }
    } else {
      if |reference| > 0 {
        datasets := datasets + GrowthLines(q, labels, reference);
        DrawnLines(q, reference, datasets);
      }
    }
  }
}
