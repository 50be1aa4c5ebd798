/** The mood/performance scatter chart: a fixed sample of (mood, performance) points per
    subject, a subject selector whose value "all" shows one coloured series per subject
    and any other value shows the points of that subject alone. */
module Correlation {
  import opened Options

  datatype Point = Point(mood: int, performance: int, subject: string, size: int)

  const MathRows: seq<Point> := [
    Point(1, 50, "Math", 20), Point(2, 60, "Math", 20), Point(3, 70, "Math", 20),
    Point(4, 85, "Math", 20), Point(5, 95, "Math", 20)
  ]
  const ScienceRows: seq<Point> := [
    Point(1, 55, "Science", 20), Point(2, 65, "Science", 20), Point(3, 75, "Science", 20),
    Point(4, 80, "Science", 20), Point(5, 90, "Science", 20)
  ]
  const EnglishRows: seq<Point> := [
    Point(1, 60, "English", 20), Point(2, 70, "English", 20), Point(3, 80, "English", 20),
    Point(4, 85, "English", 20), Point(5, 95, "English", 20)
  ]
  const HistoryRows: seq<Point> := [
    Point(1, 45, "History", 20), Point(2, 55, "History", 20), Point(3, 65, "History", 20),
    Point(4, 75, "History", 20), Point(5, 85, "History", 20)
  ]

  /** The sample data set, in the order it is written. */
  const MoodPerformanceData: seq<Point> := MathRows + ScienceRows + EnglishRows + HistoryRows

  /** The selector value that shows every subject. */
  const AllSubjects: string := "all"

  /** The points of one subject, in their original order. */
  function FilterBySubject(data: seq<Point>, subject: string): (r: seq<Point>)
    ensures |r| <= |data|
    ensures forall i :: 0 <= i < |r| ==> r[i].subject == subject
  {
    if data == [] then []
    else (if data[0].subject == subject then [data[0]] else []) + FilterBySubject(data[1..], subject)
  }

  /** The filter keeps each point of the subject as often as it occurs, and no other. */
  lemma {:induction false} FilterCounts(data: seq<Point>, subject: string)
    ensures forall p: Point :: multiset(FilterBySubject(data, subject))[p] ==
                               if p.subject == subject then multiset(data)[p] else 0
  {
    if data != [] {
      assert data == [data[0]] + data[1..];
      FilterCounts(data[1..], subject);
    }
  }

  /** Filtering a concatenation filters each part and keeps the parts in order, so the
      filter keeps the original order of the points it retains. */
  lemma {:induction false} FilterConcat(a: seq<Point>, b: seq<Point>, subject: string)
    ensures FilterBySubject(a + b, subject) == FilterBySubject(a, subject) + FilterBySubject(b, subject)
  {
    if a == [] {
      assert a + b == b;
    } else {
      assert (a + b)[1..] == a[1..] + b;
      FilterConcat(a[1..], b, subject);
    }
  }

  /** Points that all have the subject pass through unchanged. */
  lemma {:induction false} FilterKeepsAll(data: seq<Point>, subject: string)
    requires forall i :: 0 <= i < |data| ==> data[i].subject == subject
    ensures FilterBySubject(data, subject) == data
  {
    if data != [] {
      FilterKeepsAll(data[1..], subject);
    }
  }

  /** Points none of which has the subject are all dropped. */
  lemma {:induction false} FilterDropsAll(data: seq<Point>, subject: string)
    requires forall i :: 0 <= i < |data| ==> data[i].subject != subject
    ensures FilterBySubject(data, subject) == []
  {
    if data != [] {
      FilterDropsAll(data[1..], subject);
    }
  }

  /** Every row has subject `k`. */
  predicate AllOf(rows: seq<Point>, k: string) {
    forall i :: 0 <= i < |rows| ==> rows[i].subject == k
  }

  /** Filtering four consecutive blocks of rows of which exactly one block is the subject's
      yields that block. */
  lemma FilterPicksBlock(a: seq<Point>, b: seq<Point>, c: seq<Point>, d: seq<Point>,
                         ka: string, kb: string, kc: string, kd: string, k: string)
    requires AllOf(a, ka) && AllOf(b, kb) && AllOf(c, kc) && AllOf(d, kd)
    requires k == ka || k == kb || k == kc || k == kd
    requires ka != kb && ka != kc && ka != kd && kb != kc && kb != kd && kc != kd
    ensures FilterBySubject(a + b + c + d, k) ==
      if k == ka then a else if k == kb then b else if k == kc then c else d
  {
    FilterConcat(a + b + c, d, k);
    FilterConcat(a + b, c, k);
    FilterConcat(a, b, k);
    var fa, fb, fc, fd := FilterBySubject(a, k), FilterBySubject(b, k), FilterBySubject(c, k), FilterBySubject(d, k);
    assert FilterBySubject(a + b + c + d, k) == fa + fb + fc + fd;
    if k == ka {
      FilterKeepsAll(a, k); FilterDropsAll(b, k); FilterDropsAll(c, k); FilterDropsAll(d, k);
    } else if k == kb {
      FilterDropsAll(a, k); FilterKeepsAll(b, k); FilterDropsAll(c, k); FilterDropsAll(d, k);
    } else if k == kc {
      FilterDropsAll(a, k); FilterDropsAll(b, k); FilterKeepsAll(c, k); FilterDropsAll(d, k);
    } else {
      FilterDropsAll(a, k); FilterDropsAll(b, k); FilterDropsAll(c, k); FilterKeepsAll(d, k);
    }
  }

  /** `filteredData`: the whole data set for "all", otherwise the selected subject's points. */
  function FilteredData(data: seq<Point>, selected: string): (r: seq<Point>)
    ensures selected == AllSubjects ==> r == data
    ensures selected != AllSubjects ==>
      (forall i :: 0 <= i < |r| ==> r[i].subject == selected) &&
      (forall p: Point :: p.subject == selected ==> multiset(r)[p] == multiset(data)[p])
  {
    if selected == AllSubjects then data
    else
      FilterCounts(data, selected);
      FilterBySubject(data, selected)
  }

  /** `subjectColors`, with its keys in insertion order. */
  const SubjectColors: seq<(string, string)> := [
    ("Math", "#007AFF"), ("Science", "#34C759"), ("English", "#AF52DE"), ("History", "#FF9500")
  ]

  const FallbackColor: string := "#007AFF"

  function Keys(table: seq<(string, string)>): seq<string> {
    seq(|table|, i requires 0 <= i < |table| => table[i].0)
  }

  predicate Distinct(ks: seq<string>) {
    forall i, j :: 0 <= i < j < |ks| ==> ks[i] != ks[j]
  }

  /** The colour a table gives a key, if it has the key. */
  function Lookup(table: seq<(string, string)>, key: string): (r: Option<string>)
    ensures r.Some? <==> key in Keys(table)
    ensures r.Some? ==> (key, r.value) in table
  {
    if table == [] then None
    else
      assert Keys(table) == [table[0].0] + Keys(table[1..]);
      if table[0].0 == key then Some(table[0].1) else Lookup(table[1..], key)
  }

  /** The fill of the single series shown for a selected subject. */
  function SeriesColor(subject: string): (c: string)
    ensures subject !in Keys(SubjectColors) ==> c == FallbackColor
    ensures subject in Keys(SubjectColors) ==> (subject, c) in SubjectColors
  {
    match Lookup(SubjectColors, subject)
    case None => FallbackColor
    case Some(c) => c
  }

  datatype Series = Series(name: string, data: seq<Point>, fill: string)

  /** One series per key of the colour table, in key order. */
  function PerSubjectSeries(data: seq<Point>, table: seq<(string, string)>): (r: seq<Series>)
    ensures |r| == |table|
    ensures forall i :: 0 <= i < |r| ==>
      r[i].name == table[i].0 && r[i].fill == table[i].1 &&
      r[i].data == FilterBySubject(data, table[i].0)
  {
    if table == [] then []
    else [Series(table[0].0, FilterBySubject(data, table[0].0), table[0].1)] + PerSubjectSeries(data, table[1..])
  }

  /** The series the chart draws for a selector value. */
  function ChartSeries(selected: string): seq<Series> {
    if selected == AllSubjects then PerSubjectSeries(MoodPerformanceData, SubjectColors)
    else [Series(selected, FilteredData(MoodPerformanceData, selected), SeriesColor(selected))]
  }

  /** All points drawn by a list of series. */
  function SeriesData(ss: seq<Series>): seq<Point> {
    if ss == [] then [] else ss[0].data + SeriesData(ss[1..])
  }

  /** With distinct keys, the per-subject series together hold each point of a subject the
      table knows exactly as often as the data does, and no other point. */
  lemma {:induction false} PerSubjectSeriesCounts(data: seq<Point>, table: seq<(string, string)>, p: Point)
    requires Distinct(Keys(table))
    ensures multiset(SeriesData(PerSubjectSeries(data, table)))[p] ==
      if p.subject in Keys(table) then multiset(data)[p] else 0
  {
    if table != [] {
      var ks := Keys(table);
      assert ks == [table[0].0] + Keys(table[1..]);
      assert Distinct(Keys(table[1..])) by {
        forall i, j | 0 <= i < j < |Keys(table[1..])|
          ensures Keys(table[1..])[i] != Keys(table[1..])[j]
        {
          assert Keys(table[1..])[i] == ks[i + 1] && Keys(table[1..])[j] == ks[j + 1];
        }
      }
      assert table[0].0 !in Keys(table[1..]) by {
        forall i | 0 <= i < |Keys(table[1..])| ensures Keys(table[1..])[i] != table[0].0 {
          assert Keys(table[1..])[i] == ks[i + 1] && ks[0] == table[0].0;
        }
      }
      FilterCounts(data, table[0].0);
      PerSubjectSeriesCounts(data, table[1..], p);
    }
  }

  /** In a table with distinct keys, each key finds its own colour. */
  lemma {:induction false} LookupDistinct(table: seq<(string, string)>, i: nat)
    requires i < |table| && Distinct(Keys(table))
    ensures Lookup(table, table[i].0) == Some(table[i].1)
  {
    if i > 0 {
      assert Keys(table)[0] == table[0].0 && Keys(table)[i] == table[i].0;
      assert Distinct(Keys(table[1..])) by {
        forall a, b | 0 <= a < b < |Keys(table[1..])|
          ensures Keys(table[1..])[a] != Keys(table[1..])[b]
        {
          assert Keys(table[1..])[a] == Keys(table)[a + 1] && Keys(table[1..])[b] == Keys(table)[b + 1];
        }
      }
      LookupDistinct(table[1..], i - 1);
    }
  }

  lemma SubjectColorKeys()
    ensures Keys(SubjectColors) == ["Math", "Science", "English", "History"]
    ensures Distinct(Keys(SubjectColors))
  {
  }

  lemma BlocksHaveSubjects()
    ensures AllOf(MathRows, "Math") && AllOf(ScienceRows, "Science")
    ensures AllOf(EnglishRows, "English") && AllOf(HistoryRows, "History")
  {
  }

  /** Every row of four blocks of single subjects has one of the four subjects. */
  lemma BlockSubjects(a: seq<Point>, b: seq<Point>, c: seq<Point>, d: seq<Point>,
                      ka: string, kb: string, kc: string, kd: string)
    requires AllOf(a, ka) && AllOf(b, kb) && AllOf(c, kc) && AllOf(d, kd)
    ensures forall i :: 0 <= i < |a + b + c + d| ==> (a + b + c + d)[i].subject in [ka, kb, kc, kd]
  {
  }

  /** Every point of the data set belongs to a subject with a colour. */
  lemma DataSubjectsHaveColors()
    ensures forall i :: 0 <= i < |MoodPerformanceData| ==> MoodPerformanceData[i].subject in Keys(SubjectColors)
  {
    SubjectColorKeys();
    BlocksHaveSubjects();
    BlockSubjects(MathRows, ScienceRows, EnglishRows, HistoryRows, "Math", "Science", "English", "History");
  }

  /** Per-point counts that agree on every point whose subject is known, over data whose
      subjects are all known, give equal multisets. */
  lemma CountsAgree(drawn: seq<Point>, data: seq<Point>, ks: seq<string>)
    requires forall i :: 0 <= i < |data| ==> data[i].subject in ks
    requires forall p :: multiset(drawn)[p] == if p.subject in ks then multiset(data)[p] else 0
    ensures multiset(drawn) == multiset(data)
  {
    forall p ensures multiset(drawn)[p] == multiset(data)[p] {
      if p.subject !in ks {
        assert p !in data;
      }
    }
  }

  /** In the "all" view the four per-subject series, one per colour key in order, together
      are a permutation of the data set. */
  lemma AllViewPartitionsData()
    ensures |ChartSeries(AllSubjects)| == |SubjectColors|
    ensures forall i :: 0 <= i < |SubjectColors| ==>
      ChartSeries(AllSubjects)[i].name == SubjectColors[i].0 && ChartSeries(AllSubjects)[i].fill == SubjectColors[i].1
    ensures multiset(SeriesData(ChartSeries(AllSubjects))) == multiset(MoodPerformanceData)
  {
    SubjectColorKeys();
    DataSubjectsHaveColors();
    var data, ks := MoodPerformanceData, Keys(SubjectColors);
    var drawn := SeriesData(PerSubjectSeries(data, SubjectColors));
    forall p: Point ensures multiset(drawn)[p] == if p.subject in ks then multiset(data)[p] else 0 {
      PerSubjectSeriesCounts(data, SubjectColors, p);
    }
    CountsAgree(drawn, data, ks);
  }

  /** Selecting a subject with a colour draws the same points in the same colour as that
      subject's series in the "all" view. */
  lemma SelectedMatchesAllView(i: nat)
    requires i < |SubjectColors|
    ensures ChartSeries(SubjectColors[i].0) == [ChartSeries(AllSubjects)[i]]
  {
    SubjectColorKeys();
    var k := SubjectColors[i].0;
    assert k == Keys(SubjectColors)[i];
    assert k != AllSubjects;
    LookupDistinct(SubjectColors, i);
  }

  /** A subject that no point has and that has no colour is drawn as one empty series in the
      fallback colour. */
  lemma AbsentSubjectSeries(subject: string)
    requires subject != AllSubjects && subject !in Keys(SubjectColors)
    ensures ChartSeries(subject) == [Series(subject, [], FallbackColor)]
  {
    DataSubjectsHaveColors();
    FilterDropsAll(MoodPerformanceData, subject);
  }

  /** The moods of a series are 1, 2, 3, 4, 5 in that order and the performance strictly
      increases with the mood. */
  predicate MoodSweep(rows: seq<Point>) {
    |rows| == 5 &&
    (forall i :: 0 <= i < 5 ==> rows[i].mood == i + 1) &&
    (forall i, j :: 0 <= i < j < 5 ==> rows[i].performance < rows[j].performance)
  }

  /** Within each subject the sample moods run once through 1..5 and performance strictly
      increases with mood. */
  lemma BlocksSweepMoods()
    ensures MoodSweep(MathRows) && MoodSweep(ScienceRows) && MoodSweep(EnglishRows) && MoodSweep(HistoryRows)
  {
  }

  /** Within each subject the sample moods run once through 1..5 and performance strictly
      increases with mood. */
  lemma SubjectsSweepMoods()
    ensures forall k :: k in Keys(SubjectColors) ==> MoodSweep(FilterBySubject(MoodPerformanceData, k))
  {
    SubjectColorKeys();
    BlocksHaveSubjects();
    BlocksSweepMoods();
    forall k | k in Keys(SubjectColors) ensures MoodSweep(FilterBySubject(MoodPerformanceData, k)) {
      assert k == "Math" || k == "Science" || k == "English" || k == "History";
      FilterPicksBlock(MathRows, ScienceRows, EnglishRows, HistoryRows, "Math", "Science", "English", "History", k);
    }
  }
}
