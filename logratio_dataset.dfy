/**
 * The log-ratio RT/m/z plot dataset of MZmine: for every row of an aligned
 * peak list that has at least one peak in each of two groups of raw data
 * files, one plot point at (average RT, average m/z) coloured by the base-2
 * logarithm of the ratio of the two groups' average intensities.
 */
module LogratioDatasets {
  import opened Wrappers

  /** A raw data file, known by its identity. */
  type RawDataFile = nat

  datatype Peak = Peak(area: real, height: real)

  /** An aligned row: the peak found in each raw data file, and the row's averages. */
  datatype PeakListRow = PeakListRow(peaks: map<RawDataFile, Peak>, averageRT: real, averageMZ: real)

  /** The value of the analyser's measurement-type parameter. */
  datatype MeasurementType = MeasurementTypeArea | MeasurementTypeHeight

  /** A Java float as far as the plot needs it: a number or NaN. */
  datatype FloatValue = NaN | Num(value: real)

  /** What a bounds-checked read returns: null, a value, or the exception it raises. */
  datatype Read<T> = Null | Value(value: T) | ArrayIndexOutOfBounds

  /** The two groups compared and the intensity measured in both. */
  datatype Selection = Selection(groupOne: seq<RawDataFile>, groupTwo: seq<RawDataFile>, useArea: bool)

  /** The row's peak in `file`, or None (null) when the file has none. */
  function GetPeak(row: PeakListRow, file: RawDataFile): Option<Peak>
  {
    if file in row.peaks then Some(row.peaks[file]) else None
  }

  function Intensity(p: Peak, useArea: bool): real
  {
    if useArea then p.area else p.height
  }

  /**
   * The intensities of the peaks the row has in `files[..n]`, in file order;
   * a file without a peak contributes nothing.
   */
  function GroupIntensities(row: PeakListRow, files: seq<RawDataFile>, useArea: bool, n: nat): (ints: seq<real>)
    requires n <= |files|
    ensures |ints| <= n
    decreases n
  {
    if n == 0 then []
    else
      GroupIntensities(row, files, useArea, n - 1) +
      match GetPeak(row, files[n - 1])
      case Some(p) => [Intensity(p, useArea)]
      case None => []
  }

  /** A group has a measurement for the row exactly when one of its files has a peak there. */
  lemma {:induction false} GroupIntensitiesNonEmpty(row: PeakListRow, files: seq<RawDataFile>, useArea: bool, n: nat)
    requires n <= |files|
    ensures |GroupIntensities(row, files, useArea, n)| > 0 <==> exists i :: 0 <= i < n && files[i] in row.peaks
    decreases n
  {
    if n > 0 {
      GroupIntensitiesNonEmpty(row, files, useArea, n - 1);
      if files[n - 1] in row.peaks {
        assert |GroupIntensities(row, files, useArea, n)| > 0;
      } else {
        assert forall i :: 0 <= i < n && files[i] in row.peaks ==> i < n - 1;
      }
    }
  }

  /** The intensities of the row's peaks in `files`, gathered file by file. */
  method CollectIntensities(row: PeakListRow, files: seq<RawDataFile>, useArea: bool) returns (ints: seq<real>)
    ensures ints == GroupIntensities(row, files, useArea, |files|)
  {
    ints := [];
    for fileIndex := 0 to |files|
      invariant ints == GroupIntensities(row, files, useArea, fileIndex)
    {
      var p := GetPeak(row, files[fileIndex]);
      if p.Some? {
        if useArea {
          ints := ints + [p.value.area];
        } else {
          ints := ints + [p.value.height];
        }
      }
    }
  }

  function Sum(s: seq<real>): real
  {
    if s == [] then 0.0 else Sum(s[..|s| - 1]) + s[|s| - 1]
  }

  /** The arithmetic mean of a non-empty group of intensities. */
  function Average(s: seq<real>): real
    requires |s| > 0
  {
    Sum(s) / |s| as real
  }

  /** `x` is the area or height of a peak that one of `files[..n]` has in the row. */
  ghost predicate PresentIntensity(row: PeakListRow, files: seq<RawDataFile>, useArea: bool, n: nat, x: real)
    requires n <= |files|
  {
    exists i :: 0 <= i < n && files[i] in row.peaks && x == Intensity(row.peaks[files[i]], useArea)
  }

  /** Every intensity a group gathers from `files[..n]` is that of a peak one of those files has. */
  lemma {:induction false} GroupIntensitiesArePresent(row: PeakListRow, files: seq<RawDataFile>, useArea: bool, n: nat)
    requires n <= |files|
    ensures forall k :: 0 <= k < |GroupIntensities(row, files, useArea, n)| ==>
              PresentIntensity(row, files, useArea, n, GroupIntensities(row, files, useArea, n)[k])
    decreases n
  {
    if n > 0 {
      GroupIntensitiesArePresent(row, files, useArea, n - 1);
      var prev := GroupIntensities(row, files, useArea, n - 1);
      var ints := GroupIntensities(row, files, useArea, n);
      forall k | 0 <= k < |ints|
        ensures PresentIntensity(row, files, useArea, n, ints[k])
      {
        if k < |prev| {
          assert ints[k] == prev[k];
          assert PresentIntensity(row, files, useArea, n - 1, prev[k]);
          var i :| 0 <= i < n - 1 && files[i] in row.peaks && prev[k] == Intensity(row.peaks[files[i]], useArea);
          assert 0 <= i < n;
        } else {
          assert files[n - 1] in row.peaks && ints[k] == Intensity(row.peaks[files[n - 1]], useArea);
        }
      }
    }
  }

  /** When every present peak of the group measures `c`, so does every intensity gathered. */
  lemma {:induction false} GroupIntensitiesFromPresentPeaks(row: PeakListRow, files: seq<RawDataFile>,
                                                           useArea: bool, n: nat, c: real)
    requires n <= |files|
    requires forall i :: 0 <= i < |files| && files[i] in row.peaks ==> Intensity(row.peaks[files[i]], useArea) == c
    ensures forall k :: 0 <= k < |GroupIntensities(row, files, useArea, n)| ==>
              GroupIntensities(row, files, useArea, n)[k] == c
    decreases n
  {
    if n > 0 {
      GroupIntensitiesFromPresentPeaks(row, files, useArea, n - 1, c);
    }
  }

  /**
   * A file without a peak is skipped, not counted as zero: when every peak
   * the group's files have measures `c`, the group averages `c`.
   */
  lemma GroupAverageOfPresentPeaks(row: PeakListRow, files: seq<RawDataFile>, useArea: bool, c: real)
    requires exists i :: 0 <= i < |files| && files[i] in row.peaks
    requires forall i :: 0 <= i < |files| && files[i] in row.peaks ==> Intensity(row.peaks[files[i]], useArea) == c
    ensures |GroupIntensities(row, files, useArea, |files|)| > 0
    ensures Average(GroupIntensities(row, files, useArea, |files|)) == c
  {
    GroupIntensitiesNonEmpty(row, files, useArea, |files|);
    GroupIntensitiesFromPresentPeaks(row, files, useArea, |files|, c);
    AverageOfConstant(GroupIntensities(row, files, useArea, |files|), c);
  }

  /** A group of equal intensities averages to that intensity. */
  lemma {:induction false} AverageOfConstant(s: seq<real>, c: real)
    requires |s| > 0
    requires forall i :: 0 <= i < |s| ==> s[i] == c
    ensures Average(s) == c
  {
    SumOfConstant(s, c);
  }

  lemma {:induction false} SumOfConstant(s: seq<real>, c: real)
    requires forall i :: 0 <= i < |s| ==> s[i] == c
    ensures Sum(s) == |s| as real * c
  {
    if s != [] {
      SumOfConstant(s[..|s| - 1], c);
    }
  }

  /**
   * The colour of a plotted row: NaN when group two averages zero, and the
   * base-2 logarithm `log2` of the ratio of the averages otherwise.
   */
  function LogRatio(avgOne: real, avgTwo: real, log2: real -> real): (z: FloatValue)
    ensures z == NaN <==> avgTwo == 0.0
    ensures z.Num? ==> z.value == log2(avgOne / avgTwo)
  {
    if avgTwo != 0.0 then Num(log2(avgOne / avgTwo)) else NaN
  }

  /** A row is plotted when both groups have at least one measurement for it. */
  predicate Included(row: PeakListRow, sel: Selection)
  {
    |GroupIntensities(row, sel.groupOne, sel.useArea, |sel.groupOne|)| > 0 &&
    |GroupIntensities(row, sel.groupTwo, sel.useArea, |sel.groupTwo|)| > 0
  }

  /** A row is plotted exactly when a file of each group has a peak in it. */
  lemma IncludedIff(row: PeakListRow, sel: Selection)
    ensures Included(row, sel) <==>
      (exists i :: 0 <= i < |sel.groupOne| && sel.groupOne[i] in row.peaks) &&
      (exists j :: 0 <= j < |sel.groupTwo| && sel.groupTwo[j] in row.peaks)
  {
    GroupIntensitiesNonEmpty(row, sel.groupOne, sel.useArea, |sel.groupOne|);
    GroupIntensitiesNonEmpty(row, sel.groupTwo, sel.useArea, |sel.groupTwo|);
  }

  /** The colour of a plotted row. */
  function ColorOf(row: PeakListRow, sel: Selection, log2: real -> real): FloatValue
    requires Included(row, sel)
  {
    LogRatio(Average(GroupIntensities(row, sel.groupOne, sel.useArea, |sel.groupOne|)),
             Average(GroupIntensities(row, sel.groupTwo, sel.useArea, |sel.groupTwo|)),
             log2)
  }

  /**
   * The indices, in increasing order, of the plotted rows among `rows[..n]`.
   */
  function IncludedIndices(rows: seq<PeakListRow>, sel: Selection, n: nat): (idx: seq<nat>)
    requires n <= |rows|
    ensures |idx| <= n
    ensures forall i :: 0 <= i < |idx| ==> idx[i] < n && Included(rows[idx[i]], sel)
    ensures forall i, j :: 0 <= i < j < |idx| ==> idx[i] < idx[j]
    decreases n
  {
    if n == 0 then []
    else IncludedIndices(rows, sel, n - 1) + if Included(rows[n - 1], sel) then [n - 1] else []
  }

  /** Every plotted row among `rows[..n]` has its index listed. */
  lemma {:induction false} IncludedIndicesComplete(rows: seq<PeakListRow>, sel: Selection, n: nat)
    requires n <= |rows|
    ensures forall j :: 0 <= j < n ==> (j in IncludedIndices(rows, sel, n) <==> Included(rows[j], sel))
    decreases n
  {
    if n > 0 {
      IncludedIndicesComplete(rows, sel, n - 1);
      var prev := IncludedIndices(rows, sel, n - 1);
      assert n - 1 !in prev;
    }
  }

  function Digit(d: nat): char
    requires d < 10
  {
    "0123456789"[d]
  }

  /** Java's decimal rendering of a non-negative int. */
  function NatToString(n: nat): (s: string)
    ensures |s| > 0
    ensures forall i :: 0 <= i < |s| ==> '0' <= s[i] <= '9'
    ensures s[0] == '0' ==> n == 0
    decreases n
  {
    if n < 10 then [Digit(n)] else NatToString(n / 10) + [Digit(n % 10)]
  }

  /** The number a string of decimal digits denotes. */
  function DecimalValue(s: string): nat
    requires forall i :: 0 <= i < |s| ==> '0' <= s[i] <= '9'
  {
    if s == [] then 0 else DecimalValue(s[..|s| - 1]) * 10 + (s[|s| - 1] as int - '0' as int)
  }

  /** The rendering denotes the number rendered. */
  lemma {:induction false} NatToStringValue(n: nat)
    ensures DecimalValue(NatToString(n)) == n
    decreases n
  {
    if n >= 10 {
      NatToStringValue(n / 10);
      var s := NatToString(n);
      assert s[..|s| - 1] == NatToString(n / 10);
    }
  }

  /** The dataset's title, naming the measurement and the size of each group. */
  function Title(sel: Selection): (t: string)
    ensures var head := TitleHead(sel.useArea); |head| < |t| && t[..|head|] == head
    ensures |" files)"| < |t| && t[|t| - |" files)"|..] == " files)"
  {
    var head := TitleHead(sel.useArea);
    var counts := NatToString(|sel.groupOne|) + " vs. " + NatToString(|sel.groupTwo|);
    var tail := " files" + ")";
    assert (head + counts + tail)[..|head|] == head;
    assert (head + counts + tail)[|head + counts|..] == tail;
    head + counts + tail
  }

  /** The start of the title, naming the measurement compared. */
  function TitleHead(useArea: bool): string
  {
    "Logratio analysis" + " (" +
    (if useArea then "Logratio of average peak areas" else "Logratio of average peak heights") +
    " in "
  }

  /**
   * `xs`, `ys`, `zs` and `rs` are parallel: entry i of each holds the average
   * RT, the average m/z, the colour and the row itself of row `idx[i]`, which
   * is a plotted row of `rows`.
   */
  ghost predicate PlotPoints(rows: seq<PeakListRow>, sel: Selection, log2: real -> real, idx: seq<nat>,
                             xs: seq<real>, ys: seq<real>, zs: seq<FloatValue>, rs: seq<PeakListRow>)
  {
    |xs| == |idx| && |ys| == |idx| && |zs| == |idx| && |rs| == |idx| &&
    forall i :: 0 <= i < |idx| ==>
      idx[i] < |rows| && Included(rows[idx[i]], sel) &&
      rs[i] == rows[idx[i]] &&
      xs[i] == rows[idx[i]].averageRT &&
      ys[i] == rows[idx[i]].averageMZ &&
      zs[i] == ColorOf(rows[idx[i]], sel, log2)
  }

  /** Appending the point of a plotted row keeps the sequences parallel. */
  lemma AppendPlotPoint(rows: seq<PeakListRow>, sel: Selection, log2: real -> real, idx: seq<nat>,
                        xs: seq<real>, ys: seq<real>, zs: seq<FloatValue>, rs: seq<PeakListRow>, j: nat)
    requires PlotPoints(rows, sel, log2, idx, xs, ys, zs, rs)
    requires j < |rows| && Included(rows[j], sel)
    ensures PlotPoints(rows, sel, log2, idx + [j], xs + [rows[j].averageRT], ys + [rows[j].averageMZ],
                       zs + [ColorOf(rows[j], sel, log2)], rs + [rows[j]])
  {
  }

  /**
   * The row loop of the dataset's constructor: the RT, m/z, colour and row of
   * every plotted row, in peak-list order, as four parallel sequences.
   */
  method CollectPoints(alignedPeakList: seq<PeakListRow>, sel: Selection, log2: real -> real)
    returns (xCoordsV: seq<real>, yCoordsV: seq<real>, colorCoordsV: seq<FloatValue>,
             peakListRowsV: seq<PeakListRow>)
    ensures PlotPoints(alignedPeakList, sel, log2, IncludedIndices(alignedPeakList, sel, |alignedPeakList|),
                       xCoordsV, yCoordsV, colorCoordsV, peakListRowsV)
  {
    xCoordsV, yCoordsV, colorCoordsV, peakListRowsV := [], [], [], [];
    ghost var idx: seq<nat> := [];
    for rowIndex := 0 to |alignedPeakList|
      invariant idx == IncludedIndices(alignedPeakList, sel, rowIndex)
      invariant PlotPoints(alignedPeakList, sel, log2, idx, xCoordsV, yCoordsV, colorCoordsV, peakListRowsV)
    {
      var row := alignedPeakList[rowIndex];
      var groupOnePeakIntensities := CollectIntensities(row, sel.groupOne, sel.useArea);
      var groupTwoPeakIntensities := CollectIntensities(row, sel.groupTwo, sel.useArea);
      if |groupOnePeakIntensities| > 0 && |groupTwoPeakIntensities| > 0 {
        var groupOneAvg := Average(groupOnePeakIntensities);
        var groupTwoAvg := Average(groupTwoPeakIntensities);
        var logratio := NaN;
        if groupTwoAvg != 0.0 {
          logratio := Num(log2(groupOneAvg / groupTwoAvg));
        }
        assert logratio == ColorOf(row, sel, log2);
        AppendPlotPoint(alignedPeakList, sel, log2, idx, xCoordsV, yCoordsV, colorCoordsV, peakListRowsV, rowIndex);
        xCoordsV := xCoordsV + [row.averageRT];
        yCoordsV := yCoordsV + [row.averageMZ];
        colorCoordsV := colorCoordsV + [logratio];
        peakListRowsV := peakListRowsV + [row];
        idx := idx + [rowIndex];
      }
    }
  }

  /** The dataset has one series. */
  const SeriesCount: int := 1

  class LogratioDataset {
    var xCoords: array<real>
    var yCoords: array<real>
    var colorCoords: array<FloatValue>
    var peakListRows: array<PeakListRow>
    var datasetTitle: string

    /** The peak list, the selection and the logarithm the dataset was computed from. */
    ghost var sourceRows: seq<PeakListRow>
    ghost var selection: Selection
    ghost var log2: real -> real

    /**
     * The four arrays are parallel: entry i of each comes from the i-th
     * plotted row of the peak list.
     */
    ghost predicate Valid()
      reads this, xCoords, yCoords, colorCoords, peakListRows
    {
      datasetTitle == Title(selection) &&
      PlotPoints(sourceRows, selection, log2, IncludedIndices(sourceRows, selection, |sourceRows|),
                 xCoords[..], yCoords[..], colorCoords[..], peakListRows[..])
    }

    constructor (alignedPeakList: seq<PeakListRow>, groupOneSelectedFiles: seq<RawDataFile>,
                 groupTwoSelectedFiles: seq<RawDataFile>, measurementType: MeasurementType,
                 log2: real -> real)
      ensures Valid()
      ensures fresh(xCoords) && fresh(yCoords) && fresh(colorCoords) && fresh(peakListRows)
      ensures sourceRows == alignedPeakList && this.log2 == log2
      ensures selection == Selection(groupOneSelectedFiles, groupTwoSelectedFiles,
                                     measurementType != MeasurementTypeHeight)
    {
      var useArea := true;
      if measurementType == MeasurementTypeHeight {
        useArea := false;
      }
      var sel := Selection(groupOneSelectedFiles, groupTwoSelectedFiles, useArea);

      var xCoordsV, yCoordsV, colorCoordsV, peakListRowsV :=
        CollectPoints(alignedPeakList, sel, log2);

      xCoords := new real[|xCoordsV|](i requires 0 <= i < |xCoordsV| => xCoordsV[i]);
      yCoords := new real[|yCoordsV|](i requires 0 <= i < |yCoordsV| => yCoordsV[i]);
      colorCoords := new FloatValue[|colorCoordsV|](i requires 0 <= i < |colorCoordsV| => colorCoordsV[i]);
      peakListRows := new PeakListRow[|peakListRowsV|](i requires 0 <= i < |peakListRowsV| => peakListRowsV[i]);
      datasetTitle := Title(sel);
      sourceRows := alignedPeakList;
      selection := sel;
      this.log2 := log2;
    }

    function ToString(): (s: string)
      reads this, xCoords, yCoords, colorCoords, peakListRows
      requires Valid()
      ensures s == Title(selection)
    {
      datasetTitle
    }

    /** The key of `series`: 1 for the dataset's only series, null for any other. */
    function GetSeriesKey(series: int): (key: Option<int>)
      ensures key.Some? <==> 0 <= series < SeriesCount
      ensures key.Some? ==> key.value == 1
    {
      if series == 0 then Some(1) else None
    }

    /** The number of plotted rows, whatever the series. */
    function GetItemCount(series: int): (n: int)
      reads this, xCoords, yCoords, colorCoords, peakListRows
      requires Valid()
      ensures n == |IncludedIndices(sourceRows, selection, |sourceRows|)|
      ensures 0 <= n <= |sourceRows|
    {
      xCoords.Length
    }

    /** The RT of `item`; null outside series 0 or past the last item. */
    function GetX(series: int, item: int): (r: Read<real>)
      reads this, xCoords
      ensures r.Null? <==> series != 0 || item >= xCoords.Length
      ensures r.ArrayIndexOutOfBounds? <==> series == 0 && item < 0
      ensures r.Value? ==> 0 <= item < xCoords.Length && r.value == xCoords[item]
    {
      if series != 0 then Null
      else if xCoords.Length - 1 < item then Null
      else if item < 0 then ArrayIndexOutOfBounds
      else Value(xCoords[item])
    }

    /** The m/z of `item`; null outside series 0 or past the last item. */
    function GetY(series: int, item: int): (r: Read<real>)
      reads this, yCoords
      ensures r.Null? <==> series != 0 || item >= yCoords.Length
      ensures r.ArrayIndexOutOfBounds? <==> series == 0 && item < 0
      ensures r.Value? ==> 0 <= item < yCoords.Length && r.value == yCoords[item]
    {
      if series != 0 then Null
      else if yCoords.Length - 1 < item then Null
      else if item < 0 then ArrayIndexOutOfBounds
      else Value(yCoords[item])
    }

    /** The colour of `item` (possibly NaN); null outside series 0 or past the last item. */
    function GetZ(series: int, item: int): (r: Read<FloatValue>)
      reads this, colorCoords
      ensures r.Null? <==> series != 0 || item >= colorCoords.Length
      ensures r.ArrayIndexOutOfBounds? <==> series == 0 && item < 0
      ensures r.Value? ==> 0 <= item < colorCoords.Length && r.value == colorCoords[item]
    {
      if series != 0 then Null
      else if colorCoords.Length - 1 < item then Null
      else if item < 0 then ArrayIndexOutOfBounds
      else Value(colorCoords[item])
    }

    /** The peak-list row of `item`, with no bounds check of its own. */
    function GetPeakListRow(item: int): (r: Read<PeakListRow>)
      reads this, peakListRows
      ensures r.ArrayIndexOutOfBounds? <==> !(0 <= item < peakListRows.Length)
      ensures r.Value? ==> r.value == peakListRows[item]
      ensures !r.Null?
    {
      if 0 <= item < peakListRows.Length then Value(peakListRows[item]) else ArrayIndexOutOfBounds
    }
  }
}
