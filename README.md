# MZmine 2: RT tolerance parameter, log-ratio plot dataset, GNPS export row filter

A Dafny model of three pieces of MZmine 2, the mass-spectrometry data
processing platform, with the properties the code promises proved about them.

- `rt_tolerance_parameter.dfy` (module `RTToleranceParameters`): the retention-time
  tolerance parameter. It is a class holding a name, a description and an optional
  `RTTolerance` (absolute or percent, and a tolerance). It is loaded from an XML element's
  `type` attribute and text, saved back into the element, checked for being set, and cloned.
  `LoadValue` and `SaveValue` are functions over the element's content, and the
  methods are proved against them. The lemmas cover each load rule, each save rule,
  idempotence of saving and the save-then-load round trip.
- `logratio_dataset.dfy` (module `LogratioDatasets`): the log-ratio RT/m/z plot dataset.
  The constructor walks the aligned peak list row by row. For each row it collects the area
  (or height) of the peaks that each group's files have. It keeps a row only when both groups
  have a measurement, and fills four parallel arrays: RT, m/z, colour and row. The colour
  is NaN when group two averages 0, and log2 of the ratio of the averages otherwise.
  `Valid()` ties the arrays to `IncludedIndices`, the increasing list of kept row indices.
  The bounds-checked readers `GetX`/`GetY`/`GetZ` return null outside series 0 or past
  the end. They raise `ArrayIndexOutOfBounds` for a negative item, as the Java array
  access does.
- `gnps_export_parameters.dfy` (module `GnpsExportParameters`): the GNPS export's `RowFilter`
  (`ALL`, `ONLY_WITH_MS2`), its display name, and the "Filter rows" parameter with its default.
  `Select` applies a filter to a table in order.
- `wrappers.dfy`: `Option`, standing in for Java's nullable references.

Loading empty tolerance text keeps whatever value was held before, set or unset.
`ONLY_WITH_MS2` asks only whether the row's best fragmentation scan is non-null.

The Java library calls are passed in as function parameters. `Double.valueOf`
(None where it throws) and `String.valueOf(double)` form the `NumberText` pair. The
round trip assumes only `RoundTrips` for the saved number. `Math.log(x)/Math.log(2.0)` is `log2`.

## Model

| member | source | states |
|---|---|---|
| `RTToleranceParameters.RTToleranceParameter.constructor` | src/net/sf/mzmine/parameters/parametertypes/RTToleranceParameter.java:44-47 | the given name and description, and no value |
| `RTToleranceParameters.RTToleranceParameter.Default` | src/net/sf/mzmine/parameters/parametertypes/RTToleranceParameter.java:39-42 | the default name "Retention time tolerance", its description, and no value |
| `RTToleranceParameters.RTToleranceParameter.SetValue` | src/net/sf/mzmine/parameters/parametertypes/RTToleranceParameter.java:88-96 | getValue after setValue returns the value set; only the value field changes |
| `RTToleranceParameters.RTToleranceParameter.Clone` | src/net/sf/mzmine/parameters/parametertypes/RTToleranceParameter.java:70-75 | a fresh parameter with the same name, description and value |
| `RTToleranceParameters.RTToleranceParameter.LoadValueFromXml` | src/net/sf/mzmine/parameters/parametertypes/RTToleranceParameter.java:98-107 | the new value is what `LoadValue` gives for the old value and the element; when the number does not parse, the exception is raised and the value is unchanged |
| `RTToleranceParameters.RTToleranceParameter.SaveValueToXml` | src/net/sf/mzmine/parameters/parametertypes/RTToleranceParameter.java:109-119 | the element afterwards is `SaveValue` of the parameter's value; the parameter is not modified |
| `RTToleranceParameters.RTToleranceParameter.CheckValue` | src/net/sf/mzmine/parameters/parametertypes/RTToleranceParameter.java:121-128 | returns false and appends exactly one message, name + " is not set", iff no value is set; otherwise the messages are unchanged |
| `RTToleranceParameters.LoadEmptyTextKeepsValue` | src/net/sf/mzmine/parameters/parametertypes/RTToleranceParameter.java:102-104 | empty text leaves the current value, set or unset, untouched |
| `RTToleranceParameters.LoadNumberSetsValue` | src/net/sf/mzmine/parameters/parametertypes/RTToleranceParameter.java:100-106 | numeric text sets the value to that number; it is relative exactly when `type` is "percent", and any other or missing type gives absolute |
| `RTToleranceParameters.LoadNonNumberFails` | src/net/sf/mzmine/parameters/parametertypes/RTToleranceParameter.java:105-106 | non-empty text that is not a number makes the load fail |
| `RTToleranceParameters.SaveUnsetWritesNothing` | src/net/sf/mzmine/parameters/parametertypes/RTToleranceParameter.java:111-112 | saving with no value leaves the element as it was |
| `RTToleranceParameters.SaveWritesTypeAndText` | src/net/sf/mzmine/parameters/parametertypes/RTToleranceParameter.java:113-118 | saving writes type "absolute" or "percent" by the mode and the number as the text; other attributes keep their values |
| `RTToleranceParameters.SaveIdempotent` | src/net/sf/mzmine/parameters/parametertypes/RTToleranceParameter.java:109-119 | saving twice gives the same element as saving once |
| `RTToleranceParameters.SaveThenLoad` | src/net/sf/mzmine/parameters/parametertypes/RTToleranceParameter.java:98-119 | a saved value loads back as the same (isAbsolute, tolerance) into any parameter, given the number's text reads back as that number |
| `LogratioDatasets.GroupIntensities` | src/net/sf/mzmine/modules/dataanalysis/rtmzplots/LogratioDataset.java:74-83 | a group yields at most one intensity per file |
| `LogratioDatasets.CollectIntensities` | src/net/sf/mzmine/modules/dataanalysis/rtmzplots/LogratioDataset.java:74-93 | the file loop gathers exactly the area or height of the peaks present in the group's files, in file order |
| `LogratioDatasets.GroupIntensitiesNonEmpty` | src/net/sf/mzmine/modules/dataanalysis/rtmzplots/LogratioDataset.java:74-93 | a group has a measurement iff one of its files has a peak in the row |
| `LogratioDatasets.GroupIntensitiesArePresent` | src/net/sf/mzmine/modules/dataanalysis/rtmzplots/LogratioDataset.java:74-93 | every intensity a group gathers is the area or height of a peak one of its files has |
| `LogratioDatasets.GroupIntensitiesFromPresentPeaks` | src/net/sf/mzmine/modules/dataanalysis/rtmzplots/LogratioDataset.java:74-93 | when every peak the group's files have measures c, every intensity gathered is c |
| `LogratioDatasets.GroupAverageOfPresentPeaks` | src/net/sf/mzmine/modules/dataanalysis/rtmzplots/LogratioDataset.java:74-102 | files without a peak are skipped, never counted as zero: when every present peak measures c, the group average is c |
| `LogratioDatasets.IncludedIff` | src/net/sf/mzmine/modules/dataanalysis/rtmzplots/LogratioDataset.java:95-97 | a row is plotted iff a group-one file and a group-two file have a peak in it |
| `LogratioDatasets.AverageOfConstant` | src/net/sf/mzmine/modules/dataanalysis/rtmzplots/LogratioDataset.java:99-102 | the group average of equal intensities is that intensity |
| `LogratioDatasets.LogRatio` | src/net/sf/mzmine/modules/dataanalysis/rtmzplots/LogratioDataset.java:103-105 | the colour is NaN iff the group-two average is 0, and log2(avgOne/avgTwo) otherwise |
| `LogratioDatasets.IncludedIndices` | src/net/sf/mzmine/modules/dataanalysis/rtmzplots/LogratioDataset.java:69-117 | the kept row indices are in range, strictly increasing (peak-list order), each of a plotted row, and no more than the rows |
| `LogratioDatasets.IncludedIndicesComplete` | src/net/sf/mzmine/modules/dataanalysis/rtmzplots/LogratioDataset.java:69-117 | every row that qualifies is kept |
| `LogratioDatasets.CollectPoints` | src/net/sf/mzmine/modules/dataanalysis/rtmzplots/LogratioDataset.java:64-117 | the row loop yields four parallel sequences, one entry per kept row in peak-list order, holding its average RT, average m/z, colour and the row itself |
| `LogratioDatasets.Title` | src/net/sf/mzmine/modules/dataanalysis/rtmzplots/LogratioDataset.java:53-61 | the title starts "Logratio analysis (Logratio of average peak " then "areas" or "heights" by the measurement and " in ", and ends " files)" |
| `LogratioDatasets.NatToString` | src/net/sf/mzmine/modules/dataanalysis/rtmzplots/LogratioDataset.java:60 | a group size is written as non-empty decimal digits without a leading zero |
| `LogratioDatasets.NatToStringValue` | src/net/sf/mzmine/modules/dataanalysis/rtmzplots/LogratioDataset.java:60 | the digits written denote the group size |
| `LogratioDatasets.LogratioDataset.constructor` | src/net/sf/mzmine/modules/dataanalysis/rtmzplots/LogratioDataset.java:46-124 | the four arrays have the same length; entry i of each holds the average RT, the average m/z, the colour and the row of the i-th kept row; the title names the measurement and the two group sizes |
| `LogratioDatasets.LogratioDataset.ToString` | src/net/sf/mzmine/modules/dataanalysis/rtmzplots/LogratioDataset.java:127-129 | the dataset's title |
| `LogratioDatasets.LogratioDataset.GetSeriesKey` | src/net/sf/mzmine/modules/dataanalysis/rtmzplots/LogratioDataset.java:131-139 | the key is 1 for the one series (series count 1) and null for any other series |
| `LogratioDatasets.LogratioDataset.GetItemCount` | src/net/sf/mzmine/modules/dataanalysis/rtmzplots/LogratioDataset.java:147-149 | for any series, the number of kept rows, at most the number of rows |
| `LogratioDatasets.LogratioDataset.GetX` | src/net/sf/mzmine/modules/dataanalysis/rtmzplots/LogratioDataset.java:151-155 | null iff series is not 0 or item is past the last entry; otherwise the stored RT, and the array exception for a negative item |
| `LogratioDatasets.LogratioDataset.GetY` | src/net/sf/mzmine/modules/dataanalysis/rtmzplots/LogratioDataset.java:157-161 | the same bounds rule for the stored m/z |
| `LogratioDatasets.LogratioDataset.GetZ` | src/net/sf/mzmine/modules/dataanalysis/rtmzplots/LogratioDataset.java:141-145 | the same bounds rule for the stored colour, which may be NaN |
| `LogratioDatasets.LogratioDataset.GetPeakListRow` | src/net/sf/mzmine/modules/dataanalysis/rtmzplots/LogratioDataset.java:163-165 | the stored row; an out-of-range item raises the array exception and never gives null |
| `GnpsExportParameters.ReplaceUnderscores` | src/main/java/net/sf/mzmine/modules/peaklistmethods/io/gnpsexport/GNPSExportAndSubmitParameters.java:58-61 | every `_` becomes a space, every other character stays, and no `_` is left |
| `GnpsExportParameters.RowFilter.ToString` | src/main/java/net/sf/mzmine/modules/peaklistmethods/io/gnpsexport/GNPSExportAndSubmitParameters.java:58-61 | the display name is as long as the constant's name and holds no underscore |
| `GnpsExportParameters.RowFilter.Filter` | src/main/java/net/sf/mzmine/modules/peaklistmethods/io/gnpsexport/GNPSExportAndSubmitParameters.java:69-77 | `ALL` accepts every row; `ONLY_WITH_MS2` accepts a row iff its best fragmentation is non-null |
| `GnpsExportParameters.DisplayNames` | src/main/java/net/sf/mzmine/modules/peaklistmethods/io/gnpsexport/GNPSExportAndSubmitParameters.java:55-61 | `ALL` displays as "ALL" and `ONLY_WITH_MS2` as "ONLY WITH MS2" |
| `GnpsExportParameters.Values` | src/main/java/net/sf/mzmine/modules/peaklistmethods/io/gnpsexport/GNPSExportAndSubmitParameters.java:55-56 | two variants, without repetition |
| `GnpsExportParameters.FilterParameterDefault` | src/main/java/net/sf/mzmine/modules/peaklistmethods/io/gnpsexport/GNPSExportAndSubmitParameters.java:95-97 | the "Filter rows" parameter offers exactly the two variants and defaults to `ONLY_WITH_MS2` |
| `GnpsExportParameters.Select` | src/main/java/net/sf/mzmine/modules/peaklistmethods/io/gnpsexport/GNPSExportAndSubmitParameters.java:69-77 | filtering a table keeps at most its rows, and only rows the filter accepts |
| `GnpsExportParameters.SelectMembership` | src/main/java/net/sf/mzmine/modules/peaklistmethods/io/gnpsexport/GNPSExportAndSubmitParameters.java:69-77 | a row is kept iff it is in the table and the filter accepts it |
| `GnpsExportParameters.SelectAllKeepsTable` | src/main/java/net/sf/mzmine/modules/peaklistmethods/io/gnpsexport/GNPSExportAndSubmitParameters.java:71-72 | filtering with `ALL` keeps every row, in order |
| `GnpsExportParameters.SelectAppend` | src/main/java/net/sf/mzmine/modules/peaklistmethods/io/gnpsexport/GNPSExportAndSubmitParameters.java:69-77 | filtering keeps table order: filtering a concatenation is the concatenation of the filtered parts |

## Left out

- `RTTolerance`'s matching and window semantics: that class is not part of this model, so it is only the (isAbsolute, tolerance) record.
- `RTToleranceParameters.RTToleranceParameter.LoadValueFromXml`: the tolerance is a real, not a Java `double`, so the NaN and infinite tolerances that `Double.valueOf` returns for text such as "NaN", "Infinity" or "1e400" have no counterpart in the model.
- `Double.valueOf` and `String.valueOf(double)` are not modelled: they are the `NumberText` parameters. The round trip holds only for numbers whose text reads back, which is the assumption `RoundTrips` states. Java accepts some number forms and rejects others, and that detail lies inside `valueOf`.
- XML parsing is not modelled. An element is its attribute map and its text content.
- `setValueFromComponent`, `setValueToComponent` and `createEditingComponent` are Swing editing-component glue and are left out. The first one performs the same assignment as `SetValue`.
- `getName` and `getDescription` are not separate members; they are the `name` and `description` fields. Those fields are private in Java and public in Dafny, but only the constructors assign them.
- `LogratioDatasets.LogRatio` does not model Java `float` rounding of the intensities, the averages or the coordinates; all of these are reals. `Math.log(x)/Math.log(2.0)` is the opaque parameter `log2`. Because of that, the infinities and NaN that `Math.log` itself gives for a zero or negative ratio are not distinguished: they are whatever `log2` returns, wrapped as a number.
- `MathUtils.calcAvg` is not part of this model. The group average is the arithmetic mean.
- The analyser's parameter set is reduced to its measurement-type value. Area is used unless that value is the height type.
- The class logger call is left out, and so are the `AbstractXYZDataset` listener machinery and JFreeChart.
- `GnpsExportParameters.RowFilter.Filter`: the `return false` after the switch cannot be reached, because the match over the two variants is exhaustive.
- Everything else in the GNPS export is left out: the setup dialog (UI), GNPS submission (network), the open-folder option, MS/MS merging (the merge module is not part of this model) and the export task. The filename `{}` substitution is also left out: it is done by the export task, which is not modelled. `Select` shows what a filter does to a table; it is not the export task itself.
- The tolerance-based alignment engine is not part of this model: none of the source files modelled here contains its code.
- `ItemSelector` (UI), the CSV export module (task glue) and the raw-data-import and peak-list-saver parameter declarations are left out. They hold UI code, task glue or static declarations only.
