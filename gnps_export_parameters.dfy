/**
 * The row filter of MZmine 2's GNPS export: which rows of a feature list are
 * exported, its display name, and the default of the "Filter rows" parameter.
 */
module GnpsExportParameters {
  import opened Wrappers

  /** A fragmentation (MS/MS) scan, known by its scan number. */
  datatype Scan = Scan(scanNumber: nat)

  /** A feature-list row as the filter sees it: its best fragmentation scan, if any. */
  datatype PeakListRow = PeakListRow(id: nat, bestFragmentation: Option<Scan>)

  /** Replaces every underscore of `s` with a space. */
  function ReplaceUnderscores(s: string): (r: string)
    ensures |r| == |s|
    ensures forall i :: 0 <= i < |s| ==> r[i] == if s[i] == '_' then ' ' else s[i]
    ensures '_' !in r
  {
    seq(|s|, i requires 0 <= i < |s| => if s[i] == '_' then ' ' else s[i])
  }

  datatype RowFilter = All | OnlyWithMs2
  {
    /** The Java constant's name. */
    function Name(): string
    {
      match this
      case All => "ALL"
      case OnlyWithMs2 => "ONLY_WITH_MS2"
    }

    /** The name shown to the user: the constant's name with spaces for underscores. */
    function ToString(): (s: string)
      ensures |s| == |Name()|
      ensures '_' !in s
    {
      ReplaceUnderscores(Name())
    }

    /** Whether a row is exported under this filter. */
    predicate Filter(row: PeakListRow)
      ensures this == All ==> Filter(row)
      ensures this == OnlyWithMs2 ==> (Filter(row) <==> row.bestFragmentation.Some?)
    {
      match this
      case All => true
      case OnlyWithMs2 => row.bestFragmentation.Some?
    }
  }

  /** The variants in declaration order, as RowFilter.values() lists them. */
  function Values(): (vs: seq<RowFilter>)
    ensures |vs| == 2
    ensures forall i, j :: 0 <= i < j < |vs| ==> vs[i] != vs[j]
  {
    [All, OnlyWithMs2]
  }

  /** A combo-box parameter: a name, a description, the choices and the selected one. */
  datatype ComboParameter<T> = ComboParameter(name: string, description: string, choices: seq<T>, value: T)

  /** The "Filter rows" parameter of the export. */
  const FILTER: ComboParameter<RowFilter> :=
    ComboParameter("Filter rows", "Limit the exported rows to those with MS/MS data or annotated rows",
                   Values(), OnlyWithMs2)

  /** The filter offers both variants and exports only rows with MS/MS unless changed. */
  lemma FilterParameterDefault()
    ensures FILTER.value == OnlyWithMs2
    ensures |FILTER.choices| == 2 && forall f: RowFilter :: f in FILTER.choices
  {
    forall f: RowFilter
      ensures f in FILTER.choices
    {
      match f
      case All => assert FILTER.choices[0] == f;
      case OnlyWithMs2 => assert FILTER.choices[1] == f;
    }
  }

  /** The display names of the two variants. */
  lemma DisplayNames()
    ensures All.ToString() == "ALL"
    ensures OnlyWithMs2.ToString() == "ONLY WITH MS2"
  {
  }

  /** The rows of a table that `f` accepts, in table order. */
  function Select(f: RowFilter, rows: seq<PeakListRow>): (kept: seq<PeakListRow>)
    ensures |kept| <= |rows|
    ensures forall i :: 0 <= i < |kept| ==> f.Filter(kept[i])
  {
    if rows == [] then []
    else (if f.Filter(rows[0]) then [rows[0]] else []) + Select(f, rows[1..])
  }

  /** A row is kept exactly when it is in the table and the filter accepts it. */
  lemma {:induction false} SelectMembership(f: RowFilter, rows: seq<PeakListRow>, row: PeakListRow)
    ensures row in Select(f, rows) <==> row in rows && f.Filter(row)
  {
    if rows != [] {
      SelectMembership(f, rows[1..], row);
      assert rows == [rows[0]] + rows[1..];
    }
  }

  /** Filtering with `All` keeps the whole table, in order. */
  lemma {:induction false} SelectAllKeepsTable(rows: seq<PeakListRow>)
    ensures Select(All, rows) == rows
  {
    if rows != [] {
      SelectAllKeepsTable(rows[1..]);
    }
  }

  /** Kept rows stay in table order: filtering a concatenation filters each part. */
  lemma {:induction false} SelectAppend(f: RowFilter, a: seq<PeakListRow>, b: seq<PeakListRow>)
    ensures Select(f, a + b) == Select(f, a) + Select(f, b)
  {
    if a != [] {
      SelectAppend(f, a[1..], b);
      var head := if f.Filter(a[0]) then [a[0]] else [];
      assert (a + b)[0] == a[0] && (a + b)[1..] == a[1..] + b;
      assert Select(f, a + b) == head + Select(f, a[1..] + b);
      assert Select(f, a) == head + Select(f, a[1..]);
    } else {
      assert a + b == b;
    }
  }
}
