/** src/etl/etl_cluster_dataframe.py: gathering the unpackers' outputs (the bad-file lists and
    the batch tables) and `clean_df`, which drops unusable rows, removes outliers, keeps the
    2019 weeks and groups what is left by NAICS code or by place. A table is a list of typed
    rows as `read_csv` gives them; a missing number is `None` (NaN in the file). */
module ClusterDataframe {
  import opened Wrappers
  import Seqs
  import Strings
  import Dates

  /** The columns of a batch table that `clean_df` reads. */
  datatype CsvRow = CsvRow(
    placekey: string,
    naics: string,
    rawVisitorCounts: Option<real>,
    rawVisitCounts: Option<real>,
    area: Option<real>,
    medianDwell: Option<real>,
    start: Option<Dates.Date>)

  type Table = seq<CsvRow>

  // ---------------------------------------------------------------- gathering the batches

  /** `print_bad_files`: load every pickled list, in the order `glob` returns the files, then
      `[item for sublist in bad_files for item in sublist]`. */
  method PrintBadFiles(pickles: seq<seq<string>>) returns (badFiles: seq<string>)
    ensures badFiles == Seqs.Flatten(pickles)
  {
    var lists: seq<seq<string>> := [];
    for i := 0 to |pickles|
      invariant lists == pickles[..i]
    {
      lists := lists + [pickles[i]];
    }
    assert lists == pickles;
    badFiles := [];
    for i := 0 to |lists|
      invariant badFiles == Seqs.Flatten(lists[..i])
    {
      for j := 0 to |lists[i]|
        invariant badFiles == Seqs.Flatten(lists[..i]) + lists[i][..j]
      {
        badFiles := badFiles + [lists[i][j]];
      }
      assert lists[i][..|lists[i]|] == lists[i];
      assert lists[..i + 1] == lists[..i] + [lists[i]];
      Seqs.FlattenSnoc(lists[..i], lists[i]);
    }
    assert lists[..|lists|] == lists;
  }

  /** The gathered list holds exactly the names of the loaded lists, as many as they hold
      together. */
  lemma BadFilesSpec(pickles: seq<seq<string>>, name: string)
    ensures name in Seqs.Flatten(pickles) <==> exists i :: 0 <= i < |pickles| && name in pickles[i]
    ensures |Seqs.Flatten(pickles)| == Seqs.SumLengths(pickles)
  {
    Seqs.FlattenMember(pickles, name);
  }

  /** `combine_batch_csv`: read every table, in the order `glob` returns the files, then
      `pd.concat(df_list, axis=0)`, which raises ValueError when there is nothing to
      concatenate. */
  method CombineBatchCsv(tables: seq<Table>) returns (r: Result<Table>)
    ensures r.Err? <==> tables == []
    ensures r.Err? ==> r.error == ValueError
    ensures r.Ok? ==> r.value == Seqs.Flatten(tables) && |r.value| == Seqs.SumLengths(tables)
  {
    var dfList: seq<Table> := [];
    for i := 0 to |tables|
      invariant dfList == tables[..i]
    {
      dfList := dfList + [tables[i]];
    }
    assert dfList == tables;
    if dfList == [] {
      return Err(ValueError);
    }
    return Ok(Seqs.Flatten(dfList));
  }

  /** Every table's rows sit in the combined table as one block, in file order. */
  lemma CombinedBlocks(tables: seq<Table>, i: nat)
    requires i < |tables|
    ensures var at := Seqs.Offset(tables, i);
            at + |tables[i]| <= |Seqs.Flatten(tables)| && Seqs.Flatten(tables)[at..at + |tables[i]|] == tables[i]
  {
    Seqs.FlattenBlock(tables, i);
  }

  // ---------------------------------------------------------------- numbers

  /** A float column's value: a real, an infinity, or NaN. */
  datatype Num = Finite(r: real) | PosInf | NegInf | NotANumber

  /** Float division: by zero it gives an infinity of the dividend's sign, or NaN for 0/0. */
  function Divide(a: real, b: real): Num
  {
    if b != 0.0 then Finite(a / b)
    else if a > 0.0 then PosInf
    else if a < 0.0 then NegInf
    else NotANumber
  }

  /** `df['raw_visit_counts'] / df['node.safegraph_geometry.wkt_area_sq_meters']`: NaN when
      either value is missing. */
  function Density(row: CsvRow): Num
  {
    if row.rawVisitCounts.Some? && row.area.Some? then Divide(row.rawVisitCounts.value, row.area.value)
    else NotANumber
  }

  /** `x < c` on floats: NaN compares false, minus infinity is below everything. */
  predicate Less(x: Num, c: real)
  {
    match x
    case Finite(r) => r < c
    case NegInf => true
    case PosInf => false
    case NotANumber => false
  }

  /** `x < c` for a column that may be missing. */
  predicate LessOpt(x: Option<real>, c: real)
  {
    x.Some? && x.value < c
  }

  /** A density passes the cutoff exactly when both values are present and, for a non-zero
      area, their quotient is below the cutoff, or, for a zero area, the visit count is
      negative. */
  lemma DensityBelow(row: CsvRow, c: real)
    ensures Less(Density(row), c) <==>
              row.rawVisitCounts.Some? && row.area.Some? &&
              (row.area.value != 0.0 ==> row.rawVisitCounts.value / row.area.value < c) &&
              (row.area.value == 0.0 ==> row.rawVisitCounts.value < 0.0)
  {
  }

  // ---------------------------------------------------------------- the filters of clean_df

  const DensityCutoff: real := 150.0
  const DwellCutoff: real := 500.0
  const WindowStart := Dates.Date(2019, 1, 1)
  const WindowEnd := Dates.Date(2019, 12, 31)

  /** Line 43: `~df['raw_visitor_counts'].isnull()`. */
  predicate HasVisitors(row: CsvRow)
  {
    row.rawVisitorCounts.Some?
  }

  /** Line 54: `median_dwell < dwell_cutoff` and `density < density_cutoff`, both strict. */
  predicate NotOutlier(row: CsvRow, densityCutoff: real, dwellCutoff: real)
  {
    LessOpt(row.medianDwell, dwellCutoff) && Less(Density(row), densityCutoff)
  }

  /** Line 59: `start > '2019-01-01'` and `start < '2019-12-31'`; a missing date (NaT)
      compares false. */
  predicate In2019(row: CsvRow)
  {
    row.start.Some? && Dates.Before(WindowStart, row.start.value) && Dates.Before(row.start.value, WindowEnd)
  }

  /** For a real date, the window is the year 2019 without its first and its last day. */
  lemma In2019Days(row: CsvRow)
    requires row.start.Some? && Dates.Valid(row.start.value)
    ensures In2019(row) <==>
              var d := row.start.value;
              d.year == 2019 && !(d.month == 1 && d.day == 1) && !(d.month == 12 && d.day == 31)
  {
  }

  /** All three tests of `clean_df`. */
  predicate Keep(row: CsvRow, densityCutoff: real, dwellCutoff: real)
  {
    HasVisitors(row) && NotOutlier(row, densityCutoff, dwellCutoff) && In2019(row)
  }

  function HasVisitorsOf(): CsvRow -> bool { row => HasVisitors(row) }
  function NotOutlierOf(densityCutoff: real, dwellCutoff: real): CsvRow -> bool { row => NotOutlier(row, densityCutoff, dwellCutoff) }
  function In2019Of(): CsvRow -> bool { row => In2019(row) }
  function KeepOf(densityCutoff: real, dwellCutoff: real): CsvRow -> bool { row => Keep(row, densityCutoff, dwellCutoff) }

  /** The rows `clean_df` keeps, filter after filter as the function applies them. */
  function CleanRows(rows: Table, densityCutoff: real, dwellCutoff: real): Table
  {
    Seqs.Filter(Seqs.Filter(Seqs.Filter(rows, HasVisitorsOf()), NotOutlierOf(densityCutoff, dwellCutoff)), In2019Of())
  }

  /** The three filters in a row are one filter by all three tests. */
  lemma CleanRowsIsFilter(rows: Table, densityCutoff: real, dwellCutoff: real)
    ensures CleanRows(rows, densityCutoff, dwellCutoff) == Seqs.Filter(rows, KeepOf(densityCutoff, dwellCutoff))
  {
    var both: CsvRow -> bool := row => HasVisitors(row) && NotOutlier(row, densityCutoff, dwellCutoff);
    Seqs.FilterFuse(rows, HasVisitorsOf(), NotOutlierOf(densityCutoff, dwellCutoff), both);
    Seqs.FilterFuse(rows, both, In2019Of(), KeepOf(densityCutoff, dwellCutoff));
  }

  /** A row survives exactly when it is in the table and has a visitor count, a median dwell
      below the dwell cutoff, a density below the density cutoff and a start date strictly
      inside 2019-01-01 .. 2019-12-31. */
  lemma CleanRowsMember(rows: Table, densityCutoff: real, dwellCutoff: real, row: CsvRow)
    ensures row in CleanRows(rows, densityCutoff, dwellCutoff) <==>
              row in rows && row.rawVisitorCounts.Some? &&
              row.medianDwell.Some? && row.medianDwell.value < dwellCutoff &&
              Less(Density(row), densityCutoff) &&
              row.start.Some? && Dates.Before(WindowStart, row.start.value) && Dates.Before(row.start.value, WindowEnd)
  {
    CleanRowsIsFilter(rows, densityCutoff, dwellCutoff);
    Seqs.FilterMember(rows, KeepOf(densityCutoff, dwellCutoff), row);
  }

  /** The filters only remove rows: what is left keeps the table's order. */
  lemma CleanRowsSubseq(rows: Table, densityCutoff: real, dwellCutoff: real)
    ensures Seqs.IsSubseq(CleanRows(rows, densityCutoff, dwellCutoff), rows)
  {
    CleanRowsIsFilter(rows, densityCutoff, dwellCutoff);
    Seqs.FilterIsSubseq(rows, KeepOf(densityCutoff, dwellCutoff));
  }

  /** Cleaning a cleaned table changes nothing. */
  lemma CleanRowsIdempotent(rows: Table, densityCutoff: real, dwellCutoff: real)
    ensures CleanRows(CleanRows(rows, densityCutoff, dwellCutoff), densityCutoff, dwellCutoff) ==
              CleanRows(rows, densityCutoff, dwellCutoff)
  {
    var once := CleanRows(rows, densityCutoff, dwellCutoff);
    CleanRowsIsFilter(rows, densityCutoff, dwellCutoff);
    CleanRowsIsFilter(once, densityCutoff, dwellCutoff);
    Seqs.FilterKeepsAll(once, KeepOf(densityCutoff, dwellCutoff));
  }

  /** Both ends of the window are excluded: a week starting on 2019-01-01 or on 2019-12-31
      never survives, while one starting on 2019-01-02 can. */
  lemma WindowEndpoints(row: CsvRow)
    ensures row.start == Some(WindowStart) ==> !In2019(row)
    ensures row.start == Some(WindowEnd) ==> !In2019(row)
    ensures row.start == Some(Dates.Date(2019, 1, 2)) ==> In2019(row)
  {
  }

  // ---------------------------------------------------------------- grouping

  /** Lines 66-69: the grouping column, NAICS code or place key. */
  function GroupKey(row: CsvRow, byNaics: bool): string
  {
    if byNaics then row.naics else row.placekey
  }

  function Keys(rows: Table, byNaics: bool): seq<string>
  {
    seq(|rows|, i requires 0 <= i < |rows| => GroupKey(rows[i], byNaics))
  }

  /** The keys of `groupby`: the distinct values of the column, in ascending order. */
  function GroupKeys(rows: Table, byNaics: bool): seq<string>
  {
    Strings.Dedup(Strings.Sort(Keys(rows, byNaics)))
  }

  /** The group keys are strictly ascending, and a key is one of them exactly when some row
      carries it. */
  lemma GroupKeysSpec(rows: Table, byNaics: bool)
    ensures Strings.StrictlySorted(GroupKeys(rows, byNaics))
    ensures forall k :: k in GroupKeys(rows, byNaics) <==> exists i :: 0 <= i < |rows| && GroupKey(rows[i], byNaics) == k
  {
    var keys := Keys(rows, byNaics);
    Strings.DedupSorted(Strings.Sort(keys));
    forall k
      ensures k in Strings.Sort(keys) <==> exists i :: 0 <= i < |rows| && GroupKey(rows[i], byNaics) == k
    {
      assert k in Strings.Sort(keys) <==> k in multiset(Strings.Sort(keys));
      assert k in keys <==> k in multiset(keys);
      if k in keys {
        var i :| 0 <= i < |keys| && keys[i] == k;
        assert GroupKey(rows[i], byNaics) == k;
      }
      if exists i :: 0 <= i < |rows| && GroupKey(rows[i], byNaics) == k {
        var i :| 0 <= i < |rows| && GroupKey(rows[i], byNaics) == k;
        assert keys[i] == k;
      }
    }
  }

  /** One group: its key and its rows, in table order. */
  datatype Group = Group(key: string, rows: Table)

  function MatchesKey(byNaics: bool, k: string): CsvRow -> bool
  {
    row => GroupKey(row, byNaics) == k
  }

  /** `df.groupby(key)`: one group per distinct key, in ascending key order. The means of the
      log columns that `clean_df` takes per group are not part of this model. */
  function GroupBy(rows: Table, byNaics: bool): seq<Group>
  {
    var keys := GroupKeys(rows, byNaics);
    seq(|keys|, i requires 0 <= i < |keys| => Group(keys[i], Seqs.Filter(rows, MatchesKey(byNaics, keys[i]))))
  }

  /** `clean_df(df, density_cutoff, dwell_cutoff, avg_by_naics)` up to the means. */
  function CleanDf(rows: Table, densityCutoff: real, dwellCutoff: real, byNaics: bool): seq<Group>
  {
    GroupBy(CleanRows(rows, densityCutoff, dwellCutoff), byNaics)
  }

  /** Every group is non-empty and holds exactly the rows with its key; keys are strictly
      ascending, so no two groups share one. */
  lemma GroupBySpec(rows: Table, byNaics: bool, i: nat, row: CsvRow)
    requires i < |GroupBy(rows, byNaics)|
    ensures var g := GroupBy(rows, byNaics)[i];
            g.rows != [] &&
            (row in g.rows <==> row in rows && GroupKey(row, byNaics) == g.key) &&
            forall j :: 0 <= j < |GroupBy(rows, byNaics)| && j != i ==> GroupBy(rows, byNaics)[j].key != g.key
  {
    var keys := GroupKeys(rows, byNaics);
    GroupKeysSpec(rows, byNaics);
    var k := keys[i];
    assert k in keys;
    var m :| 0 <= m < |rows| && GroupKey(rows[m], byNaics) == k;
    Seqs.FilterMember(rows, MatchesKey(byNaics, k), rows[m]);
    Seqs.FilterMember(rows, MatchesKey(byNaics, k), row);
  }

  /** Every row of the table lies in the group of its key, and that group is unique. */
  lemma GroupByCovers(rows: Table, byNaics: bool, row: CsvRow)
    requires row in rows
    ensures exists i :: 0 <= i < |GroupBy(rows, byNaics)| && row in GroupBy(rows, byNaics)[i].rows
    ensures forall i, j :: 0 <= i < j < |GroupBy(rows, byNaics)| ==>
              !(row in GroupBy(rows, byNaics)[i].rows && row in GroupBy(rows, byNaics)[j].rows)
  {
    var keys := GroupKeys(rows, byNaics);
    GroupKeysSpec(rows, byNaics);
    var m :| 0 <= m < |rows| && rows[m] == row;
    var k := GroupKey(row, byNaics);
    assert k in keys;
    var i :| 0 <= i < |keys| && keys[i] == k;
    Seqs.FilterMember(rows, MatchesKey(byNaics, k), row);
    assert row in GroupBy(rows, byNaics)[i].rows;
    forall i1, j1 | 0 <= i1 < j1 < |keys|
      ensures !(row in GroupBy(rows, byNaics)[i1].rows && row in GroupBy(rows, byNaics)[j1].rows)
    {
      Seqs.FilterMember(rows, MatchesKey(byNaics, keys[i1]), row);
      Seqs.FilterMember(rows, MatchesKey(byNaics, keys[j1]), row);
    }
  }

  /** The result has one group per distinct key among the surviving rows, and every
      surviving row, and no other row, is in one. */
  lemma CleanDfSpec(rows: Table, densityCutoff: real, dwellCutoff: real, byNaics: bool, row: CsvRow)
    ensures var groups := CleanDf(rows, densityCutoff, dwellCutoff, byNaics);
            (exists i :: 0 <= i < |groups| && row in groups[i].rows) <==>
              row in rows && Keep(row, densityCutoff, dwellCutoff)
  {
    var kept := CleanRows(rows, densityCutoff, dwellCutoff);
    CleanRowsMember(rows, densityCutoff, dwellCutoff, row);
    if row in kept {
      GroupByCovers(kept, byNaics, row);
    }
    var groups := GroupBy(kept, byNaics);
    forall i | 0 <= i < |groups| && row in groups[i].rows
      ensures row in kept
    {
      GroupBySpec(kept, byNaics, i, row);
    }
  }
}
