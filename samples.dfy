/** One downloaded place, worked through both stages of src/etl/safegraph_etl.py and of
    src/etl/etl_unpack_json.py: the file loads into one row, the extraction turns it into one
    output row, and a run over a directory that also holds a file `json.load` rejects keeps
    that row and records the other file as bad. */
module Samples {
  import opened Wrappers
  import opened Json
  import opened Frames
  import opened Runs
  import opened SafegraphEtl
  import UnpackJson
  import Dates
  import Seqs

  /** `weekly_patterns[0]`: a week of visits, the two counts, the median dwell and the seven
      dwell buckets. */
  const Week: Json := JObj([
    ("visits_by_day", JArr([
      JObj([("visits", JNum(4.0))]), JObj([("visits", JNum(1.0))]), JObj([("visits", JNum(0.0))]),
      JObj([("visits", JNum(2.0))]), JObj([("visits", JNum(5.0))]), JObj([("visits", JNum(3.0))]),
      JObj([("visits", JNum(6.0))])])),
    ("raw_visitor_counts", JNum(17.0)),
    ("raw_visit_counts", JNum(21.0)),
    ("median_dwell", JNum(35.0)),
    ("bucketed_dwell_times", JObj([
      ("<5", JNum(2.0)), ("5-10", JNum(3.0)), ("11-20", JNum(4.0)), ("21-60", JNum(6.0)),
      ("61-120", JNum(3.0)), ("121-240", JNum(2.0)), (">240", JNum(1.0))]))])

  /** The place's `safegraph_core` and `safegraph_geometry`. */
  const Core: Json := JObj([
    ("naics_code", JNum(722511.0)),
    ("top_category", JStr("Restaurants")),
    ("sub_category", JStr("Full-Service Restaurants")),
    ("location_name", JStr("Corner Bistro"))])
  const Geometry: Json := JObj([("wkt_area_sq_meters", JNum(250.0))])

  /** The `node` of the place's edge, around its weekly patterns. */
  function Node(week: Json): Json
  {
    JObj([
      ("placekey", JStr("222-222@5qw-shj-7qz")),
      ("safegraph_core", Core),
      ("weekly_patterns", JArr([week])),
      ("safegraph_geometry", Geometry)])
  }
  /** The edge that holds the place. */
  function Edge(week: Json): Json
  {
    JObj([("node", Node(week))])
  }

  /** A downloaded file with that one place under `data.search.places.results.edges`. */
  function Doc(week: Json): Json
  {
    JObj([("data", JObj([("search", JObj([("places", JObj([("results", JObj([
      ("edges", JArr([Edge(week)]))]))]))]))]))])
  }

  /** The row `json_normalize` makes of the place. */
  function Loaded(week: Json): Row
  {
    FlattenRecord(Edge(week), 0, "")
  }

  lemma CoreKeysDotFree()
    ensures KeysDotFree(Core) && KeysDotFree(Geometry)
  {
  }

  lemma EdgeKeysDotFree(week: Json)
    ensures KeysDotFree(Edge(week))
  {
    CoreKeysDotFree();
    assert KeysDotFree(Node(week));
  }

  /** What `d.get(k)` finds in `node` for each of its keys. */
  lemma NodeLookups(week: Json)
    ensures Lookup(Node(week).fields, "placekey") == Some(JStr("222-222@5qw-shj-7qz"))
    ensures Lookup(Node(week).fields, "safegraph_core") == Some(Core)
    ensures Lookup(Node(week).fields, "weekly_patterns") == Some(JArr([week]))
    ensures Lookup(Node(week).fields, "safegraph_geometry") == Some(Geometry)
  {
    var f := Node(week).fields;
    assert f[..3][..2] == f[..2] && f[..2][..1] == f[..1];
    assert Lookup(f[..1], "placekey") == Some(JStr("222-222@5qw-shj-7qz"));
    assert Lookup(f[..2], "placekey") == Lookup(f[..1], "placekey");
    assert Lookup(f[..3], "placekey") == Lookup(f[..2], "placekey");
    assert Lookup(f[..2], "safegraph_core") == Some(Core);
    assert Lookup(f[..3], "safegraph_core") == Lookup(f[..2], "safegraph_core");
  }

  lemma NodeColumnNames()
    ensures "" + "node" + "." + "placekey" == "node.placekey"
    ensures "" + "node" + "." + "weekly_patterns" == WeeklyPatterns
  {
  }

  /** The two columns read straight under `node`. */
  lemma NodeColumns(week: Json)
    ensures "node.placekey" in Loaded(week) && Loaded(week)["node.placekey"] == Val(JStr("222-222@5qw-shj-7qz"))
    ensures WeeklyPatterns in Loaded(week) && Loaded(week)[WeeklyPatterns] == Val(JArr([week]))
  {
    PlaceKeyColumn(week);
    PatternsColumn(week);
  }

  lemma PlaceKeyColumn(week: Json)
    ensures "node.placekey" in Loaded(week) && Loaded(week)["node.placekey"] == Val(JStr("222-222@5qw-shj-7qz"))
  {
    EdgeKeysDotFree(week);
    NodeLookups(week);
    NodeColumnNames();
    NestedColumn(Edge(week), "", "node", "placekey");
  }

  lemma PatternsColumn(week: Json)
    ensures WeeklyPatterns in Loaded(week) && Loaded(week)[WeeklyPatterns] == Val(JArr([week]))
  {
    EdgeKeysDotFree(week);
    NodeLookups(week);
    NodeColumnNames();
    NestedColumn(Edge(week), "", "node", "weekly_patterns");
  }

  /** A column two levels under `node`: `node.<k1>.<k2>`, read from the record under `k1`. */
  lemma DeepColumn(week: Json, k1: string, k2: string, inner: Json)
    requires DotFree(k1) && DotFree(k2) && Lookup(Node(week).fields, k1) == Some(inner)
    requires inner.JObj? && Lookup(inner.fields, k2).Some? && !Lookup(inner.fields, k2).value.JObj?
    ensures "node." + k1 + "." + k2 in Loaded(week)
    ensures Loaded(week)["node." + k1 + "." + k2] == Val(Lookup(inner.fields, k2).value)
  {
    EdgeKeysDotFree(week);
    var key := "node." + k1 + "." + k2;
    assert "" + "node" + "." + (k1 + "." + k2) == key;
    assert "" + "node" + "." == "node.";
    assert Edge(week).fields[0..] == Edge(week).fields;
    ColumnUnderKey(Edge(week), 0, "", "node", k1 + "." + k2);
    assert KeysDotFree(Node(week));
    NestedColumn(Node(week), "node.", k1, k2);
  }

  /** What `d.get(k)` finds in `safegraph_core`. */
  lemma CoreLookups()
    ensures Lookup(Core.fields, "naics_code") == Some(JNum(722511.0))
    ensures Lookup(Core.fields, "top_category") == Some(JStr("Restaurants"))
    ensures Lookup(Core.fields, "sub_category") == Some(JStr("Full-Service Restaurants"))
    ensures Lookup(Core.fields, "location_name") == Some(JStr("Corner Bistro"))
  {
    var f := Core.fields;
    assert f[..3][..2] == f[..2] && f[..2][..1] == f[..1];
    assert Lookup(f[..1], "naics_code") == Some(JNum(722511.0));
    assert Lookup(f[..2], "naics_code") == Lookup(f[..1], "naics_code");
    assert Lookup(f[..3], "naics_code") == Lookup(f[..2], "naics_code");
    assert Lookup(f[..2], "top_category") == Some(JStr("Restaurants"));
    assert Lookup(f[..3], "top_category") == Lookup(f[..2], "top_category");
  }

  /** The names of the columns two levels under `node`. */
  lemma CoreColumnNames()
    ensures "node." + "safegraph_core" + "." + "location_name" == "node.safegraph_core.location_name"
    ensures "node." + "safegraph_core" + "." + "naics_code" == "node.safegraph_core.naics_code"
    ensures "node." + "safegraph_core" + "." + "top_category" == "node.safegraph_core.top_category"
    ensures "node." + "safegraph_core" + "." + "sub_category" == "node.safegraph_core.sub_category"
  {
    assert "node." + "safegraph_core" + "." == "node.safegraph_core.";
  }

  lemma GeometryColumnName()
    ensures "node." + "safegraph_geometry" + "." + "wkt_area_sq_meters" == "node.safegraph_geometry.wkt_area_sq_meters"
  {
    assert "node." + "safegraph_geometry" + "." == "node.safegraph_geometry.";
  }

  /** The four columns read from `safegraph_core`. */
  lemma CoreColumns(week: Json)
    ensures "node.safegraph_core.location_name" in Loaded(week)
    ensures Loaded(week)["node.safegraph_core.location_name"] == Val(JStr("Corner Bistro"))
    ensures "node.safegraph_core.naics_code" in Loaded(week)
    ensures Loaded(week)["node.safegraph_core.naics_code"] == Val(JNum(722511.0))
    ensures "node.safegraph_core.top_category" in Loaded(week)
    ensures Loaded(week)["node.safegraph_core.top_category"] == Val(JStr("Restaurants"))
    ensures "node.safegraph_core.sub_category" in Loaded(week)
    ensures Loaded(week)["node.safegraph_core.sub_category"] == Val(JStr("Full-Service Restaurants"))
  {
    CoreColumnNames();
    NodeLookups(week);
    CoreLookups();
    DeepColumn(week, "safegraph_core", "location_name", Core);
    DeepColumn(week, "safegraph_core", "naics_code", Core);
    DeepColumn(week, "safegraph_core", "top_category", Core);
    DeepColumn(week, "safegraph_core", "sub_category", Core);
  }

  /** The column read from `safegraph_geometry`. */
  lemma GeometryColumn(week: Json)
    ensures "node.safegraph_geometry.wkt_area_sq_meters" in Loaded(week)
    ensures Loaded(week)["node.safegraph_geometry.wkt_area_sq_meters"] == Val(JNum(250.0))
  {
    GeometryColumnName();
    NodeLookups(week);
    DeepColumn(week, "safegraph_geometry", "wkt_area_sq_meters", Geometry);
  }

  /** The file loads into one row. */
  lemma DocLoads(week: Json)
    ensures ExtractFromJson(Parsed(Doc(week))) == Ok([Loaded(week)])
  {
    EdgeKeysDotFree(week);
    NormalizeDotFree(Edge(week));
    var results := JObj([("edges", JArr([Edge(week)]))]);
    var places := JObj([("results", results)]);
    var search := JObj([("places", places)]);
    var data := JObj([("search", search)]);
    assert Subscript(Doc(week), "data") == Ok(data);
    assert Subscript(data, "search") == Ok(search);
    assert Subscript(search, "places") == Ok(places);
    assert Subscript(places, "results") == Ok(results);
    assert Subscript(results, "edges") == Ok(JArr([Edge(week)]));
    assert Edges(Doc(week)) == Ok(JArr([Edge(week)]));
    var items := [Edge(week)];
    assert forall i :: 0 <= i < |items| ==> !items[i].JArr?;
    var rows := Normalize(JArr(items)).value;
    assert |rows| == 1 && rows[0] == NormalizeItem(Edge(week));
    assert rows == [Loaded(week)];
  }

  /** A weekly-patterns entry whose `bucketed_dwell_times` `getValues` reads as seven values:
      missing, None, or a dict of seven entries with seven different keys. */
  predicate SevenBuckets(week: Json)
  {
    week.JObj? &&
    var b := Lookup(week.fields, "bucketed_dwell_times");
    b.None? || b.value.JNull? ||
    (b.value.JObj? && |b.value.fields| == 7 &&
     forall m, n :: 0 <= m < n < 7 ==> b.value.fields[m].0 != b.value.fields[n].0)
  }

  lemma WeekHasSevenBuckets()
    ensures SevenBuckets(Week)
  {
  }

  /** The loaded row's first weekly-pattern entry is the week; with seven buckets in it, the
      bucket value reads as seven values. */
  lemma LoadedWeek(week: Json)
    requires SevenBuckets(week)
    ensures FirstPattern(Loaded(week)) == Val(week)
    ensures GetValues(BucketCell(Loaded(week))).Ok? && |GetValues(BucketCell(Loaded(week))).value| == 7
  {
    NodeColumns(week);
    var b := Lookup(week.fields, "bucketed_dwell_times");
    if b.Some? && b.value.JObj? {
      DistinctKeysValues(b.value.fields);
    }
  }

  /** A selection of the loaded row's columns, as both scripts make one: the weekly
      patterns and the placekey among columns the row has. */
  predicate SampleColumns(cols: seq<string>)
  {
    WeeklyPatterns in cols && "node.placekey" in cols &&
    forall c :: c in cols ==> c in UnpackJson.UnpackColumns
  }

  lemma ScriptColumns()
    ensures SampleColumns(SafegraphColumns) && SampleColumns(UnpackJson.UnpackColumns)
  {
  }

  /** The loaded row has every column either script selects. */
  lemma LoadedHasColumns(week: Json)
    ensures forall c :: c in UnpackJson.UnpackColumns ==> HasColumn([Loaded(week)], c)
  {
    NodeColumns(week);
    CoreColumns(week);
    GeometryColumn(week);
    forall c | c in UnpackJson.UnpackColumns
      ensures HasColumn([Loaded(week)], c)
    {
      assert c in [Loaded(week)][0];
    }
  }

  /** With seven buckets in its week, the extraction of the loaded row goes through and
      gives one row. */
  lemma LoadedExtracts(week: Json, cols: seq<string>)
    requires SevenBuckets(week) && SampleColumns(cols)
    ensures ExtractRows([Loaded(week)], cols).Ok?
    ensures |ExtractRows([Loaded(week)], cols).value| == 1
  {
    var df := [Loaded(week)];
    LoadedHasColumns(week);
    LoadedWeek(week);
    assert BucketLists(df).value == [GetValues(BucketCell(Loaded(week))).value];
    assert MaxWidth(BucketLists(df).value) == 7;
    ExtractRowsOk(df, cols);
    ExtractRowsSpec(df, cols);
  }

  /** A file that loads and extracts, then a file that does not load: the run records the
      second file's name and keeps the first file's rows. */
  lemma GoodThenBadFile(p: Pipeline, dir: string, listing: map<string, seq<FileEntry>>, f1: FileEntry, f2: FileEntry)
    requires dir in listing && listing[dir] == [f1, f2]
    requires p.load(f1.content).Ok? && p.extract(p.load(f1.content).value).Ok?
    requires p.load(f2.content).Err?
    ensures RunDirs(p, [dir], listing) == Ok(State([f2.name], FileRows(p, f1)))
  {
    var files := [f1, f2];
    var r1 := FileRows(p, f1);
    assert [dir][..0] == [];
    assert NoCrash(p, files);
    RunFilesOk(p, State([], []), files);
    assert files[..1] == [f1] && [f1][..0] == [];
    assert !Fails(p.load, f1) && Fails(p.load, f2);
    assert FailedNames(p.load, [f1]) == FailedNames(p.load, []) + [];
    assert FailedNames(p.load, files) == FailedNames(p.load, [f1]) + [f2.name];
    assert FileBlocks(p, files) == [r1] + [[]];
    Seqs.FlattenSnoc([r1], []);
    assert [r1] == [] + [r1];
    Seqs.FlattenSnoc([], r1);
    assert Seqs.Flatten(FileBlocks(p, files)) == r1;
    assert RunDirs(p, [dir], listing) == RunFiles(p, State([], []), files);
    assert [] + [f2.name] == [f2.name] && [] + r1 == r1;
  }

  /** The same directory under `transform_dataframe` of src/etl/etl_unpack_json.py: the
      second file is recorded, `df` is left holding the first file's frame, and the one
      extraction of the directory is that frame's. */
  lemma UnpackGoodThenBadFile(p: Pipeline, dir: string, listing: map<string, seq<FileEntry>>, f1: FileEntry, f2: FileEntry)
    requires UnpackJson.ParseDirName(dir).Ok? && dir in listing && listing[dir] == [f1, f2]
    requires p.load(f1.content).Ok? && p.extract(p.load(f1.content).value).Ok?
    requires p.load(f2.content).Err?
    ensures UnpackJson.RunDirs(p, [dir], listing) ==
              Ok(UnpackJson.State([f2.name], p.extract(p.load(f1.content).value).value, Some(p.load(f1.content).value)))
  {
    var files := [f1, f2];
    assert [dir][..0] == [];
    UnpackJson.LastLoadedAt(p.load, files, None, 0);
    assert files[..1] == [f1] && [f1][..0] == [];
    assert !Fails(p.load, f1) && Fails(p.load, f2);
    assert FailedNames(p.load, [f1]) == FailedNames(p.load, []) + [];
    assert FailedNames(p.load, files) == FailedNames(p.load, [f1]) + [f2.name];
    var rows := p.extract(p.load(f1.content).value).value;
    assert UnpackJson.RunDirs(p, [dir], listing) == UnpackJson.DirStep(p, UnpackJson.State([], [], None), dir, listing);
    assert [] + [f2.name] == [f2.name] && [] + rows == rows;
  }

  /** A directory holding the downloaded place, then a file `json.load` rejects. */
  function Listing(dir: string, good: string, bad: string, week: Json): map<string, seq<FileEntry>>
  {
    map[dir := [FileEntry(good, Parsed(Doc(week))), FileEntry(bad, Unparsable)]]
  }

  /** Over that directory the run goes through, records the unparsable file and nothing
      else as bad, and keeps exactly one row: the extraction of the place. */
  lemma OneGoodOneBadFile(dir: string, good: string, bad: string, week: Json)
    requires SevenBuckets(week)
    ensures var r := RunDirs(Safegraph, [dir], Listing(dir, good, bad, week));
            r.Ok? && r.value.badFiles == [bad] && |r.value.weekly| == 1 &&
            ExtractRows([Loaded(week)], SafegraphColumns) == Ok(r.value.weekly)
  {
    var listing := Listing(dir, good, bad, week);
    DocLoads(week);
    ScriptColumns();
    LoadedExtracts(week, SafegraphColumns);
    GoodThenBadFile(Safegraph, dir, listing, listing[dir][0], listing[dir][1]);
  }

  /** The first script over a week directory holding the same two files: the same single
      row and single bad name, with `df` left holding the loaded place. */
  lemma UnpackOneGoodOneBadFile(dir: string, good: string, bad: string, week: Json)
    requires UnpackJson.ParseDirName(dir).Ok? && SevenBuckets(week)
    ensures var r := UnpackJson.RunDirs(UnpackJson.Unpack, [dir], Listing(dir, good, bad, week));
            r.Ok? && r.value.badFiles == [bad] && |r.value.weekly| == 1 &&
            ExtractRows([Loaded(week)], UnpackJson.UnpackColumns) == Ok(r.value.weekly) &&
            r.value.df == Some([Loaded(week)])
  {
    var listing := Listing(dir, good, bad, week);
    DocLoads(week);
    ScriptColumns();
    LoadedExtracts(week, UnpackJson.UnpackColumns);
    UnpackGoodThenBadFile(UnpackJson.Unpack, dir, listing, listing[dir][0], listing[dir][1]);
  }

  /** The extraction of the loaded row is one row, made as `ExtractedRow` says. */
  lemma LoadedRow(week: Json, cols: seq<string>)
    requires SevenBuckets(week) && SampleColumns(cols)
    ensures ExtractRows([Loaded(week)], cols).Ok?
    ensures var out := ExtractRows([Loaded(week)], cols).value;
            |out| == 1 && ExtractedRow(Loaded(week), out[0], cols)
  {
    LoadedExtracts(week, cols);
    ExtractRowsSpec([Loaded(week)], cols);
  }

  /** The placekey and the name are neither the weekly patterns nor a column the extraction
      derives. */
  lemma KeptNames()
    ensures "node.placekey" != WeeklyPatterns
    ensures !IsVisitsColumn("node.placekey") && !IsDwellColumn("node.placekey")
    ensures "node.safegraph_core.location_name" != WeeklyPatterns
    ensures !IsVisitsColumn("node.safegraph_core.location_name")
    ensures !IsDwellColumn("node.safegraph_core.location_name")
  {
  }

  /** What the extraction keeps of the place: its placekey; the weekly patterns themselves
      are gone. */
  lemma PlaceKeyCell(week: Json, out: Row, cols: seq<string>)
    requires "node.placekey" in cols && ExtractedRow(Loaded(week), out, cols)
    ensures WeeklyPatterns !in out
    ensures "node.placekey" in out && out["node.placekey"] == Val(JStr("222-222@5qw-shj-7qz"))
  {
    NodeColumns(week);
    KeptNames();
  }

  /** The first script also keeps the place's name. */
  lemma PlaceNameCell(week: Json, out: Row)
    requires ExtractedRow(Loaded(week), out, UnpackJson.UnpackColumns)
    ensures "node.safegraph_core.location_name" in out
    ensures out["node.safegraph_core.location_name"] == Val(JStr("Corner Bistro"))
  {
    CoreColumns(week);
    KeptNames();
    assert "node.safegraph_core.location_name" in UnpackJson.UnpackColumns;
  }

  /** The day visits, the median dwell and the buckets (by position) are the week's. */
  lemma PlacePatternCells(week: Json, out: Row, cols: seq<string>)
    requires SevenBuckets(week) && ExtractedRow(Loaded(week), out, cols)
    ensures forall j :: 0 <= j < 7 ==>
              DayColumns[j] in out &&
              out[DayColumns[j]] == StrGet(StrGet(StrGet(Val(week), Name("visits_by_day")), Idx(j)), Name("visits"))
    ensures MedianDwell in out && out[MedianDwell] == StrGet(Val(week), Name("median_dwell"))
    ensures GetValues(StrGet(Val(week), Name("bucketed_dwell_times"))).Ok? &&
            |GetValues(StrGet(Val(week), Name("bucketed_dwell_times"))).value| == 7
    ensures forall j :: 0 <= j < 7 ==>
              BucketColumns[j] in out &&
              out[BucketColumns[j]] == GetValues(StrGet(Val(week), Name("bucketed_dwell_times"))).value[j]
  {
    LoadedWeek(week);
  }

  /** The readings of the week above. */
  lemma WeekCells()
    ensures StrGet(StrGet(StrGet(Val(Week), Name("visits_by_day")), Idx(0)), Name("visits")) == Val(JNum(4.0))
    ensures StrGet(StrGet(StrGet(Val(Week), Name("visits_by_day")), Idx(6)), Name("visits")) == Val(JNum(6.0))
    ensures StrGet(Val(Week), Name("median_dwell")) == Val(JNum(35.0))
    ensures GetValues(StrGet(Val(Week), Name("bucketed_dwell_times"))).Ok?
    ensures GetValues(StrGet(Val(Week), Name("bucketed_dwell_times"))).value[0] == Val(JNum(2.0))
  {
    var f := Week.fields;
    WeekHasSevenBuckets();
    DistinctKeysValues(f[4].1.fields);
    assert Lookup(f[..1], "visits_by_day") == Some(f[0].1);
    assert Lookup(f[..2], "visits_by_day") == Lookup(f[..1], "visits_by_day") by { assert f[..2][..1] == f[..1]; }
    assert Lookup(f[..3], "visits_by_day") == Lookup(f[..2], "visits_by_day") by { assert f[..3][..2] == f[..2]; }
    assert Lookup(f[..4], "visits_by_day") == Lookup(f[..3], "visits_by_day") by { assert f[..4][..3] == f[..3]; }
    assert Lookup(f, "visits_by_day") == Lookup(f[..4], "visits_by_day");
  }

  /** The place above next to a truncated file, in the directory of one week of March 2020:
      the run records `truncated.json` and keeps one row, whose first and last day visits
      are 4 and 6, whose median dwell is 35 and whose `<5` bucket is 2. */
  lemma PlaceAndTruncatedFile()
    ensures var r := RunDirs(Safegraph, [Dir], Listing(Dir, "place.json", "truncated.json", Week));
            r.Ok? && r.value.badFiles == ["truncated.json"] && |r.value.weekly| == 1 &&
            var row := r.value.weekly[0];
            "node.placekey" in row && row["node.placekey"] == Val(JStr("222-222@5qw-shj-7qz")) &&
            DayColumns[0] in row && row[DayColumns[0]] == Val(JNum(4.0)) &&
            DayColumns[6] in row && row[DayColumns[6]] == Val(JNum(6.0)) &&
            MedianDwell in row && row[MedianDwell] == Val(JNum(35.0)) &&
            BucketColumns[0] in row && row[BucketColumns[0]] == Val(JNum(2.0)) &&
            WeeklyPatterns !in row
  {
    WeekHasSevenBuckets();
    OneGoodOneBadFile(Dir, "place.json", "truncated.json", Week);
    ScriptColumns();
    LoadedRow(Week, SafegraphColumns);
    var out := ExtractRows([Loaded(Week)], SafegraphColumns).value[0];
    PlaceKeyCell(Week, out, SafegraphColumns);
    PlacePatternCells(Week, out, SafegraphColumns);
    WeekCells();
  }

  /** The place next to a truncated file under the first script, in a week directory named
      by its two dates: `truncated.json` is recorded, and the one row keeps the placekey and
      the place's name, with a median dwell of 35. */
  lemma UnpackPlaceAndTruncatedFile(start: Dates.Date, end: Dates.Date)
    requires Dates.Valid(start) && Dates.Valid(end)
    ensures var dir := Dates.FormatDate(start) + "through" + Dates.FormatDate(end);
            var r := UnpackJson.RunDirs(UnpackJson.Unpack, [dir], Listing(dir, "place.json", "truncated.json", Week));
            r.Ok? && r.value.badFiles == ["truncated.json"] && |r.value.weekly| == 1 &&
            var row := r.value.weekly[0];
            "node.placekey" in row && row["node.placekey"] == Val(JStr("222-222@5qw-shj-7qz")) &&
            "node.safegraph_core.location_name" in row &&
            row["node.safegraph_core.location_name"] == Val(JStr("Corner Bistro")) &&
            MedianDwell in row && row[MedianDwell] == Val(JNum(35.0)) &&
            WeeklyPatterns !in row
  {
    WeekHasSevenBuckets();
    var dir := Dates.FormatDate(start) + "through" + Dates.FormatDate(end);
    UnpackJson.DirNameRoundTrip(start, end);
    UnpackOneGoodOneBadFile(dir, "place.json", "truncated.json", Week);
    ScriptColumns();
    LoadedRow(Week, UnpackJson.UnpackColumns);
    var out := ExtractRows([Loaded(Week)], UnpackJson.UnpackColumns).value[0];
    PlaceKeyCell(Week, out, UnpackJson.UnpackColumns);
    PlaceNameCell(Week, out);
    PlacePatternCells(Week, out, UnpackJson.UnpackColumns);
    WeekCells();
  }

  const Dir := "2020-03-02through2020-03-08"
}
