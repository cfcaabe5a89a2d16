/** `transform_dataframe` of src/etl/etl_unpack_json.py, as written. Its directory loop parses
    the directory name, then loads every file of the directory, skipping and recording the
    ones that fail; the extraction that follows sits after the file loop, so it runs once per
    directory, on whichever DataFrame was loaded last. */
module UnpackJson {
  import opened Wrappers
  import opened Frames
  import opened Runs
  import Dates
  import Strings
  import Seqs

  /** The columns this script keeps from each loaded record. */
  const UnpackColumns: seq<string> := [
    "node.placekey", "node.safegraph_core.naics_code", "node.safegraph_core.location_name",
    "node.weekly_patterns", "node.safegraph_core.top_category", "node.safegraph_core.sub_category",
    "node.safegraph_geometry.wkt_area_sq_meters"]

  /** This script's pipeline: the guarded block of lines 39-40 and the extraction of lines
      53-76 with the columns above. */
  const Unpack: Pipeline := Pipeline(ExtractFromJson, df => ExtractRows(df, UnpackColumns))

  /** `start, end = str.split(dir, 'through')` followed by `strptime(..., '%Y-%m-%d')` of each
      half: the name must hold 'through' exactly once, between two dates. */
  function ParseDirName(dir: string): Result<(Dates.Date, Dates.Date)>
  {
    var parts := Strings.Split(dir, "through");
    if |parts| != 2 then Err(ValueError)
    else
      match Dates.ParseDate(parts[0])
      case Err(e) => Err(e)
      case Ok(start) =>
        match Dates.ParseDate(parts[1])
        case Err(e) => Err(e)
        case Ok(end) => Ok((start, end))
  }

  /** The name is accepted exactly when it splits into two parts around 'through' and both
      parse as dates; it is then the two date strings joined by 'through'. Every rejection is
      a ValueError. */
  lemma ParseDirNameSpec(dir: string)
    ensures ParseDirName(dir).Ok? <==>
              var parts := Strings.Split(dir, "through");
              |parts| == 2 && Dates.ParseDate(parts[0]).Ok? && Dates.ParseDate(parts[1]).Ok?
    ensures ParseDirName(dir).Ok? ==>
              var parts := Strings.Split(dir, "through");
              ParseDirName(dir).value == (Dates.ParseDate(parts[0]).value, Dates.ParseDate(parts[1]).value) &&
              Dates.Valid(ParseDirName(dir).value.0) && Dates.Valid(ParseDirName(dir).value.1) &&
              dir == parts[0] + "through" + parts[1]
    ensures ParseDirName(dir).Err? ==> ParseDirName(dir).error == ValueError
  {
    var parts := Strings.Split(dir, "through");
    if |parts| == 2 {
      Strings.JoinSplit(dir, "through");
      assert Strings.Join(parts, "through") == parts[0] + "through" + Strings.Join(parts[1..], "through");
    }
  }

  /** A week directory named `<start>through<end>` with zero-padded dates is accepted and
      gives back the two dates. */
  lemma DirNameRoundTrip(start: Dates.Date, end: Dates.Date)
    requires Dates.Valid(start) && Dates.Valid(end)
    ensures ParseDirName(Dates.FormatDate(start) + "through" + Dates.FormatDate(end)) == Ok((start, end))
  {
    var a, b := Dates.FormatDate(start), Dates.FormatDate(end);
    Strings.ThroughFirstUnique();
    Strings.NoOccurrence(a, "through");
    Strings.NoOccurrence(b, "through");
    Strings.SplitAround(a, "through", b);
    Dates.FormatParse(start);
    Dates.FormatParse(end);
  }

  /** What the loop carries from one directory to the next. `df` is the variable the file
      loop assigns; it survives the loop and the directory. */
  datatype State = State(badFiles: seq<string>, weekly: Frame, df: Option<Frame>)

  /** `df` after the file loop: the frame of the last file that loaded, or what it was before
      the loop when none did. */
  function LastLoaded(load: Content -> Result<Frame>, files: seq<FileEntry>, prev: Option<Frame>): Option<Frame>
    decreases |files|
  {
    if files == [] then prev
    else
      var last := files[|files| - 1];
      match load(last.content)
      case Ok(df) => Some(df)
      case Err(_) => LastLoaded(load, files[..|files| - 1], prev)
  }

  /** When no file of the directory loads, `df` keeps the frame of an earlier directory. */
  lemma {:induction false} LastLoadedNone(load: Content -> Result<Frame>, files: seq<FileEntry>, prev: Option<Frame>)
    requires forall i :: 0 <= i < |files| ==> Fails(load, files[i])
    ensures LastLoaded(load, files, prev) == prev
    decreases |files|
  {
    if files != [] {
      LastLoadedNone(load, files[..|files| - 1], prev);
    }
  }

  /** The frame left in `df` is the one of the last file that loaded: files that fail after
      it do not change it. */
  lemma {:induction false} LastLoadedAt(load: Content -> Result<Frame>, files: seq<FileEntry>, prev: Option<Frame>, k: nat)
    requires k < |files| && !Fails(load, files[k])
    requires forall j :: k < j < |files| ==> Fails(load, files[j])
    ensures LastLoaded(load, files, prev) == Some(load(files[k].content).value)
    decreases |files|
  {
    if k < |files| - 1 {
      LastLoadedAt(load, files[..|files| - 1], prev, k);
    }
  }

  lemma {:induction false} LastLoadedAppend(load: Content -> Result<Frame>, a: seq<FileEntry>, b: seq<FileEntry>, prev: Option<Frame>)
    ensures LastLoaded(load, a + b, prev) == LastLoaded(load, b, LastLoaded(load, a, prev))
    decreases |b|
  {
    if b == [] {
      assert a + b == a;
    } else {
      var b' := b[..|b| - 1];
      assert (a + b)[..|a + b| - 1] == a + b';
      LastLoadedAppend(load, a, b', prev);
    }
  }

  /** One pass of the directory loop. */
  function DirStep(p: Pipeline, st: State, dir: string, listing: map<string, seq<FileEntry>>): Result<State>
  {
    match ParseDirName(dir)
    case Err(e) => Err(e)
    case Ok(_) =>
      if dir !in listing then Err(FileNotFoundError)
      else
        var files := listing[dir];
        var badFiles := st.badFiles + FailedNames(p.load, files);
        match LastLoaded(p.load, files, st.df)
        case None => Err(NameError)
        case Some(df) =>
          match p.extract(df)
          case Err(e) => Err(e)
          case Ok(rows) => Ok(State(badFiles, st.weekly + rows, Some(df)))
  }

  /** The state after the directory loop has run over `dirs`; the first failing pass ends it. */
  function RunDirs(p: Pipeline, dirs: seq<string>, listing: map<string, seq<FileEntry>>): Result<State>
    decreases |dirs|
  {
    if dirs == [] then Ok(State([], [], None))
    else
      match RunDirs(p, dirs[..|dirs| - 1], listing)
      case Err(e) => Err(e)
      case Ok(st) => DirStep(p, st, dirs[|dirs| - 1], listing)
  }

  /** The whole of `transform_dataframe(dirs, root, out_dir)`, `os.listdir` being `listing`. */
  function Transform(p: Pipeline, dirs: seq<string>, listing: map<string, seq<FileEntry>>, outDir: string): Result<BatchOutput>
  {
    match RunDirs(p, dirs, listing)
    case Err(e) => Err(e)
    case Ok(st) => WriteBatch(dirs, outDir, st.weekly, st.badFiles)
  }

  lemma {:induction false} RunDirsErr(p: Pipeline, dirs: seq<string>, listing: map<string, seq<FileEntry>>, k: nat)
    requires k <= |dirs| && RunDirs(p, dirs[..k], listing).Err?
    ensures RunDirs(p, dirs, listing) == RunDirs(p, dirs[..k], listing)
    decreases |dirs| - k
  {
    if k < |dirs| {
      assert dirs[..k + 1][..k] == dirs[..k];
      RunDirsErr(p, dirs, listing, k + 1);
    } else {
      assert dirs[..k] == dirs;
    }
  }

  lemma RunDirsNext(p: Pipeline, dirs: seq<string>, listing: map<string, seq<FileEntry>>, d: nat, st: State)
    requires d < |dirs| && RunDirs(p, dirs[..d], listing) == Ok(st)
    ensures RunDirs(p, dirs[..d + 1], listing) == DirStep(p, st, dirs[d], listing)
  {
    assert dirs[..d + 1][..d] == dirs[..d] && dirs[..d + 1][d] == dirs[d];
  }

  /** The loop's step: a pass that goes through extends the run by one directory, and one that
      raises is the outcome of the whole run. */
  lemma RunDirsStep(p: Pipeline, dirs: seq<string>, listing: map<string, seq<FileEntry>>, outDir: string,
                    d: nat, st: State, next: Result<State>)
    requires d < |dirs| && RunDirs(p, dirs[..d], listing) == Ok(st) && next == DirStep(p, st, dirs[d], listing)
    ensures next.Ok? ==> RunDirs(p, dirs[..d + 1], listing) == next
    ensures next.Err? ==> Transform(p, dirs, listing, outDir) == Err(next.error)
  {
    RunDirsNext(p, dirs, listing, d, st);
    if next.Err? {
      RunDirsErr(p, dirs, listing, d + 1);
    }
  }

  lemma RunDirsDone(p: Pipeline, dirs: seq<string>, listing: map<string, seq<FileEntry>>, outDir: string, st: State)
    requires RunDirs(p, dirs[..|dirs|], listing) == Ok(st)
    ensures Transform(p, dirs, listing, outDir) == WriteBatch(dirs, outDir, st.weekly, st.badFiles)
  {
    assert dirs[..|dirs|] == dirs;
  }

  /** The file loop of one directory: load each file, record the failures, keep the last
      frame that loaded. */
  method LoadDirectory(load: Content -> Result<Frame>, files: seq<FileEntry>, badFiles0: seq<string>, df0: Option<Frame>)
    returns (badFiles: seq<string>, df: Option<Frame>)
    ensures badFiles == badFiles0 + FailedNames(load, files)
    ensures df == LastLoaded(load, files, df0)
  {
    badFiles, df := badFiles0, df0;
    var f := 0;
    while f < |files|
      invariant 0 <= f <= |files|
      invariant badFiles == badFiles0 + FailedNames(load, files[..f])
      invariant df == LastLoaded(load, files[..f], df0)
    {
      assert files[..f + 1][..f] == files[..f] && files[..f + 1][f] == files[f];
      var loaded := load(files[f].content);
      if loaded.Err? {
        badFiles := badFiles + [files[f].name];
      } else {
        df := Some(loaded.value);
      }
      f := f + 1;
    }
    assert files[..f] == files;
  }

  /** One pass of the directory loop, statement by statement. */
  method ProcessDirectory(p: Pipeline, st: State, dir: string, listing: map<string, seq<FileEntry>>) returns (r: Result<State>)
    ensures r == DirStep(p, st, dir, listing)
  {
    var dates := ParseDirName(dir);
    if dates.Err? {
      return Err(dates.error);
    }
    if dir !in listing {
      return Err(FileNotFoundError);
    }
    var badFiles, df := LoadDirectory(p.load, listing[dir], st.badFiles, st.df);
    if df.None? {
      return Err(NameError);
    }
    var subDf := p.extract(df.value);
    if subDf.Err? {
      return Err(subDf.error);
    }
    return Ok(State(badFiles, st.weekly + subDf.value, df));
  }

  /** `transform_dataframe` with its two loops. */
  method TransformDataframe(p: Pipeline, dirs: seq<string>, listing: map<string, seq<FileEntry>>, outDir: string)
    returns (r: Result<BatchOutput>)
    ensures r == Transform(p, dirs, listing, outDir)
  {
    var st := State([], [], None);
    for d := 0 to |dirs|
      invariant RunDirs(p, dirs[..d], listing) == Ok(st)
    {
      var next := ProcessDirectory(p, st, dirs[d], listing);
      RunDirsStep(p, dirs, listing, outDir, d, st, next);
      if next.Err? {
        return Err(next.error);
      }
      st := next.value;
    }
    RunDirsDone(p, dirs, listing, outDir, st);
    r := WriteBatch(dirs, outDir, st.weekly, st.badFiles);
  }

  // ---------------------------------------------------------------- what a run computes

  /** The rows the extraction after the file loop produces once `files` have been visited:
      those of the frame loaded last among them (no rows when there is none, or when the
      extraction fails). */
  function RowsAfter(p: Pipeline, files: seq<FileEntry>): Frame
  {
    match LastLoaded(p.load, files, None)
    case None => []
    case Some(df) =>
      match p.extract(df)
      case Err(_) => []
      case Ok(rows) => rows
  }

  /** The block each directory appends to `weekly_df`, directory by directory. */
  function DirBlocks(p: Pipeline, dirs: seq<string>, listing: map<string, seq<FileEntry>>): (r: seq<Frame>)
    ensures |r| == |dirs|
    decreases |dirs|
  {
    if dirs == [] then []
    else DirBlocks(p, dirs[..|dirs| - 1], listing) + [RowsAfter(p, AllFiles(dirs, listing))]
  }

  /** The block of directory `j` is extracted from the frame loaded last among all the files
      of directories `0..j`, whichever directory that file was in. */
  lemma {:induction false} DirBlocksAt(p: Pipeline, dirs: seq<string>, listing: map<string, seq<FileEntry>>, j: nat)
    requires j < |dirs|
    ensures DirBlocks(p, dirs, listing)[j] == RowsAfter(p, AllFiles(dirs[..j + 1], listing))
    decreases |dirs|
  {
    if j < |dirs| - 1 {
      var init := dirs[..|dirs| - 1];
      DirBlocksAt(p, init, listing, j);
      assert init[..j + 1] == dirs[..j + 1];
    } else {
      assert dirs[..j + 1] == dirs;
    }
  }

  /** A pass that goes through has parsed and listed its directory, recorded its failing
      files, left `df` at the last frame loaded, and appended that frame's extraction. */
  lemma DirStepOk(p: Pipeline, st0: State, dir: string, listing: map<string, seq<FileEntry>>)
    requires DirStep(p, st0, dir, listing).Ok?
    ensures ParseDirName(dir).Ok? && dir in listing
    ensures var st := DirStep(p, st0, dir, listing).value;
            st.badFiles == st0.badFiles + FailedNames(p.load, listing[dir]) &&
            st.df == LastLoaded(p.load, listing[dir], st0.df) && st.df.Some? &&
            p.extract(st.df.value).Ok? &&
            st.weekly == st0.weekly + p.extract(st.df.value).value
  {
  }

  /** A run that completes has recorded as bad every file that failed to load, in visiting
      order. */
  lemma {:induction false} RunDirsBadFiles(p: Pipeline, dirs: seq<string>, listing: map<string, seq<FileEntry>>)
    requires RunDirs(p, dirs, listing).Ok?
    ensures RunDirs(p, dirs, listing).value.badFiles == FailedNames(p.load, AllFiles(dirs, listing))
    decreases |dirs|
  {
    if dirs != [] {
      var init, dir := dirs[..|dirs| - 1], dirs[|dirs| - 1];
      assert RunDirs(p, init, listing).Ok?;
      RunDirsBadFiles(p, init, listing);
      DirStepOk(p, RunDirs(p, init, listing).value, dir, listing);
      FailedNamesAppend(p.load, AllFiles(init, listing), listing[dir]);
    }
  }

  /** After a run that completes, `df` holds the frame loaded last of all, and there is one. */
  lemma {:induction false} RunDirsFrame(p: Pipeline, dirs: seq<string>, listing: map<string, seq<FileEntry>>)
    requires RunDirs(p, dirs, listing).Ok?
    ensures RunDirs(p, dirs, listing).value.df == LastLoaded(p.load, AllFiles(dirs, listing), None)
    ensures dirs != [] ==> RunDirs(p, dirs, listing).value.df.Some?
    decreases |dirs|
  {
    if dirs != [] {
      var init, dir := dirs[..|dirs| - 1], dirs[|dirs| - 1];
      assert RunDirs(p, init, listing).Ok?;
      RunDirsFrame(p, init, listing);
      DirStepOk(p, RunDirs(p, init, listing).value, dir, listing);
      LastLoadedAppend(p.load, AllFiles(init, listing), listing[dir], None);
    }
  }

  /** A run that completes leaves in `weekly_df` the directory blocks end to end. */
  lemma {:induction false} RunDirsWeekly(p: Pipeline, dirs: seq<string>, listing: map<string, seq<FileEntry>>)
    requires RunDirs(p, dirs, listing).Ok?
    ensures RunDirs(p, dirs, listing).value.weekly == Seqs.Flatten(DirBlocks(p, dirs, listing))
    decreases |dirs|
  {
    if dirs != [] {
      var init, dir := dirs[..|dirs| - 1], dirs[|dirs| - 1];
      assert RunDirs(p, init, listing).Ok?;
      RunDirsWeekly(p, init, listing);
      RunDirsFrame(p, dirs, listing);
      var st0 := RunDirs(p, init, listing).value;
      DirStepOk(p, st0, dir, listing);
      Seqs.FlattenSnoc(DirBlocks(p, init, listing), RowsAfter(p, AllFiles(dirs, listing)));
    }
  }

  /** A run that ends well went well up to every point. */
  lemma RunDirsPrefixOk(p: Pipeline, dirs: seq<string>, listing: map<string, seq<FileEntry>>, k: nat)
    requires k <= |dirs| && RunDirs(p, dirs, listing).Ok?
    ensures RunDirs(p, dirs[..k], listing).Ok?
  {
    if RunDirs(p, dirs[..k], listing).Err? {
      RunDirsErr(p, dirs, listing, k);
    }
  }

  /** A run that completes has parsed the name of every directory and found it listed. */
  lemma RunDirsListed(p: Pipeline, dirs: seq<string>, listing: map<string, seq<FileEntry>>)
    requires RunDirs(p, dirs, listing).Ok?
    ensures forall i :: 0 <= i < |dirs| ==> ParseDirName(dirs[i]).Ok? && dirs[i] in listing
  {
    forall i | 0 <= i < |dirs|
      ensures ParseDirName(dirs[i]).Ok? && dirs[i] in listing
    {
      RunDirsPrefixOk(p, dirs, listing, i);
      RunDirsPrefixOk(p, dirs, listing, i + 1);
      RunDirsNext(p, dirs, listing, i, RunDirs(p, dirs[..i], listing).value);
      DirStepOk(p, RunDirs(p, dirs[..i], listing).value, dirs[i], listing);
    }
  }

  /** If the first directory's files all fail to load, nothing has ever bound `df` when the
      extraction runs, and the run ends in NameError. */
  lemma NothingLoadedFails(p: Pipeline, dirs: seq<string>, listing: map<string, seq<FileEntry>>)
    requires dirs != [] && ParseDirName(dirs[0]).Ok? && dirs[0] in listing
    requires forall i :: 0 <= i < |listing[dirs[0]]| ==> Fails(p.load, listing[dirs[0]][i])
    ensures RunDirs(p, dirs, listing) == Err(NameError)
  {
    LastLoadedNone(p.load, listing[dirs[0]], None);
    RunDirsNext(p, dirs, listing, 0, State([], [], None));
    RunDirsErr(p, dirs, listing, 1);
  }

  /** A directory whose name does not split into two dates ends the run in ValueError, once
      the directories before it have gone through. */
  lemma BadDirNameFails(p: Pipeline, dirs: seq<string>, listing: map<string, seq<FileEntry>>, j: nat)
    requires j < |dirs| && RunDirs(p, dirs[..j], listing).Ok?
    requires ParseDirName(dirs[j]).Err?
    ensures RunDirs(p, dirs, listing) == Err(ValueError)
  {
    ParseDirNameSpec(dirs[j]);
    RunDirsNext(p, dirs, listing, j, RunDirs(p, dirs[..j], listing).value);
    RunDirsErr(p, dirs, listing, j + 1);
  }

  /** Within a directory only the last file that loads contributes rows: the block of
      directory `j` is the extraction of file `k`'s frame when the files after `k` fail. */
  lemma LastFileOnly(p: Pipeline, dirs: seq<string>, listing: map<string, seq<FileEntry>>, j: nat, k: nat)
    requires j < |dirs| && dirs[j] in listing
    requires k < |listing[dirs[j]]| && !Fails(p.load, listing[dirs[j]][k])
    requires forall m :: k < m < |listing[dirs[j]]| ==> Fails(p.load, listing[dirs[j]][m])
    ensures var rows := p.extract(p.load(listing[dirs[j]][k].content).value);
            DirBlocks(p, dirs, listing)[j] == (if rows.Ok? then rows.value else [])
  {
    var pre := dirs[..j + 1];
    assert pre[..j] == dirs[..j] && pre[j] == dirs[j];
    DirBlocksAt(p, dirs, listing, j);
    LastLoadedAppend(p.load, AllFiles(dirs[..j], listing), listing[dirs[j]], None);
    LastLoadedAt(p.load, listing[dirs[j]], LastLoaded(p.load, AllFiles(dirs[..j], listing), None), k);
  }

  /** A directory whose files all fail to load leaves `df` as it was, and the extraction after
      its file loop appends the previous directory's rows a second time. */
  lemma StaleFrameRepeats(p: Pipeline, dirs: seq<string>, listing: map<string, seq<FileEntry>>, j: nat)
    requires 0 < j < |dirs|
    requires forall m :: 0 <= m < |FilesOf(listing, dirs[j])| ==> Fails(p.load, FilesOf(listing, dirs[j])[m])
    ensures DirBlocks(p, dirs, listing)[j] == DirBlocks(p, dirs, listing)[j - 1]
  {
    var pre := dirs[..j + 1];
    assert pre[..j] == dirs[..j] && pre[j] == dirs[j];
    DirBlocksAt(p, dirs, listing, j);
    DirBlocksAt(p, dirs, listing, j - 1);
    assert dirs[..j - 1 + 1] == dirs[..j];
    LastLoadedAppend(p.load, AllFiles(dirs[..j], listing), FilesOf(listing, dirs[j]), None);
    LastLoadedNone(p.load, FilesOf(listing, dirs[j]), LastLoaded(p.load, AllFiles(dirs[..j], listing), None));
  }
}
