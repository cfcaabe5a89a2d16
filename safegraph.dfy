/** `transform_dataframe` of src/etl/safegraph_etl.py: the same loading and the same extraction
    as the first unpacker, but with the extraction inside the file loop, so that every file
    that loads contributes its own rows. Only the load sits inside the `try`: a failing
    extraction is not caught and ends the run. Directory names are not parsed. The names the
    script leaves unbound (`root`, `dirs`, the `a` of `extract_from_json`) are taken to be the
    data root, `in_dirs` and the loaded document; `getValues` and `pickle` are taken to be in
    scope. */
module SafegraphEtl {
  import opened Wrappers
  import opened Frames
  import opened Runs
  import Seqs
  import UnpackJson

  /** The columns this script keeps from each loaded record (no location name). */
  const SafegraphColumns: seq<string> := [
    "node.placekey", "node.safegraph_core.naics_code", "node.weekly_patterns",
    "node.safegraph_core.top_category", "node.safegraph_core.sub_category",
    "node.safegraph_geometry.wkt_area_sq_meters"]

  /** This script's pipeline: `extract_from_json` and the extraction of lines 56-63. */
  const Safegraph: Pipeline := Pipeline(ExtractFromJson, df => ExtractRows(df, SafegraphColumns))

  /** What the loops carry: `bad_files` and `weekly_df`. */
  datatype State = State(badFiles: seq<string>, weekly: Frame)

  /** A file that loads but whose extraction raises, outside the `try`. */
  predicate Crashes(p: Pipeline, f: FileEntry)
  {
    p.load(f.content).Ok? && p.extract(p.load(f.content).value).Err?
  }

  /** One pass of the file loop. */
  function FileStep(p: Pipeline, st: State, f: FileEntry): Result<State>
  {
    match p.load(f.content)
    case Err(_) => Ok(State(st.badFiles + [f.name], st.weekly))
    case Ok(df) =>
      match p.extract(df)
      case Err(e) => Err(e)
      case Ok(rows) => Ok(State(st.badFiles, st.weekly + rows))
  }

  /** The file loop over `files`, from `st`; the first crash ends it. */
  function RunFiles(p: Pipeline, st: State, files: seq<FileEntry>): Result<State>
    decreases |files|
  {
    if files == [] then Ok(st)
    else
      match RunFiles(p, st, files[..|files| - 1])
      case Err(e) => Err(e)
      case Ok(s) => FileStep(p, s, files[|files| - 1])
  }

  /** One pass of the directory loop: list the directory, then run the file loop on it. */
  function DirStep(p: Pipeline, st: State, dir: string, listing: map<string, seq<FileEntry>>): Result<State>
  {
    if dir !in listing then Err(FileNotFoundError) else RunFiles(p, st, listing[dir])
  }

  /** The state after the directory loop has run over `dirs`. */
  function RunDirs(p: Pipeline, dirs: seq<string>, listing: map<string, seq<FileEntry>>): Result<State>
    decreases |dirs|
  {
    if dirs == [] then Ok(State([], []))
    else
      match RunDirs(p, dirs[..|dirs| - 1], listing)
      case Err(e) => Err(e)
      case Ok(st) => DirStep(p, st, dirs[|dirs| - 1], listing)
  }

  /** The whole of `transform_dataframe(in_dirs, out_dir)`. */
  function Transform(p: Pipeline, dirs: seq<string>, listing: map<string, seq<FileEntry>>, outDir: string): Result<BatchOutput>
  {
    match RunDirs(p, dirs, listing)
    case Err(e) => Err(e)
    case Ok(st) => WriteBatch(dirs, outDir, st.weekly, st.badFiles)
  }

  // ---------------------------------------------------------------- the loops, statement by statement

  lemma {:induction false} RunFilesErr(p: Pipeline, st: State, files: seq<FileEntry>, k: nat)
    requires k <= |files| && RunFiles(p, st, files[..k]).Err?
    ensures RunFiles(p, st, files) == RunFiles(p, st, files[..k])
    decreases |files| - k
  {
    if k < |files| {
      assert files[..k + 1][..k] == files[..k];
      RunFilesErr(p, st, files, k + 1);
    } else {
      assert files[..k] == files;
    }
  }

  lemma RunFilesNext(p: Pipeline, st0: State, files: seq<FileEntry>, f: nat, st: State)
    requires f < |files| && RunFiles(p, st0, files[..f]) == Ok(st)
    ensures RunFiles(p, st0, files[..f + 1]) == FileStep(p, st, files[f])
  {
    assert files[..f + 1][..f] == files[..f] && files[..f + 1][f] == files[f];
  }

  /** The file loop of one directory. */
  method ProcessFiles(p: Pipeline, st0: State, files: seq<FileEntry>) returns (r: Result<State>)
    ensures r == RunFiles(p, st0, files)
  {
    var st := st0;
    for f := 0 to |files|
      invariant RunFiles(p, st0, files[..f]) == Ok(st)
    {
      RunFilesNext(p, st0, files, f, st);
      var loaded := p.load(files[f].content);
      if loaded.Err? {
        st := State(st.badFiles + [files[f].name], st.weekly);
      } else {
        var subDf := p.extract(loaded.value);
        if subDf.Err? {
          RunFilesErr(p, st0, files, f + 1);
          return Err(subDf.error);
        }
        st := State(st.badFiles, st.weekly + subDf.value);
      }
    }
    assert files[..|files|] == files;
    r := Ok(st);
  }

  lemma {:induction false} RunDirsErr(p: Pipeline, dirs: seq<string>, listing: map<string, seq<FileEntry>>, k: nat)
    requires k <= |dirs| && RunDirs(p, dirs[..k], listing).Err?
    ensures RunDirs(p, dirs, listing) == RunDirs(p, dirs[..k], listing)
    decreases |dirs| - k
  {
    if k < |dirs| {
      assert dirs[..k + 1][..k] == dirs[..k];
      RunDirsErr(p, dirs, listing, k + 1);
    } else {
      assert dirs[..k] == dirs;
    }
  }

  /** The directory loop's step: a pass that goes through extends the run by one directory,
      and one that raises is the outcome of the whole run. */
  lemma RunDirsStep(p: Pipeline, dirs: seq<string>, listing: map<string, seq<FileEntry>>, outDir: string,
                    d: nat, st: State, next: Result<State>)
    requires d < |dirs| && RunDirs(p, dirs[..d], listing) == Ok(st) && next == DirStep(p, st, dirs[d], listing)
    ensures next.Ok? ==> RunDirs(p, dirs[..d + 1], listing) == next
    ensures next.Err? ==> Transform(p, dirs, listing, outDir) == Err(next.error)
  {
    assert dirs[..d + 1][..d] == dirs[..d] && dirs[..d + 1][d] == dirs[d];
    if next.Err? {
      RunDirsErr(p, dirs, listing, d + 1);
    }
  }

  /** `transform_dataframe` with its two loops. */
  method TransformDataframe(p: Pipeline, dirs: seq<string>, listing: map<string, seq<FileEntry>>, outDir: string)
    returns (r: Result<BatchOutput>)
    ensures r == Transform(p, dirs, listing, outDir)
  {
    var st := State([], []);
    for d := 0 to |dirs|
      invariant RunDirs(p, dirs[..d], listing) == Ok(st)
    {
      var next: Result<State>;
      if dirs[d] !in listing {
        next := Err(FileNotFoundError);
      } else {
        next := ProcessFiles(p, st, listing[dirs[d]]);
      }
      RunDirsStep(p, dirs, listing, outDir, d, st, next);
      if next.Err? {
        return Err(next.error);
      }
      st := next.value;
    }
    assert dirs[..|dirs|] == dirs;
    r := WriteBatch(dirs, outDir, st.weekly, st.badFiles);
  }

  // ---------------------------------------------------------------- what a run computes

  /** The rows a file contributes: its extraction when it loads, nothing when it does not. */
  function FileRows(p: Pipeline, f: FileEntry): Frame
  {
    match p.load(f.content)
    case Err(_) => []
    case Ok(df) =>
      match p.extract(df)
      case Err(_) => []
      case Ok(rows) => rows
  }

  function FileBlocks(p: Pipeline, files: seq<FileEntry>): seq<Frame>
  {
    seq(|files|, i requires 0 <= i < |files| => FileRows(p, files[i]))
  }

  predicate NoCrash(p: Pipeline, files: seq<FileEntry>)
  {
    forall i :: 0 <= i < |files| ==> !Crashes(p, files[i])
  }

  /** A file that does not crash is either recorded as bad or has its rows appended. */
  lemma FileStepOk(p: Pipeline, st: State, f: FileEntry)
    requires !Crashes(p, f)
    ensures FileStep(p, st, f) ==
              Ok(State(st.badFiles + (if Fails(p.load, f) then [f.name] else []), st.weekly + FileRows(p, f)))
  {
    if Fails(p.load, f) {
      assert st.weekly + FileRows(p, f) == st.weekly;
    } else {
      assert st.badFiles + [] == st.badFiles;
    }
  }

  /** A file loop without crashes records every file that fails to load, in order, and
      appends the rows of every file that loads, in order. */
  lemma {:induction false} RunFilesOk(p: Pipeline, st: State, files: seq<FileEntry>)
    requires NoCrash(p, files)
    ensures RunFiles(p, st, files) ==
              Ok(State(st.badFiles + FailedNames(p.load, files), st.weekly + Seqs.Flatten(FileBlocks(p, files))))
    decreases |files|
  {
    if files == [] {
      assert FileBlocks(p, files) == [];
      assert st.badFiles + [] == st.badFiles && st.weekly + [] == st.weekly;
    } else {
      var init, last := files[..|files| - 1], files[|files| - 1];
      assert files == init + [last];
      NoCrashAppend(p, init, [last]);
      RunFilesOk(p, st, init);
      var s := RunFiles(p, st, init).value;
      FileStepOk(p, s, last);
      var tail := if Fails(p.load, last) then [last.name] else [];
      assert RunFiles(p, st, files) == Ok(State(s.badFiles + tail, s.weekly + FileRows(p, last)));
      assert FailedNames(p.load, files) == FailedNames(p.load, init) + tail;
      FileBlocksAppend(p, init, [last]);
      assert FileBlocks(p, [last]) == [FileRows(p, last)];
      Seqs.FlattenSnoc(FileBlocks(p, init), FileRows(p, last));
      assert Seqs.Flatten(FileBlocks(p, files)) == Seqs.Flatten(FileBlocks(p, init)) + FileRows(p, last);
      assert s.badFiles + tail == st.badFiles + (FailedNames(p.load, init) + tail);
      assert s.weekly + FileRows(p, last) == st.weekly + (Seqs.Flatten(FileBlocks(p, init)) + FileRows(p, last));
    }
  }

  /** A file that loads and whose extraction raises ends the file loop with that error, when
      no file before it did the same. */
  lemma RunFilesCrash(p: Pipeline, st: State, files: seq<FileEntry>, k: nat)
    requires k < |files| && Crashes(p, files[k]) && NoCrash(p, files[..k])
    ensures RunFiles(p, st, files) == Err(p.extract(p.load(files[k].content).value).error)
  {
    RunFilesOk(p, st, files[..k]);
    RunFilesNext(p, st, files, k, RunFiles(p, st, files[..k]).value);
    RunFilesErr(p, st, files, k + 1);
  }

  /** The file loop goes through exactly when no file crashes. */
  lemma {:induction false} RunFilesOkIff(p: Pipeline, st: State, files: seq<FileEntry>)
    ensures RunFiles(p, st, files).Ok? <==> NoCrash(p, files)
    decreases |files|
  {
    if NoCrash(p, files) {
      RunFilesOk(p, st, files);
    } else {
      var init, last := files[..|files| - 1], files[|files| - 1];
      RunFilesOkIff(p, st, init);
      if NoCrash(p, init) {
        assert Crashes(p, last);
        RunFilesCrash(p, st, files, |files| - 1);
      }
    }
  }

  lemma NoCrashAppend(p: Pipeline, a: seq<FileEntry>, b: seq<FileEntry>)
    ensures NoCrash(p, a + b) <==> NoCrash(p, a) && NoCrash(p, b)
  {
    if NoCrash(p, a) && NoCrash(p, b) {
      forall i | 0 <= i < |a + b|
        ensures !Crashes(p, (a + b)[i])
      {
        if i >= |a| {
          assert (a + b)[i] == b[i - |a|];
        }
      }
    }
    if NoCrash(p, a + b) {
      forall i | 0 <= i < |a|
        ensures !Crashes(p, a[i])
      {
        assert (a + b)[i] == a[i];
      }
      forall i | 0 <= i < |b|
        ensures !Crashes(p, b[i])
      {
        assert (a + b)[|a| + i] == b[i];
      }
    }
  }

  lemma FileBlocksAppend(p: Pipeline, a: seq<FileEntry>, b: seq<FileEntry>)
    ensures FileBlocks(p, a + b) == FileBlocks(p, a) + FileBlocks(p, b)
  {
  }

  /** Every directory is listed. */
  predicate Listed(dirs: seq<string>, listing: map<string, seq<FileEntry>>)
  {
    forall i :: 0 <= i < |dirs| ==> dirs[i] in listing
  }

  /** One directory pass goes through exactly when the directory is listed and none of its
      files crashes; it then records the files that fail to load and appends the rows of the
      others. */
  lemma DirStepSpec(p: Pipeline, st: State, dir: string, listing: map<string, seq<FileEntry>>)
    ensures DirStep(p, st, dir, listing).Ok? <==> dir in listing && NoCrash(p, listing[dir])
    ensures DirStep(p, st, dir, listing).Ok? ==>
              DirStep(p, st, dir, listing).value ==
                State(st.badFiles + FailedNames(p.load, listing[dir]), st.weekly + Seqs.Flatten(FileBlocks(p, listing[dir])))
  {
    if dir in listing {
      RunFilesOkIff(p, st, listing[dir]);
      if NoCrash(p, listing[dir]) {
        RunFilesOk(p, st, listing[dir]);
      }
    }
  }

  /** A run goes through exactly when every directory is listed and no file crashes. */
  lemma {:induction false} RunDirsOkIff(p: Pipeline, dirs: seq<string>, listing: map<string, seq<FileEntry>>)
    ensures RunDirs(p, dirs, listing).Ok? <==> Listed(dirs, listing) && NoCrash(p, AllFiles(dirs, listing))
    decreases |dirs|
  {
    if dirs != [] {
      var init, dir := dirs[..|dirs| - 1], dirs[|dirs| - 1];
      RunDirsOkIff(p, init, listing);
      NoCrashAppend(p, AllFiles(init, listing), FilesOf(listing, dir));
      assert Listed(dirs, listing) <==> Listed(init, listing) && dir in listing by {
        if Listed(init, listing) && dir in listing {
          forall i | 0 <= i < |dirs| ensures dirs[i] in listing {
            if i < |init| { assert dirs[i] == init[i]; }
          }
        }
        if Listed(dirs, listing) {
          forall i | 0 <= i < |init| ensures init[i] in listing {
            assert init[i] == dirs[i];
          }
        }
      }
      if RunDirs(p, init, listing).Ok? {
        DirStepSpec(p, RunDirs(p, init, listing).value, dir, listing);
      }
    }
  }

  /** A run that goes through has recorded every file that failed to load, each once, in
      visiting order, and left in `weekly_df` the rows of every file that loaded, in visiting
      order. */
  lemma {:induction false} RunDirsSpec(p: Pipeline, dirs: seq<string>, listing: map<string, seq<FileEntry>>)
    requires RunDirs(p, dirs, listing).Ok?
    ensures RunDirs(p, dirs, listing).value ==
              State(FailedNames(p.load, AllFiles(dirs, listing)), Seqs.Flatten(FileBlocks(p, AllFiles(dirs, listing))))
    decreases |dirs|
  {
    if dirs == [] {
      assert FileBlocks(p, []) == [];
    } else {
      var init, dir := dirs[..|dirs| - 1], dirs[|dirs| - 1];
      assert RunDirs(p, init, listing).Ok?;
      RunDirsSpec(p, init, listing);
      var before := AllFiles(init, listing);
      DirStepSpec(p, RunDirs(p, init, listing).value, dir, listing);
      var files := listing[dir];
      FailedNamesAppend(p.load, before, files);
      FileBlocksAppend(p, before, files);
      Seqs.FlattenAppend(FileBlocks(p, before), FileBlocks(p, files));
    }
  }

  /** A run that goes through has its rows made of per-file blocks: the block of file `k`
      (in visiting order) is that file's extraction, or nothing when the file failed to load. */
  lemma RunDirsBlocks(p: Pipeline, dirs: seq<string>, listing: map<string, seq<FileEntry>>, k: nat)
    requires RunDirs(p, dirs, listing).Ok? && k < |AllFiles(dirs, listing)|
    ensures var files := AllFiles(dirs, listing);
            var at := Seqs.Offset(FileBlocks(p, files), k);
            at + |FileRows(p, files[k])| <= |RunDirs(p, dirs, listing).value.weekly| &&
            RunDirs(p, dirs, listing).value.weekly[at..at + |FileRows(p, files[k])|] == FileRows(p, files[k])
  {
    RunDirsSpec(p, dirs, listing);
    Seqs.FlattenBlock(FileBlocks(p, AllFiles(dirs, listing)), k);
  }

  // ---------------------------------------------------------------- comparison with the first unpacker

  /** A directory holding two files that both load and extract: the first unpacker appends
      only the second file's rows, this script appends both files' rows in order. */
  lemma LastFileVsEveryFile(p: Pipeline, dir: string, listing: map<string, seq<FileEntry>>, f1: FileEntry, f2: FileEntry)
    requires UnpackJson.ParseDirName(dir).Ok? && dir in listing && listing[dir] == [f1, f2]
    requires p.load(f1.content).Ok? && p.extract(p.load(f1.content).value).Ok?
    requires p.load(f2.content).Ok? && p.extract(p.load(f2.content).value).Ok?
    ensures UnpackJson.RunDirs(p, [dir], listing).Ok?
    ensures UnpackJson.RunDirs(p, [dir], listing).value.weekly == FileRows(p, f2)
    ensures RunDirs(p, [dir], listing) == Ok(State([], FileRows(p, f1) + FileRows(p, f2)))
  {
    UnpackTwoFiles(p, dir, listing, f1, f2);
    EveryFileTwoFiles(p, dir, listing, f1, f2);
  }

  lemma UnpackTwoFiles(p: Pipeline, dir: string, listing: map<string, seq<FileEntry>>, f1: FileEntry, f2: FileEntry)
    requires UnpackJson.ParseDirName(dir).Ok? && dir in listing && listing[dir] == [f1, f2]
    requires p.load(f2.content).Ok? && p.extract(p.load(f2.content).value).Ok?
    ensures UnpackJson.RunDirs(p, [dir], listing).Ok?
    ensures UnpackJson.RunDirs(p, [dir], listing).value.weekly == FileRows(p, f2)
  {
    assert [dir][..0] == [];
    UnpackJson.LastLoadedAt(p.load, [f1, f2], None, 1);
    var rows := p.extract(p.load(f2.content).value).value;
    assert UnpackJson.RunDirs(p, [dir], listing) == UnpackJson.DirStep(p, UnpackJson.State([], [], None), dir, listing);
    assert [] + rows == rows;
  }

  lemma EveryFileTwoFiles(p: Pipeline, dir: string, listing: map<string, seq<FileEntry>>, f1: FileEntry, f2: FileEntry)
    requires dir in listing && listing[dir] == [f1, f2]
    requires p.load(f1.content).Ok? && p.extract(p.load(f1.content).value).Ok?
    requires p.load(f2.content).Ok? && p.extract(p.load(f2.content).value).Ok?
    ensures RunDirs(p, [dir], listing) == Ok(State([], FileRows(p, f1) + FileRows(p, f2)))
  {
    var files := [f1, f2];
    var r1, r2 := FileRows(p, f1), FileRows(p, f2);
    assert [dir][..0] == [];
    assert NoCrash(p, files);
    FailedNamesNone(p.load, files);
    RunFilesOk(p, State([], []), files);
    assert FileBlocks(p, files) == [r1] + [r2];
    Seqs.FlattenSnoc([r1], r2);
    assert [r1] == [] + [r1];
    Seqs.FlattenSnoc([], r1);
    assert Seqs.Flatten([r1]) == r1;
    assert Seqs.Flatten(FileBlocks(p, files)) == r1 + r2;
    assert RunDirs(p, [dir], listing) == RunFiles(p, State([], []), files);
    assert [] + (r1 + r2) == r1 + r2;
    assert [] + FailedNames(p.load, files) == [];
  }

  // ---------------------------------------------------------------- as written

  /** Line 10 of the script subscripts `a`, which `extract_from_json` never binds (it binds
      `j`): every call raises NameError. */
  function AsWrittenLoad(content: Content): Result<Frame>
  {
    Err(NameError)
  }

  /** As written, every file lands in the `except` branch: a run over listed directories
      records every file as bad and produces no rows at all. */
  lemma AsWrittenDropsEverything(extract: Frame -> Result<Frame>, dirs: seq<string>, listing: map<string, seq<FileEntry>>)
    requires Listed(dirs, listing)
    ensures RunDirs(Pipeline(AsWrittenLoad, extract), dirs, listing) == Ok(State(Names(AllFiles(dirs, listing)), []))
  {
    var p := Pipeline(AsWrittenLoad, extract);
    var files := AllFiles(dirs, listing);
    RunDirsOkIff(p, dirs, listing);
    RunDirsSpec(p, dirs, listing);
    FailedNamesSpec(p.load, files);
    Seqs.FilterKeepsAll(files, FailsOf(p.load));
    forall i | 0 <= i < |FileBlocks(p, files)|
      ensures FileBlocks(p, files)[i] == []
    {
      assert FileBlocks(p, files)[i] == FileRows(p, files[i]);
    }
    Seqs.FlattenEmpty(FileBlocks(p, files));
  }

  /** With the loaded document read as intended, a run over listed directories whose
      extractions do not raise records exactly the files `extract_from_json` rejects, in
      visiting order, and collects the rows of every other file, file after file. */
  lemma IntendedRun(dirs: seq<string>, listing: map<string, seq<FileEntry>>)
    requires Listed(dirs, listing) && NoCrash(Safegraph, AllFiles(dirs, listing))
    ensures RunDirs(Safegraph, dirs, listing).Ok?
    ensures var files := AllFiles(dirs, listing);
            RunDirs(Safegraph, dirs, listing).value ==
              State(Names(Seqs.Filter(files, FailsOf(ExtractFromJson))), Seqs.Flatten(FileBlocks(Safegraph, files)))
  {
    var files := AllFiles(dirs, listing);
    RunDirsOkIff(Safegraph, dirs, listing);
    RunDirsSpec(Safegraph, dirs, listing);
    FailedNamesSpec(ExtractFromJson, files);
  }

  /** The extraction as written: `parse_dwell` is a module-level function, and the
      `getValues` it applies is local to `transform_dataframe`, so once the columns are
      selected the name lookup raises NameError. */
  function AsWrittenExtract(df: Frame): Result<Frame>
  {
    match SelectColumns(df, SafegraphColumns)
    case Err(e) => Err(e)
    case Ok(_) => Err(NameError)
  }

  /** As written, the extraction never succeeds, so a run over listed directories finishes
      only when not a single file loads. */
  lemma AsWrittenExtractNeverSucceeds(load: Content -> Result<Frame>, dirs: seq<string>, listing: map<string, seq<FileEntry>>)
    requires Listed(dirs, listing)
    ensures var files := AllFiles(dirs, listing);
            RunDirs(Pipeline(load, AsWrittenExtract), dirs, listing).Ok? <==>
              forall i :: 0 <= i < |files| ==> Fails(load, files[i])
  {
    RunDirsOkIff(Pipeline(load, AsWrittenExtract), dirs, listing);
  }
}
