/** What both unpackers share around their file loop: the two computations the loop calls,
    and the list of files whose guarded block failed. */
module Runs {
  import opened Wrappers
  import opened Frames
  import Seqs

  /** The guarded block that loads one file (`json.load`, the edges, `json_normalize`), and the
      extraction that turns a loaded frame into output rows. */
  datatype Pipeline = Pipeline(load: Content -> Result<Frame>, extract: Frame -> Result<Frame>)

  /** The guarded block raises on this file, so its `except` branch runs. */
  predicate Fails(load: Content -> Result<Frame>, f: FileEntry)
  {
    load(f.content).Err?
  }

  function FailsOf(load: Content -> Result<Frame>): FileEntry -> bool
  {
    f => Fails(load, f)
  }

  /** The names the `except` branch appends to `bad_files`, in processing order. */
  function FailedNames(load: Content -> Result<Frame>, files: seq<FileEntry>): seq<string>
    decreases |files|
  {
    if files == [] then []
    else
      var last := files[|files| - 1];
      FailedNames(load, files[..|files| - 1]) + (if Fails(load, last) then [last.name] else [])
  }

  function Names(files: seq<FileEntry>): seq<string>
  {
    seq(|files|, i requires 0 <= i < |files| => files[i].name)
  }

  lemma NamesAppend(a: seq<FileEntry>, b: seq<FileEntry>)
    ensures Names(a + b) == Names(a) + Names(b)
  {
  }

  /** The recorded names are those of exactly the failing files, each once, in order. */
  lemma {:induction false} FailedNamesSpec(load: Content -> Result<Frame>, files: seq<FileEntry>)
    ensures FailedNames(load, files) == Names(Seqs.Filter(files, FailsOf(load)))
    decreases |files|
  {
    if files != [] {
      var init, last := files[..|files| - 1], files[|files| - 1];
      FailedNamesSpec(load, init);
      assert files == init + [last];
      Seqs.FilterSnoc(init, last, FailsOf(load));
      var tail := if Fails(load, last) then [last] else [];
      NamesAppend(Seqs.Filter(init, FailsOf(load)), tail);
      assert Names(tail) == (if Fails(load, last) then [last.name] else []);
    }
  }

  lemma {:induction false} FailedNamesAppend(load: Content -> Result<Frame>, a: seq<FileEntry>, b: seq<FileEntry>)
    ensures FailedNames(load, a + b) == FailedNames(load, a) + FailedNames(load, b)
    decreases |b|
  {
    if b == [] {
      assert a + b == a;
    } else {
      var b' := b[..|b| - 1];
      assert (a + b)[..|a + b| - 1] == a + b';
      FailedNamesAppend(load, a, b');
    }
  }

  /** No file of a list that loads throughout is recorded. */
  lemma {:induction false} FailedNamesNone(load: Content -> Result<Frame>, files: seq<FileEntry>)
    requires forall i :: 0 <= i < |files| ==> !Fails(load, files[i])
    ensures FailedNames(load, files) == []
    decreases |files|
  {
    if files != [] {
      FailedNamesNone(load, files[..|files| - 1]);
    }
  }

  /** The files `os.listdir` shows for a directory; none when it is missing. */
  function FilesOf(listing: map<string, seq<FileEntry>>, dir: string): seq<FileEntry>
  {
    if dir in listing then listing[dir] else []
  }

  /** Every file the file loop visits over `dirs`, in visiting order. */
  function AllFiles(dirs: seq<string>, listing: map<string, seq<FileEntry>>): seq<FileEntry>
    decreases |dirs|
  {
    if dirs == [] then [] else AllFiles(dirs[..|dirs| - 1], listing) + FilesOf(listing, dirs[|dirs| - 1])
  }

  lemma {:induction false} AllFilesAppend(a: seq<string>, b: seq<string>, listing: map<string, seq<FileEntry>>)
    ensures AllFiles(a + b, listing) == AllFiles(a, listing) + AllFiles(b, listing)
    decreases |b|
  {
    if b == [] {
      assert a + b == a;
    } else {
      var b' := b[..|b| - 1];
      assert (a + b)[..|a + b| - 1] == a + b';
      AllFilesAppend(a, b', listing);
    }
  }
}
