/**
 * The uploader's sequential logic: `upload_file_batches` reports the files
 * whose upload raised, then `delete_uploaded_files` removes every file of
 * the batch from the day's scratch directory.
 *
 * The bulk upload itself is external: its outcome is given, either the
 * per-file results list (each `None` or an exception) or an exception raised
 * by the call as a whole. The scratch directory is the set of paths it holds.
 */
module Upload {
  import opened Common
  import opened Naming
  import Batching

  /** One element of the results list: `None`, or the exception raised for that file. */
  datatype FileResult = Uploaded | Failed(cause: string)

  /** What the `try` around the bulk call sees. */
  datatype UploadOutcome = Results(perFile: seq<FileResult>) | Raised(error: string)

  /**
   * `zip(file_paths, results)` keeping the pairs whose result is an
   * exception, as `(name, cause)`; `zip` stops at the shorter list.
   */
  function FailedUploads(filePaths: seq<string>, results: seq<FileResult>): (r: seq<(string, string)>)
    ensures |r| <= |filePaths| && |r| <= |results|
    decreases |filePaths|
  {
    if filePaths == [] || results == [] then []
    else (if results[0].Failed? then [(filePaths[0], results[0].cause)] else [])
         + FailedUploads(filePaths[1..], results[1..])
  }

  /**
   * A pair is reported exactly when some position of both lists holds that
   * name and a failure with that cause.
   */
  lemma {:induction false} FailedUploadsExact(filePaths: seq<string>, results: seq<FileResult>, name: string, cause: string)
    ensures (name, cause) in FailedUploads(filePaths, results) <==>
      exists k :: 0 <= k < |filePaths| && k < |results| && filePaths[k] == name && results[k] == Failed(cause)
    decreases |filePaths|
  {
    if filePaths != [] && results != [] {
      FailedUploadsExact(filePaths[1..], results[1..], name, cause);
      if exists k :: 0 <= k < |filePaths| && k < |results| && filePaths[k] == name && results[k] == Failed(cause) {
        var k :| 0 <= k < |filePaths| && k < |results| && filePaths[k] == name && results[k] == Failed(cause);
        if k > 0 {
          assert filePaths[1..][k - 1] == name && results[1..][k - 1] == Failed(cause);
        }
      }
      if exists k :: 0 <= k < |filePaths| - 1 && k < |results| - 1
          && filePaths[1..][k] == name && results[1..][k] == Failed(cause) {
        var k :| 0 <= k < |filePaths| - 1 && k < |results| - 1
          && filePaths[1..][k] == name && results[1..][k] == Failed(cause);
        assert filePaths[k + 1] == name && results[k + 1] == Failed(cause);
      }
    }
  }

  /** The number of failures among the first `n` results. */
  function FailureCount(results: seq<FileResult>, n: nat): nat
    requires n <= |results|
  {
    if n == 0 then 0 else FailureCount(results, n - 1) + (if results[n - 1].Failed? then 1 else 0)
  }

  /**
   * One report per failed file that `zip` reaches, no more: in particular
   * nothing is reported when every upload succeeded.
   */
  lemma {:induction false} FailedUploadsCount(filePaths: seq<string>, results: seq<FileResult>)
    ensures |FailedUploads(filePaths, results)| == FailureCount(results, Shorter(filePaths, results))
    decreases |filePaths|
  {
    if filePaths != [] && results != [] {
      var n := Shorter(filePaths, results);
      var tailPaths, tailResults := filePaths[1..], results[1..];
      var head := if results[0].Failed? then [(filePaths[0], results[0].cause)] else [];
      assert FailedUploads(filePaths, results) == head + FailedUploads(tailPaths, tailResults);
      FailedUploadsCount(tailPaths, tailResults);
      assert Shorter(tailPaths, tailResults) == n - 1;
      FailureCountShift(results, n);
    }
  }

  /** How many pairs `zip` forms: the length of the shorter list. */
  function Shorter(filePaths: seq<string>, results: seq<FileResult>): (n: nat)
    ensures n <= |results|
  {
    if |filePaths| < |results| then |filePaths| else |results|
  }

  lemma {:induction false} FailureCountShift(results: seq<FileResult>, n: nat)
    requires 0 < n <= |results|
    ensures FailureCount(results, n) == (if results[0].Failed? then 1 else 0) + FailureCount(results[1..], n - 1)
  {
    if n > 1 {
      FailureCountShift(results, n - 1);
    }
  }

  /** `"Failed to upload {} due to exception: {}".format(name, result)`. */
  function FailureMessage(name: string, cause: string): string
  {
    "Failed to upload " + name + " due to exception: " + cause
  }

  /**
   * The lines the uploader prints for one batch: one per failed file, in
   * order, or the exception the bulk call raised.
   */
  function UploadLog(filePaths: seq<string>, outcome: UploadOutcome): (r: seq<string>)
    ensures outcome.Raised? ==> r == [outcome.error]
    ensures outcome.Results? ==> |r| == |FailedUploads(filePaths, outcome.perFile)|
    ensures outcome.Results? ==> forall k :: 0 <= k < |r| ==>
      r[k] == FailureMessage(FailedUploads(filePaths, outcome.perFile)[k].0, FailedUploads(filePaths, outcome.perFile)[k].1)
  {
    match outcome
    case Raised(e) => [e]
    case Results(rs) =>
      var failed := FailedUploads(filePaths, rs);
      seq(|failed|, k requires 0 <= k < |failed| => FailureMessage(failed[k].0, failed[k].1))
  }

  /**
   * Every line logged for a results list names a file and the cause its
   * upload failed with, both taken from one position of the two lists.
   */
  lemma UploadLogLines(filePaths: seq<string>, results: seq<FileResult>, k: nat)
    requires k < |UploadLog(filePaths, Results(results))|
    ensures exists i, c ::
      0 <= i < |filePaths| && i < |results| && results[i] == Failed(c)
      && UploadLog(filePaths, Results(results))[k] == FailureMessage(filePaths[i], c)
  {
    var failed := FailedUploads(filePaths, results);
    var (name, cause) := failed[k];
    assert (name, cause) in failed;
    FailedUploadsExact(filePaths, results, name, cause);
    var i :| 0 <= i < |filePaths| && i < |results| && filePaths[i] == name && results[i] == Failed(cause);
    assert UploadLog(filePaths, Results(results))[k] == FailureMessage(filePaths[i], cause);
  }

  /** The path `os.remove` gets for each name of the batch, `<temp_dir>/<name>`, in order. */
  function Paths(dir: string, names: seq<string>): (r: seq<string>)
    ensures |r| == |names| && forall k :: 0 <= k < |names| ==> r[k] == FilePath(dir, names[k])
  {
    seq(|names|, k requires 0 <= k < |names| => FilePath(dir, names[k]))
  }

  /** Distinct names in one directory give distinct paths. */
  lemma PathsDistinct(dir: string, names: seq<string>)
    requires Distinct(names)
    ensures Distinct(Paths(dir, names))
  {
    forall i, j | 0 <= i < j < |names|
      ensures Paths(dir, names)[i] != Paths(dir, names)[j]
    {
      FilePathInjective(dir, names[i], names[j]);
    }
  }

  /**
   * The directory after `os.remove` is called on each path in turn, and the
   * first path that was missing: the removal raises there, leaving that and
   * every later path alone.
   */
  function Removal(files: set<string>, paths: seq<string>): (set<string>, Option<string>)
  {
    if paths == [] then (files, None)
    else if paths[0] !in files then (files, Some(paths[0]))
    else Removal(files - {paths[0]}, paths[1..])
  }

  /**
   * Removal succeeds exactly when the paths are distinct and all present,
   * and then leaves precisely the files not named.
   */
  lemma {:induction false} RemovalSucceeds(files: set<string>, paths: seq<string>)
    ensures Removal(files, paths).1 == None <==>
      Distinct(paths) && forall k :: 0 <= k < |paths| ==> paths[k] in files
    ensures Removal(files, paths).1 == None ==>
      Removal(files, paths).0 == files - set k | 0 <= k < |paths| :: paths[k]
    decreases |paths|
  {
    if paths != [] {
      var p, rest := paths[0], paths[1..];
      RemovalSucceeds(files - {p}, rest);
      var named := set k | 0 <= k < |paths| :: paths[k];
      var namedRest := set k | 0 <= k < |rest| :: rest[k];
      assert named == {p} + namedRest by {
        forall x | x in named ensures x in {p} + namedRest {
          var k :| 0 <= k < |paths| && paths[k] == x;
          if k > 0 { assert rest[k - 1] == x; }
        }
        forall x | x in namedRest ensures x in named {
          var k :| 0 <= k < |rest| && rest[k] == x;
          assert paths[k + 1] == x;
        }
      }
      if Distinct(paths) && forall k :: 0 <= k < |paths| ==> paths[k] in files {
        forall k | 0 <= k < |rest| ensures rest[k] in files - {p} {
          assert paths[k + 1] == rest[k];
        }
      }
      if p in files && Distinct(rest) && forall k :: 0 <= k < |rest| ==> rest[k] in files - {p} {
        forall i, j | 0 <= i < j < |paths| ensures paths[i] != paths[j] {
          if i == 0 { assert rest[j - 1] in files - {p}; } else { assert rest[i - 1] != rest[j - 1]; }
        }
        forall k | 0 <= k < |paths| ensures paths[k] in files {
          if k > 0 { assert rest[k - 1] in files - {p}; }
        }
      }
    }
  }

  /**
   * Whatever happens, removal touches nothing but the named paths: it only
   * removes, only what is named, and a reported error names a path.
   */
  lemma {:induction false} RemovalOnlyNamed(files: set<string>, paths: seq<string>)
    ensures Removal(files, paths).0 <= files
    ensures forall f :: f in files && f !in Removal(files, paths).0 ==> f in paths
    ensures Removal(files, paths).1.Some? ==> Removal(files, paths).1.value in paths
    decreases |paths|
  {
    if paths != [] && paths[0] in files {
      RemovalOnlyNamed(files - {paths[0]}, paths[1..]);
    }
  }

  /** The day's scratch directory, holding the paths of the files written into it. */
  class Directory {
    var files: set<string>

    constructor (initial: set<string>)
      ensures files == initial
    {
      files := initial;
    }

    /** `os.remove(path)`: a missing file raises, naming the path. */
    method Remove(path: string) returns (err: Option<string>)
      modifies this
      ensures path in old(files) ==> files == old(files) - {path} && err == None
      ensures path !in old(files) ==> files == old(files) && err == Some(path)
    {
      if path in files {
        files := files - {path};
        err := None;
      } else {
        err := Some(path);
      }
    }

    /**
     * `delete_uploaded_files(temp_dir, file_paths)`: removes the files one
     * by one and stops at the first that is missing, reporting it.
     */
    method DeleteUploadedFiles(tempDir: string, filePaths: seq<string>) returns (err: Option<string>)
      modifies this
      ensures (files, err) == Removal(old(files), Paths(tempDir, filePaths))
    {
      var paths := Paths(tempDir, filePaths);
      var i := 0;
      err := None;
      while i < |filePaths|
        invariant 0 <= i <= |filePaths|
        invariant Removal(files, paths[i..]) == Removal(old(files), paths)
        invariant err == None
      {
        assert paths[i..][1..] == paths[i + 1..];
        err := Remove(FilePath(tempDir, filePaths[i]));
        if err.Some? {
          return;
        }
        i := i + 1;
      }
      assert paths[i..] == [];
    }
  }

  /**
   * `upload_file_batches` for one batch, after its futures have completed:
   * the object keys the bulk call is asked to write, the lines it logs for
   * the given outcome, and the cleanup of every file of the batch, whatever
   * the outcome.
   */
  method UploadFileBatches(dir: Directory, batch: Batching.Batch, dateStr: string, tempDir: string, outcome: UploadOutcome)
    returns (keys: seq<string>, log: seq<string>, deleteError: Option<string>)
    modifies dir
    ensures |keys| == |batch.filePaths|
    ensures forall k :: 0 <= k < |keys| ==> keys[k] == ObjectKey(dateStr, batch.filePaths[k])
    ensures log == UploadLog(batch.filePaths, outcome)
    ensures (dir.files, deleteError) == Removal(old(dir.files), Paths(tempDir, batch.filePaths))
  {
    keys := seq(|batch.filePaths|, k requires 0 <= k < |batch.filePaths| => ObjectKey(dateStr, batch.filePaths[k]));
    log := UploadLog(batch.filePaths, outcome);
    deleteError := dir.DeleteUploadedFiles(tempDir, batch.filePaths);
  }

  /**
   * Cleaning up a batch of distinct files that are all in the directory
   * removes exactly them, whatever the upload outcome, and raises nothing.
   */
  lemma CleanupRemovesBatch(files: set<string>, tempDir: string, names: seq<string>)
    requires Distinct(names)
    requires forall k :: 0 <= k < |names| ==> FilePath(tempDir, names[k]) in files
    ensures Removal(files, Paths(tempDir, names)) ==
      (files - set k | 0 <= k < |names| :: FilePath(tempDir, names[k]), None)
  {
    PathsDistinct(tempDir, names);
    RemovalSucceeds(files, Paths(tempDir, names));
    var ps := Paths(tempDir, names);
    assert (set k | 0 <= k < |ps| :: ps[k]) == set k | 0 <= k < |names| :: FilePath(tempDir, names[k]);
  }
}
