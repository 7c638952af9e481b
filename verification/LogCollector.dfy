/** The log collection of the diagnostics bundle: greedy under a byte cap. */
module LogCollector {
  import opened Common

  /** A file of the log directory, in sorted order; `name` is absent when it is not valid Unicode. */
  datatype LogFile = LogFile(name: Option<string>, len: nat)

  const MAX_LOG_BYTES: nat := 20 * 1024 * 1024

  function TotalLen(files: seq<LogFile>): nat {
    if files == [] then 0 else TotalLen(files[..|files| - 1]) + files[|files| - 1].len
  }

  /** The bundle of a directory: each file with a name goes in if it fits after those that went in before. */
  function Bundle(files: seq<LogFile>): seq<LogFile> {
    if files == [] then []
    else
      var before := Bundle(files[..|files| - 1]);
      var file := files[|files| - 1];
      if Taken(before, file) then before + [file] else before
  }

  predicate Taken(bundle: seq<LogFile>, file: LogFile) {
    file.name.Some? && TotalLen(bundle) + file.len <= MAX_LOG_BYTES
  }

  /** File `i` has a name and was left out for its size. */
  ghost predicate SkippedForSize(files: seq<LogFile>, i: int) {
    0 <= i < |files| && files[i].name.Some? && !Taken(Bundle(files[..i]), files[i])
  }

  lemma TotalLenPush(files: seq<LogFile>, file: LogFile)
    ensures TotalLen(files + [file]) == TotalLen(files) + file.len
  {
    assert (files + [file])[..|files|] == files;
  }

  lemma {:induction false} BundleGrows(files: seq<LogFile>, i: nat)
    requires i <= |files|
    ensures Bundle(files[..i]) <= Bundle(files)
    ensures TotalLen(Bundle(files[..i])) <= TotalLen(Bundle(files))
  {
    if i < |files| {
      var n := |files| - 1;
      BundleGrows(files[..n], i);
      assert files[..n][..i] == files[..i];
      if Taken(Bundle(files[..n]), files[n]) { TotalLenPush(Bundle(files[..n]), files[n]); }
    } else {
      assert files[..i] == files;
    }
  }

  /**
   The cap holds, a file is in the bundle if it has a name and was not skipped
   for its size, and no file skipped for its size would fit into what was
   collected in the end.
   */
  lemma {:induction false} BundleIsMaximal(files: seq<LogFile>, i: nat)
    requires i < |files| && files[i].name.Some?
    ensures TotalLen(Bundle(files)) <= 20 * 1024 * 1024
    ensures SkippedForSize(files, i) ==> TotalLen(Bundle(files)) + files[i].len > 20 * 1024 * 1024
    ensures !SkippedForSize(files, i) ==> files[i] in Bundle(files)
  {
    BundleWithinCap(files);
    BundleGrows(files, i);
    BundleGrows(files, i + 1);
    assert files[..i + 1][..i] == files[..i];
    if !SkippedForSize(files, i) {
      var b := Bundle(files[..i + 1]);
      assert b[|b| - 1] == files[i];
      assert Bundle(files)[|b| - 1] == files[i];
    }
  }

  lemma {:induction false} BundleWithinCap(files: seq<LogFile>)
    ensures TotalLen(Bundle(files)) <= 20 * 1024 * 1024
  {
    if files != [] {
      var n := |files| - 1;
      BundleWithinCap(files[..n]);
      TotalLenPush(Bundle(files[..n]), files[n]);
    }
  }

  /** The bundle holds files of the directory, none more often than there, and only such with a name. */
  lemma {:induction false} BundleIsOfFiles(files: seq<LogFile>)
    ensures multiset(Bundle(files)) <= multiset(files)
    ensures forall file :: file in Bundle(files) ==> file.name.Some?
  {
    if files != [] {
      var n := |files| - 1;
      BundleIsOfFiles(files[..n]);
      assert files == files[..n] + [files[n]];
    }
  }

  /** The loop of `build_bundle`. */
  method CollectLogs(files: seq<LogFile>) returns (logFiles: seq<LogFile>, logBytes: nat, truncated: bool)
    ensures logFiles == Bundle(files)
    ensures logBytes == TotalLen(logFiles) <= 20 * 1024 * 1024
    ensures multiset(logFiles) <= multiset(files) && forall file :: file in logFiles ==> file.name.Some?
    ensures truncated <==> exists i :: SkippedForSize(files, i)
    ensures forall i :: SkippedForSize(files, i) ==> logBytes + files[i].len > 20 * 1024 * 1024
  {
    logFiles, logBytes, truncated := [], 0, false;
    var k := 0;
    while k < |files|
      invariant 0 <= k <= |files|
      invariant logFiles == Bundle(files[..k])
      invariant logBytes == TotalLen(logFiles)
      invariant truncated <==> exists i :: i < k && SkippedForSize(files, i)
    {
      var file := files[k];
      assert files[..k + 1][..k] == files[..k];
      k := k + 1;
      if file.name.None? {
        continue;
      }
      if logBytes + file.len > MAX_LOG_BYTES {
        assert SkippedForSize(files, k - 1);
        truncated := true;
        continue;
      }
      assert !SkippedForSize(files, k - 1);
      TotalLenPush(logFiles, file);
      logBytes := logBytes + file.len;
      logFiles := logFiles + [file];
    }
    assert files[..k] == files;
    BundleWithinCap(files);
    BundleIsOfFiles(files);
    forall i | SkippedForSize(files, i)
      ensures logBytes + files[i].len > 20 * 1024 * 1024
    {
      BundleIsMaximal(files, i);
    }
  }
}
