/**
 * struct cvsfile, the file record the checkout, status and check-in code
 * share, and cvsfile_find, the search of a file list by path.
 */
module Files {
  import opened Wrappers

  /**
   * A file: its path relative to the module, its revision, the mode bits
   * and flags read from or sent to the server, its modification time and
   * its contents. `isnew` and `handled` are set by the caller and by the
   * status and check-in parsers.
   */
  datatype CvsFile = CvsFile(
    path: string, revision: string, isexec: bool, isdead: bool, ismem: bool,
    mode: nat, timestamp: int, file: string, isnew: bool, handled: bool)

  /** CVSFILE_INIT / cvsfile_init: every field empty or zero. */
  const EmptyFile := CvsFile([], [], false, false, false, 0, 0, [], false, false)

  /**
   * cvsfile_reset: empty the path, revision and contents and clear the
   * flags, mode and timestamp; `isnew` and `handled` are kept.
   */
  function Reset(f: CvsFile): (r: CvsFile)
    ensures r.isnew == f.isnew && r.handled == f.handled
    ensures r.(isnew := false, handled := false) == EmptyFile
  {
    f.(path := [], revision := [], isexec := false, isdead := false, ismem := false,
       mode := 0, timestamp := 0, file := [])
  }

  /** The position of the first file whose path is `path`, as cvsfile_find returns it. */
  function FindPath(files: seq<CvsFile>, path: string): (r: Option<nat>)
    ensures r.Some? ==> r.value < |files| && files[r.value].path == path
    ensures r.Some? ==> forall j :: 0 <= j < r.value ==> files[j].path != path
    ensures r.None? <==> forall j :: 0 <= j < |files| ==> files[j].path != path
  {
    if files == [] then None
    else if files[0].path == path then Some(0)
    else
      match FindPath(files[1..], path)
      case None => None
      case Some(k) => Some(k + 1)
  }

  /**
   * Updating a file found by path keeps it findable at the same place, as
   * long as its path is not changed.
   */
  lemma {:induction false} FindPathUpdate(files: seq<CvsFile>, i: nat, f: CvsFile, path: string)
    requires i < |files| && f.path == files[i].path
    ensures FindPath(files[i := f], path) == FindPath(files, path)
  {
    if files != [] && files[0].path != path && i > 0 {
      assert files[i := f][1..] == files[1..][i - 1 := f];
      FindPathUpdate(files[1..], i - 1, f, path);
    }
  }

  /** cvsfile_find: a linear search of the first `count` files for `path`. */
  method FindFile(files: array<CvsFile>, count: nat, path: string) returns (r: Option<nat>)
    requires count <= files.Length
    ensures r == FindPath(files[..count], path)
  {
    var i := 0;
    while i < count
      invariant 0 <= i <= count
      invariant forall j :: 0 <= j < i ==> files[j].path != path
    {
      if files[i].path == path {
        FindPathFirst(files[..count], path, i);
        return Some(i);
      }
      i := i + 1;
    }
    return None;
  }

  /** A match at `i` with none before it is the one FindPath reports. */
  lemma {:induction false} FindPathFirst(files: seq<CvsFile>, path: string, i: nat)
    requires i < |files| && files[i].path == path
    requires forall j :: 0 <= j < i ==> files[j].path != path
    ensures FindPath(files, path) == Some(i)
  {
    if i > 0 {
      FindPathFirst(files[1..], path, i - 1);
    }
  }

  /** Every file was reported on by the server. */
  predicate AllHandled(files: seq<CvsFile>)
  {
    forall i :: 0 <= i < |files| ==> files[i].handled
  }

  /** The first file the server did not report on. */
  function FirstUnhandled(files: seq<CvsFile>): (r: Option<nat>)
    ensures r.Some? ==> r.value < |files| && !files[r.value].handled
    ensures r.Some? ==> forall j :: 0 <= j < r.value ==> files[j].handled
    ensures r.None? <==> AllHandled(files)
  {
    if files == [] then None
    else if !files[0].handled then Some(0)
    else
      match FirstUnhandled(files[1..])
      case None => None
      case Some(k) => Some(k + 1)
  }

  /** A file that is not handled, with every file before it handled, is the first unhandled one. */
  lemma {:induction false} FirstUnhandledAt(files: seq<CvsFile>, i: nat)
    requires i < |files| && !files[i].handled
    requires forall j :: 0 <= j < i ==> files[j].handled
    ensures FirstUnhandled(files) == Some(i)
  {
    if i > 0 {
      FirstUnhandledAt(files[1..], i - 1);
    }
  }

  /**
   * The check that ends the status and check-in parsers: the first file
   * not reported on is fatal, named after `complaint`; otherwise the
   * parser's result stands.
   */
  function Finish(files: seq<CvsFile>, complaint: string, result: Outcome<int>): (r: Outcome<int>)
    ensures !r.Fatal? ==> AllHandled(files) && r == result
    ensures r.Fatal? && !result.Fatal? ==> !AllHandled(files)
  {
    match FirstUnhandled(files)
    case Some(i) => Fatal(complaint + files[i].path)
    case None => result
  }

  /** The loop over the caller's array that Finish describes. */
  method FinishOn(files: array<CvsFile>, complaint: string, result: Outcome<int>) returns (r: Outcome<int>)
    ensures r == Finish(files[..], complaint, result)
  {
    var i := 0;
    while i < files.Length
      invariant i <= files.Length
      invariant forall j :: 0 <= j < i ==> files[j].handled
    {
      if !files[i].handled {
        FirstUnhandledAt(files[..], i);
        return Fatal(complaint + files[i].path);
      }
      i := i + 1;
    }
    return result;
  }
}
