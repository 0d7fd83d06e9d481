/** The local folder scan of backend/server.js (`POST /api/scan-folder`):
    walks a directory, entering sub-directories only when `recursive` is
    set, and collects every regular file whose lower-cased extension is an
    image extension, or a video extension when `includeVideos` is set.

    The file system is a value: a folder is readable or not and lists its
    entries in the order `readdirSync` returns them. Entries that are
    neither directories nor regular files (symbolic links, sockets, ...)
    are skipped, as `Dirent.isDirectory` and `Dirent.isFile` are both false
    for them. */
module FolderScan {
  import opened Descriptors
  import Text

  datatype Folder = Folder(readable: bool, entries: seq<Entry>)

  datatype Entry =
    | FileEntry(name: string)
    | DirEntry(name: string, folder: Folder)
    | OtherEntry(name: string)

  datatype MediaKind = Image | Video

  /** One element of the response's `images`. */
  datatype ScannedFile = ScannedFile(path: string, name: string, kind: MediaKind)

  /** The request options after their defaults (`recursive = true`,
      `includeVideos = false`) and JavaScript truthiness are applied. */
  datatype ScanOptions = ScanOptions(recursive: bool, includeVideos: bool)

  datatype ScanResponse =
    | Scanned(images: seq<ScannedFile>, count: nat)
    | BadRequest(error: string)
    | ServerError

  const ImageExtensions: seq<string> := [".jpg", ".jpeg", ".png", ".gif", ".webp", ".bmp", ".svg"]
  const VideoExtensions: seq<string> := [".mp4", ".webm", ".mov"]

  /** The extensions a scan accepts. */
  function Extensions(includeVideos: bool): seq<string>
  {
    if includeVideos then ImageExtensions + VideoExtensions else ImageExtensions
  }

  /** `xs.includes(x)`. */
  predicate Includes(xs: seq<string>, x: string)
  {
    xs != [] && (xs[0] == x || Includes(xs[1..], x))
  }

  /** Searching two lists one after the other finds what searching their
      concatenation finds. */
  lemma {:induction false} IncludesConcat(xs: seq<string>, ys: seq<string>, x: string)
    ensures Includes(xs + ys, x) <==> Includes(xs, x) || Includes(ys, x)
  {
    if xs != [] {
      assert (xs + ys)[0] == xs[0] && (xs + ys)[1..] == xs[1..] + ys;
      IncludesConcat(xs[1..], ys, x);
    } else {
      assert xs + ys == ys;
    }
  }

  /** `path.join(dir, name)` for an entry name. */
  function Join(dir: string, name: string): string
  {
    dir + "/" + name
  }

  /** The position of the last `.` in the first n characters, or -1. */
  function LastDot(name: string, n: nat): (k: int)
    requires n <= |name|
    ensures -1 <= k < n
  {
    if n == 0 then -1 else if name[n - 1] == '.' then n - 1 else LastDot(name, n - 1)
  }

  /** LastDot finds a dot, and no dot follows it within the first n
      characters; -1 means there is no dot there at all. */
  lemma {:induction false} LastDotIsLast(name: string, n: nat)
    requires n <= |name|
    ensures var k := LastDot(name, n);
      (k >= 0 ==> name[k] == '.') && forall i :: k < i < n ==> name[i] != '.'
  {
    if n > 0 && name[n - 1] != '.' {
      LastDotIsLast(name, n - 1);
    }
  }

  /** `path.extname` of an entry name: from the last dot to the end; empty
      when there is no dot, when the last dot starts the name, and for `..`. */
  function Ext(name: string): string
  {
    var k := LastDot(name, |name|);
    if k <= 0 || name == ".." then ""
    else name[k..]
  }

  /** An extension is empty, or a suffix of the name that starts with its
      only dot; it is empty when the name has no dot past its first
      character, and otherwise (the name `..` aside) it is not empty and
      starts at or after every such dot: it runs from the last dot to the
      end of the name. */
  lemma ExtShape(name: string)
    ensures var r := Ext(name);
      r == "" || (r[0] == '.' && Text.EndsWith(name, r) && '.' !in r[1..])
    ensures LastDot(name, |name|) <= 0 ==> Ext(name) == ""
    ensures name != ".." ==>
      forall i :: 0 < i < |name| && name[i] == '.' ==> 0 < |Ext(name)| <= |name| - i
  {
    LastDotIsLast(name, |name|);
    var k := LastDot(name, |name|);
    if k > 0 && name != ".." {
      var r := name[k..];
      assert forall j :: 1 <= j < |r| ==> r[j] == name[k + j];
    }
  }

  /** A file's lower-cased extension is accepted, and its kind says
      whether that extension is a video one. */
  predicate Accepted(x: ScannedFile, opts: ScanOptions)
  {
    var ext := Text.Lower(Ext(x.name));
    (Includes(ImageExtensions, ext) || (opts.includeVideos && Includes(VideoExtensions, ext))) &&
    (x.kind == Video <==> Includes(VideoExtensions, ext))
  }

  /** The descriptor of a file entry when its extension is accepted. */
  function Classify(dir: string, name: string, opts: ScanOptions): seq<ScannedFile>
  {
    var ext := Text.Lower(Ext(name));
    if Includes(Extensions(opts.includeVideos), ext) then
      [ScannedFile(Join(dir, name), name, if Includes(VideoExtensions, ext) then Video else Image)]
    else []
  }

  /** What scanning a folder collects, or None when it, or a folder the
      scan enters, cannot be read (the handler then answers 500). */
  function Scan(dir: string, f: Folder, opts: ScanOptions): Option<seq<ScannedFile>>
    decreases f, |f.entries| + 1
  {
    if !f.readable then None else ScanEntries(dir, f, |f.entries|, opts)
  }

  /** What the first n entries of a readable folder contribute. */
  function ScanEntries(dir: string, f: Folder, n: nat, opts: ScanOptions): Option<seq<ScannedFile>>
    requires n <= |f.entries|
    decreases f, n
  {
    if n == 0 then Some([])
    else
      var before := ScanEntries(dir, f, n - 1, opts);
      if before.None? then None
      else
        var here := EntryScan(dir, f.entries[n - 1], opts);
        if here.None? then None else Some(before.value + here.value)
  }

  /** What one entry contributes: a sub-folder's files when the scan is
      recursive, an accepted file, or nothing. */
  function EntryScan(dir: string, e: Entry, opts: ScanOptions): Option<seq<ScannedFile>>
    decreases e, 0
  {
    match e
    case DirEntry(name, sub) => if opts.recursive then Scan(Join(dir, name), sub, opts) else Some([])
    case FileEntry(name) => Some(Classify(dir, name, opts))
    case OtherEntry(_) => Some([])
  }

  /** A file entry is included iff its lower-cased extension is an image
      extension, or a video extension when videos are included; it is
      marked as a video iff its extension is a video one. */
  lemma ClassifyAccepts(dir: string, name: string, opts: ScanOptions)
    ensures var r := Classify(dir, name, opts);
      var ext := Text.Lower(Ext(name));
      |r| <= 1 &&
      (r != [] <==> Includes(ImageExtensions, ext) || (opts.includeVideos && Includes(VideoExtensions, ext))) &&
      (r != [] ==> r[0].name == name && r[0].path == Join(dir, name) && Accepted(r[0], opts))
  {
    IncludesConcat(ImageExtensions, VideoExtensions, Text.Lower(Ext(name)));
  }

  /** Everything a scan finds has an accepted extension and the matching
      kind; in particular, no video is found unless videos are included. */
  lemma ScanFindsOnlyAccepted(dir: string, f: Folder, opts: ScanOptions)
    ensures Scan(dir, f, opts).Some? ==>
      forall x :: x in Scan(dir, f, opts).value ==> Accepted(x, opts)
  {
    forall d, name, x | x in Classify(d, name, opts)
      ensures Accepted(x, opts)
    {
      ClassifyAccepts(d, name, opts);
    }
    ScanFindsOnly(dir, f, opts, x => Accepted(x, opts));
  }

  /** A scan finds only files that Classify yields for some folder and
      name, so whatever holds of all of those holds of what it finds. */
  lemma {:induction false} ScanFindsOnly(dir: string, f: Folder, opts: ScanOptions, admitted: ScannedFile -> bool)
    requires forall d, name, x :: x in Classify(d, name, opts) ==> admitted(x)
    ensures Scan(dir, f, opts).Some? ==>
      forall x :: x in Scan(dir, f, opts).value ==> admitted(x)
    decreases f, |f.entries| + 1
  {
    if f.readable {
      EntriesFindOnly(dir, f, |f.entries|, opts, admitted);
    }
  }

  lemma {:induction false} EntriesFindOnly(dir: string, f: Folder, n: nat, opts: ScanOptions,
                                           admitted: ScannedFile -> bool)
    requires n <= |f.entries|
    requires forall d, name, x :: x in Classify(d, name, opts) ==> admitted(x)
    ensures ScanEntries(dir, f, n, opts).Some? ==>
      forall x :: x in ScanEntries(dir, f, n, opts).value ==> admitted(x)
    decreases f, n
  {
    if n > 0 {
      var before := ScanEntries(dir, f, n - 1, opts);
      if before.Some? {
        var here := EntryScan(dir, f.entries[n - 1], opts);
        if here.Some? {
          EntriesFindOnly(dir, f, n - 1, opts, admitted);
          EntryFindsOnly(dir, f.entries[n - 1], opts, admitted);
          assert ScanEntries(dir, f, n, opts).value == before.value + here.value;
        }
      }
    }
  }

  lemma {:induction false} EntryFindsOnly(dir: string, e: Entry, opts: ScanOptions, admitted: ScannedFile -> bool)
    requires forall d, name, x :: x in Classify(d, name, opts) ==> admitted(x)
    ensures EntryScan(dir, e, opts).Some? ==>
      forall x :: x in EntryScan(dir, e, opts).value ==> admitted(x)
    decreases e, 0
  {
    if e.DirEntry? && opts.recursive {
      ScanFindsOnly(Join(dir, e.name), e.folder, opts, admitted);
    }
  }

  /** A successful scan holds everything each entry of the folder
      contributes: every accepted file directly in it and, when the scan
      is recursive, everything the scan of each sub-folder finds. */
  lemma ScanIncludesEveryEntry(dir: string, f: Folder, opts: ScanOptions, i: int)
    requires Scan(dir, f, opts).Some? && 0 <= i < |f.entries|
    ensures EntryScan(dir, f.entries[i], opts).Some?
    ensures forall x :: x in EntryScan(dir, f.entries[i], opts).value ==> x in Scan(dir, f, opts).value
  {
    EntriesIncludeEntry(dir, f, |f.entries|, opts, i);
  }

  lemma {:induction false} EntriesIncludeEntry(dir: string, f: Folder, n: nat, opts: ScanOptions, i: int)
    requires n <= |f.entries| && 0 <= i < n && ScanEntries(dir, f, n, opts).Some?
    ensures EntryScan(dir, f.entries[i], opts).Some?
    ensures forall x :: x in EntryScan(dir, f.entries[i], opts).value ==> x in ScanEntries(dir, f, n, opts).value
  {
    var before := ScanEntries(dir, f, n - 1, opts);
    var here := EntryScan(dir, f.entries[n - 1], opts);
    assert before.Some? && here.Some?;
    assert ScanEntries(dir, f, n, opts).value == before.value + here.value;
    if i < n - 1 {
      EntriesIncludeEntry(dir, f, n - 1, opts, i);
    }
  }

  /** A recursive scan enters every sub-folder: when it succeeds, the scan
      of each sub-folder succeeds too and all it finds is in the result. */
  lemma RecursiveScanEntersSubfolders(dir: string, f: Folder, opts: ScanOptions, i: int)
    requires opts.recursive && Scan(dir, f, opts).Some? && 0 <= i < |f.entries| && f.entries[i].DirEntry?
    ensures var e := f.entries[i];
      Scan(Join(dir, e.name), e.folder, opts).Some? &&
      forall x :: x in Scan(Join(dir, e.name), e.folder, opts).value ==> x in Scan(dir, f, opts).value
  {
    ScanIncludesEveryEntry(dir, f, opts, i);
  }

  /** The files a walk of a folder reaches: the accepted files directly
      in it and, when recursive, those its sub-folders reach. */
  ghost predicate Reaches(dir: string, f: Folder, opts: ScanOptions, x: ScannedFile)
    decreases f, 1
  {
    exists i :: 0 <= i < |f.entries| && EntryReaches(dir, f.entries[i], opts, x)
  }

  ghost predicate EntryReaches(dir: string, e: Entry, opts: ScanOptions, x: ScannedFile)
    decreases e, 0
  {
    match e
    case FileEntry(name) => x in Classify(dir, name, opts)
    case DirEntry(name, sub) => opts.recursive && Reaches(Join(dir, name), sub, opts, x)
    case OtherEntry(_) => false
  }

  /** A successful scan lists a file iff the walk reaches it: every
      accepted file of the tree, at any depth when recursive, is found,
      and nothing else is. */
  lemma {:induction false} ScanFindsExactlyReached(dir: string, f: Folder, opts: ScanOptions)
    ensures Scan(dir, f, opts).Some? ==>
      forall x :: x in Scan(dir, f, opts).value <==> Reaches(dir, f, opts, x)
    decreases f, 2
  {
    if Scan(dir, f, opts).Some? {
      forall x
        ensures x in Scan(dir, f, opts).value <==> Reaches(dir, f, opts, x)
      {
        if x in Scan(dir, f, opts).value {
          var i := EntriesFindEntry(dir, f, |f.entries|, opts, x);
          EntryExactlyReached(dir, f.entries[i], opts);
        }
        if Reaches(dir, f, opts, x) {
          var i :| 0 <= i < |f.entries| && EntryReaches(dir, f.entries[i], opts, x);
          ScanIncludesEveryEntry(dir, f, opts, i);
          EntryExactlyReached(dir, f.entries[i], opts);
        }
      }
    }
  }

  lemma {:induction false} EntryExactlyReached(dir: string, e: Entry, opts: ScanOptions)
    ensures EntryScan(dir, e, opts).Some? ==>
      forall x :: x in EntryScan(dir, e, opts).value <==> EntryReaches(dir, e, opts, x)
    decreases e, 0
  {
    if e.DirEntry? && opts.recursive {
      ScanFindsExactlyReached(Join(dir, e.name), e.folder, opts);
    }
  }

  /** A file in the result of the first n entries came from one of them. */
  lemma {:induction false} EntriesFindEntry(dir: string, f: Folder, n: nat, opts: ScanOptions, x: ScannedFile)
    returns (i: int)
    requires n <= |f.entries| && ScanEntries(dir, f, n, opts).Some? && x in ScanEntries(dir, f, n, opts).value
    ensures 0 <= i < n && EntryScan(dir, f.entries[i], opts).Some? && x in EntryScan(dir, f.entries[i], opts).value
  {
    var before := ScanEntries(dir, f, n - 1, opts);
    var here := EntryScan(dir, f.entries[n - 1], opts);
    assert ScanEntries(dir, f, n, opts).value == before.value + here.value;
    if x in here.value {
      i := n - 1;
    } else {
      i := EntriesFindEntry(dir, f, n - 1, opts, x);
    }
  }

  /** The accepted files directly in a list of entries, in listing order. */
  function DirectFiles(dir: string, es: seq<Entry>, opts: ScanOptions): seq<ScannedFile>
  {
    if es == [] then []
    else
      var e := es[|es| - 1];
      DirectFiles(dir, es[..|es| - 1], opts) + (if e.FileEntry? then Classify(dir, e.name, opts) else [])
  }

  /** Without `recursive`, a scan reads only the folder itself: it fails
      only when that folder is unreadable, and finds exactly the accepted
      files directly in it, in listing order. */
  lemma NonRecursiveScan(dir: string, f: Folder, opts: ScanOptions)
    requires !opts.recursive
    ensures Scan(dir, f, opts).Some? <==> f.readable
    ensures f.readable ==> Scan(dir, f, opts).value == DirectFiles(dir, f.entries, opts)
  {
    if f.readable {
      NonRecursiveEntries(dir, f, |f.entries|, opts);
      assert f.entries[..|f.entries|] == f.entries;
    }
  }

  lemma {:induction false} NonRecursiveEntries(dir: string, f: Folder, n: nat, opts: ScanOptions)
    requires !opts.recursive && n <= |f.entries|
    ensures ScanEntries(dir, f, n, opts) == Some(DirectFiles(dir, f.entries[..n], opts))
  {
    if n > 0 {
      NonRecursiveEntries(dir, f, n - 1, opts);
      assert f.entries[..n][..n - 1] == f.entries[..n - 1];
    }
  }

  /** Once a folder in the walk fails, the whole scan fails. */
  lemma {:induction false} FailureIsFinal(dir: string, f: Folder, i: nat, n: nat, opts: ScanOptions)
    requires i <= n <= |f.entries|
    requires ScanEntries(dir, f, i, opts).None?
    ensures ScanEntries(dir, f, n, opts).None?
    decreases n
  {
    if n > i {
      FailureIsFinal(dir, f, i, n - 1, opts);
    }
  }

  /** The shared `images` list the recursive walk appends to. */
  class Scanner {
    const opts: ScanOptions
    var images: seq<ScannedFile>

    constructor (opts: ScanOptions)
      ensures this.opts == opts && images == []
    {
      this.opts := opts;
      images := [];
    }

    /** `scanDir(dir)`: returns false where the source throws (an unreadable
        folder here or below); otherwise it has appended what Scan gives. */
    method ScanDir(dir: string, f: Folder) returns (ok: bool)
      modifies this
      ensures ok <==> Scan(dir, f, opts).Some?
      ensures ok ==> images == old(images) + Scan(dir, f, opts).value
      decreases f, |f.entries| + 1
    {
      if !f.readable {
        return false;
      }
      var i := 0;
      while i < |f.entries|
        invariant 0 <= i <= |f.entries|
        invariant ScanEntries(dir, f, i, opts).Some?
        invariant images == old(images) + ScanEntries(dir, f, i, opts).value
      {
        ghost var before := ScanEntries(dir, f, i, opts).value;
        ghost var was := images;
        ok := ScanEntry(dir, f.entries[i]);
        if !ok {
          FailureIsFinal(dir, f, i + 1, |f.entries|, opts);
          return false;
        }
        ghost var here := EntryScan(dir, f.entries[i], opts).value;
        assert ScanEntries(dir, f, i + 1, opts) == Some(before + here);
        assert images == was + here;
        assert images == old(images) + (before + here);
        i := i + 1;
      }
      assert Scan(dir, f, opts) == ScanEntries(dir, f, |f.entries|, opts);
      ok := true;
    }

    /** One round of the loop over a folder's entries. */
    method ScanEntry(dir: string, entry: Entry) returns (ok: bool)
      modifies this
      ensures ok <==> EntryScan(dir, entry, opts).Some?
      ensures ok ==> images == old(images) + EntryScan(dir, entry, opts).value
      decreases entry, 0
    {
      match entry {
        case DirEntry(name, sub) =>
          if opts.recursive {
            ok := ScanDir(Join(dir, name), sub);
            return;
          }
        case FileEntry(name) =>
          var ext := Text.Lower(Ext(name));
          if Includes(Extensions(opts.includeVideos), ext) {
            var kind := if Includes(VideoExtensions, ext) then Video else Image;
            images := images + [ScannedFile(Join(dir, name), name, kind)];
          }
        case OtherEntry(_) =>
      }
      ok := true;
    }
  }

  /** The handler: an empty folder path is refused; otherwise the folder is
      scanned and the files found are returned with their count. */
  method ScanFolder(folderPath: string, root: Folder, opts: ScanOptions) returns (r: ScanResponse)
    ensures folderPath == "" ==> r == BadRequest("Folder path required")
    ensures folderPath != "" && Scan(folderPath, root, opts).None? ==> r == ServerError
    ensures folderPath != "" && Scan(folderPath, root, opts).Some? ==>
      var xs := Scan(folderPath, root, opts).value;
      r == Scanned(xs, |xs|)
  {
    if folderPath == "" {
      return BadRequest("Folder path required");
    }
    var scanner := new Scanner(opts);
    var ok := scanner.ScanDir(folderPath, root);
    if !ok {
      return ServerError;
    }
    r := Scanned(scanner.images, |scanner.images|);
  }
}
