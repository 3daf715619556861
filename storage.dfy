/** LangChain documents: a chunk of text with the metadata the PDF loader attaches to it. */
module Documents {
  import opened Wrappers

  /**
   * The metadata of a page chunk, which the retrieval handlers return as a reference:
   * `source` (the file path) and `page` always, the other fields when the PDF has them.
   */
  datatype Metadata = Metadata(
    source: string,
    page: nat,
    pageLabel: Option<string>,
    title: Option<string>,
    author: Option<string>,
    totalPages: Option<nat>)

  datatype Document = Document(pageContent: string, metadata: Metadata)
}

/**
 * The stores the workers touch: S3 buckets, the Lambda's local file system, and the FAISS
 * index, which is an abstract sequence of chunks saved as the two files `index.faiss` and
 * `index.pkl`.
 */
module Storage {
  import opened Wrappers
  import opened Documents
  import PosixPath
  import Text

  /** File and object contents; the two files of a saved FAISS index each record its chunks. */
  datatype Blob = Bytes(data: seq<bv8>) | FaissVectors(chunks: seq<Document>) | FaissDocstore(chunks: seq<Document>)

  const IndexFaiss := "index.faiss"
  const IndexPkl := "index.pkl"

  ghost predicate Distinct<T>(s: seq<T>) {
    forall i, j :: 0 <= i < j < |s| ==> s[i] != s[j]
  }

  /** An S3 bucket: objects by key; a listing returns the keys in the order they were first written. */
  class ObjectStore {
    var objects: map<string, Blob>
    var listing: seq<string>

    ghost predicate Valid()
      reads this
    {
      (forall k :: k in objects <==> k in listing) && Distinct(listing)
    }

    /** An empty bucket; objects arrive through Put. */
    constructor ()
      ensures Valid() && objects == map[] && listing == []
    {
      objects, listing := map[], [];
    }

    /** `put_object` / `upload_file`: the key now holds `blob`; a new key goes to the end of the listing. */
    method Put(key: string, blob: Blob)
      requires Valid()
      modifies this
      ensures Valid()
      ensures objects == old(objects)[key := blob]
      ensures listing == if key in old(objects) then old(listing) else old(listing) + [key]
    {
      if key !in objects {
        listing := listing + [key];
      }
      objects := objects[key := blob];
    }
  }

  /** The Lambda's local disk: files by path (kept in creation order, the order a walk sees them) and directories. */
  class LocalFs {
    var files: map<string, Blob>
    var order: seq<string>
    var dirs: set<string>

    ghost predicate Valid()
      reads this
    {
      (forall p :: p in files <==> p in order) && Distinct(order)
    }

    /** A disk holding only the given directories. */
    constructor (initialDirs: set<string>)
      ensures Valid() && files == map[] && order == [] && dirs == initialDirs
    {
      files, order, dirs := map[], [], initialDirs;
    }

    predicate Exists(path: string)
      reads this
    {
      path in files || path in dirs
    }

    /**
     * `os.makedirs(path, exist_ok=existOk)`: raises FileExistsError when a file is at the path,
     * or a directory is and `existOk` is false; otherwise the directory exists afterwards.
     */
    method MakeDirs(path: string, existOk: bool) returns (ok: bool)
      requires Valid()
      modifies this
      ensures Valid() && files == old(files) && order == old(order)
      ensures ok <==> path !in old(files) && (existOk || path !in old(dirs))
      ensures dirs == if ok then old(dirs) + {path} else old(dirs)
    {
      ok := path !in files && (existOk || path !in dirs);
      if ok {
        dirs := dirs + {path};
      }
    }

    /**
     * Writing a file succeeds exactly when its parent directory exists and the path names a
     * file: one with an empty base name ("dir/") or an existing directory raises.
     */
    method WriteFile(path: string, blob: Blob) returns (ok: bool)
      requires Valid()
      modifies this
      ensures Valid() && dirs == old(dirs)
      ensures ok <==> Writes(path, old(dirs))
      ensures ok ==> files == old(files)[path := blob]
      ensures ok ==> order == if path in old(files) then old(order) else old(order) + [path]
      ensures !ok ==> files == old(files) && order == old(order)
    {
      ok := Writes(path, dirs);
      if ok {
        if path !in files {
          order := order + [path];
        }
        files := files[path := blob];
      }
    }
  }

  /** `save_local` can write into `folder`: no file stands at it and no directory at either index file. */
  predicate CanSave(files: map<string, Blob>, dirs: set<string>, folder: string) {
    folder !in files && PosixPath.Join(folder, IndexFaiss) !in dirs && PosixPath.Join(folder, IndexPkl) !in dirs
  }

  /** The two maps hold the same files with the same contents, except perhaps at `k`. */
  ghost predicate AgreeBesides(a: map<string, Blob>, b: map<string, Blob>, k: string) {
    forall p :: p != k ==> (p in a <==> p in b) && (p in a ==> a[p] == b[p])
  }

  /** A file can be written at `path`: its directory exists, it has a base name and is no directory. */
  predicate Writes(path: string, dirs: set<string>) {
    PosixPath.Dirname(path) in dirs && PosixPath.HasBasename(path) && path !in dirs
  }

  /** `bucket.download_file(key, path)`: fails when the key is missing or no file can be written at the target. */
  method Download(bucket: ObjectStore, key: string, fs: LocalFs, path: string) returns (r: Result<()>)
    requires bucket.Valid() && fs.Valid()
    modifies fs
    ensures fs.Valid() && fs.dirs == old(fs.dirs)
    ensures r.Success? <==> key in bucket.objects && Writes(path, old(fs.dirs))
    ensures r.Success? ==> fs.files == old(fs.files)[path := bucket.objects[key]]
    ensures r.Success? ==> fs.order == if path in old(fs.files) then old(fs.order) else old(fs.order) + [path]
    ensures r.Failure? ==> fs.files == old(fs.files) && fs.order == old(fs.order)
  {
    if key !in bucket.objects {
      return Failure("An error occurred (404) when calling the HeadObject operation: Not Found");
    }
    var ok := fs.WriteFile(path, bucket.objects[key]);
    r := if ok then Success(()) else Failure("No such file or directory: " + path);
  }

  /** `bucket.upload_file(path, key)`: fails when there is no such local file. */
  method Upload(fs: LocalFs, path: string, bucket: ObjectStore, key: string) returns (r: Result<()>)
    requires bucket.Valid()
    modifies bucket
    ensures bucket.Valid()
    ensures r.Success? <==> path in fs.files
    ensures r.Success? ==> bucket.objects == old(bucket.objects)[key := fs.files[path]]
    ensures r.Success? ==> bucket.listing == if key in old(bucket.objects) then old(bucket.listing) else old(bucket.listing) + [key]
    ensures r.Failure? ==> bucket.objects == old(bucket.objects) && bucket.listing == old(bucket.listing)
  {
    if path !in fs.files {
      return Failure("No such file or directory: " + path);
    }
    bucket.Put(key, fs.files[path]);
    r := Success(());
  }

  /** The chunks of a saved index held under the two names, when both are there and agree. */
  function IndexOf(store: map<string, Blob>, vectors: string, docstore: string): Result<seq<Document>> {
    if vectors in store && docstore in store
       && store[vectors].FaissVectors? && store[docstore].FaissDocstore?
       && store[vectors].chunks == store[docstore].chunks
    then Success(store[vectors].chunks)
    else Failure("could not open " + vectors + " for reading")
  }

  /** `FAISS.load_local(folder, ...)`: the index saved in `folder`. */
  function LoadIndex(files: map<string, Blob>, folder: string): Result<seq<Document>> {
    IndexOf(files, PosixPath.Join(folder, IndexFaiss), PosixPath.Join(folder, IndexPkl))
  }

  /** The index a vector bucket holds at its top level. */
  function BucketIndex(objects: map<string, Blob>): Result<seq<Document>> {
    IndexOf(objects, IndexFaiss, IndexPkl)
  }

  /** An in-memory FAISS vector store, identified by the chunks it indexes. */
  class FaissIndex {
    var chunks: seq<Document>

    constructor (initial: seq<Document>)
      ensures chunks == initial
    {
      chunks := initial;
    }

    /** `add_documents`: the new chunks go after the existing ones. */
    method AddDocuments(docs: seq<Document>)
      modifies this
      ensures chunks == old(chunks) + docs
    {
      chunks := chunks + docs;
    }

    /**
     * `save_local(folder)`: creates the folder (which may exist) and writes `index.faiss`, then
     * `index.pkl`, into it. It raises when a file stands at the folder or a directory at
     * either file, having written what came before.
     */
    method SaveLocal(fs: LocalFs, folder: string) returns (ok: bool)
      requires fs.Valid() && IsDir(folder)
      modifies fs
      ensures fs.Valid()
      ensures fs.dirs == if folder in old(fs.files) then old(fs.dirs) else old(fs.dirs) + {folder}
      ensures ok <==> CanSave(old(fs.files), old(fs.dirs), folder)
      ensures ok ==>
        fs.files == old(fs.files)[PosixPath.Join(folder, IndexFaiss) := FaissVectors(chunks)]
                                 [PosixPath.Join(folder, IndexPkl) := FaissDocstore(chunks)]
        && LoadIndex(fs.files, folder) == Success(chunks)
      ensures !ok ==>
        fs.files == old(fs.files) || fs.files == old(fs.files)[PosixPath.Join(folder, IndexFaiss) := FaissVectors(chunks)]
    {
      ghost var files0 := fs.files;
      var created := fs.MakeDirs(folder, true);
      if !created {
        return false;
      }
      IndexFilesIn(folder);
      ok := fs.WriteFile(PosixPath.Join(folder, IndexFaiss), FaissVectors(chunks));
      if !ok {
        return;
      }
      ok := fs.WriteFile(PosixPath.Join(folder, IndexPkl), FaissDocstore(chunks));
      if ok {
        SavedIndexLoads(files0, folder, chunks);
      }
    }
  }

  // ---------------------------------------------------------------------------
  // Copying a bucket to a directory and back

  /** Where a worker puts a downloaded key. */
  datatype Placement =
    | Joined(dir: string)         // os.path.join(dir, key)
    | Concatenated(dir: string)   // dir + "/" + key.replace("", "")

  function TargetPath(placement: Placement, key: string): string {
    match placement
    case Joined(dir) => PosixPath.Join(dir, key)
    case Concatenated(dir) => dir + "/" + Text.PyReplace(key, "", "")
  }

  /** A key ending in '/' is a folder marker; the workers skip it. */
  predicate IsFolderKey(key: string) {
    Text.EndsWith(key, "/")
  }

  /** The files after downloading each listed key, in listing order, to its target path. */
  function Downloaded(files: map<string, Blob>, objects: map<string, Blob>, keys: seq<string>, placement: Placement): map<string, Blob>
    decreases |keys|
  {
    if |keys| == 0 then files
    else
      var k := keys[|keys| - 1];
      var prev := Downloaded(files, objects, keys[..|keys| - 1], placement);
      if IsFolderKey(k) || k !in objects then prev else prev[TargetPath(placement, k) := objects[k]]
  }

  /** Every key that is downloaded can be written at its target path. */
  ghost predicate Writable(keys: seq<string>, placement: Placement, dirs: set<string>) {
    forall i :: 0 <= i < |keys| && !IsFolderKey(keys[i]) ==> Writes(TargetPath(placement, keys[i]), dirs)
  }

  /** The downloads of a listing, one key more. */
  lemma DownloadedSnoc(files: map<string, Blob>, objects: map<string, Blob>, keys: seq<string>, i: nat, placement: Placement)
    requires i < |keys|
    ensures Downloaded(files, objects, keys[..i + 1], placement) ==
      var prev := Downloaded(files, objects, keys[..i], placement);
      if IsFolderKey(keys[i]) || keys[i] !in objects then prev else prev[TargetPath(placement, keys[i]) := objects[keys[i]]]
  {
    assert keys[..i + 1][..i] == keys[..i];
  }

  /** Writability of a listing, one key more. */
  lemma WritableSnoc(keys: seq<string>, i: nat, placement: Placement, dirs: set<string>)
    requires i < |keys| && Writable(keys[..i], placement, dirs)
    requires !IsFolderKey(keys[i]) ==> Writes(TargetPath(placement, keys[i]), dirs)
    ensures Writable(keys[..i + 1], placement, dirs)
  {
    var next := keys[..i + 1];
    forall j | 0 <= j < i + 1 && !IsFolderKey(next[j])
      ensures Writes(TargetPath(placement, next[j]), dirs)
    {
      if j < i {
        assert next[j] == keys[..i][j];
      }
    }
  }

  /** A key that cannot be written makes the listing unwritable. */
  lemma WritableNeedsEach(keys: seq<string>, i: nat, placement: Placement, dirs: set<string>)
    requires i < |keys| && !IsFolderKey(keys[i]) && !Writes(TargetPath(placement, keys[i]), dirs)
    ensures !Writable(keys, placement, dirs)
  {
  }

  /** `keys[i]` is downloaded to `p`. */
  ghost predicate DownloadsTo(objects: map<string, Blob>, keys: seq<string>, placement: Placement, i: int, p: string) {
    0 <= i < |keys| && !IsFolderKey(keys[i]) && keys[i] in objects && TargetPath(placement, keys[i]) == p
  }

  /** A path no key is downloaded to keeps what it had, and a downloaded path was a target. */
  lemma {:induction false} DownloadedFrame(files: map<string, Blob>, objects: map<string, Blob>, keys: seq<string>, placement: Placement, p: string)
    ensures (forall i :: !DownloadsTo(objects, keys, placement, i, p)) ==>
      (p in Downloaded(files, objects, keys, placement) <==> p in files)
      && (p in files ==> Downloaded(files, objects, keys, placement)[p] == files[p])
    ensures p in Downloaded(files, objects, keys, placement) && p !in files ==>
      exists i :: DownloadsTo(objects, keys, placement, i, p)
    decreases |keys|
  {
    if |keys| > 0 {
      var n := |keys| - 1;
      var init := keys[..n];
      DownloadedFrame(files, objects, init, placement, p);
      forall i | DownloadsTo(objects, init, placement, i, p)
        ensures DownloadsTo(objects, keys, placement, i, p)
      {
        assert init[i] == keys[i];
      }
      if forall i :: !DownloadsTo(objects, keys, placement, i, p) {
        assert !DownloadsTo(objects, keys, placement, n, p);
      }
      if DownloadsTo(objects, keys, placement, n, p) {
        assert exists i :: DownloadsTo(objects, keys, placement, i, p);
      }
    }
  }

  /** A key whose target no other downloaded key shares is downloaded to it. */
  lemma {:induction false} DownloadedAt(files: map<string, Blob>, objects: map<string, Blob>, keys: seq<string>, placement: Placement, i: nat)
    requires i < |keys| && DownloadsTo(objects, keys, placement, i, TargetPath(placement, keys[i]))
    requires forall j :: DownloadsTo(objects, keys, placement, j, TargetPath(placement, keys[i])) ==> keys[j] == keys[i]
    ensures var p := TargetPath(placement, keys[i]);
      p in Downloaded(files, objects, keys, placement) && Downloaded(files, objects, keys, placement)[p] == objects[keys[i]]
    decreases |keys|
  {
    var p, last := TargetPath(placement, keys[i]), keys[|keys| - 1];
    var init := keys[..|keys| - 1];
    var prev := Downloaded(files, objects, init, placement);
    if i < |keys| - 1 {
      assert init[i] == keys[i];
      forall j | DownloadsTo(objects, init, placement, j, p)
        ensures init[j] == init[i]
      {
        assert DownloadsTo(objects, keys, placement, j, p);
      }
      DownloadedAt(files, objects, init, placement, i);
      assert p in prev && prev[p] == objects[keys[i]];
      if !IsFolderKey(last) && last in objects && TargetPath(placement, last) == p {
        assert DownloadsTo(objects, keys, placement, |keys| - 1, p);
      }
    }
  }

  /** One pass of the download loop: key `i` of the listing, after the keys before it. */
  method DownloadKey(bucket: ObjectStore, fs: LocalFs, placement: Placement, i: nat, ghost start: map<string, Blob>)
    returns (r: Result<()>)
    requires bucket.Valid() && fs.Valid() && i < |bucket.listing|
    requires fs.files == Downloaded(start, bucket.objects, bucket.listing[..i], placement)
    requires Writable(bucket.listing[..i], placement, fs.dirs)
    modifies fs
    ensures fs.Valid() && fs.dirs == old(fs.dirs)
    ensures r.Success? ==> fs.files == Downloaded(start, bucket.objects, bucket.listing[..i + 1], placement)
    ensures r.Success? ==> Writable(bucket.listing[..i + 1], placement, fs.dirs)
    ensures r.Failure? ==> fs.files == old(fs.files) && !Writable(bucket.listing, placement, fs.dirs)
  {
    var keys := bucket.listing;
    var key := keys[i];
    assert key in bucket.objects;
    DownloadedSnoc(start, bucket.objects, keys, i, placement);
    r := Success(());
    if !IsFolderKey(key) {
      var target := TargetPath(placement, key);
      r := Download(bucket, key, fs, target);
      if r.Failure? {
        WritableNeedsEach(keys, i, placement, fs.dirs);
        return;
      }
    }
    WritableSnoc(keys, i, placement, fs.dirs);
  }

  /**
   * The download loop of both workers: each listed key that is not a folder marker is
   * downloaded to its target path; the first failure ends the loop and propagates.
   */
  method DownloadAll(bucket: ObjectStore, fs: LocalFs, placement: Placement) returns (r: Result<()>)
    requires bucket.Valid() && fs.Valid()
    modifies fs
    ensures fs.Valid() && fs.dirs == old(fs.dirs)
    ensures r.Success? <==> Writable(bucket.listing, placement, old(fs.dirs))
    ensures r.Success? ==> fs.files == Downloaded(old(fs.files), bucket.objects, bucket.listing, placement)
    ensures r.Failure? ==>
      exists j :: 0 <= j < |bucket.listing| && fs.files == Downloaded(old(fs.files), bucket.objects, bucket.listing[..j], placement)
  {
    var i := 0;
    while i < |bucket.listing|
      invariant 0 <= i <= |bucket.listing|
      invariant fs.Valid() && fs.dirs == old(fs.dirs)
      invariant fs.files == Downloaded(old(fs.files), bucket.objects, bucket.listing[..i], placement)
      invariant Writable(bucket.listing[..i], placement, old(fs.dirs))
    {
      r := DownloadKey(bucket, fs, placement, i, old(fs.files));
      if r.Failure? {
        return;
      }
      i := i + 1;
    }
    assert bucket.listing[..i] == bucket.listing;
    r := Success(());
  }

  /** `p` lies below `dir`, where a walk of `dir` finds it. */
  predicate Under(p: string, dir: string) {
    Text.StartsWith(p, dir + "/")
  }

  /** The bucket after uploading each file of `paths` below `dir`, in that order, under its base name. */
  function Uploaded(objects: map<string, Blob>, files: map<string, Blob>, paths: seq<string>, dir: string): map<string, Blob>
    decreases |paths|
  {
    if |paths| == 0 then objects
    else
      var p := paths[|paths| - 1];
      var prev := Uploaded(objects, files, paths[..|paths| - 1], dir);
      if p in files && Under(p, dir) then prev[PosixPath.Basename(p) := files[p]] else prev
  }

  /** One more file of the walk: uploaded under its base name when it lies below `dir`. */
  lemma UploadedSnoc(objects: map<string, Blob>, files: map<string, Blob>, paths: seq<string>, dir: string, i: nat)
    requires i < |paths|
    ensures Uploaded(objects, files, paths[..i + 1], dir)
      == if paths[i] in files && Under(paths[i], dir)
         then Uploaded(objects, files, paths[..i], dir)[PosixPath.Basename(paths[i]) := files[paths[i]]]
         else Uploaded(objects, files, paths[..i], dir)
  {
    assert paths[..i + 1][..i] == paths[..i];
  }

  /** The bucket's listing after the same uploads: a key not yet listed goes to the end. */
  function UploadedListing(listing: seq<string>, files: map<string, Blob>, paths: seq<string>, dir: string): seq<string>
    decreases |paths|
  {
    if |paths| == 0 then listing
    else
      var p := paths[|paths| - 1];
      var prev := UploadedListing(listing, files, paths[..|paths| - 1], dir);
      if p in files && Under(p, dir) && PosixPath.Basename(p) !in prev then prev + [PosixPath.Basename(p)] else prev
  }

  /** One more file of the walk: its base name is appended when it is uploaded and not yet listed. */
  lemma UploadedListingSnoc(listing: seq<string>, files: map<string, Blob>, paths: seq<string>, dir: string, i: nat)
    requires i < |paths|
    ensures var prev := UploadedListing(listing, files, paths[..i], dir);
      UploadedListing(listing, files, paths[..i + 1], dir)
        == if paths[i] in files && Under(paths[i], dir) && PosixPath.Basename(paths[i]) !in prev
           then prev + [PosixPath.Basename(paths[i])] else prev
  {
    assert paths[..i + 1][..i] == paths[..i];
  }

  /**
   * The uploads keep the old listing in front, list no key twice, and list exactly the keys of
   * the uploaded bucket.
   */
  lemma {:induction false} UploadedListingFacts(objects: map<string, Blob>, listing: seq<string>, files: map<string, Blob>,
                                                paths: seq<string>, dir: string)
    requires (forall k :: k in objects <==> k in listing) && Distinct(listing)
    ensures var l := UploadedListing(listing, files, paths, dir);
      |l| >= |listing| && l[..|listing|] == listing && Distinct(l)
      && (forall k :: k in Uploaded(objects, files, paths, dir) <==> k in l)
    decreases |paths|
  {
    if |paths| > 0 {
      var init := paths[..|paths| - 1];
      UploadedListingFacts(objects, listing, files, init, dir);
      var prev := UploadedListing(listing, files, init, dir);
      var l := UploadedListing(listing, files, paths, dir);
      if l != prev {
        assert l[..|listing|] == prev[..|listing|];
      }
    }
  }

  /** `paths[j]` is uploaded under the key `k`. */
  ghost predicate UploadsAs(files: map<string, Blob>, paths: seq<string>, dir: string, j: int, k: string) {
    0 <= j < |paths| && paths[j] in files && Under(paths[j], dir) && PosixPath.Basename(paths[j]) == k
  }

  /** A key no file is uploaded under keeps what it had. */
  lemma {:induction false} UploadedFrame(objects: map<string, Blob>, files: map<string, Blob>, paths: seq<string>, dir: string, k: string)
    requires forall j :: !UploadsAs(files, paths, dir, j, k)
    ensures k in Uploaded(objects, files, paths, dir) <==> k in objects
    ensures k in objects ==> Uploaded(objects, files, paths, dir)[k] == objects[k]
    decreases |paths|
  {
    if |paths| > 0 {
      var n := |paths| - 1;
      var init := paths[..n];
      forall j | UploadsAs(files, init, dir, j, k)
        ensures UploadsAs(files, paths, dir, j, k)
      {
        assert init[j] == paths[j];
      }
      UploadedFrame(objects, files, init, dir, k);
      assert !UploadsAs(files, paths, dir, n, k);
    }
  }

  /** A key the bucket did not hold is there afterwards only when some file was uploaded under it. */
  lemma {:induction false} UploadedOnlyUploads(objects: map<string, Blob>, files: map<string, Blob>, paths: seq<string>, dir: string, k: string)
    requires k in Uploaded(objects, files, paths, dir) && k !in objects
    ensures exists j :: UploadsAs(files, paths, dir, j, k)
    decreases |paths|
  {
    if |paths| == 0 {
      assert false;
    }
    var n := |paths| - 1;
    if UploadsAs(files, paths, dir, n, k) {
      assert UploadsAs(files, paths, dir, n, k);
    } else {
      var init := paths[..n];
      UploadedOnlyUploads(objects, files, init, dir, k);
      var j :| UploadsAs(files, init, dir, j, k);
      assert init[j] == paths[j];
      assert UploadsAs(files, paths, dir, j, k);
    }
  }

  /** A file that is the only one below `dir` with its base name ends up under that key. */
  lemma {:induction false} UploadedAt(objects: map<string, Blob>, files: map<string, Blob>, paths: seq<string>, dir: string, j: nat)
    requires j < |paths| && UploadsAs(files, paths, dir, j, PosixPath.Basename(paths[j]))
    requires forall m :: UploadsAs(files, paths, dir, m, PosixPath.Basename(paths[j])) ==> paths[m] == paths[j]
    ensures var k := PosixPath.Basename(paths[j]);
      k in Uploaded(objects, files, paths, dir) && Uploaded(objects, files, paths, dir)[k] == files[paths[j]]
    decreases |paths|
  {
    var init := paths[..|paths| - 1];
    if j < |paths| - 1 {
      assert init[j] == paths[j];
      forall m | UploadsAs(files, init, dir, m, PosixPath.Basename(paths[j]))
        ensures init[m] == init[j]
      {
        assert UploadsAs(files, paths, dir, m, PosixPath.Basename(paths[j]));
      }
      UploadedAt(objects, files, init, dir, j);
    }
  }

  // ---------------------------------------------------------------------------
  // Buckets of bare file names

  /** A top-level object name: not empty and without '/'. */
  predicate IsFlatName(k: string) {
    k != "" && '/' !in k
  }

  /** The shape the embedding worker keeps the vector bucket in: every key is a bare file name. */
  ghost predicate FlatKeys(objects: map<string, Blob>) {
    forall k :: k in objects ==> IsFlatName(k)
  }

  /** Every file below `dir` sits directly in it. */
  ghost predicate FlatUnder(files: map<string, Blob>, dir: string) {
    forall p :: p in files && Under(p, dir) ==> IsFlatName(p[|dir| + 1..])
  }

  /** A directory path as the workers write one: not empty and without a trailing '/'. */
  ghost predicate IsDir(dir: string) {
    PosixPath.HasBasename(dir)
  }

  /** The index files have bare names of different lengths. */
  lemma IndexNamesFlat()
    ensures IsFlatName(IndexFaiss) && IsFlatName(IndexPkl)
    ensures |IndexFaiss| == 11 && |IndexPkl| == 9
  {
    assert IndexFaiss == ['i', 'n', 'd', 'e', 'x', '.', 'f', 'a', 'i', 's', 's'];
    assert IndexPkl == ['i', 'n', 'd', 'e', 'x', '.', 'p', 'k', 'l'];
  }

  /** The two index files of a folder are distinct files directly in it, and neither is the folder. */
  lemma IndexFilesIn(folder: string)
    requires IsDir(folder)
    ensures PosixPath.Dirname(PosixPath.Join(folder, IndexFaiss)) == folder
    ensures PosixPath.Dirname(PosixPath.Join(folder, IndexPkl)) == folder
    ensures PosixPath.HasBasename(PosixPath.Join(folder, IndexFaiss)) && PosixPath.HasBasename(PosixPath.Join(folder, IndexPkl))
    ensures PosixPath.Join(folder, IndexFaiss) != PosixPath.Join(folder, IndexPkl)
    ensures PosixPath.Join(folder, IndexFaiss) != folder && PosixPath.Join(folder, IndexPkl) != folder
  {
    IndexNamesFlat();
    FlatPath(folder, IndexFaiss);
    FlatPath(folder, IndexPkl);
    FlatNamed(folder, IndexFaiss);
    FlatNamed(folder, IndexPkl);
    assert |folder + "/" + IndexFaiss| != |folder + "/" + IndexPkl|;
  }

  /** `dir/name` for a bare name is a file path below `dir`, other than `dir` itself. */
  lemma FlatNamed(dir: string, name: string)
    requires IsFlatName(name)
    ensures PosixPath.HasBasename(dir + "/" + name) && dir + "/" + name != dir
  {
    var p := dir + "/" + name;
    assert p[|p| - 1] == name[|name| - 1];
    assert |p| > |dir|;
  }

  /** The index files just written load as the index they hold. */
  lemma SavedIndexLoads(files: map<string, Blob>, folder: string, chunks: seq<Document>)
    requires PosixPath.Join(folder, IndexFaiss) != PosixPath.Join(folder, IndexPkl)
    ensures LoadIndex(files[PosixPath.Join(folder, IndexFaiss) := FaissVectors(chunks)]
                           [PosixPath.Join(folder, IndexPkl) := FaissDocstore(chunks)], folder) == Success(chunks)
  {
  }

  /** A flat name joined to a directory is the directory, one '/', and the name, and lies below it. */
  lemma FlatJoin(dir: string, name: string)
    requires IsDir(dir) && IsFlatName(name)
    ensures PosixPath.Join(dir, name) == dir + "/" + name
    ensures Under(dir + "/" + name, dir) && (dir + "/" + name)[|dir| + 1..] == name
  {
    FlatPath(dir, name);
  }

  /** A flat name joined to a directory is the directory, one '/', and the name. */
  lemma FlatPath(dir: string, name: string)
    requires IsDir(dir) && IsFlatName(name)
    ensures PosixPath.Join(dir, name) == dir + "/" + name
    ensures Under(dir + "/" + name, dir) && (dir + "/" + name)[|dir| + 1..] == name
    ensures PosixPath.Basename(dir + "/" + name) == name
    ensures PosixPath.Dirname(dir + "/" + name) == dir
  {
    assert name[0] != '/';
    PosixPath.BasenameJoin(dir, name);
    PosixPath.DirnameJoin(dir, name);
    var p := dir + "/" + name;
    assert p[..|dir| + 1] == dir + "/";
  }

  /** A file directly below `dir` is `dir/` followed by its base name. */
  lemma FlatFile(p: string, dir: string)
    requires IsDir(dir) && Under(p, dir) && IsFlatName(p[|dir| + 1..])
    ensures p == dir + "/" + p[|dir| + 1..]
    ensures PosixPath.Basename(p) == p[|dir| + 1..]
  {
    assert p == p[..|dir| + 1] + p[|dir| + 1..];
    FlatPath(dir, p[|dir| + 1..]);
  }

  /** The files below `dir` are a copy of the flat bucket `objects`, each object under its key. */
  ghost predicate HoldsBucket(files: map<string, Blob>, objects: map<string, Blob>, dir: string) {
    (forall k :: k in objects ==> dir + "/" + k in files && files[dir + "/" + k] == objects[k])
    && (forall p :: p in files && Under(p, dir) ==> p[|dir| + 1..] in objects)
    && FlatUnder(files, dir)
  }

  /** The index saved in a copy of a flat bucket is the index the bucket holds at its top level. */
  lemma LoadedIsBucketIndex(files: map<string, Blob>, objects: map<string, Blob>, dir: string)
    requires IsDir(dir) && HoldsBucket(files, objects, dir)
    ensures LoadIndex(files, dir).Success? <==> BucketIndex(objects).Success?
    ensures LoadIndex(files, dir).Success? ==> LoadIndex(files, dir).value == BucketIndex(objects).value
  {
    FlatJoin(dir, IndexFaiss);
    FlatJoin(dir, IndexPkl);
    var faiss, pkl := dir + "/" + IndexFaiss, dir + "/" + IndexPkl;
    assert faiss in files <==> IndexFaiss in objects;
    assert pkl in files <==> IndexPkl in objects;
    if IndexFaiss in objects && IndexPkl in objects {
      assert files[faiss] == objects[IndexFaiss] && files[pkl] == objects[IndexPkl];
    }
  }

  /** For a bare file name both placements give the directory, one '/', and the name. */
  lemma FlatTarget(placement: Placement, key: string)
    requires IsDir(placement.dir) && IsFlatName(key)
    ensures TargetPath(placement, key) == placement.dir + "/" + key
    ensures !IsFolderKey(key)
  {
    FlatPath(placement.dir, key);
    Text.ReplaceEmptyByEmpty(key);
    assert key[|key| - 1] != '/';
  }

  /** The target of `key` is a file directly in the placement's directory. */
  predicate FlatTargetOf(placement: Placement, key: string) {
    var target := TargetPath(placement, key);
    PosixPath.Dirname(target) == placement.dir && PosixPath.HasBasename(target) && Under(target, placement.dir)
  }

  /** The bucket's copy lands in the directory: each object under its key, and nothing else of it. */
  lemma FlatDownloadHolds(files: map<string, Blob>, objects: map<string, Blob>, keys: seq<string>, placement: Placement)
    requires IsDir(placement.dir) && FlatKeys(objects)
    requires (forall k :: k in objects <==> k in keys) && Distinct(keys)
    requires forall p :: p in files ==> !Under(p, placement.dir)
    ensures HoldsBucket(Downloaded(files, objects, keys, placement), objects, placement.dir)
  {
    var dir := placement.dir;
    var after := Downloaded(files, objects, keys, placement);
    forall k | k in objects
      ensures dir + "/" + k in after && after[dir + "/" + k] == objects[k]
    {
      var i :| 0 <= i < |keys| && keys[i] == k;
      FlatTarget(placement, k);
      forall j | DownloadsTo(objects, keys, placement, j, TargetPath(placement, keys[i]))
        ensures keys[j] == keys[i]
      {
        FlatTarget(placement, keys[j]);
        FlatPath(dir, keys[j]);
        FlatPath(dir, keys[i]);
      }
      DownloadedAt(files, objects, keys, placement, i);
    }
    forall p | p in after && Under(p, dir)
      ensures p[|dir| + 1..] in objects && IsFlatName(p[|dir| + 1..])
    {
      DownloadedFrame(files, objects, keys, placement, p);
      var i :| DownloadsTo(objects, keys, placement, i, p);
      FlatTarget(placement, keys[i]);
      FlatPath(dir, keys[i]);
    }
  }

  /** No file and no directory lies below `dir`. */
  ghost predicate NothingUnder(files: map<string, Blob>, dirs: set<string>, dir: string) {
    (forall p :: p in files ==> !Under(p, dir)) && (forall d :: d in dirs ==> !Under(d, dir))
  }

  /** Every key of a flat listing can be written into a directory that exists and holds no directory yet. */
  lemma FlatWritable(keys: seq<string>, placement: Placement, dirs: set<string>)
    requires forall i :: 0 <= i < |keys| ==> !IsFolderKey(keys[i]) && FlatTargetOf(placement, keys[i])
    requires forall d :: d in dirs ==> !Under(d, placement.dir)
    ensures Writable(keys, placement, dirs + {placement.dir})
  {
    forall i | 0 <= i < |keys| && !IsFolderKey(keys[i])
      ensures Writes(TargetPath(placement, keys[i]), dirs + {placement.dir})
    {
      assert Under(TargetPath(placement, keys[i]), placement.dir);
    }
  }

  /** Nothing outside the directory changes. */
  lemma FlatDownloadOutside(files: map<string, Blob>, objects: map<string, Blob>, keys: seq<string>, placement: Placement, p: string)
    requires IsDir(placement.dir) && FlatKeys(objects)
    requires forall k :: k in objects <==> k in keys
    requires !Under(p, placement.dir)
    ensures var after := Downloaded(files, objects, keys, placement);
      (p in after <==> p in files) && (p in files ==> after[p] == files[p])
  {
    forall i | 0 <= i < |keys|
      ensures !DownloadsTo(objects, keys, placement, i, p)
    {
      FlatTarget(placement, keys[i]);
      FlatPath(placement.dir, keys[i]);
    }
    DownloadedFrame(files, objects, keys, placement, p);
  }

  /**
   * Downloading a flat bucket into a directory that holds nothing yet puts each object directly
   * in it under its key, and touches nothing outside it.
   */
  lemma FlatDownload(files: map<string, Blob>, objects: map<string, Blob>, keys: seq<string>, placement: Placement)
    requires IsDir(placement.dir) && FlatKeys(objects)
    requires (forall k :: k in objects <==> k in keys) && Distinct(keys)
    requires forall p :: p in files ==> !Under(p, placement.dir)
    ensures forall i :: 0 <= i < |keys| ==> !IsFolderKey(keys[i]) && FlatTargetOf(placement, keys[i])
    ensures HoldsBucket(Downloaded(files, objects, keys, placement), objects, placement.dir)
    ensures var after := Downloaded(files, objects, keys, placement);
      forall p :: !Under(p, placement.dir) ==> (p in after <==> p in files) && (p in files ==> after[p] == files[p])
  {
    forall i | 0 <= i < |keys|
      ensures !IsFolderKey(keys[i]) && FlatTargetOf(placement, keys[i])
    {
      FlatTarget(placement, keys[i]);
      FlatPath(placement.dir, keys[i]);
      FlatNamed(placement.dir, keys[i]);
    }
    FlatDownloadHolds(files, objects, keys, placement);
    forall p | !Under(p, placement.dir)
      ensures var after := Downloaded(files, objects, keys, placement);
        (p in after <==> p in files) && (p in files ==> after[p] == files[p])
    {
      FlatDownloadOutside(files, objects, keys, placement, p);
    }
  }
}
