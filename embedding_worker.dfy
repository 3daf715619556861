/**
 * The embedding worker: for each uploaded document it copies the vector bucket into a fresh
 * temporary directory, downloads the document into another, chunks it when it is a PDF, adds
 * the chunks to the FAISS index (or builds a new index when none loads), and uploads every file
 * of the temporary directory back to the vector bucket under its file name. PDF parsing,
 * splitting and the embedding calls are an oracle; their effect on the index is the chunks.
 */
module EmbeddingWorker {
  import opened Wrappers
  import opened Text
  import opened Documents
  import opened Storage
  import PosixPath

  // ---------------------------------------------------------------------------
  // The triggering event

  /** One S3 notification record: its `s3.object.key`. */
  datatype S3Record = S3Record(objectKey: string)

  /** An SQS record whose body, parsed as JSON, holds the S3 notification's `Records` (None when it does not). */
  datatype SqsRecord = SqsRecord(body: Option<seq<S3Record>>)

  datatype SqsEvent = SqsEvent(records: seq<SqsRecord>)

  /** `json.loads(event["Records"][0]["body"])["Records"][0]["s3"]["object"]["key"]`. */
  function ObjectKey(event: SqsEvent): (r: Result<string>)
    ensures r.Success? <==>
      |event.records| > 0 && event.records[0].body.Some? && |event.records[0].body.value| > 0
  {
    if |event.records| == 0 then Failure("list index out of range")
    else if event.records[0].body.None? then Failure("'Records'")
    else if |event.records[0].body.value| == 0 then Failure("list index out of range")
    else Success(event.records[0].body.value[0].objectKey)
  }

  /** Only the first record of the first message is read: later records and messages are ignored. */
  lemma OnlyFirstRecordRead(first: SqsRecord, rest: seq<SqsRecord>, s3: S3Record, more: seq<S3Record>)
    requires first.body == Some([s3] + more)
    ensures ObjectKey(SqsEvent([first] + rest)) == Success(s3.objectKey)
  {
  }

  /** The local file the document is downloaded to: its base name inside the material directory. */
  function MaterialPath(materialDir: string, key: string): string {
    PosixPath.Join(materialDir, PosixPath.Basename(key))
  }

  /** The downloaded file sits directly in the material directory and keeps the key's base name. */
  lemma MaterialPathFacts(materialDir: string, key: string)
    requires materialDir != "" && materialDir[|materialDir| - 1] != '/'
    ensures PosixPath.Dirname(MaterialPath(materialDir, key)) == materialDir
    ensures PosixPath.Basename(MaterialPath(materialDir, key)) == PosixPath.Basename(key)
    ensures Under(MaterialPath(materialDir, key), materialDir)
  {
    var name := PosixPath.Basename(key);
    PosixPath.DirnameJoin(materialDir, name);
    PosixPath.BasenameJoin(materialDir, name);
    if name != "" {
      assert name[0] != '/';
    }
    var p := MaterialPath(materialDir, key);
    assert p == materialDir + "/" + name;
    assert p[..|materialDir| + 1] == materialDir + "/";
  }

  // ---------------------------------------------------------------------------
  // chunking

  const PdfExtension := ".pdf"

  /** `os.path.splitext(path)[1].lower() == ".pdf"`. */
  predicate IsPdf(path: string) {
    AsciiLower(PosixPath.SplitExt(path).1) == PdfExtension
  }

  /**
   * The loader and splitter run only on a PDF; any other file, or an exception while loading or
   * splitting, gives no chunks.
   */
  function Chunking(path: string, content: Blob, load: (string, Blob) -> Result<seq<Document>>): (chunks: seq<Document>)
    ensures IsPdf(path) && load(path, content).Success? ==> chunks == load(path, content).value
    ensures !IsPdf(path) || load(path, content).Failure? ==> chunks == []
  {
    if !IsPdf(path) then []
    else match load(path, content)
      case Failure(_) => []
      case Success(docs) => docs
  }

  /** A file that passes the gate ends in ".pdf" in some mix of cases. */
  lemma PdfGateNeedsSuffix(path: string)
    requires IsPdf(path)
    ensures |path| >= 4 && AsciiLower(path[|path| - 4..]) == PdfExtension
  {
    var (root, ext) := PosixPath.SplitExt(path);
    assert |ext| == 4;
    assert path[|path| - 4..] == ext;
  }

  /** The case variants of ".pdf" have no '/' and no second '.'. */
  lemma PdfExtensionChars(ext: string)
    requires |ext| == 4 && AsciiLower(ext) == PdfExtension
    ensures ext[0] == '.' && '/' !in ext && '.' !in ext[1..]
  {
    forall i | 0 <= i < 4
      ensures ext[i] != '/' && (i > 0 ==> ext[i] != '.')
    {
      assert AsciiLower(ext)[i] == PdfExtension[i];
    }
  }

  /** A name without '/' splits into parts without '/'. */
  lemma NoSlashInParts(a: string, b: string)
    requires '/' !in a + b
    ensures '/' !in a && '/' !in b
  {
    forall i | 0 <= i < |a|
      ensures a[i] != '/'
    {
      assert (a + b)[i] == a[i];
    }
    forall i | 0 <= i < |b|
      ensures b[i] != '/'
    {
      assert (a + b)[|a| + i] == b[i];
    }
  }

  /**
   * The gate is case-insensitive: a document named `name` + any case variant of ".pdf" (as
   * "x.PDF") is chunked, wherever the key puts it.
   */
  lemma PdfGateIgnoresCase(materialDir: string, key: string, name: string, ext: string)
    requires materialDir != "" && materialDir[|materialDir| - 1] != '/'
    requires PosixPath.Basename(key) == name + ext
    requires exists k | 0 <= k < |name| :: name[k] != '.'
    requires |ext| == 4 && AsciiLower(ext) == PdfExtension
    ensures IsPdf(MaterialPath(materialDir, key))
  {
    PdfExtensionChars(ext);
    NoSlashInParts(name, ext);
    MaterialPathOfName(materialDir, key, name + ext);
    StemSplit(materialDir, name, ext);
    Regroup(materialDir + "/", name, ext);
    PdfBySplit(MaterialPath(materialDir, key), materialDir + "/" + name, ext);
  }

  /**
   * So a document named `name` + a case variant of ".pdf" that loads is chunked into exactly the
   * loader's chunks once it is downloaded into the material directory.
   */
  lemma PdfDocumentIsChunked(materialDir: string, key: string, name: string, ext: string,
                             material: map<string, Blob>, load: (string, Blob) -> Result<seq<Document>>)
    requires materialDir != "" && materialDir[|materialDir| - 1] != '/'
    requires PosixPath.Basename(key) == name + ext
    requires exists k | 0 <= k < |name| :: name[k] != '.'
    requires |ext| == 4 && AsciiLower(ext) == PdfExtension
    requires key in material && load(MaterialPath(materialDir, key), material[key]).Success?
    ensures DocumentChunks(key, material, materialDir, load) == load(MaterialPath(materialDir, key), material[key]).value
  {
    PdfGateIgnoresCase(materialDir, key, name, ext);
  }

  lemma Regroup(a: string, b: string, c: string)
    ensures (a + b) + c == a + (b + c)
  {
  }

  /** A path that splits off a case variant of ".pdf" passes the gate. */
  lemma PdfBySplit(path: string, stem: string, ext: string)
    requires PosixPath.SplitExt(path) == (stem, ext) && AsciiLower(ext) == PdfExtension
    ensures IsPdf(path)
  {
  }

  /** A key whose base name is not empty is downloaded to `materialDir + "/" + name`. */
  lemma MaterialPathOfName(materialDir: string, key: string, name: string)
    requires materialDir != "" && materialDir[|materialDir| - 1] != '/'
    requires PosixPath.Basename(key) == name && name != ""
    ensures MaterialPath(materialDir, key) == materialDir + "/" + name
  {
    assert name[0] != '/';
    PosixPath.JoinRelative(materialDir, name);
  }

  /** A file `name` + `ext` in a directory splits before `ext`. */
  lemma StemSplit(dir: string, name: string, ext: string)
    requires '/' !in name && exists k | 0 <= k < |name| :: name[k] != '.'
    requires |ext| > 0 && ext[0] == '.' && '.' !in ext[1..] && '/' !in ext
    ensures PosixPath.SplitExt((dir + "/" + name) + ext) == (dir + "/" + name, ext)
  {
    var stem := dir + "/" + name;
    PosixPath.RFindAfterSlash(dir, name);
    var k :| 0 <= k < |name| && name[k] != '.';
    assert stem[|dir| + 1 + k] == name[k];
    PosixPath.SplitExtOfSuffix(stem, ext);
  }

  // ---------------------------------------------------------------------------
  // insert_document

  /**
   * The chunks of the index `insert_document` saves: the loaded index followed by the new chunks
   * when the index loads and adding them succeeds; otherwise the new chunks alone.
   */
  function Inserted(loaded: Result<seq<Document>>, docs: seq<Document>, addEmbeds: bool): (chunks: seq<Document>)
    ensures |chunks| >= |docs| && chunks[|chunks| - |docs|..] == docs
  {
    if loaded.Success? && addEmbeds then loaded.value + docs else docs
  }

  /** What the two paths of `insert_document` keep of the existing index. */
  lemma InsertedCases(loaded: Result<seq<Document>>, docs: seq<Document>, addEmbeds: bool)
    ensures loaded.Success? && addEmbeds ==> Inserted(loaded, docs, addEmbeds)[..|loaded.value|] == loaded.value
    ensures loaded.Success? && !addEmbeds ==> Inserted(loaded, docs, addEmbeds) == docs
    ensures loaded.Failure? ==> Inserted(loaded, docs, addEmbeds) == docs
  {
  }

  /**
   * Load the saved index and append; on any exception, build an index of the new chunks alone.
   * `addEmbeds` and `buildEmbeds` say whether embedding the chunks succeeds in `add_documents`
   * and in `from_documents`. No chunks at all make both branches raise, so nothing is saved:
   * `add_documents` hands FAISS an empty array of no dimension, and `from_documents` reads the
   * dimension off the first embedding.
   */
  method InsertDocument(docs: seq<Document>, fs: LocalFs, vectorPath: string, addEmbeds: bool, buildEmbeds: bool)
    returns (r: Result<()>)
    requires fs.Valid() && IsDir(vectorPath)
    modifies fs
    ensures fs.Valid()
    ensures r.Success? <==> docs != [] && CanSave(old(fs.files), old(fs.dirs), vectorPath)
                            && ((LoadIndex(old(fs.files), vectorPath).Success? && addEmbeds) || buildEmbeds)
    ensures r.Success? ==> fs.dirs == old(fs.dirs) + {vectorPath}
    ensures r.Success? ==>
      var chunks := Inserted(LoadIndex(old(fs.files), vectorPath), docs, addEmbeds);
      fs.files == old(fs.files)[PosixPath.Join(vectorPath, IndexFaiss) := FaissVectors(chunks)]
                               [PosixPath.Join(vectorPath, IndexPkl) := FaissDocstore(chunks)]
      && LoadIndex(fs.files, vectorPath) == Success(chunks)
    ensures r.Failure? && CanSave(old(fs.files), old(fs.dirs), vectorPath) ==>
      fs.files == old(fs.files) && fs.dirs == old(fs.dirs)
    ensures r.Failure? ==> fs.dirs <= old(fs.dirs) + {vectorPath}
    ensures r.Failure? ==> AgreeBesides(fs.files, old(fs.files), PosixPath.Join(vectorPath, IndexFaiss))
  {
    if docs == [] {
      return Failure("list index out of range");
    }
    r := AddOrBuild(docs, fs, vectorPath, addEmbeds, buildEmbeds);
  }

  /**
   * The two branches of `insert_document` for some chunks. A save that fails in the first
   * branch is caught like any other exception; an exception in the fallback propagates.
   */
  method AddOrBuild(docs: seq<Document>, fs: LocalFs, vectorPath: string, addEmbeds: bool, buildEmbeds: bool)
    returns (r: Result<()>)
    requires fs.Valid() && IsDir(vectorPath) && docs != []
    modifies fs
    ensures fs.Valid()
    ensures r.Success? <==> CanSave(old(fs.files), old(fs.dirs), vectorPath)
                            && ((LoadIndex(old(fs.files), vectorPath).Success? && addEmbeds) || buildEmbeds)
    ensures r.Success? ==> fs.dirs == old(fs.dirs) + {vectorPath}
    ensures r.Success? ==>
      var chunks := Inserted(LoadIndex(old(fs.files), vectorPath), docs, addEmbeds);
      fs.files == old(fs.files)[PosixPath.Join(vectorPath, IndexFaiss) := FaissVectors(chunks)]
                               [PosixPath.Join(vectorPath, IndexPkl) := FaissDocstore(chunks)]
      && LoadIndex(fs.files, vectorPath) == Success(chunks)
    ensures r.Failure? && CanSave(old(fs.files), old(fs.dirs), vectorPath) ==>
      fs.files == old(fs.files) && fs.dirs == old(fs.dirs)
    ensures r.Failure? ==> fs.dirs <= old(fs.dirs) + {vectorPath}
    ensures r.Failure? ==> AgreeBesides(fs.files, old(fs.files), PosixPath.Join(vectorPath, IndexFaiss))
  {
    IndexFilesIn(vectorPath);
    var loaded := LoadIndex(fs.files, vectorPath);
    if loaded.Success? && addEmbeds {
      var index := new FaissIndex(loaded.value);
      index.AddDocuments(docs);
      ghost var files0, dirs0 := fs.files, fs.dirs;
      var saved := index.SaveLocal(fs, vectorPath);
      if saved {
        return Success(());
      }
      FailedSaveBlocks(files0, dirs0, fs.files, fs.dirs, vectorPath, FaissVectors(index.chunks));
    }
    if !buildEmbeds {
      return Failure("embedding failed");
    }
    var index := new FaissIndex(docs);
    ghost var files1, dirs1 := fs.files, fs.dirs;
    var saved := index.SaveLocal(fs, vectorPath);
    if !saved {
      FailedSaveBlocks(files1, dirs1, fs.files, fs.dirs, vectorPath, FaissVectors(index.chunks));
    }
    r := if saved then Success(()) else Failure("could not save the index to " + vectorPath);
  }

  /**
   * A save that fails leaves the folder unsaveable, adds at most the folder itself, and changes
   * no file but `index.faiss`.
   */
  lemma FailedSaveBlocks(files0: map<string, Blob>, dirs0: set<string>, files1: map<string, Blob>, dirs1: set<string>,
                         folder: string, v: Blob)
    requires IsDir(folder) && !CanSave(files0, dirs0, folder)
    requires files1 == files0 || files1 == files0[PosixPath.Join(folder, IndexFaiss) := v]
    requires dirs1 == if folder in files0 then dirs0 else dirs0 + {folder}
    ensures !CanSave(files1, dirs1, folder)
    ensures dirs1 <= dirs0 + {folder}
    ensures AgreeBesides(files1, files0, PosixPath.Join(folder, IndexFaiss))
  {
    IndexFilesIn(folder);
  }

  // ---------------------------------------------------------------------------
  // load_vectordata and upload_index

  /** Every listed key except folder markers is downloaded to `os.path.join(tempDir, key)`; any failure propagates. */
  method LoadVectorData(bucket: ObjectStore, fs: LocalFs, tempDir: string) returns (r: Result<()>)
    requires bucket.Valid() && fs.Valid()
    modifies fs
    ensures fs.Valid() && fs.dirs == old(fs.dirs)
    ensures r.Success? <==> Writable(bucket.listing, Joined(tempDir), old(fs.dirs))
    ensures r.Success? ==> fs.files == Downloaded(old(fs.files), bucket.objects, bucket.listing, Joined(tempDir))
    ensures r.Failure? ==>
      exists j :: 0 <= j < |bucket.listing| && fs.files == Downloaded(old(fs.files), bucket.objects, bucket.listing[..j], Joined(tempDir))
  {
    r := DownloadAll(bucket, fs, Joined(tempDir));
  }

  /**
   * Every file below the temporary directory is uploaded under its bare file name; a new key goes
   * to the end of the listing.
   */
  method UploadIndex(fs: LocalFs, tempDir: string, bucket: ObjectStore)
    requires fs.Valid() && bucket.Valid()
    modifies bucket
    ensures bucket.Valid()
    ensures bucket.objects == Uploaded(old(bucket.objects), fs.files, fs.order, tempDir)
    ensures bucket.listing == UploadedListing(old(bucket.listing), fs.files, fs.order, tempDir)
  {
    var paths := fs.order;
    var i := 0;
    while i < |paths|
      invariant 0 <= i <= |paths|
      invariant bucket.Valid()
      invariant bucket.objects == Uploaded(old(bucket.objects), fs.files, paths[..i], tempDir)
      invariant bucket.listing == UploadedListing(old(bucket.listing), fs.files, paths[..i], tempDir)
    {
      UploadedSnoc(old(bucket.objects), fs.files, paths, tempDir, i);
      UploadedListingSnoc(old(bucket.listing), fs.files, paths, tempDir, i);
      UploadWalked(fs, paths[i], tempDir, bucket);
      i := i + 1;
    }
    assert paths[..i] == paths;
  }

  /** One file the walk of the temporary directory finds, uploaded under its bare name. */
  method UploadWalked(fs: LocalFs, p: string, tempDir: string, bucket: ObjectStore)
    requires bucket.Valid()
    modifies bucket
    ensures bucket.Valid()
    ensures bucket.objects == if p in fs.files && Under(p, tempDir)
      then old(bucket.objects)[PosixPath.Basename(p) := fs.files[p]] else old(bucket.objects)
    ensures bucket.listing == if p in fs.files && Under(p, tempDir) && PosixPath.Basename(p) !in old(bucket.listing)
      then old(bucket.listing) + [PosixPath.Basename(p)] else old(bucket.listing)
  {
    if Under(p, tempDir) {
      var _ := Upload(fs, p, bucket, PosixPath.Basename(p));
    }
  }

  // ---------------------------------------------------------------------------
  // The bucket round trip

  /** Directories that are distinct and not nested: nothing below one is below the other. */
  lemma SiblingsDisjoint(a: string, b: string, p: string)
    requires a != b && !Under(a, b) && !Under(b, a)
    requires Under(p, a)
    ensures !Under(p, b)
  {
    var pa, pb := a + "/", b + "/";
    assert p[..|pa|] == pa;
    if |pb| <= |p| {
      if |a| < |b| {
        assert b[..|pa|] != pa;
        assert p[..|pb|][..|pa|] == p[..|pa|];
        assert pb[..|pa|] == b[..|pa|];
      } else if |a| > |b| {
        assert a[..|pb|] != pb;
        assert p[..|pa|][..|pb|] == p[..|pb|];
        assert pa[..|pb|] == a[..|pb|];
      } else {
        assert pa[..|a|] == a && pb[..|b|] == b;
        assert p[..|pb|] == p[..|pa|];
      }
    }
  }

  /**
   * Uploading a directory whose files sit directly in it puts each file under its name, and
   * leaves every other key as it was.
   */
  lemma FlatUpload(objects: map<string, Blob>, files: map<string, Blob>, paths: seq<string>, dir: string)
    requires IsDir(dir) && FlatUnder(files, dir)
    requires (forall p :: p in files <==> p in paths) && Distinct(paths)
    ensures var after := Uploaded(objects, files, paths, dir);
      (forall p :: p in files && Under(p, dir) ==> p[|dir| + 1..] in after && after[p[|dir| + 1..]] == files[p])
      && (forall k :: IsFlatName(k) && dir + "/" + k !in files ==>
            (k in after <==> k in objects) && (k in objects ==> after[k] == objects[k]))
      && (forall k :: k in after && k !in objects ==> dir + "/" + k in files)
  {
    var after := Uploaded(objects, files, paths, dir);
    forall p | p in files && Under(p, dir)
      ensures p[|dir| + 1..] in after && after[p[|dir| + 1..]] == files[p]
    {
      FlatFile(p, dir);
      var j :| 0 <= j < |paths| && paths[j] == p;
      forall m | UploadsAs(files, paths, dir, m, PosixPath.Basename(paths[j]))
        ensures paths[m] == paths[j]
      {
        FlatFile(paths[m], dir);
      }
      UploadedAt(objects, files, paths, dir, j);
    }
    forall k | IsFlatName(k) && dir + "/" + k !in files
      ensures (k in after <==> k in objects) && (k in objects ==> after[k] == objects[k])
    {
      forall j | 0 <= j < |paths|
        ensures !UploadsAs(files, paths, dir, j, k)
      {
        if UploadsAs(files, paths, dir, j, k) {
          FlatFile(paths[j], dir);
        }
      }
      UploadedFrame(objects, files, paths, dir, k);
    }
    forall k | k in after && k !in objects
      ensures dir + "/" + k in files
    {
      UploadedOnlyUploads(objects, files, paths, dir, k);
      var j :| UploadsAs(files, paths, dir, j, k);
      FlatFile(paths[j], dir);
    }
  }

  // ---------------------------------------------------------------------------
  // lambda_handler

  const StatusOk := 200
  const InvokeLine := "==== INVOKE HANDLER ===="
  const DownloadVectorsLine := "Download vector data"
  const InsertLine := "Embedding and insert document to FAISS engine"
  const IndexedLine := "==== COMPLETE EMBEDDING AND INDEXING ===="
  const UploadLine := "Upload all document"
  const CompleteTaskLine := "==== COMPLETE TASK ===="

  /** Only the last line of a run is "COMPLETE TASK". */
  lemma ProgressLinesDiffer()
    ensures InvokeLine != CompleteTaskLine && DownloadVectorsLine != CompleteTaskLine
    ensures InsertLine != CompleteTaskLine && IndexedLine != CompleteTaskLine && UploadLine != CompleteTaskLine
  {
    assert |CompleteTaskLine| == 23;
    assert |InvokeLine| == 24 && |DownloadVectorsLine| == 20 && |InsertLine| == 45;
    assert |IndexedLine| == 41 && |UploadLine| == 19;
  }

  lemma NotInConcat<T>(x: T, a: seq<T>, b: seq<T>)
    requires x !in a && x !in b
    ensures x !in a + b
  {
  }

  /** The downloaded document lies outside the temporary directory. */
  lemma MaterialOutsideTemp(materialDir: string, tempDir: string, key: string)
    requires IsDir(tempDir) && IsDir(materialDir)
    requires tempDir != materialDir && !Under(tempDir, materialDir) && !Under(materialDir, tempDir)
    ensures !Under(MaterialPath(materialDir, key), tempDir)
  {
    MaterialPathFacts(materialDir, key);
    SiblingsDisjoint(materialDir, tempDir, MaterialPath(materialDir, key));
  }

  /** A file written outside `dir` does not change the index saved in it. */
  lemma IndexSurvivesDocument(files: map<string, Blob>, path: string, doc: Blob, dir: string)
    requires IsDir(dir) && !Under(path, dir)
    ensures LoadIndex(files[path := doc], dir) == LoadIndex(files, dir)
  {
    FlatJoin(dir, IndexFaiss);
    FlatJoin(dir, IndexPkl);
  }

  /**
   * The outer `tempfile.TemporaryDirectory()` and `load_vectordata` into it. A flat bucket is
   * always copied in full to a directory that is new and empty, and nothing outside it changes.
   */
  method FetchVectors(vectors: ObjectStore, fs: LocalFs, tempDir: string) returns (r: Result<()>)
    requires vectors.Valid() && fs.Valid() && IsDir(tempDir)
    modifies fs
    ensures fs.Valid()
    ensures r.Success? <==> !old(fs.Exists(tempDir)) && Writable(vectors.listing, Joined(tempDir), old(fs.dirs) + {tempDir})
    ensures r.Success? ==> fs.dirs == old(fs.dirs) + {tempDir}
    ensures r.Success? ==> fs.files == Downloaded(old(fs.files), vectors.objects, vectors.listing, Joined(tempDir))
    ensures FlatKeys(vectors.objects) && !old(fs.Exists(tempDir)) && NothingUnder(old(fs.files), old(fs.dirs), tempDir) ==>
      r.Success? && HoldsBucket(fs.files, vectors.objects, tempDir)
      && (forall p :: !Under(p, tempDir) ==> (p in fs.files <==> p in old(fs.files)) && (p in old(fs.files) ==> fs.files[p] == old(fs.files)[p]))
  {
    var created := fs.MakeDirs(tempDir, false);
    if !created {
      return Failure("[Errno 17] File exists: " + tempDir);
    }
    ghost var files0 := fs.files;
    if FlatKeys(vectors.objects) && NothingUnder(files0, old(fs.dirs), tempDir) {
      FlatDownload(files0, vectors.objects, vectors.listing, Joined(tempDir));
      FlatWritable(vectors.listing, Joined(tempDir), old(fs.dirs));
    }
    r := LoadVectorData(vectors, fs, tempDir);
  }

  /**
   * The inner `tempfile.TemporaryDirectory()` and `get_document_from_s3` into it. A key with
   * no base name (a folder marker such as "docs/") names the directory itself, and writing to it raises.
   */
  method FetchDocument(material: ObjectStore, key: string, fs: LocalFs, materialDir: string, path: string) returns (r: Result<()>)
    requires material.Valid() && fs.Valid() && IsDir(materialDir) && path == MaterialPath(materialDir, key)
    modifies fs
    ensures fs.Valid()
    ensures fs.dirs == if old(fs.Exists(materialDir)) then old(fs.dirs) else old(fs.dirs) + {materialDir}
    ensures r.Success? <==> !old(fs.Exists(materialDir)) && key in material.objects
                            && PosixPath.HasBasename(key) && path !in old(fs.dirs)
    ensures r.Success? ==> fs.files == old(fs.files)[path := material.objects[key]]
    ensures r.Failure? ==> fs.files == old(fs.files)
  {
    var created := fs.MakeDirs(materialDir, false);
    if !created {
      return Failure("[Errno 17] File exists: " + materialDir);
    }
    MaterialPathNamesFile(materialDir, key);
    r := Download(material, key, fs, path);
  }

  /** The material path names a file in the material directory exactly when the key has a base name. */
  lemma MaterialPathNamesFile(materialDir: string, key: string)
    requires IsDir(materialDir)
    ensures PosixPath.Dirname(MaterialPath(materialDir, key)) == materialDir
    ensures PosixPath.HasBasename(MaterialPath(materialDir, key)) <==> PosixPath.HasBasename(key)
    ensures Under(MaterialPath(materialDir, key), materialDir) && MaterialPath(materialDir, key) != materialDir
  {
    MaterialPathFacts(materialDir, key);
    PosixPath.BasenameNonEmpty(key);
    PosixPath.BasenameNonEmpty(MaterialPath(materialDir, key));
  }

  /** The temporary directories are new, distinct, not nested, and hold nothing yet. */
  ghost predicate FreshDirs(fs: LocalFs, tempDir: string, materialDir: string)
    reads fs
  {
    IsDir(tempDir) && IsDir(materialDir)
    && tempDir != materialDir && !Under(tempDir, materialDir) && !Under(materialDir, tempDir)
    && !fs.Exists(tempDir) && !fs.Exists(materialDir)
    && NothingUnder(fs.files, fs.dirs, tempDir) && NothingUnder(fs.files, fs.dirs, materialDir)
  }

  /** The chunks of the document the event names, as the gate and the loader give them. */
  function NewChunks(event: SqsEvent, material: map<string, Blob>, materialDir: string, load: (string, Blob) -> Result<seq<Document>>): seq<Document>
    requires ObjectKey(event).Success? && ObjectKey(event).value in material
  {
    DocumentChunks(ObjectKey(event).value, material, materialDir, load)
  }

  /** The chunks of the document under `key` once it is downloaded into the material directory. */
  function DocumentChunks(key: string, material: map<string, Blob>, materialDir: string, load: (string, Blob) -> Result<seq<Document>>): seq<Document>
    requires key in material
  {
    Chunking(MaterialPath(materialDir, key), material[key], load)
  }

  /** The log line of `get_document_from_s3`. */
  function DownloadLine(key: string, path: string): (line: string)
    ensures line != CompleteTaskLine
  {
    var line := "Download " + key + " to " + path;
    assert line[0] != CompleteTaskLine[0];
    line
  }

  /**
   * The body of the outer `with` block up to the indexing: copy the vector bucket, fetch the
   * document, chunk it and save the index. For a flat bucket in fresh directories this succeeds
   * exactly when the document exists and gives chunks, and an index gets saved, and leaves the
   * files of `SavedRun`: the bucket's copy, the document, and the index of the old chunks and the
   * new ones.
   */
  method IndexDocument(key: string, material: ObjectStore, vectors: ObjectStore, fs: LocalFs,
                       tempDir: string, materialDir: string,
                       load: (string, Blob) -> Result<seq<Document>>, addEmbeds: bool, buildEmbeds: bool)
    returns (r: Result<()>, lines: seq<string>, ghost files1: map<string, Blob>)
    requires material.Valid() && vectors.Valid() && fs.Valid()
    requires FreshDirs(fs, tempDir, materialDir)
    modifies fs
    ensures fs.Valid() && CompleteTaskLine !in lines
    ensures FlatKeys(vectors.objects) ==>
      (r.Success? <==> key in material.objects && PosixPath.HasBasename(key)
                       && DocumentChunks(key, material.objects, materialDir, load) != []
                       && ((BucketIndex(vectors.objects).Success? && addEmbeds) || buildEmbeds))
    ensures FlatKeys(vectors.objects) && r.Success? ==>
      SavedRun(vectors.objects, files1, fs.files, fs.order, tempDir, MaterialPath(materialDir, key), material.objects[key],
               Inserted(BucketIndex(vectors.objects), DocumentChunks(key, material.objects, materialDir, load), addEmbeds))
  {
    ProgressLinesDiffer();
    lines := [DownloadVectorsLine];
    files1 := fs.files;
    var fetched := FetchVectors(vectors, fs, tempDir);
    if fetched.Failure? {
      return Failure(fetched.message), lines, files1;
    }
    files1 := fs.files;
    if FlatKeys(vectors.objects) {
      assert materialDir !in files1;
      LoadedIsBucketIndex(files1, vectors.objects, tempDir);
      FreshSaves(old(fs.files), old(fs.dirs), files1, tempDir);
      MaterialPathFree(old(fs.dirs), tempDir, materialDir, key);
      assert !fs.Exists(materialDir) && MaterialPath(materialDir, key) !in fs.dirs;
      assert CanSave(fs.files, fs.dirs, tempDir);
    }
    var more;
    r, more := IndexMaterial(key, material, fs, tempDir, materialDir, load, addEmbeds, buildEmbeds);
    NotInConcat(CompleteTaskLine, lines, more);
    lines := lines + more;
    MaterialOutsideTemp(materialDir, tempDir, key);
  }

  /** The document's path lies in the material directory, where no directory is yet. */
  lemma MaterialPathFree(dirs0: set<string>, tempDir: string, materialDir: string, key: string)
    requires IsDir(materialDir) && !Under(tempDir, materialDir)
    requires forall d :: d in dirs0 ==> !Under(d, materialDir)
    ensures MaterialPath(materialDir, key) !in dirs0 + {tempDir}
  {
    MaterialPathNamesFile(materialDir, key);
    FreeBelow(MaterialPath(materialDir, key), materialDir, dirs0, tempDir);
  }

  /** A path below `dir` is none of the directories, none of which lies below `dir`. */
  lemma FreeBelow(p: string, dir: string, dirs: set<string>, other: string)
    requires Under(p, dir) && !Under(other, dir)
    requires forall d :: d in dirs ==> !Under(d, dir)
    ensures p !in dirs + {other}
  {
  }

  /** Once the bucket's copy lands in the new temporary directory, the index can be saved there. */
  lemma FreshSaves(files0: map<string, Blob>, dirs0: set<string>, files1: map<string, Blob>, tempDir: string)
    requires IsDir(tempDir) && tempDir !in files0
    requires forall d :: d in dirs0 ==> !Under(d, tempDir)
    requires forall p :: !Under(p, tempDir) ==> (p in files1 <==> p in files0)
    ensures CanSave(files1, dirs0 + {tempDir}, tempDir)
  {
    assert !Under(tempDir, tempDir);
    IndexFilesIn(tempDir);
    IndexNamesFlat();
    FlatJoin(tempDir, IndexFaiss);
    FlatJoin(tempDir, IndexPkl);
  }

  /** Neither log line of the inner block is "COMPLETE TASK". */
  lemma FetchLinesDiffer(key: string, path: string)
    ensures CompleteTaskLine !in [DownloadLine(key, path)]
    ensures CompleteTaskLine !in [DownloadLine(key, path), InsertLine]
  {
    ProgressLinesDiffer();
    assert DownloadLine(key, path) != CompleteTaskLine;
  }

  /**
   * The inner `with` block: fetch the document into the material directory, chunk it, and
   * add the chunks to the index saved in the temporary directory.
   */
  method IndexMaterial(key: string, material: ObjectStore, fs: LocalFs, tempDir: string, materialDir: string,
                       load: (string, Blob) -> Result<seq<Document>>, addEmbeds: bool, buildEmbeds: bool)
    returns (r: Result<()>, lines: seq<string>)
    requires material.Valid() && fs.Valid() && IsDir(tempDir) && IsDir(materialDir)
    requires tempDir != materialDir && !Under(tempDir, materialDir) && !Under(materialDir, tempDir)
    modifies fs
    ensures fs.Valid() && CompleteTaskLine !in lines
    ensures r.Success? <==> !old(fs.Exists(materialDir)) && key in material.objects
                            && PosixPath.HasBasename(key) && MaterialPath(materialDir, key) !in old(fs.dirs)
                            && DocumentChunks(key, material.objects, materialDir, load) != []
                            && CanSave(old(fs.files), old(fs.dirs), tempDir)
                            && ((LoadIndex(old(fs.files), tempDir).Success? && addEmbeds) || buildEmbeds)
    ensures r.Success? ==>
      var chunks := Inserted(LoadIndex(old(fs.files), tempDir), DocumentChunks(key, material.objects, materialDir, load), addEmbeds);
      fs.files == old(fs.files)[MaterialPath(materialDir, key) := material.objects[key]]
                               [PosixPath.Join(tempDir, IndexFaiss) := FaissVectors(chunks)]
                               [PosixPath.Join(tempDir, IndexPkl) := FaissDocstore(chunks)]
  {
    var path := MaterialPath(materialDir, key);
    FetchLinesDiffer(key, path);
    lines := [DownloadLine(key, path)];
    ghost var files1, dirs1 := fs.files, fs.dirs;
    var got := FetchDocument(material, key, fs, materialDir, path);
    if got.Failure? {
      return Failure(got.message), lines;
    }
    var chunks := Chunking(path, fs.files[path], load);
    lines := [DownloadLine(key, path), InsertLine];
    MaterialPathNamesFile(materialDir, key);
    r := InsertFetched(chunks, fs, tempDir, materialDir, path, material.objects[key], files1, dirs1, addEmbeds, buildEmbeds);
  }

  /**
   * `insert_document` once the document is fetched: whether the index can be saved, and what it
   * holds, are as they were before the fetch, since the document lies outside the temporary directory.
   */
  method InsertFetched(docs: seq<Document>, fs: LocalFs, tempDir: string, materialDir: string, path: string, doc: Blob,
                       ghost files1: map<string, Blob>, ghost dirs1: set<string>, addEmbeds: bool, buildEmbeds: bool)
    returns (r: Result<()>)
    requires fs.Valid() && IsDir(tempDir) && IsDir(materialDir)
    requires tempDir != materialDir && !Under(tempDir, materialDir) && !Under(materialDir, tempDir)
    requires Under(path, materialDir)
    requires fs.files == files1[path := doc] && fs.dirs == dirs1 + {materialDir}
    modifies fs
    ensures fs.Valid()
    ensures r.Success? <==> docs != [] && CanSave(files1, dirs1, tempDir)
                            && ((LoadIndex(files1, tempDir).Success? && addEmbeds) || buildEmbeds)
    ensures r.Success? ==>
      var chunks := Inserted(LoadIndex(files1, tempDir), docs, addEmbeds);
      fs.files == files1[path := doc]
                        [PosixPath.Join(tempDir, IndexFaiss) := FaissVectors(chunks)]
                        [PosixPath.Join(tempDir, IndexPkl) := FaissDocstore(chunks)]
  {
    SiblingsDisjoint(materialDir, tempDir, path);
    IndexSurvivesDocument(files1, path, doc, tempDir);
    CanSaveBesideDocument(files1, dirs1, path, doc, tempDir, materialDir);
    r := InsertDocument(docs, fs, tempDir, addEmbeds, buildEmbeds);
  }

  /** Fetching the document into the material directory does not change whether the index can be saved. */
  lemma CanSaveBesideDocument(files: map<string, Blob>, dirs: set<string>, path: string, doc: Blob, tempDir: string, materialDir: string)
    requires IsDir(tempDir) && IsDir(materialDir)
    requires tempDir != materialDir && !Under(tempDir, materialDir) && !Under(materialDir, tempDir)
    requires Under(path, materialDir)
    ensures CanSave(files[path := doc], dirs + {materialDir}, tempDir) == CanSave(files, dirs, tempDir)
  {
    IndexNamesFlat();
    FlatJoin(tempDir, IndexFaiss);
    FlatJoin(tempDir, IndexPkl);
  }

  /**
   * One run. The log gets "COMPLETE TASK" only at the very end, after the upload, and then
   * the handler returns 200. Every failure the model has comes before `upload_index`, so a
   * failure leaves the vector bucket as it was.
   * For a bucket of bare file names (the shape the worker keeps it in) the run succeeds exactly
   * when the key is found, the document gives chunks, and an index gets saved; the bucket then
   * holds the index of the old chunks followed by the new ones (or the new ones only), every
   * other object unchanged. A document that is no PDF, or fails to load, makes the run fail.
   */
  method LambdaHandler(event: SqsEvent, material: ObjectStore, vectors: ObjectStore, fs: LocalFs,
                       tempDir: string, materialDir: string,
                       load: (string, Blob) -> Result<seq<Document>>, addEmbeds: bool, buildEmbeds: bool)
    returns (r: Result<int>, log: seq<string>)
    requires material.Valid() && vectors.Valid() && fs.Valid() && material != vectors
    requires FreshDirs(fs, tempDir, materialDir)
    modifies fs, vectors
    ensures vectors.Valid() && fs.Valid()
    ensures |log| > 0 && log[0] == InvokeLine
    ensures r.Success? ==> r.value == StatusOk && log[|log| - 1] == CompleteTaskLine
    ensures r.Failure? ==> CompleteTaskLine !in log
    ensures r.Failure? ==> vectors.objects == old(vectors.objects) && vectors.listing == old(vectors.listing)
    ensures FlatKeys(old(vectors.objects)) ==>
      (r.Success? <==> ObjectKey(event).Success? && ObjectKey(event).value in material.objects
                       && PosixPath.HasBasename(ObjectKey(event).value)
                       && NewChunks(event, material.objects, materialDir, load) != []
                       && ((BucketIndex(old(vectors.objects)).Success? && addEmbeds) || buildEmbeds))
    ensures FlatKeys(old(vectors.objects)) && r.Success? ==>
      BucketIndex(vectors.objects)
        == Success(Inserted(BucketIndex(old(vectors.objects)), NewChunks(event, material.objects, materialDir, load), addEmbeds))
    ensures FlatKeys(old(vectors.objects)) && r.Success? ==>
      FlatKeys(vectors.objects)
      && (forall k :: k in vectors.objects <==> k in old(vectors.objects) || k == IndexFaiss || k == IndexPkl)
      && (forall k :: k in old(vectors.objects) && k != IndexFaiss && k != IndexPkl ==> vectors.objects[k] == old(vectors.objects)[k])
  {
    ProgressLinesDiffer();
    log := [InvokeLine];
    var keyResult := ObjectKey(event);
    if keyResult.Failure? {
      return Failure(keyResult.message), log;
    }
    var key := keyResult.value;
    var indexed, lines, files1 := IndexDocument(key, material, vectors, fs, tempDir, materialDir, load, addEmbeds, buildEmbeds);
    NotInConcat(CompleteTaskLine, log, lines);
    log := log + lines;
    if indexed.Failure? {
      return Failure(indexed.message), log;
    }
    log := log + [IndexedLine, UploadLine];
    ghost var files3 := fs.files;
    UploadIndex(fs, tempDir, vectors);
    log := log + [CompleteTaskLine];
    r := Success(StatusOk);
    if FlatKeys(old(vectors.objects)) {
      RoundTrip(old(vectors.objects), files1, files3, fs.order, tempDir, MaterialPath(materialDir, key), material.objects[key],
                Inserted(BucketIndex(old(vectors.objects)), DocumentChunks(key, material.objects, materialDir, load), addEmbeds));
    }
  }

  /**
   * The files of a successful run after the index is saved: the bucket's copy below the
   * temporary directory, the document outside it, and the two index files replaced.
   */
  ghost predicate SavedRun(objects: map<string, Blob>, files1: map<string, Blob>, files3: map<string, Blob>, order: seq<string>,
                           tempDir: string, path: string, doc: Blob, chunks: seq<Document>)
  {
    IsDir(tempDir) && FlatKeys(objects) && HoldsBucket(files1, objects, tempDir)
    && !Under(path, tempDir)
    && files3 == files1[path := doc][PosixPath.Join(tempDir, IndexFaiss) := FaissVectors(chunks)]
                                    [PosixPath.Join(tempDir, IndexPkl) := FaissDocstore(chunks)]
    && (forall p :: p in files3 <==> p in order) && Distinct(order)
  }

  /** The saved files sit directly in the temporary directory and are uploaded under their names. */
  lemma SavedRunUploads(objects: map<string, Blob>, files1: map<string, Blob>, files3: map<string, Blob>, order: seq<string>,
                        tempDir: string, path: string, doc: Blob, chunks: seq<Document>)
    requires SavedRun(objects, files1, files3, order, tempDir, path, doc, chunks)
    ensures FlatUnder(files3, tempDir)
    ensures var after := Uploaded(objects, files3, order, tempDir);
      (forall p :: p in files3 && Under(p, tempDir) ==> p[|tempDir| + 1..] in after && after[p[|tempDir| + 1..]] == files3[p])
      && (forall k :: k in after && k !in objects ==> tempDir + "/" + k in files3)
  {
    IndexNamesFlat();
    FlatJoin(tempDir, IndexFaiss);
    FlatJoin(tempDir, IndexPkl);
    var faiss, pkl := PosixPath.Join(tempDir, IndexFaiss), PosixPath.Join(tempDir, IndexPkl);
    forall p | p in files3 && Under(p, tempDir)
      ensures IsFlatName(p[|tempDir| + 1..])
    {
      if p != faiss && p != pkl {
        assert p in files1;
      }
    }
    FlatUpload(objects, files3, order, tempDir);
  }

  /** A file directly in the temporary directory goes up under its name with its content. */
  lemma SavedRunUploadsAt(objects: map<string, Blob>, files1: map<string, Blob>, files3: map<string, Blob>, order: seq<string>,
                          tempDir: string, path: string, doc: Blob, chunks: seq<Document>, name: string)
    requires SavedRun(objects, files1, files3, order, tempDir, path, doc, chunks)
    requires IsFlatName(name) && tempDir + "/" + name in files3
    ensures var after := Uploaded(objects, files3, order, tempDir);
      name in after && after[name] == files3[tempDir + "/" + name]
  {
    SavedRunUploads(objects, files1, files3, order, tempDir, path, doc, chunks);
    FlatJoin(tempDir, name);
  }

  /** The saved index files are in the temporary directory under their names. */
  lemma SavedIndexFiles(objects: map<string, Blob>, files1: map<string, Blob>, files3: map<string, Blob>, order: seq<string>,
                        tempDir: string, path: string, doc: Blob, chunks: seq<Document>)
    requires SavedRun(objects, files1, files3, order, tempDir, path, doc, chunks)
    ensures tempDir + "/" + IndexFaiss in files3 && files3[tempDir + "/" + IndexFaiss] == FaissVectors(chunks)
    ensures tempDir + "/" + IndexPkl in files3 && files3[tempDir + "/" + IndexPkl] == FaissDocstore(chunks)
  {
    IndexNamesFlat();
    FlatJoin(tempDir, IndexFaiss);
    FlatJoin(tempDir, IndexPkl);
    assert |tempDir + "/" + IndexFaiss| != |tempDir + "/" + IndexPkl|;
  }

  /** A copied object other than the index files is still in the temporary directory, unchanged. */
  lemma SavedKeepsObject(objects: map<string, Blob>, files1: map<string, Blob>, files3: map<string, Blob>, order: seq<string>,
                         tempDir: string, path: string, doc: Blob, chunks: seq<Document>, k: string)
    requires SavedRun(objects, files1, files3, order, tempDir, path, doc, chunks)
    requires k in objects && k != IndexFaiss && k != IndexPkl
    ensures IsFlatName(k) && tempDir + "/" + k in files3 && files3[tempDir + "/" + k] == objects[k]
  {
    IndexNamesFlat();
    FlatJoin(tempDir, k);
    FlatJoin(tempDir, IndexFaiss);
    FlatJoin(tempDir, IndexPkl);
    var p := tempDir + "/" + k;
    assert p in files1 && files1[p] == objects[k];
    assert p != path;
    assert p[|tempDir| + 1..] == k;
    assert p != tempDir + "/" + IndexFaiss && p != tempDir + "/" + IndexPkl;
  }

  /** After the upload the bucket's top-level index is the saved one. */
  lemma RoundTripIndex(objects: map<string, Blob>, files1: map<string, Blob>, files3: map<string, Blob>, order: seq<string>,
                       tempDir: string, path: string, doc: Blob, chunks: seq<Document>)
    requires SavedRun(objects, files1, files3, order, tempDir, path, doc, chunks)
    ensures BucketIndex(Uploaded(objects, files3, order, tempDir)) == Success(chunks)
  {
    IndexNamesFlat();
    SavedIndexFiles(objects, files1, files3, order, tempDir, path, doc, chunks);
    SavedRunUploadsAt(objects, files1, files3, order, tempDir, path, doc, chunks, IndexFaiss);
    SavedRunUploadsAt(objects, files1, files3, order, tempDir, path, doc, chunks, IndexPkl);
    ghost var after := Uploaded(objects, files3, order, tempDir);
    assert after[IndexFaiss] == FaissVectors(chunks) && after[IndexPkl] == FaissDocstore(chunks);
  }

  /** After the upload every object other than the index files holds what it held. */
  lemma RoundTripKeeps(objects: map<string, Blob>, files1: map<string, Blob>, files3: map<string, Blob>, order: seq<string>,
                       tempDir: string, path: string, doc: Blob, chunks: seq<Document>)
    requires SavedRun(objects, files1, files3, order, tempDir, path, doc, chunks)
    ensures var after := Uploaded(objects, files3, order, tempDir);
      forall k :: k in objects && k != IndexFaiss && k != IndexPkl ==> k in after && after[k] == objects[k]
  {
    forall k | k in objects && k != IndexFaiss && k != IndexPkl
      ensures k in Uploaded(objects, files3, order, tempDir) && Uploaded(objects, files3, order, tempDir)[k] == objects[k]
    {
      SavedKeepsObject(objects, files1, files3, order, tempDir, path, doc, chunks, k);
      SavedRunUploadsAt(objects, files1, files3, order, tempDir, path, doc, chunks, k);
    }
  }

  /** A key the upload adds names a file directly in the temporary directory. */
  lemma SavedRunAdds(objects: map<string, Blob>, files1: map<string, Blob>, files3: map<string, Blob>, order: seq<string>,
                     tempDir: string, path: string, doc: Blob, chunks: seq<Document>, k: string)
    requires SavedRun(objects, files1, files3, order, tempDir, path, doc, chunks)
    requires k in Uploaded(objects, files3, order, tempDir) && k !in objects
    ensures tempDir + "/" + k in files3
  {
    SavedRunUploads(objects, files1, files3, order, tempDir, path, doc, chunks);
  }

  /** A file of the temporary directory whose name the bucket did not hold is one of the index files. */
  lemma NewFileIsIndex(objects: map<string, Blob>, files1: map<string, Blob>, files3: map<string, Blob>, order: seq<string>,
                       tempDir: string, path: string, doc: Blob, chunks: seq<Document>, k: string)
    requires SavedRun(objects, files1, files3, order, tempDir, path, doc, chunks)
    requires tempDir + "/" + k in files3 && k !in objects
    ensures k == IndexFaiss || k == IndexPkl
  {
    IndexNamesFlat();
    var p := tempDir + "/" + k;
    assert Under(p, tempDir) && p[|tempDir| + 1..] == k by {
      assert p[..|tempDir| + 1] == tempDir + "/";
    }
    assert p != path;
    assert p !in files1;
    FlatJoin(tempDir, IndexFaiss);
    FlatJoin(tempDir, IndexPkl);
    assert p == tempDir + "/" + IndexFaiss || p == tempDir + "/" + IndexPkl;
    assert p[|tempDir| + 1..] == k;
  }

  /** After the upload the bucket holds its old keys and the two index files, all bare names. */
  lemma RoundTripKeys(objects: map<string, Blob>, files1: map<string, Blob>, files3: map<string, Blob>, order: seq<string>,
                      tempDir: string, path: string, doc: Blob, chunks: seq<Document>)
    requires SavedRun(objects, files1, files3, order, tempDir, path, doc, chunks)
    ensures var after := Uploaded(objects, files3, order, tempDir);
      forall k :: k in after ==> IsFlatName(k) && (k in objects || k == IndexFaiss || k == IndexPkl)
  {
    IndexNamesFlat();
    forall k | k in Uploaded(objects, files3, order, tempDir)
      ensures IsFlatName(k) && (k in objects || k == IndexFaiss || k == IndexPkl)
    {
      if k !in objects {
        SavedRunAdds(objects, files1, files3, order, tempDir, path, doc, chunks, k);
        NewFileIsIndex(objects, files1, files3, order, tempDir, path, doc, chunks, k);
      }
    }
  }

  /**
   * The pure part of a successful run over a flat bucket: the files below the temporary
   * directory after the downloads are the bucket's objects, the document lands outside it, and
   * the saved index replaces the two index files; uploading that directory gives the bucket the
   * new index and gives every other key back its own object.
   */
  lemma RoundTrip(objects: map<string, Blob>, files1: map<string, Blob>, files3: map<string, Blob>, order: seq<string>,
                  tempDir: string, path: string, doc: Blob, chunks: seq<Document>)
    requires SavedRun(objects, files1, files3, order, tempDir, path, doc, chunks)
    ensures var after := Uploaded(objects, files3, order, tempDir);
      BucketIndex(after) == Success(chunks)
      && FlatKeys(after)
      && (forall k :: k in after <==> k in objects || k == IndexFaiss || k == IndexPkl)
      && (forall k :: k in objects && k != IndexFaiss && k != IndexPkl ==> after[k] == objects[k])
  {
    RoundTripIndex(objects, files1, files3, order, tempDir, path, doc, chunks);
    RoundTripKeeps(objects, files1, files3, order, tempDir, path, doc, chunks);
    RoundTripKeys(objects, files1, files3, order, tempDir, path, doc, chunks);
  }
}
