/**
 * The retrieving function in its zip-packaged form. Its one-time `init` creates
 * `/tmp/vectorstore` when absent, downloads exactly the two objects `index.faiss` and
 * `index.pkl` into it, loads the FAISS index and builds the RetrievalQA chain, which every
 * invocation of the instance then reuses. The chain is an oracle from the index and the
 * question to an answer.
 */
module RetrievingFunction {
  import opened Wrappers
  import opened Documents
  import opened Storage
  import opened RetrievalEnvelope
  import PosixPath

  const VectorPath := "/tmp/vectorstore"

  /** `os.path.join(VECTOR_PATH, "index.faiss")` and `os.path.join(VECTOR_PATH, "index.pkl")`. */
  lemma FetchedPaths()
    ensures PosixPath.Join(VectorPath, IndexFaiss) == VectorPath + "/" + IndexFaiss
    ensures PosixPath.Join(VectorPath, IndexPkl) == VectorPath + "/" + IndexPkl
    ensures PosixPath.Dirname(PosixPath.Join(VectorPath, IndexFaiss)) == VectorPath
    ensures PosixPath.Dirname(PosixPath.Join(VectorPath, IndexPkl)) == VectorPath
    ensures PosixPath.HasBasename(PosixPath.Join(VectorPath, IndexFaiss)) && PosixPath.HasBasename(PosixPath.Join(VectorPath, IndexPkl))
    ensures PosixPath.Join(VectorPath, IndexFaiss) != VectorPath && PosixPath.Join(VectorPath, IndexPkl) != VectorPath
    ensures PosixPath.Join(VectorPath, IndexFaiss) != PosixPath.Join(VectorPath, IndexPkl)
  {
    assert VectorPath[|VectorPath| - 1] == 'e';
    IndexNamesFlat();
    FlatPath(VectorPath, IndexFaiss);
    FlatPath(VectorPath, IndexPkl);
    IndexFilesIn(VectorPath);
  }

  /** Neither index file's path is taken by a directory. */
  predicate IndexPathsFree(dirs: set<string>) {
    PosixPath.Join(VectorPath, IndexFaiss) !in dirs && PosixPath.Join(VectorPath, IndexPkl) !in dirs
  }

  /**
   * `load_vectordata`: the vector directory is created only when nothing of that name exists;
   * then the bucket's `index.faiss` and `index.pkl` are downloaded into it, in that order, and
   * nothing else is; a missing object, a missing directory or a directory standing at either
   * file's path raises.
   */
  method LoadVectorData(bucket: ObjectStore, fs: LocalFs) returns (r: Result<()>)
    requires bucket.Valid() && fs.Valid()
    modifies fs
    ensures fs.Valid()
    ensures fs.dirs == if old(fs.Exists(VectorPath)) then old(fs.dirs) else old(fs.dirs) + {VectorPath}
    ensures r.Success? <==> VectorPath in fs.dirs && IndexPathsFree(old(fs.dirs))
                            && IndexFaiss in bucket.objects && IndexPkl in bucket.objects
    ensures r.Success? ==>
      fs.files == old(fs.files)[PosixPath.Join(VectorPath, IndexFaiss) := bucket.objects[IndexFaiss]]
                               [PosixPath.Join(VectorPath, IndexPkl) := bucket.objects[IndexPkl]]
  {
    if !fs.Exists(VectorPath) {
      var _ := fs.MakeDirs(VectorPath, false);
    }
    FetchedPaths();
    r := Download(bucket, IndexFaiss, fs, PosixPath.Join(VectorPath, IndexFaiss));
    if r.Failure? {
      return;
    }
    r := Download(bucket, IndexPkl, fs, PosixPath.Join(VectorPath, IndexPkl));
  }

  /** A running instance: the chain `init` built, as the index it retrieves from. */
  class FunctionInstance {
    /** The module-level `qa`; a failure here is an initialisation error of the instance. */
    const qa: Result<seq<Document>>

    /**
     * `qa = init()`. The chain is built over the index the bucket holds at its top level,
     * whatever else the bucket holds; it fails when the bucket has no such index, a file
     * stands where the vector directory should be, or a directory where an index file should be.
     */
    constructor Init(bucket: ObjectStore, fs: LocalFs)
      requires bucket.Valid() && fs.Valid()
      modifies fs
      ensures fs.Valid()
      ensures qa.Success? <==> (VectorPath in old(fs.dirs) || VectorPath !in old(fs.files)) && IndexPathsFree(old(fs.dirs))
                               && BucketIndex(bucket.objects).Success?
      ensures qa.Success? ==> qa.value == BucketIndex(bucket.objects).value
    {
      var loaded := LoadVectorData(bucket, fs);
      FetchedPaths();
      if loaded.Failure? {
        qa := Failure(loaded.message);
      } else {
        qa := LoadIndex(fs.files, VectorPath);
      }
    }

    /**
     * `lambda_handler`: the question (or its default) goes to the chain built by `init`, which
     * no invocation rebuilds; the response is 200 with the answer and one reference per source
     * document, in order; an exception from the chain propagates.
     */
    method Invoke(event: Event, retrieve: (seq<Document>, string) -> Result<QaAnswer>) returns (outcome: InvokeOutcome)
      ensures outcome.Returned? <==> qa.Success? && retrieve(qa.value, Question(event)).Success?
      ensures outcome.Returned? ==>
        var answer := retrieve(qa.value, Question(event)).value;
        outcome.response.statusCode == StatusOk
        && outcome.response.body.result == answer.result
        && outcome.response.body.references == References(answer.sourceDocuments)
    {
      if qa.Failure? {
        return FunctionError(qa.message);
      }
      var index := qa.value;
      outcome := Outcome(Handle(event, q => retrieve(index, q)));
    }
  }
}
