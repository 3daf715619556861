/**
 * The retrieving function in its container form. At module load it copies the whole vector
 * bucket into `/tmp/vectorstore`, skipping folder markers and writing each key at
 * `VECTOR_PATH + "/" + key`, loads the FAISS index from there and builds the RetrievalQA
 * chain once; each invocation asks that chain. The chain is an oracle from the index and the
 * question to an answer.
 */
module RetrievingContainer {
  import opened Wrappers
  import opened Documents
  import opened Storage
  import opened RetrievalEnvelope
  import PosixPath
  import Text

  const VectorPath := "/tmp/vectorstore"
  const InvokeLine := "==== INVOKE HANDLER ===="
  const CompleteTaskLine := "==== COMPLETE TASK ===="

  /** `VECTOR_PATH + "/" + key.replace("", "")` is the key itself under the vector directory. */
  lemma TargetIsConcatenation(key: string)
    ensures TargetPath(Concatenated(VectorPath), key) == VectorPath + "/" + key
  {
    Text.ReplaceEmptyByEmpty(key);
  }

  /**
   * Every key that is not a folder marker ends up at its own path with its own object: no two
   * keys share a target string, whatever characters they hold. Paths are compared as strings, so
   * keys that name one file through "//", "." or ".." components ("a" and "./a") are not covered.
   */
  lemma DownloadsEachKey(files: map<string, Blob>, objects: map<string, Blob>, keys: seq<string>, i: nat)
    requires i < |keys| && !IsFolderKey(keys[i]) && keys[i] in objects
    ensures var after := Downloaded(files, objects, keys, Concatenated(VectorPath));
      VectorPath + "/" + keys[i] in after && after[VectorPath + "/" + keys[i]] == objects[keys[i]]
  {
    var pl := Concatenated(VectorPath);
    TargetIsConcatenation(keys[i]);
    forall j | DownloadsTo(objects, keys, pl, j, TargetPath(pl, keys[i]))
      ensures keys[j] == keys[i]
    {
      TargetIsConcatenation(keys[j]);
      var pj, pi := VectorPath + "/" + keys[j], VectorPath + "/" + keys[i];
      assert pj[|VectorPath| + 1..] == keys[j] && pi[|VectorPath| + 1..] == keys[i];
    }
    DownloadedAt(files, objects, keys, pl, i);
  }

  /**
   * A key inside a sub-folder ("folder/name") is written below `VECTOR_PATH/folder`, which
   * nothing creates: unless it already exists, the copy fails.
   */
  lemma NestedKeyNeedsFolder(keys: seq<string>, i: nat, folder: string, name: string, dirs: set<string>)
    requires i < |keys| && keys[i] == folder + "/" + name && IsFlatName(folder) && IsFlatName(name)
    requires VectorPath + "/" + folder !in dirs
    ensures !Writable(keys, Concatenated(VectorPath), dirs)
  {
    var sub := VectorPath + "/" + folder;
    TargetIsConcatenation(keys[i]);
    assert TargetPath(Concatenated(VectorPath), keys[i]) == sub + "/" + name;
    assert IsDir(sub) by {
      assert sub[|sub| - 1] == folder[|folder| - 1];
    }
    FlatPath(sub, name);
    assert keys[i][|keys[i]| - 1] == name[|name| - 1];
    WritableNeedsEach(keys, i, Concatenated(VectorPath), dirs);
  }

  /**
   * `load_vectordata`: the vector directory is created only when nothing of that name exists;
   * then every listed key but folder markers is downloaded; any failure propagates.
   */
  method LoadVectorData(bucket: ObjectStore, fs: LocalFs) returns (r: Result<()>)
    requires bucket.Valid() && fs.Valid()
    modifies fs
    ensures fs.Valid()
    ensures fs.dirs == if old(fs.Exists(VectorPath)) then old(fs.dirs) else old(fs.dirs) + {VectorPath}
    ensures r.Success? <==> Writable(bucket.listing, Concatenated(VectorPath), fs.dirs)
    ensures r.Success? ==> fs.files == Downloaded(old(fs.files), bucket.objects, bucket.listing, Concatenated(VectorPath))
    ensures r.Failure? ==>
      exists j :: 0 <= j < |bucket.listing| && fs.files == Downloaded(old(fs.files), bucket.objects, bucket.listing[..j], Concatenated(VectorPath))
  {
    if !fs.Exists(VectorPath) {
      var _ := fs.MakeDirs(VectorPath, false);
    }
    r := DownloadAll(bucket, fs, Concatenated(VectorPath));
  }

  /** A running container: the chain built at module load, as the index it retrieves from. */
  class ContainerInstance {
    /** The module-level `qa`; a failure here is an initialisation error of the container. */
    const qa: Result<seq<Document>>

    /**
     * Module load: `load_vectordata()` and `FAISS.load_local(VECTOR_PATH)`. For a bucket of bare
     * file names and a disk with no file at the vector directory and nothing below it yet, the
     * chain is built over exactly the index the bucket holds.
     */
    constructor ColdStart(bucket: ObjectStore, fs: LocalFs)
      requires bucket.Valid() && fs.Valid()
      modifies fs
      ensures fs.Valid()
      ensures qa.Success? ==> Writable(bucket.listing, Concatenated(VectorPath), fs.dirs)
      ensures qa.Success? ==> qa == LoadIndex(fs.files, VectorPath)
      ensures Writable(bucket.listing, Concatenated(VectorPath), fs.dirs) ==> qa == LoadIndex(fs.files, VectorPath)
      ensures FlatKeys(bucket.objects) && VectorPath !in old(fs.files) && NothingUnder(old(fs.files), old(fs.dirs), VectorPath) ==>
        (qa.Success? <==> BucketIndex(bucket.objects).Success?)
        && (qa.Success? ==> qa.value == BucketIndex(bucket.objects).value)
    {
      ghost var files0 := fs.files;
      var loaded := LoadVectorData(bucket, fs);
      if FlatKeys(bucket.objects) && VectorPath !in files0 && NothingUnder(files0, old(fs.dirs), VectorPath) {
        FlatDownload(files0, bucket.objects, bucket.listing, Concatenated(VectorPath));
        FlatWritable(bucket.listing, Concatenated(VectorPath), old(fs.dirs));
        assert fs.dirs == old(fs.dirs) + {VectorPath};
        LoadedIsBucketIndex(fs.files, bucket.objects, VectorPath);
      }
      if loaded.Failure? {
        qa := Failure(loaded.message);
      } else {
        qa := LoadIndex(fs.files, VectorPath);
      }
    }

    /**
     * `lambda_handler`: the question (or its default) goes to the chain built at load, which
     * no invocation rebuilds. After a failed load the handler never runs, so nothing is logged.
     * "COMPLETE TASK" is logged exactly when the chain answered, and then the response is 200
     * with the answer and one reference per source document, in order.
     */
    method Invoke(event: Event, retrieve: (seq<Document>, string) -> Result<QaAnswer>)
      returns (outcome: InvokeOutcome, log: seq<string>)
      ensures qa.Failure? ==> outcome.FunctionError? && log == []
      ensures qa.Success? ==> |log| > 0 && log[0] == InvokeLine
      ensures outcome.Returned? <==> qa.Success? && retrieve(qa.value, Question(event)).Success?
      ensures outcome.Returned? <==> log == [InvokeLine, CompleteTaskLine]
      ensures outcome.Returned? ==>
        var answer := retrieve(qa.value, Question(event)).value;
        outcome.response.statusCode == StatusOk
        && outcome.response.body.result == answer.result
        && outcome.response.body.references == References(answer.sourceDocuments)
    {
      if qa.Failure? {
        return FunctionError(qa.message), [];
      }
      log := [InvokeLine];
      var index := qa.value;
      var r := Handle(event, q => retrieve(index, q));
      if r.Success? {
        log := log + [CompleteTaskLine];
      }
      outcome := Outcome(r);
    }
  }
}
