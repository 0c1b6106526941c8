/**
 * scripts/load_fit_to_es.py: choosing the data folder, and the single-threaded loop
 * that empties the `fit-data` index and stores every record of every `.fit` file,
 * one document per call.
 *
 * Unlike the bulk loader, nothing is caught here: the first exception from the
 * parser or the metrics ends the run, leaving what was already stored. The session
 * id is `Path.stem` and the document id uses the full file name.
 */
module SimpleLoader {
  import opened Wrappers
  import opened Text
  import opened Values
  import opened Documents
  import opened BulkLoader

  const IndexName := "fit-data"

  /**
   * `get_folder_path`: the `--folder` argument when it is a non-empty string, else the
   * `FIT_FOLDER` variable when non-empty, else `garmin` under the repository root.
   */
  function FolderPath(cliFolder: Option<string>, envFolder: Option<string>, repoRoot: string): (path: string)
    ensures path != []
    ensures Truthy(cliFolder) ==> path == cliFolder.value
    ensures !Truthy(cliFolder) && Truthy(envFolder) ==> path == envFolder.value
    ensures !Truthy(cliFolder) && !Truthy(envFolder) ==> path == repoRoot + "/garmin"
  {
    if Truthy(cliFolder) then cliFolder.value
    else if Truthy(envFolder) then envFolder.value
    else repoRoot + "/garmin"
  }

  /**
   * An empty setting counts as no setting, and a lower-precedence source is consulted
   * only when every higher one is unset or empty.
   */
  lemma FolderPrecedence(cliFolder: Option<string>, envFolder: Option<string>, otherEnv: Option<string>, repoRoot: string)
    ensures FolderPath(Some(""), envFolder, repoRoot) == FolderPath(None, envFolder, repoRoot)
    ensures FolderPath(cliFolder, Some(""), repoRoot) == FolderPath(cliFolder, None, repoRoot)
    ensures Truthy(cliFolder) ==> FolderPath(cliFolder, envFolder, repoRoot) == FolderPath(cliFolder, otherEnv, repoRoot)
  {
  }

  /** The `fit-data` index: documents by id, overwritten when an id is stored again. */
  class FitIndex {
    var docs: map<string, Record>

    /** A client of a server whose index may already hold documents from earlier runs. */
    constructor (existing: map<string, Record>)
      ensures docs == existing
    {
      docs := existing;
    }

    /** `indices.delete` followed by `indices.create`: the index is empty afterwards. */
    method Recreate()
      modifies this
      ensures docs == map[]
    {
      docs := map[];
    }

    /** `es.index(index=INDEX, id=id, document=doc)`. */
    method Index(id: string, doc: Record)
      modifies this
      ensures docs == old(docs)[id := doc]
    {
      docs := docs[id := doc];
    }
  }

  /** The documents of the first `n` records of one file, keyed `<file name>-<i>`. */
  function FileDocuments(name: string, records: seq<Record>, metrics: Record, n: nat): map<string, Record>
    requires n <= |records|
  {
    if n == 0 then map[]
    else FileDocuments(name, records, metrics, n - 1)[DocumentId(name, n - 1) := BuildDocument(records[n - 1], PathStem(name), metrics)]
  }

  /** The state after a prefix of the files: the index contents, `count`, and whether no exception ended the run. */
  datatype LoadState = LoadState(docs: map<string, Record>, count: nat, completed: bool)

  /**
   * One file of the loop: an exception from the parser or the metrics ends the run and
   * keeps what was stored; otherwise every record adds one document and one to `count`.
   */
  function LoadFile(st: LoadState, name: string, decoder: Decoder): (r: LoadState)
    ensures !st.completed ==> r == st
    ensures !r.completed ==> r.docs == st.docs && r.count == st.count
    ensures r.completed ==> decoder.parse(name).Success? && r.count == st.count + |decoder.parse(name).value|
    ensures st.docs.Keys <= r.docs.Keys
  {
    if !st.completed then st
    else match decoder.parse(name)
      case Failure(_) => st.(completed := false)
      case Success(records) =>
        match decoder.metrics(records)
        case Failure(_) => st.(completed := false)
        case Success(m) => LoadState(st.docs + FileDocuments(name, records, m, |records|), st.count + |records|, true)
  }

  function Load(files: seq<string>, decoder: Decoder): LoadState {
    if files == [] then LoadState(map[], 0, true)
    else LoadFile(Load(files[..|files| - 1], decoder), files[|files| - 1], decoder)
  }

  /**
   * `load_to_es`: recreate the index, then for each `.fit` file store each record as
   * one document. `completed` is false when an exception ended the run early.
   */
  method LoadToEs(index: FitIndex, entries: seq<string>, decoder: Decoder) returns (count: nat, completed: bool)
    modifies index
    ensures index.docs == Load(FitFiles(entries), decoder).docs
    ensures count == Load(FitFiles(entries), decoder).count
    ensures completed == Load(FitFiles(entries), decoder).completed
  {
    index.Recreate();
    count := 0;
    var files := FitFiles(entries);
    var j := 0;
    while j < |files|
      invariant 0 <= j <= |files|
      invariant Load(files[..j], decoder) == LoadState(index.docs, count, true)
    {
      var filePath := files[j];
      LoadOneMoreFile(files, j, decoder);
      var parsed := decoder.parse(filePath);
      if parsed.Failure? {
        FailureIsFinal(files, j + 1, decoder);
        return count, false;
      }
      var records := parsed.value;
      var computed := decoder.metrics(records);
      if computed.Failure? {
        FailureIsFinal(files, j + 1, decoder);
        return count, false;
      }
      var sessionMetrics := computed.value;
      var sessionId := PathStem(filePath);
      ghost var before := index.docs;
      var i := 0;
      while i < |records|
        invariant 0 <= i <= |records|
        invariant index.docs == before + FileDocuments(filePath, records, sessionMetrics, i)
        invariant count == Load(files[..j], decoder).count + i
      {
        var record := records[i];
        record := record[SessionIdKey := StrValue(sessionId)];
        record := record + sessionMetrics;
        record := ConvertDatetimes(record);
        assert record == BuildDocument(records[i], sessionId, sessionMetrics);
        index.Index(DocumentId(filePath, i), record);
        MergeThenUpdate(before, FileDocuments(filePath, records, sessionMetrics, i), DocumentId(filePath, i), record);
        count := count + 1;
        i := i + 1;
      }
      j := j + 1;
    }
    assert files[..j] == files;
    completed := true;
  }

  lemma MergeThenUpdate(m: map<string, Record>, n: map<string, Record>, k: string, v: Record)
    ensures (m + n)[k := v] == m + n[k := v]
  {
  }

  lemma LoadOneMoreFile(files: seq<string>, j: nat, decoder: Decoder)
    requires j < |files|
    ensures Load(files[..j + 1], decoder) == LoadFile(Load(files[..j], decoder), files[j], decoder)
  {
    assert files[..j + 1][..j] == files[..j];
  }

  /** Once an exception has ended the run, the remaining files change nothing. */
  lemma {:induction false} FailureIsFinal(files: seq<string>, j: nat, decoder: Decoder)
    requires j <= |files| && !Load(files[..j], decoder).completed
    ensures Load(files, decoder) == Load(files[..j], decoder)
  {
    if j < |files| {
      assert files[..|files| - 1][..j] == files[..j];
      FailureIsFinal(files[..|files| - 1], j, decoder);
    } else {
      assert files[..j] == files;
    }
  }

  // ---------------------------------------------------------------------------
  // What the index holds.

  /** One file stores its documents under `<file name>-<i>`, one id per record. */
  lemma {:induction false} FileDocumentsKeys(name: string, records: seq<Record>, metrics: Record, n: nat)
    requires n <= |records|
    ensures forall id :: id in FileDocuments(name, records, metrics, n) <==> exists i :: 0 <= i < n && id == DocumentId(name, i)
  {
    if n > 0 {
      FileDocumentsKeys(name, records, metrics, n - 1);
    }
  }

  /** Record i of the file is stored as the document built from it. */
  lemma {:induction false} FileDocumentsValues(name: string, records: seq<Record>, metrics: Record, n: nat)
    requires n <= |records|
    ensures forall i :: 0 <= i < n ==>
              DocumentId(name, i) in FileDocuments(name, records, metrics, n)
              && FileDocuments(name, records, metrics, n)[DocumentId(name, i)] == BuildDocument(records[i], PathStem(name), metrics)
  {
    if n > 0 {
      FileDocumentsValues(name, records, metrics, n - 1);
      var prev, id := FileDocuments(name, records, metrics, n - 1), DocumentId(name, n - 1);
      var docs := prev[id := BuildDocument(records[n - 1], PathStem(name), metrics)];
      assert FileDocuments(name, records, metrics, n) == docs;
      forall i | 0 <= i < n
        ensures DocumentId(name, i) in docs && docs[DocumentId(name, i)] == BuildDocument(records[i], PathStem(name), metrics)
      {
        if i < n - 1 {
          DocumentIdsDistinct(name, i, n - 1);
        }
      }
    }
  }

  /** No record of a file overwrites another: the file adds exactly as many documents as it has records. */
  lemma {:induction false} FileDocumentsSize(name: string, records: seq<Record>, metrics: Record, n: nat)
    requires n <= |records|
    ensures |FileDocuments(name, records, metrics, n)| == n
  {
    if n > 0 {
      var prev := FileDocuments(name, records, metrics, n - 1);
      FileDocumentsSize(name, records, metrics, n - 1);
      FileDocumentsKeys(name, records, metrics, n - 1);
      var id := DocumentId(name, n - 1);
      forall i | 0 <= i < n - 1
        ensures DocumentId(name, i) != id
      {
        DocumentIdsDistinct(name, i, n - 1);
      }
      assert id !in prev;
      assert prev[id := BuildDocument(records[n - 1], PathStem(name), metrics)].Keys == prev.Keys + {id};
    }
  }

  /** Every stored id is `<file name>-<i>` for a file of the run. */
  lemma {:induction false} StoredIdsComeFromFiles(files: seq<string>, decoder: Decoder)
    ensures forall id :: id in Load(files, decoder).docs ==> exists f, i: nat :: f in files && id == DocumentId(f, i)
  {
    if files != [] {
      var init, last := files[..|files| - 1], files[|files| - 1];
      StoredIdsComeFromFiles(init, decoder);
      var parsed := decoder.parse(last);
      if parsed.Success? && decoder.metrics(parsed.value).Success? && Load(init, decoder).completed {
        FileDocumentsKeys(last, parsed.value, decoder.metrics(parsed.value).value, |parsed.value|);
      }
    }
  }

  /**
   * After a run over distinctly named files, the index holds exactly `count`
   * documents: no record overwrote another.
   */
  lemma {:induction false} IndexSizeIsCount(files: seq<string>, decoder: Decoder)
    requires Distinct(files)
    ensures |Load(files, decoder).docs| == Load(files, decoder).count
  {
    if files != [] {
      var init, last := files[..|files| - 1], files[|files| - 1];
      assert Distinct(init);
      assert last !in init;
      IndexSizeIsCount(init, decoder);
      var st := Load(init, decoder);
      var parsed := decoder.parse(last);
      if st.completed && parsed.Success? && decoder.metrics(parsed.value).Success? {
        var records := parsed.value;
        var m := decoder.metrics(records).value;
        var added := FileDocuments(last, records, m, |records|);
        FileDocumentsKeys(last, records, m, |records|);
        FileDocumentsSize(last, records, m, |records|);
        StoredIdsComeFromFiles(init, decoder);
        forall id | id in st.docs
          ensures id !in added
        {
          var f, i: nat :| f in init && id == DocumentId(f, i);
          if id in added {
            var k :| 0 <= k < |records| && id == DocumentId(last, k);
            DocumentIdInjective(f, i, last, k);
            assert false;
          }
        }
        assert st.docs.Keys * added.Keys == {};
        assert (st.docs + added).Keys == st.docs.Keys + added.Keys;
      }
    }
  }

  /** Every record of file f, if f was decoded, is in `docs` as the document built from it. */
  predicate RecordsStored(docs: map<string, Record>, f: string, decoder: Decoder) {
    decoder.parse(f).Success? && decoder.metrics(decoder.parse(f).value).Success? ==>
      var records := decoder.parse(f).value;
      forall i :: 0 <= i < |records| ==>
        DocumentId(f, i) in docs
        && docs[DocumentId(f, i)] == BuildDocument(records[i], PathStem(f), decoder.metrics(records).value)
  }

  /** Storing another file's documents leaves this file's documents in place. */
  lemma OtherFileKeepsRecords(docs: map<string, Record>, f: string, last: string, records: seq<Record>, m: Record, decoder: Decoder)
    requires f != last && RecordsStored(docs, f, decoder)
    ensures RecordsStored(docs + FileDocuments(last, records, m, |records|), f, decoder)
  {
    FileDocumentsKeys(last, records, m, |records|);
    var added := FileDocuments(last, records, m, |records|);
    if decoder.parse(f).Success? && decoder.metrics(decoder.parse(f).value).Success? {
      forall i | 0 <= i < |decoder.parse(f).value|
        ensures DocumentId(f, i) !in added
      {
        if DocumentId(f, i) in added {
          var k :| 0 <= k < |records| && DocumentId(f, i) == DocumentId(last, k);
          DocumentIdInjective(f, i, last, k);
          assert false;
        }
      }
    }
  }

  /**
   * After a run without exceptions, every record of every file is in the index under
   * `<file name>-<i>`, holding the document built with the file's stem as session id.
   */
  lemma {:induction false} EveryRecordStored(files: seq<string>, decoder: Decoder)
    ensures Load(files, decoder).completed ==> forall f :: f in files ==> RecordsStored(Load(files, decoder).docs, f, decoder)
  {
    if files != [] {
      var init, last := files[..|files| - 1], files[|files| - 1];
      EveryRecordStored(init, decoder);
      var st := Load(init, decoder);
      var parsed := decoder.parse(last);
      if st.completed && parsed.Success? && decoder.metrics(parsed.value).Success? {
        var records := parsed.value;
        var m := decoder.metrics(records).value;
        forall f | f in files
          ensures RecordsStored(st.docs + FileDocuments(last, records, m, |records|), f, decoder)
        {
          if f == last {
            FileDocumentsValues(last, records, m, |records|);
            FileDocumentsKeys(last, records, m, |records|);
          } else {
            assert f in init;
            OtherFileKeepsRecords(st.docs, f, last, records, m, decoder);
          }
        }
      }
    }
  }

  /** The count printed at the end is the number of records of all files. */
  function TotalRecords(files: seq<string>, decoder: Decoder): nat {
    if files == [] then 0
    else
      var last := files[|files| - 1];
      TotalRecords(files[..|files| - 1], decoder) + if decoder.parse(last).Success? then |decoder.parse(last).value| else 0
  }

  lemma {:induction false} CountIsTotalRecords(files: seq<string>, decoder: Decoder)
    ensures Load(files, decoder).completed ==> Load(files, decoder).count == TotalRecords(files, decoder)
  {
    if files != [] {
      CountIsTotalRecords(files[..|files| - 1], decoder);
    }
  }

  /**
   * The two loaders name the same record differently: `<name>.fit-<i>` here,
   * `<name>-<i>` in the bulk loader, so loading a file with both stores it twice.
   */
  lemma IdsDifferBetweenLoaders(name: string, i: nat)
    requires RegularFitName(name)
    ensures DocumentId(name, i) != DocumentId(SplitextRoot(name), i)
  {
    RootAndStemDropExtension(name);
    if DocumentId(name, i) == DocumentId(SplitextRoot(name), i) {
      DocumentIdInjective(name, i, SplitextRoot(name), i);
    }
  }
}
