/**
 * scripts/es_bulk_loader.py: `generate_actions`, the counting loop of `bulk_load`
 * and the exit-status rule of `main`.
 *
 * The directory listing is a parameter (`None` when the path is not a directory);
 * `parse_fit_file` and `compute_session_metrics` are a `Decoder` whose calls may
 * fail, standing for the exception the per-file `try` catches. What
 * `helpers.streaming_bulk` does with the actions (chunking, retries, backoff) is not
 * visible: the counting loop receives the `(success, info)` pairs it yields.
 */
module BulkLoader {
  import opened Wrappers
  import opened Text
  import opened Values
  import opened Documents

  /** A bulk action: `{"_index": ..., "_id": ..., "_source": ...}`. */
  datatype Action = Action(index: string, id: string, source: Record)

  /** `parse_fit_file` and `compute_session_metrics`; a `Failure` is an exception they raise. */
  datatype Decoder = Decoder(parse: string -> Result<seq<Record>>, metrics: seq<Record> -> Result<Record>)

  /** One line of the failure log `es_bulk_failures.log`. */
  datatype LogEntry = FileFailed(file: string, error: string) | DocumentFailed(id: string, error: string)

  /** The actions generated so far and the failure-log lines for files that raised. */
  datatype Generated = Generated(actions: seq<Action>, failures: seq<LogEntry>)

  /** `[f for f in os.listdir(data_dir) if f.endswith('.fit')]`. */
  function FitFiles(entries: seq<string>): (files: seq<string>)
    ensures forall f :: f in files <==> f in entries && EndsWith(f, ".fit")
  {
    if entries == [] then []
    else
      var rest := FitFiles(entries[..|entries| - 1]);
      var last := entries[|entries| - 1];
      assert forall f :: f in entries <==> f in entries[..|entries| - 1] || f == last;
      if EndsWith(last, ".fit") then rest + [last] else rest
  }

  predicate Distinct(s: seq<string>) {
    forall i, j :: 0 <= i < j < |s| ==> s[i] != s[j]
  }

  lemma {:induction false} FitFilesDistinct(entries: seq<string>)
    requires Distinct(entries)
    ensures Distinct(FitFiles(entries))
  {
    if entries != [] {
      var init := entries[..|entries| - 1];
      assert Distinct(init);
      FitFilesDistinct(init);
      assert entries[|entries| - 1] !in init;
    }
  }

  /** The actions for one session, in record order. */
  function SessionActions(indexName: string, sessionId: string, records: seq<Record>, metrics: Record): (acts: seq<Action>)
    ensures |acts| == |records|
  {
    seq(|records|, i requires 0 <= i < |records| =>
      Action(indexName, DocumentId(sessionId, i), BuildDocument(records[i], sessionId, metrics)))
  }

  /** The ids within one session are pairwise distinct. */
  lemma SessionIdsDistinct(indexName: string, sessionId: string, records: seq<Record>, metrics: Record)
    ensures var acts := SessionActions(indexName, sessionId, records, metrics);
      forall i, j :: 0 <= i < j < |acts| ==> acts[i].id != acts[j].id
  {
    var acts := SessionActions(indexName, sessionId, records, metrics);
    forall i, j | 0 <= i < j < |acts| ensures acts[i].id != acts[j].id {
      DocumentIdsDistinct(sessionId, i, j);
    }
  }

  /** The body of the per-file `try`: the actions for one file, or the log line for its exception. */
  function FileStep(name: string, indexName: string, decoder: Decoder): (step: Generated)
    ensures |step.failures| <= 1 && (step.failures != [] ==> step.actions == [])
  {
    match decoder.parse(name)
    case Failure(e) => Generated([], [FileFailed(name, e)])
    case Success(records) =>
      if records == [] then Generated([], [])
      else match decoder.metrics(records)
        case Failure(e) => Generated([], [FileFailed(name, e)])
        case Success(m) => Generated(SessionActions(indexName, SplitextRoot(name), records, m), [])
  }

  /** The loop over the `.fit` files, in listing order. */
  function Generate(files: seq<string>, indexName: string, decoder: Decoder): Generated {
    if files == [] then Generated([], [])
    else
      var before := Generate(files[..|files| - 1], indexName, decoder);
      var step := FileStep(files[|files| - 1], indexName, decoder);
      Generated(before.actions + step.actions, before.failures + step.failures)
  }

  /** All of `generate_actions`; a missing directory yields nothing. */
  function ActionsOf(listing: Option<seq<string>>, indexName: string, decoder: Decoder): Generated {
    if listing.None? then Generated([], []) else Generate(FitFiles(listing.value), indexName, decoder)
  }

  /** `generate_actions`, with the generator's output collected into a sequence. */
  method GenerateActions(listing: Option<seq<string>>, indexName: string, decoder: Decoder)
    returns (actions: seq<Action>, failures: seq<LogEntry>)
    ensures Generated(actions, failures) == ActionsOf(listing, indexName, decoder)
    ensures listing.None? ==> actions == [] && failures == []
  {
    actions, failures := [], [];
    if listing.None? {
      return;
    }
    var fitFiles := FitFiles(listing.value);
    var j := 0;
    while j < |fitFiles|
      invariant 0 <= j <= |fitFiles|
      invariant Generated(actions, failures) == Generate(fitFiles[..j], indexName, decoder)
    {
      var filename := fitFiles[j];
      GenerateOneMoreFile(fitFiles, j, indexName, decoder);
      var parsed := decoder.parse(filename);
      if parsed.Failure? {
        failures := failures + [FileFailed(filename, parsed.error)];
      } else if parsed.value != [] {
        var records := parsed.value;
        var computed := decoder.metrics(records);
        if computed.Failure? {
          failures := failures + [FileFailed(filename, computed.error)];
        } else {
          var sessionMetrics := computed.value;
          var sessionId := SplitextRoot(filename);
          var sessionActions := BuildSessionActions(indexName, sessionId, records, sessionMetrics);
          actions := actions + sessionActions;
          assert FileStep(filename, indexName, decoder) == Generated(sessionActions, []);
        }
      }
      j := j + 1;
    }
    assert fitFiles[..j] == fitFiles;
  }

  /** The inner loop of `generate_actions`: one action per record of a session, in order. */
  method BuildSessionActions(indexName: string, sessionId: string, records: seq<Record>, sessionMetrics: Record)
    returns (actions: seq<Action>)
    ensures actions == SessionActions(indexName, sessionId, records, sessionMetrics)
  {
    ghost var expected := SessionActions(indexName, sessionId, records, sessionMetrics);
    actions := [];
    var i := 0;
    while i < |records|
      invariant 0 <= i <= |records|
      invariant actions == expected[..i]
    {
      var doc := records[i];
      doc := doc[SessionIdKey := StrValue(sessionId)];
      doc := doc + sessionMetrics;
      doc := ConvertDatetimes(doc);
      assert expected[i] == Action(indexName, DocumentId(sessionId, i), doc);
      actions := actions + [Action(indexName, DocumentId(sessionId, i), doc)];
      assert expected[..i + 1] == expected[..i] + [expected[i]];
      i := i + 1;
    }
    assert expected[..i] == expected;
  }

  lemma GenerateOneMoreFile(files: seq<string>, j: nat, indexName: string, decoder: Decoder)
    requires j < |files|
    ensures var before, step := Generate(files[..j], indexName, decoder), FileStep(files[j], indexName, decoder);
      Generate(files[..j + 1], indexName, decoder) == Generated(before.actions + step.actions, before.failures + step.failures)
  {
    assert files[..j + 1][..j] == files[..j];
  }

  // ---------------------------------------------------------------------------
  // Properties of generate_actions.

  /**
   * An empty file yields nothing; a file whose parsing or metrics raise yields one log
   * line and no action; otherwise the file yields its session's actions and no log line.
   */
  lemma FileStepCases(name: string, indexName: string, decoder: Decoder)
    ensures decoder.parse(name) == Success([]) ==> FileStep(name, indexName, decoder) == Generated([], [])
    ensures decoder.parse(name).Failure? ==>
              FileStep(name, indexName, decoder) == Generated([], [FileFailed(name, decoder.parse(name).error)])
    ensures decoder.parse(name).Success? && decoder.parse(name).value != [] && decoder.metrics(decoder.parse(name).value).Failure? ==>
              FileStep(name, indexName, decoder) == Generated([], [FileFailed(name, decoder.metrics(decoder.parse(name).value).error)])
    ensures decoder.parse(name).Success? && decoder.parse(name).value != [] && decoder.metrics(decoder.parse(name).value).Success? ==>
              FileStep(name, indexName, decoder)
              == Generated(SessionActions(indexName, SplitextRoot(name), decoder.parse(name).value, decoder.metrics(decoder.parse(name).value).value), [])
  {
  }

  lemma GenerateConcat(a: seq<string>, b: seq<string>, indexName: string, decoder: Decoder)
    ensures Generate(a + b, indexName, decoder).actions
            == Generate(a, indexName, decoder).actions + Generate(b, indexName, decoder).actions
    ensures Generate(a + b, indexName, decoder).failures
            == Generate(a, indexName, decoder).failures + Generate(b, indexName, decoder).failures
  {
    ActionsConcat(a, b, indexName, decoder);
    FailuresConcat(a, b, indexName, decoder);
  }

  /** Appending one file to the list appends that file's step. */
  lemma GenerateSnoc(files: seq<string>, name: string, indexName: string, decoder: Decoder)
    ensures var g, step := Generate(files, indexName, decoder), FileStep(name, indexName, decoder);
      Generate(files + [name], indexName, decoder) == Generated(g.actions + step.actions, g.failures + step.failures)
  {
    assert (files + [name])[..|files|] == files;
  }

  lemma {:induction false} ActionsConcat(a: seq<string>, b: seq<string>, indexName: string, decoder: Decoder)
    ensures Generate(a + b, indexName, decoder).actions
            == Generate(a, indexName, decoder).actions + Generate(b, indexName, decoder).actions
  {
    if b == [] {
      assert a + b == a;
    } else {
      var init, last := b[..|b| - 1], b[|b| - 1];
      assert b == init + [last];
      assert a + b == (a + init) + [last];
      ActionsConcat(a, init, indexName, decoder);
      GenerateSnoc(a + init, last, indexName, decoder);
      GenerateSnoc(init, last, indexName, decoder);
      var x, y, z := Generate(a, indexName, decoder).actions, Generate(init, indexName, decoder).actions, FileStep(last, indexName, decoder).actions;
      assert Generate(a + b, indexName, decoder).actions == (x + y) + z;
      assert (x + y) + z == x + (y + z);
    }
  }

  lemma {:induction false} FailuresConcat(a: seq<string>, b: seq<string>, indexName: string, decoder: Decoder)
    ensures Generate(a + b, indexName, decoder).failures
            == Generate(a, indexName, decoder).failures + Generate(b, indexName, decoder).failures
  {
    if b == [] {
      assert a + b == a;
    } else {
      var init, last := b[..|b| - 1], b[|b| - 1];
      assert b == init + [last];
      assert a + b == (a + init) + [last];
      FailuresConcat(a, init, indexName, decoder);
      GenerateSnoc(a + init, last, indexName, decoder);
      GenerateSnoc(init, last, indexName, decoder);
      var x, y, z := Generate(a, indexName, decoder).failures, Generate(init, indexName, decoder).failures, FileStep(last, indexName, decoder).failures;
      assert Generate(a + b, indexName, decoder).failures == (x + y) + z;
      assert (x + y) + z == x + (y + z);
    }
  }

  /**
   * A file whose parsing raises is logged once and skipped: the files after it are
   * processed exactly as if it were not there.
   */
  lemma FailingFileIsolated(before: seq<string>, name: string, after: seq<string>, indexName: string, decoder: Decoder)
    requires decoder.parse(name).Failure?
    ensures Generate(before + [name] + after, indexName, decoder).actions
            == Generate(before + after, indexName, decoder).actions
    ensures Generate(before + [name] + after, indexName, decoder).failures
            == Generate(before, indexName, decoder).failures + [FileFailed(name, decoder.parse(name).error)]
               + Generate(after, indexName, decoder).failures
  {
    GenerateConcat(before + [name], after, indexName, decoder);
    GenerateSnoc(before, name, indexName, decoder);
    FileStepCases(name, indexName, decoder);
    GenerateConcat(before, after, indexName, decoder);
    var g, h := Generate(before, indexName, decoder), Generate(after, indexName, decoder);
    assert Generate(before + [name], indexName, decoder).actions == g.actions + [];
    assert Generate(before + [name], indexName, decoder).failures == g.failures + FileStep(name, indexName, decoder).failures;
  }

  /**
   * A file whose `compute_session_metrics` raises is caught by the same `except`:
   * logged once, and the files after it are processed as if it were not there.
   */
  lemma MetricsFailureIsolated(before: seq<string>, name: string, after: seq<string>, indexName: string, decoder: Decoder)
    requires decoder.parse(name).Success? && decoder.parse(name).value != []
    requires decoder.metrics(decoder.parse(name).value).Failure?
    ensures Generate(before + [name] + after, indexName, decoder).actions
            == Generate(before + after, indexName, decoder).actions
    ensures Generate(before + [name] + after, indexName, decoder).failures
            == Generate(before, indexName, decoder).failures
               + [FileFailed(name, decoder.metrics(decoder.parse(name).value).error)]
               + Generate(after, indexName, decoder).failures
  {
    GenerateConcat(before + [name], after, indexName, decoder);
    GenerateSnoc(before, name, indexName, decoder);
    FileStepCases(name, indexName, decoder);
    GenerateConcat(before, after, indexName, decoder);
    var g, h := Generate(before, indexName, decoder), Generate(after, indexName, decoder);
    assert Generate(before + [name], indexName, decoder).actions == g.actions + [];
    assert Generate(before + [name], indexName, decoder).failures == g.failures + FileStep(name, indexName, decoder).failures;
  }

  /** Every action targets `index_name` and carries the id of a record of some `.fit` file of the listing. */
  lemma {:induction false} ActionsComeFromFiles(files: seq<string>, indexName: string, decoder: Decoder)
    ensures forall a :: a in Generate(files, indexName, decoder).actions ==>
              a.index == indexName && exists f, i: nat :: f in files && a.id == DocumentId(SplitextRoot(f), i)
  {
    if files != [] {
      var init, last := files[..|files| - 1], files[|files| - 1];
      ActionsComeFromFiles(init, indexName, decoder);
      var step := FileStep(last, indexName, decoder);
      forall a | a in step.actions
        ensures a.index == indexName && exists f, i: nat :: f in files && a.id == DocumentId(SplitextRoot(f), i)
      {
        var k :| 0 <= k < |step.actions| && step.actions[k] == a;
        assert a.id == DocumentId(SplitextRoot(last), k);
      }
    }
  }

  /** Only names ending in `.fit` are ever read, and a missing directory yields nothing. */
  lemma OnlyFitEntries(listing: Option<seq<string>>, indexName: string, decoder: Decoder)
    ensures listing.None? ==> ActionsOf(listing, indexName, decoder) == Generated([], [])
    ensures listing.Some? ==> forall a :: a in ActionsOf(listing, indexName, decoder).actions ==>
              exists f, i: nat :: f in listing.value && EndsWith(f, ".fit") && a.id == DocumentId(SplitextRoot(f), i)
  {
    if listing.Some? {
      ActionsComeFromFiles(FitFiles(listing.value), indexName, decoder);
    }
  }

  /** No two actions carry the same `_id`. */
  predicate UniqueIds(acts: seq<Action>) {
    forall i, j :: 0 <= i < j < |acts| ==> acts[i].id != acts[j].id
  }

  /** The ids of one file's actions are `<root>-<position>`. */
  lemma StepIds(name: string, indexName: string, decoder: Decoder)
    ensures var acts := FileStep(name, indexName, decoder).actions;
      forall k :: 0 <= k < |acts| ==> acts[k].id == DocumentId(SplitextRoot(name), k)
  {
  }

  /** A file's ids differ from those of every earlier, differently named file. */
  lemma IdsDifferAcrossFiles(init: seq<string>, last: string, indexName: string, decoder: Decoder)
    requires last !in init
    requires RegularFitName(last) && forall f :: f in init ==> RegularFitName(f)
    ensures forall a, b :: a in Generate(init, indexName, decoder).actions && b in FileStep(last, indexName, decoder).actions ==>
              a.id != b.id
  {
    ActionsComeFromFiles(init, indexName, decoder);
    StepIds(last, indexName, decoder);
    var step := FileStep(last, indexName, decoder).actions;
    forall a, b | a in Generate(init, indexName, decoder).actions && b in step
      ensures a.id != b.id
    {
      var f, k: nat :| f in init && a.id == DocumentId(SplitextRoot(f), k);
      var m :| 0 <= m < |step| && step[m] == b;
      if a.id == b.id {
        DocumentIdInjective(SplitextRoot(f), k, SplitextRoot(last), m);
        SplitextRootInjective(f, last);
        assert false;
      }
    }
  }

  /**
   * Ids are unique across the whole run when the listing names are distinct and each
   * `.fit` name has something other than dots before its extension; re-running then
   * overwrites documents instead of duplicating them.
   */
  lemma {:induction false} GeneratedIdsUnique(files: seq<string>, indexName: string, decoder: Decoder)
    requires Distinct(files)
    requires forall f :: f in files ==> RegularFitName(f)
    ensures UniqueIds(Generate(files, indexName, decoder).actions)
  {
    if files != [] {
      var init, last := files[..|files| - 1], files[|files| - 1];
      assert Distinct(init);
      assert last !in init;
      GeneratedIdsUnique(init, indexName, decoder);
      IdsDifferAcrossFiles(init, last, indexName, decoder);
      var a := Generate(init, indexName, decoder).actions;
      var b := FileStep(last, indexName, decoder).actions;
      var acts := Generate(files, indexName, decoder).actions;
      assert acts == a + b;
      forall i, j | 0 <= i < j < |acts|
        ensures acts[i].id != acts[j].id
      {
        if j < |a| {
          assert acts[i] == a[i] && acts[j] == a[j];
        } else if |a| <= i {
          StepIds(last, indexName, decoder);
          assert acts[i] == b[i - |a|] && acts[j] == b[j - |a|];
          DocumentIdsDistinct(SplitextRoot(last), i - |a|, j - |a|);
        } else {
          assert acts[i] == a[i] && acts[j] == b[j - |a|];
          assert a[i] in a && b[j - |a|] in b;
        }
      }
    }
  }

  /**
   * Without the regular-name condition ids can collide: ".fit" and ".fit.fit" both have
   * the `splitext` root ".fit", so their first records share the id ".fit-0" and the
   * later document overwrites the earlier one in the index.
   */
  lemma DotNamesCollide(indexName: string, decoder: Decoder)
    requires decoder.parse(".fit").Success? && decoder.parse(".fit").value != []
    requires decoder.parse(".fit.fit").Success? && decoder.parse(".fit.fit").value != []
    requires decoder.metrics(decoder.parse(".fit").value).Success?
    requires decoder.metrics(decoder.parse(".fit.fit").value).Success?
    ensures var acts := Generate([".fit", ".fit.fit"], indexName, decoder).actions;
      exists i, j :: 0 <= i < j < |acts| && acts[i].id == acts[j].id == DocumentId(".fit", 0)
  {
    DotFitName();
    DotFitFitName();
    var files := [".fit", ".fit.fit"];
    assert files[..1] == [".fit"] && files[..1][..0] == [];
    var first, second := FileStep(".fit", indexName, decoder).actions, FileStep(".fit.fit", indexName, decoder).actions;
    StepIds(".fit", indexName, decoder);
    StepIds(".fit.fit", indexName, decoder);
    assert Generate([".fit"], indexName, decoder).actions == first;
    var acts := Generate(files, indexName, decoder).actions;
    assert acts == first + second;
    FileStepCases(".fit", indexName, decoder);
    FileStepCases(".fit.fit", indexName, decoder);
    assert 0 < |first| && 0 < |second|;
    assert acts[0].id == first[0].id == DocumentId(".fit", 0);
    assert acts[|first|].id == second[0].id == DocumentId(".fit", 0);
    var j := |first|;
    assert 0 < j < |acts| && acts[0].id == acts[j].id == DocumentId(".fit", 0);
    assert Generate([".fit", ".fit.fit"], indexName, decoder).actions == acts;
    assert exists i, k :: 0 <= i < k < |acts| && acts[i].id == acts[k].id == DocumentId(".fit", 0);
  }

  /** The same for a whole directory listing (whose entries are distinct). */
  lemma ListingIdsUnique(entries: seq<string>, indexName: string, decoder: Decoder)
    requires Distinct(entries)
    requires forall f :: f in entries && EndsWith(f, ".fit") ==> RegularFitName(f)
    ensures UniqueIds(ActionsOf(Some(entries), indexName, decoder).actions)
  {
    FitFilesDistinct(entries);
    GeneratedIdsUnique(FitFiles(entries), indexName, decoder);
    assert ActionsOf(Some(entries), indexName, decoder) == Generate(FitFiles(entries), indexName, decoder);
  }

  /** With the placeholder `parse_fit_file` that returns `[]`, nothing is generated. */
  lemma {:induction false} PlaceholderParserYieldsNothing(files: seq<string>, indexName: string, decoder: Decoder)
    requires forall f :: decoder.parse(f) == Success([])
    ensures Generate(files, indexName, decoder) == Generated([], [])
  {
    if files != [] {
      PlaceholderParserYieldsNothing(files[..|files| - 1], indexName, decoder);
    }
  }

  // ---------------------------------------------------------------------------
  // The counting loop of bulk_load.

  /** The per-item info of a failed item: `_id` and `error`, each possibly absent. */
  datatype ItemInfo = ItemInfo(id: Option<string>, error: Option<string>)

  /** One `(success, info)` pair; `info` is the dict `{op_type: item_info}` as a list of its items. */
  datatype Outcome = Outcome(ok: bool, info: seq<(string, ItemInfo)>)

  /**
   * The counters and the failure-log lines after consuming a prefix of the stream;
   * `stopped` is set when `info.popitem()` raised on an empty `info`, which ends the
   * loop through the outer `except`.
   */
  datatype Tally = Tally(success: nat, failure: nat, log: seq<LogEntry>, stopped: bool)

  /** One item of the stream: exactly one counter grows, and the log by at most one line. */
  function Count(t: Tally, o: Outcome): (r: Tally)
    ensures r.success + r.failure == t.success + t.failure + 1
    ensures r.success == t.success + 1 <==> o.ok
    ensures t.log <= r.log && |r.log| <= |t.log| + 1
    ensures |r.log| == |t.log| + 1 <==> !o.ok && o.info != []
    ensures r.stopped <==> t.stopped || (!o.ok && o.info == [])
  {
    if o.ok then t.(success := t.success + 1)
    else if o.info == [] then t.(failure := t.failure + 1, stopped := true)
    else
      var item := o.info[|o.info| - 1].1;
      t.(failure := t.failure + 1,
         log := t.log + [DocumentFailed(item.id.GetOr("unknown"), item.error.GetOr("unknown error"))])
  }

  function TallyOf(outcomes: seq<Outcome>): Tally {
    if outcomes == [] then Tally(0, 0, [], false)
    else
      var t := TallyOf(outcomes[..|outcomes| - 1]);
      if t.stopped then t else Count(t, outcomes[|outcomes| - 1])
  }

  /** The counting loop of `bulk_load` over the outcome stream. */
  method CountOutcomes(outcomes: seq<Outcome>) returns (success: nat, failure: nat, log: seq<LogEntry>)
    ensures success == TallyOf(outcomes).success && failure == TallyOf(outcomes).failure
    ensures log == TallyOf(outcomes).log
  {
    success, failure, log := 0, 0, [];
    var i := 0;
    while i < |outcomes|
      invariant 0 <= i <= |outcomes|
      invariant TallyOf(outcomes[..i]) == Tally(success, failure, log, false)
    {
      var outcome := outcomes[i];
      assert outcomes[..i + 1][..i] == outcomes[..i];
      if outcome.ok {
        success := success + 1;
      } else {
        failure := failure + 1;
        if outcome.info == [] {
          StoppedStaysStopped(outcomes, i + 1);
          return;
        }
        var item := outcome.info[|outcome.info| - 1].1;
        var docId := item.id.GetOr("unknown");
        var errorMsg := item.error.GetOr("unknown error");
        log := log + [DocumentFailed(docId, errorMsg)];
      }
      i := i + 1;
    }
    assert outcomes[..i] == outcomes;
  }

  /** After the loop stops, the rest of the stream changes nothing. */
  lemma {:induction false} StoppedStaysStopped(outcomes: seq<Outcome>, i: nat)
    requires i <= |outcomes| && TallyOf(outcomes[..i]).stopped
    ensures TallyOf(outcomes) == TallyOf(outcomes[..i])
  {
    if i < |outcomes| {
      assert outcomes[..|outcomes| - 1][..i] == outcomes[..i];
      StoppedStaysStopped(outcomes[..|outcomes| - 1], i);
    } else {
      assert outcomes[..i] == outcomes;
    }
  }

  predicate Malformed(o: Outcome) {
    !o.ok && o.info == []
  }

  function Successes(outcomes: seq<Outcome>): nat {
    if outcomes == [] then 0
    else Successes(outcomes[..|outcomes| - 1]) + if outcomes[|outcomes| - 1].ok then 1 else 0
  }

  /** The log lines the failed items of a stream produce, in order. */
  function FailureLines(outcomes: seq<Outcome>): seq<LogEntry>
    requires forall k :: 0 <= k < |outcomes| ==> !Malformed(outcomes[k])
  {
    if outcomes == [] then []
    else
      var o := outcomes[|outcomes| - 1];
      assert !Malformed(o);
      var before := FailureLines(outcomes[..|outcomes| - 1]);
      if o.ok then before
      else
        var item := o.info[|o.info| - 1].1;
        before + [DocumentFailed(item.id.GetOr("unknown"), item.error.GetOr("unknown error"))]
  }

  /**
   * Over a stream of well-formed outcomes, every item is counted once, as a success or
   * as a failure, and each failure leaves exactly one log line (id 'unknown' when absent).
   */
  lemma {:induction false} TallyOfWellFormed(outcomes: seq<Outcome>)
    requires forall k :: 0 <= k < |outcomes| ==> !Malformed(outcomes[k])
    ensures !TallyOf(outcomes).stopped
    ensures TallyOf(outcomes).success == Successes(outcomes)
    ensures TallyOf(outcomes).success + TallyOf(outcomes).failure == |outcomes|
    ensures TallyOf(outcomes).log == FailureLines(outcomes)
    ensures |TallyOf(outcomes).log| == TallyOf(outcomes).failure
  {
    if outcomes != [] {
      TallyOfWellFormed(outcomes[..|outcomes| - 1]);
    }
  }

  /**
   * A failed item without info ends the loop: it is counted as a failure but logs no
   * line, and nothing after it is counted; the counts so far are still returned.
   */
  lemma MalformedOutcomeStops(outcomes: seq<Outcome>, k: nat)
    requires k < |outcomes| && Malformed(outcomes[k])
    requires forall j :: 0 <= j < k ==> !Malformed(outcomes[j])
    ensures TallyOf(outcomes).stopped
    ensures TallyOf(outcomes).success + TallyOf(outcomes).failure == k + 1
    ensures |TallyOf(outcomes).log| + 1 == TallyOf(outcomes).failure
    ensures TallyOf(outcomes).log == FailureLines(outcomes[..k])
  {
    var prefix := outcomes[..k];
    TallyOfWellFormed(prefix);
    assert outcomes[..k + 1][..k] == prefix;
    assert TallyOf(outcomes[..k + 1]) == Count(TallyOf(prefix), outcomes[k]);
    StoppedStaysStopped(outcomes, k + 1);
  }

  /** The counters never decrease and the log only grows as the stream is consumed. */
  lemma {:induction false} TallyGrows(outcomes: seq<Outcome>, i: nat)
    requires i <= |outcomes|
    ensures TallyOf(outcomes[..i]).success <= TallyOf(outcomes).success
    ensures TallyOf(outcomes[..i]).failure <= TallyOf(outcomes).failure
    ensures TallyOf(outcomes[..i]).log <= TallyOf(outcomes).log
  {
    if i < |outcomes| {
      var init := outcomes[..|outcomes| - 1];
      TallyGrows(init, i);
      assert init[..i] == outcomes[..i];
    } else {
      assert outcomes[..i] == outcomes;
    }
  }

  /** Four successes and one failure with an `_id`: counts 4 and 1, one log line naming it. */
  lemma OneBadDocumentOfFive(id: string, error: string)
    ensures var good := Outcome(true, []);
      var bad := Outcome(false, [("index", ItemInfo(Some(id), Some(error)))]);
      TallyOf([good, good, bad, good, good]) == Tally(4, 1, [DocumentFailed(id, error)], false)
  {
    var good := Outcome(true, []);
    var bad := Outcome(false, [("index", ItemInfo(Some(id), Some(error)))]);
    var s := [good, good, bad, good, good];
    assert s[..1][..0] == [];
    assert TallyOf(s[..1]) == Tally(1, 0, [], false);
    assert s[..2][..1] == s[..1];
    assert TallyOf(s[..2]) == Tally(2, 0, [], false);
    assert s[..3][..2] == s[..2];
    assert TallyOf(s[..3]) == Tally(2, 1, [DocumentFailed(id, error)], false);
    assert s[..4][..3] == s[..3];
    assert TallyOf(s[..4]) == Tally(3, 1, [DocumentFailed(id, error)], false);
    assert s[..4] == s[..|s| - 1];
  }

  /** `bulk_load`: generate the actions, hand them to the store, count what comes back. */
  method BulkLoad(listing: Option<seq<string>>, indexName: string, decoder: Decoder,
                  streamingBulk: seq<Action> -> seq<Outcome>)
    returns (success: nat, failure: nat, failureLog: seq<LogEntry>)
    ensures var generated := ActionsOf(listing, indexName, decoder);
      var t := TallyOf(streamingBulk(generated.actions));
      success == t.success && failure == t.failure && failureLog == generated.failures + t.log
  {
    var actions, fileFailures := GenerateActions(listing, indexName, decoder);
    var outcomes := streamingBulk(actions);
    var docFailures;
    success, failure, docFailures := CountOutcomes(outcomes);
    failureLog := fileFailures + docFailures;
  }

  /** When every `.fit` file raises, only file-level log lines are produced and no action. */
  lemma {:induction false} AllFilesFail(files: seq<string>, indexName: string, decoder: Decoder)
    requires forall f :: f in files ==> decoder.parse(f).Failure?
    ensures Generate(files, indexName, decoder).actions == []
    ensures |Generate(files, indexName, decoder).failures| == |files|
  {
    if files != [] {
      var init := files[..|files| - 1];
      assert forall f :: f in init ==> f in files;
      AllFilesFail(init, indexName, decoder);
      assert files[|files| - 1] in files;
    }
  }

  /**
   * File-level failures do not reach the exit status: when every `.fit` file raises,
   * nothing is sent, no document fails, and `main` exits with status 0.
   */
  lemma AllFilesFailExitZero(entries: seq<string>, indexName: string, decoder: Decoder,
                             streamingBulk: seq<Action> -> seq<Outcome>)
    requires forall f :: f in entries && EndsWith(f, ".fit") ==> decoder.parse(f).Failure?
    requires streamingBulk([]) == []
    ensures ActionsOf(Some(entries), indexName, decoder).actions == []
    ensures |ActionsOf(Some(entries), indexName, decoder).failures| == |FitFiles(entries)|
    ensures ExitStatus(TallyOf(streamingBulk(ActionsOf(Some(entries), indexName, decoder).actions)).failure) == 0
  {
    AllFilesFail(FitFiles(entries), indexName, decoder);
  }

  /** `main` exits with status 1 exactly when some document failed, 0 otherwise. */
  function ExitStatus(failure: nat): (status: int)
    ensures status == 1 <==> failure > 0
    ensures status == 0 <==> failure == 0
  {
    if failure > 0 then 1 else 0
  }
}
