/** Chains of functions that trigger one another through their completion events. */
module Cascade {
  import opened Common
  import opened Entities
  import opened Jobs
  import opened Order
  import opened Registry
  import Matcher

  const COMPLETED := "functions.job.completed"
  const FUNCTION_NAME := "function_name"

  /** The payload of a lifecycle event, as the registrar encodes it: four keys in order. */
  function Payload(functionName: string, jobId: string, trigger: string, run: string): Matcher.Fields {
    [(FUNCTION_NAME, functionName), ("job_id", jobId), ("trigger_event", trigger), ("workflow_run_id", run)]
  }

  lemma PayloadIsWellFormed(functionName: string, jobId: string, trigger: string, run: string)
    ensures Matcher.WellFormed(Payload(functionName, jobId, trigger, run))
    ensures Matcher.DistinctKeys(Payload(functionName, jobId, trigger, run))
    ensures Matcher.KeyText(FUNCTION_NAME)
  {
    assert FUNCTION_NAME[0] == 'f' && "job_id"[0] == 'j' && "trigger_event"[0] == 't' && "workflow_run_id"[0] == 'w';
  }

  /** The payload of an event as it is published; the rollback events' is not a flat one of these. */
  function EventPayload(e: Event): Matcher.Fields
    requires e.Lifecycle?
  {
    Payload(e.functionName, e.jobId, e.triggerEvent, e.workflowRunId)
  }

  lemma FieldText(k: string, v: string)
    ensures Matcher.Field((k, v)) == Matcher.PairText(k, Matcher.Encoded(v))
  {
    hide Matcher.Encoded;
  }

  lemma BodyText(fs: Matcher.Fields)
    requires fs != []
    ensures Matcher.Body(fs) == if |fs| == 1 then Matcher.Field(fs[0]) + "}"
                                else Matcher.Field(fs[0]) + "," + Matcher.Body(fs[1..])
  {
    hide Matcher.Field;
    if |fs| > 1 { Matcher.Regroup([], Matcher.Field(fs[0]), [','], Matcher.Body(fs[1..])); }
  }

  /** The payload's text: four keys in order, each with its value encoded. */
  lemma PayloadText(functionName: string, jobId: string, trigger: string, run: string)
    ensures Matcher.Encode(Payload(functionName, jobId, trigger, run))
         == "{" + (Matcher.PairText("function_name", Matcher.Encoded(functionName)) + ","
            + (Matcher.PairText("job_id", Matcher.Encoded(jobId)) + ","
            + (Matcher.PairText("trigger_event", Matcher.Encoded(trigger)) + ","
            + (Matcher.PairText("workflow_run_id", Matcher.Encoded(run)) + "}"))))
  {
    hide Matcher.Encoded;
    hide Matcher.Body;
    hide Matcher.Field;
    hide Matcher.PairText;
    FieldText("function_name", functionName);
    FieldText("job_id", jobId);
    FieldText("trigger_event", trigger);
    FieldText("workflow_run_id", run);
    var fs := Payload(functionName, jobId, trigger, run);
    assert fs[1..] == [("job_id", jobId), ("trigger_event", trigger), ("workflow_run_id", run)];
    assert fs[1..][1..] == [("trigger_event", trigger), ("workflow_run_id", run)];
    assert fs[1..][1..][1..] == [("workflow_run_id", run)];
    BodyText(fs);
    BodyText(fs[1..]);
    BodyText(fs[1..][1..]);
    BodyText(fs[1..][1..][1..]);
  }

  /**
   * What the manager announces of a stored job, as a manifest's qualifier sees it: each of the
   * four keys matches a plain value if and only if that is the job's own.
   */
  lemma AnnouncedPayload(job: Entity, topic: Topic, v: string)
    requires Matcher.PlainText(v)
    ensures var text := Matcher.Encode(EventPayload(LifecycleEvent(topic, JobFromEntity(job))));
      && (Matcher.Within(text, Matcher.PairText("function_name", v)) <==> v == TextProp(job.props, PFunctionName))
      && (Matcher.Within(text, Matcher.PairText("job_id", v)) <==> v == job.id)
      && (Matcher.Within(text, Matcher.PairText("trigger_event", v)) <==> v == TextProp(job.props, PTriggerEvent))
      && (Matcher.Within(text, Matcher.PairText("workflow_run_id", v)) <==> v == TextProp(job.props, PWorkflowRunId))
  {
    var fs := EventPayload(LifecycleEvent(topic, JobFromEntity(job)));
    QualifierReads(fs, 0, "function_name", v);
    QualifierReads(fs, 1, "job_id", v);
    QualifierReads(fs, 2, "trigger_event", v);
    QualifierReads(fs, 3, "workflow_run_id", v);
  }

  lemma QualifierReads(fs: Matcher.Fields, i: nat, k: string, v: string)
    requires i < |fs| && fs[i].0 == k && Matcher.PlainText(v)
    requires exists f, j, t, r :: fs == Payload(f, j, t, r)
    ensures Matcher.Within(Matcher.Encode(fs), Matcher.PairText(k, v)) <==> v == fs[i].1
  {
    var f, j, t, r :| fs == Payload(f, j, t, r);
    PayloadIsWellFormed(f, j, t, r);
    Matcher.MatchReadsField(fs, i, v);
    Matcher.ContainsIff(Matcher.Encode(fs), k, v);
  }

  /** The completion of a job of f, whatever its other fields, can start a job of g. */
  ghost predicate Starts(files: Files, f: string, g: string) {
    exists jobId, trigger, run :: Finds(files, COMPLETED, Matcher.Encode(Payload(f, jobId, trigger, run)), Some(g))
  }

  /** A cascade: each function is started by the completion of the one before. */
  ghost predicate IsChain(files: Files, fs: seq<string>) {
    fs != [] && forall i | 0 < i < |fs| :: Starts(files, fs[i - 1], fs[i])
  }

  /** What a manifest demands of the completed function's name, if anything. */
  function Wants(m: Manifest): Option<string> {
    if FUNCTION_NAME in m.payloadMatch then Some(m.payloadMatch[FUNCTION_NAME]) else None
  }

  /** The manifest leaves the name unqualified, or with a value of no exact meaning, or wants f. */
  predicate Admits(m: Manifest, f: string) {
    var want := Wants(m);
    want.Some? && Matcher.PlainText(want.value) ==> want.value == f
  }

  /** The file declares function g, waiting for completions that f's may be one of. */
  predicate Waits(files: Files, file: string, f: string, g: string) {
    && IsManifest(files, file)
    && var m := files[file].manifest.value;
       m.name == g && m.trigger == COMPLETED && Admits(m, f)
  }

  /** Among the payloads of f's completions, a plain qualifier of the name matches only f. */
  lemma QualifierMeansName(want: string, f: string, jobId: string, trigger: string, run: string)
    requires Matcher.PlainText(want)
    ensures Matcher.Contains(Matcher.Encode(Payload(f, jobId, trigger, run)), Matcher.Needle(FUNCTION_NAME, want))
       <==> want == f
  {
    PayloadIsWellFormed(f, jobId, trigger, run);
    Matcher.MatchReadsField(Payload(f, jobId, trigger, run), 0, want);
  }

  lemma AnswerAdmits(files: Files, file: string, f: string, jobId: string, trigger: string, run: string)
    requires Answers(files, file, COMPLETED, Matcher.Encode(Payload(f, jobId, trigger, run)))
    ensures Waits(files, file, f, files[file].manifest.value.name)
  {
    var m := files[file].manifest.value;
    if Wants(m).Some? && Matcher.PlainText(Wants(m).value) {
      QualifierMeansName(Wants(m).value, f, jobId, trigger, run);
      assert FUNCTION_NAME in m.payloadMatch;
    }
  }

  lemma StartedIsAwaited(files: Files, f: string, g: string)
    requires Starts(files, f, g)
    ensures exists file | file in files :: Waits(files, file, f, g)
  {
    var jobId, trigger, run :|
      Finds(files, COMPLETED, Matcher.Encode(Payload(f, jobId, trigger, run)), Some(g));
    var payload := Matcher.Encode(Payload(f, jobId, trigger, run));
    var file :| file in files && FirstAnswer(files, file, COMPLETED, payload) && files[file].manifest.value.name == g;
    AnswerAdmits(files, file, f, jobId, trigger, run);
  }

  /** A rank that falls along every start the manifests allow. */
  ghost predicate Falls(files: Files, rank: string -> nat) {
    forall file, f, g | file in files && Waits(files, file, f, g) :: rank(g) < rank(f)
  }

  /** With a falling rank every cascade is finite: no longer than its first function's rank allows. */
  lemma {:induction false} CascadesEnd(files: Files, rank: string -> nat, fs: seq<string>)
    requires Falls(files, rank) && IsChain(files, fs)
    ensures |fs| <= rank(fs[0]) + 1
    decreases |fs|
  {
    if |fs| > 1 {
      var rest := fs[1..];
      assert Starts(files, fs[1 - 1], fs[1]);
      forall i | 0 < i < |rest| ensures Starts(files, rest[i - 1], rest[i]) {
        assert Starts(files, fs[i + 1 - 1], fs[i + 1]);
      }
      CascadesEnd(files, rank, rest);
      StartedIsAwaited(files, fs[0], fs[1]);
    }
  }

  // ---------- the bundled functions ----------

  const COMPILE := "compile-flutter"
  const MERGE := "merge-flutter-branch"
  const MERGE_FILE := "merge-flutter-branch.json"

  /** The manifests shipped with the service. */
  const BUNDLED: map<string, Manifest> := map[
    "compile-flutter.json" := Manifest(COMPILE, "work.todo.completed", map[]),
    "create-branch.json" := Manifest("create-branch", "git.branch.create", map[]),
    "delete-branch.json" := Manifest("delete-branch", "git.branch.delete", map[]),
    "emit-event.json" := Manifest("emit-event", "work.pipeline.requested", map["function_code" := "emit-event"]),
    "merge-flutter-branch.json" := Manifest(MERGE, COMPLETED, map[FUNCTION_NAME := COMPILE]),
    "next-task.json" := Manifest("next-task", "work.next.requested", map[]),
    "start-pipeline.json" := Manifest("start-pipeline", "work.pipeline.requested", map[])]

  /** A directory holding these manifests and no others. */
  ghost predicate IsBundle(files: Files) {
    && (forall f | f in BUNDLED :: f in files && files[f] == File(Some(BUNDLED[f])))
    && (forall f | f in files && IsManifest(files, f) :: f in BUNDLED)
  }

  /** Of the bundled manifests only merge-flutter-branch waits for a completion. */
  lemma OnlyMergeWaits(f: string)
    requires f in BUNDLED && BUNDLED[f].trigger == COMPLETED
    ensures f == "merge-flutter-branch.json" && BUNDLED[f] == Manifest(MERGE, COMPLETED, map[FUNCTION_NAME := COMPILE])
  {
    assert COMPLETED[0] == 'f' && "work.pipeline.requested"[0] == 'w';
  }

  lemma BundleWaits(files: Files, file: string, f: string, g: string)
    requires IsBundle(files) && file in files && Waits(files, file, f, g)
    ensures file == "merge-flutter-branch.json" && f == COMPILE && g == MERGE
  {
    assert file in BUNDLED && files[file] == File(Some(BUNDLED[file]));
    OnlyMergeWaits(file);
    CompileIsPlain();
    assert Wants(BUNDLED[file]) == Some(COMPILE);
  }

  lemma CompileIsPlain()
    ensures Matcher.PlainText(COMPILE) && COMPILE != MERGE
  {
    assert |COMPILE| != |MERGE|;
  }

  lemma BundleHoldsMerge(files: Files)
    requires IsBundle(files)
    ensures IsManifest(files, MERGE_FILE)
    ensures files[MERGE_FILE].manifest.value == Manifest(MERGE, COMPLETED, map[FUNCTION_NAME := COMPILE])
  {
    assert MERGE_FILE in BUNDLED && BUNDLED[MERGE_FILE] == Manifest(MERGE, COMPLETED, map[FUNCTION_NAME := COMPILE]);
    assert HasSuffix(MERGE_FILE) by { assert MERGE_FILE[20..] == SUFFIX; }
  }

  /** A completion that starts something is of compile-flutter, and starts the merge. */
  lemma StartsOnlyMerge(files: Files, f: string, g: string)
    requires IsBundle(files) && Starts(files, f, g)
    ensures f == COMPILE && g == MERGE
  {
    StartedIsAwaited(files, f, g);
    var file :| file in files && Waits(files, file, f, g);
    BundleWaits(files, file, f, g);
  }

  /**
   * With the bundled manifests a completed compile-flutter job starts merge-flutter-branch,
   * and the completion of any other function starts nothing, whatever its payload contains.
   */
  lemma BundledCompletions(files: Files, f: string, jobId: string, trigger: string, run: string, r: Option<string>)
    requires IsBundle(files) && IsBinary(files, MERGE)
    requires Finds(files, COMPLETED, Matcher.Encode(Payload(f, jobId, trigger, run)), r)
    ensures r == if f == COMPILE then Some(MERGE) else None
  {
    MergeAnswers(files, jobId, trigger, run);
    if r.Some? {
      assert Starts(files, f, r.value);
      StartsOnlyMerge(files, f, r.value);
    }
  }

  lemma MergeAnswers(files: Files, jobId: string, trigger: string, run: string)
    requires IsBundle(files) && IsBinary(files, MERGE)
    ensures Answers(files, MERGE_FILE, COMPLETED, Matcher.Encode(Payload(COMPILE, jobId, trigger, run)))
  {
    CompileIsPlain();
    QualifierMeansName(COMPILE, COMPILE, jobId, trigger, run);
    BundleHoldsMerge(files);
  }

  /** And so for the completion that the manager announces of a stored job. */
  lemma AnnouncedCompletion(files: Files, job: Entity, r: Option<string>)
    requires IsBundle(files) && IsBinary(files, "merge-flutter-branch")
    requires var e := LifecycleEvent(JobCompleted, JobFromEntity(job));
      Finds(files, TopicText(e.topic), Matcher.Encode(EventPayload(e)), r)
    ensures r == if TextProp(job.props, PFunctionName) == "compile-flutter" then Some("merge-flutter-branch") else None
  {
    var e := LifecycleEvent(JobCompleted, JobFromEntity(job));
    assert TopicText(e.topic) == COMPLETED;
    BundledCompletions(files, e.functionName, e.jobId, e.triggerEvent, e.workflowRunId, r);
  }

  /** A directory with the bundled manifests, no others, and all their binaries. */
  ghost predicate FullBundle(files: Files) {
    IsBundle(files) && forall f | f in BUNDLED :: IsBinary(files, BUNDLED[f].name)
  }

  lemma BundleSuffixes(f: string)
    requires f in BUNDLED
    ensures HasSuffix(f)
  {
    var names := ["compile-flutter.json", "create-branch.json", "delete-branch.json", "emit-event.json",
                  "merge-flutter-branch.json", "next-task.json", "start-pipeline.json"];
    assert f in names;
    assert names[0][15..] == ".json" && names[1][13..] == ".json" && names[2][13..] == ".json" && names[3][10..] == ".json";
    assert names[4][20..] == ".json" && names[5][9..] == ".json" && names[6][14..] == ".json";
  }

  /** In a full bundle the answering files are the bundled ones with the trigger whose qualifiers occur. */
  lemma BundleAnswers(files: Files, f: string, trigger: string, payload: string)
    requires FullBundle(files)
    ensures Answers(files, f, trigger, payload) <==>
      && f in BUNDLED && BUNDLED[f].trigger == trigger
      && forall k | k in BUNDLED[f].payloadMatch ::
           Matcher.Contains(payload, Matcher.Needle(k, BUNDLED[f].payloadMatch[k]))
  {
    if f in BUNDLED {
      BundleSuffixes(f);
      assert files[f] == File(Some(BUNDLED[f]));
    }
  }

  /** With one bundled file for the trigger, that is what a lookup finds. */
  lemma OnlyBundled(files: Files, f: string, trigger: string, payload: string, r: Option<string>)
    requires FullBundle(files) && Finds(files, trigger, payload, r)
    requires f in BUNDLED && BUNDLED[f].trigger == trigger && BUNDLED[f].payloadMatch == map[]
    requires forall g | g in BUNDLED && BUNDLED[g].trigger == trigger :: g == f
    ensures r == Some(BUNDLED[f].name)
  {
    forall g ensures Answers(files, g, trigger, payload) <==> g == f { BundleAnswers(files, g, trigger, payload); }
    hide Answers;
    assert f in files && files[f] == File(Some(BUNDLED[f]));
  }

  /** The two bundled files for pipeline requests: the qualified one comes first. */
  lemma PipelineAnswers(files: Files, payload: string)
    requires FullBundle(files)
    ensures forall h :: Answers(files, h, "work.pipeline.requested", payload) <==>
      || (h == "emit-event.json" && Matcher.Within(payload, Matcher.PairText("function_code", "emit-event")))
      || h == "start-pipeline.json"
  {
    Matcher.ContainsIff(payload, "function_code", "emit-event");
    BundledTriggersDiffer();
    PipelineManifests();
    hide Answers;
    hide Matcher.Contains;
    hide Matcher.Within;
    forall h ensures Answers(files, h, "work.pipeline.requested", payload) <==>
      || (h == "emit-event.json" && Matcher.Within(payload, Matcher.PairText("function_code", "emit-event")))
      || h == "start-pipeline.json"
    {
      BundleAnswers(files, h, "work.pipeline.requested", payload);
      if h == "emit-event.json" { assert "function_code" in BUNDLED[h].payloadMatch; }
      if h == "start-pipeline.json" { assert BUNDLED[h].payloadMatch == map[]; }
    }
  }

  lemma PipelineManifests()
    ensures "emit-event.json" in BUNDLED && "start-pipeline.json" in BUNDLED
    ensures BUNDLED["emit-event.json"]
         == Manifest("emit-event", "work.pipeline.requested", map["function_code" := "emit-event"])
    ensures BUNDLED["start-pipeline.json"] == Manifest("start-pipeline", "work.pipeline.requested", map[])
    ensures Before("emit-event.json", "start-pipeline.json")
  {}

  lemma BundledTriggersDiffer()
    ensures forall f | f in BUNDLED && BUNDLED[f].trigger == "work.todo.completed" :: f == "compile-flutter.json"
    ensures forall f | f in BUNDLED && BUNDLED[f].trigger == "git.branch.create" :: f == "create-branch.json"
    ensures forall f | f in BUNDLED && BUNDLED[f].trigger == "git.branch.delete" :: f == "delete-branch.json"
    ensures forall f | f in BUNDLED && BUNDLED[f].trigger == "work.next.requested" :: f == "next-task.json"
    ensures forall f | f in BUNDLED && BUNDLED[f].trigger == "work.pipeline.requested" ::
      f == "emit-event.json" || f == "start-pipeline.json"
  {
    var a, b, c, d, e, f := "work.todo.completed", "git.branch.create", "git.branch.delete", "work.next.requested",
                            "work.pipeline.requested", COMPLETED;
    assert |a| == 19 && |b| == 17 && |c| == 17 && |d| == 19 && |e| == 23 && |f| == 23;
    assert a[5] == 't' && d[5] == 'n' && b[11] == 'c' && c[11] == 'd' && e[0] == 'w' && f[0] == 'f';
  }

  /** A plain pipeline request starts start-pipeline; one that names emit-event starts that. */
  lemma PipelineLookup(files: Files, payload: string, r: Option<string>)
    requires FullBundle(files) && Finds(files, "work.pipeline.requested", payload, r)
    ensures r == Some(if Matcher.Within(payload, Matcher.PairText("function_code", "emit-event")) then "emit-event"
                      else "start-pipeline")
  {
    hide Answers;
    hide Finds;
    hide Matcher.Within;
    PipelineAnswers(files, payload);
    PipelineManifests();
    var sometimes := Matcher.Within(payload, Matcher.PairText("function_code", "emit-event"));
    FirstOfTwo(files, "emit-event.json", "start-pipeline.json", sometimes, "work.pipeline.requested", payload, r);
  }

  /** What each other trigger of the bundle finds, for every payload. */
  lemma BundledLookups(files: Files, trigger: string, payload: string, r: Option<string>)
    requires FullBundle(files) && Finds(files, trigger, payload, r)
    ensures trigger == "work.todo.completed" ==> r == Some("compile-flutter")
    ensures trigger == "git.branch.create" ==> r == Some("create-branch")
    ensures trigger == "git.branch.delete" ==> r == Some("delete-branch")
    ensures trigger == "work.next.requested" ==> r == Some("next-task")
  {
    hide Answers;
    hide Finds;
    hide FullBundle;
    BundledTriggersDiffer();
    if trigger == "work.todo.completed" {
      OnlyBundled(files, "compile-flutter.json", trigger, payload, r);
    } else if trigger == "git.branch.create" {
      OnlyBundled(files, "create-branch.json", trigger, payload, r);
    } else if trigger == "git.branch.delete" {
      OnlyBundled(files, "delete-branch.json", trigger, payload, r);
    } else if trigger == "work.next.requested" {
      OnlyBundled(files, "next-task.json", trigger, payload, r);
    }
  }

  lemma BundleFalls(files: Files)
    requires IsBundle(files)
    ensures Falls(files, BundleRank)
  {
    CompileIsPlain();
    forall file, f, g | file in files && Waits(files, file, f, g) ensures BundleRank(g) < BundleRank(f) {
      BundleWaits(files, file, f, g);
    }
  }

  function BundleRank(f: string): nat { if f == COMPILE then 1 else 0 }

  /** With the bundled manifests no cascade is longer than two jobs. */
  lemma BundledCascades(files: Files, fs: seq<string>)
    requires IsBundle(files) && IsChain(files, fs)
    ensures |fs| <= 2 && (|fs| == 2 ==> fs == [COMPILE, MERGE])
  {
    BundleFalls(files);
    CascadesEnd(files, BundleRank, fs);
    if |fs| == 2 {
      assert Starts(files, fs[1 - 1], fs[1]);
      StartsOnlyMerge(files, fs[0], fs[1]);
    }
  }
}
