/** The function directory: first-match lookup, hot deployment, and trigger cascades. */
module Registry {
  import opened Common
  import opened Order
  import Matcher

  datatype Manifest = Manifest(name: string, trigger: string, payloadMatch: map<string, string>)

  /** A file is known by what its bytes decode to as a manifest, if anything. */
  datatype Node = Directory | File(manifest: Option<Manifest>)

  type Files = map<string, Node>

  const SUFFIX := ".json"

  predicate HasSuffix(f: string) { |f| >= |SUFFIX| && f[|f| - |SUFFIX|..] == SUFFIX }

  predicate IsManifest(files: Files, f: string) {
    f in files && HasSuffix(f) && files[f].File? && files[f].manifest.Some?
  }

  predicate IsBinary(files: Files, name: string) { name in files && files[name].File? }

  /** The manifest file f has the trigger, and its qualifiers all occur in the payload. */
  predicate Matches(files: Files, f: string, trigger: string, payload: string) {
    && IsManifest(files, f)
    && var m := files[f].manifest.value;
       && m.trigger == trigger
       && forall k | k in m.payloadMatch :: Matcher.Contains(payload, Matcher.Needle(k, m.payloadMatch[k]))
  }

  /** The manifest file f answers the trigger for this payload: it matches, and its binary is there. */
  predicate Answers(files: Files, f: string, trigger: string, payload: string) {
    Matches(files, f, trigger, payload) && IsBinary(files, files[f].manifest.value.name)
  }

  /** f is the first file, in directory order, that answers. */
  ghost predicate FirstAnswer(files: Files, f: string, trigger: string, payload: string) {
    && Answers(files, f, trigger, payload)
    && forall g | g in files && Answers(files, g, trigger, payload) :: NotAfter(f, g)
  }

  /** What a lookup finds: the name in the first answering manifest, or nothing. */
  ghost predicate Finds(files: Files, trigger: string, payload: string, r: Option<string>) {
    match r
    case None => forall f | f in files :: !Answers(files, f, trigger, payload)
    case Some(name) => exists f | f in files :: FirstAnswer(files, f, trigger, payload) && files[f].manifest.value.name == name
  }

  /**
   * The reference meaning of answering: a file whose name ends in .json, holding a manifest with
   * the trigger, each of whose qualifiers stands in the payload, and whose binary is a file.
   */
  ghost predicate PlainlyAnswers(files: Files, f: string, trigger: string, payload: string) {
    && f in files && files[f].File? && files[f].manifest.Some?
    && |f| >= 5 && f[|f| - 5..] == ".json"
    && files[f].manifest.value.trigger == trigger
    && (forall k | k in files[f].manifest.value.payloadMatch ::
          Matcher.Within(payload, "\"" + k + "\":\"" + files[f].manifest.value.payloadMatch[k] + "\""))
    && files[f].manifest.value.name in files && files[files[f].manifest.value.name].File?
  }

  lemma AnswersPlainly(files: Files, f: string, trigger: string, payload: string)
    ensures Answers(files, f, trigger, payload) <==> PlainlyAnswers(files, f, trigger, payload)
  {
    if f in files && files[f].File? && files[f].manifest.Some? {
      var required := files[f].manifest.value.payloadMatch;
      forall k | k in required
        ensures Matcher.Contains(payload, Matcher.Needle(k, required[k]))
           <==> Matcher.Within(payload, "\"" + k + "\":\"" + required[k] + "\"")
      {
        Matcher.ContainsIff(payload, k, required[k]);
      }
    }
  }

  /** What a lookup finds, in these terms: the file that answers and is first by code points. */
  lemma FindsPlainly(files: Files, trigger: string, payload: string, r: Option<string>)
    requires Finds(files, trigger, payload, r)
    ensures r.None? ==> forall f | f in files :: !PlainlyAnswers(files, f, trigger, payload)
    ensures r.Some? ==> exists f | f in files ::
      && PlainlyAnswers(files, f, trigger, payload) && files[f].manifest.value.name == r.value
      && forall g | g in files && PlainlyAnswers(files, g, trigger, payload) :: f == g || Lexicographic(f, g)
  {
    forall f ensures Answers(files, f, trigger, payload) <==> PlainlyAnswers(files, f, trigger, payload) {
      AnswersPlainly(files, f, trigger, payload);
    }
    if r.Some? {
      var f :| f in files && FirstAnswer(files, f, trigger, payload) && files[f].manifest.value.name == r.value;
      forall g | g in files && PlainlyAnswers(files, g, trigger, payload) ensures f == g || Lexicographic(f, g) {
        BeforeIff(f, g);
      }
    }
  }

  lemma FindsIsUnique(files: Files, trigger: string, payload: string, r: Option<string>, r': Option<string>)
    requires Finds(files, trigger, payload, r) && Finds(files, trigger, payload, r')
    ensures r == r'
  {
    if r.Some? && r'.Some? {
      var f :| f in files && FirstAnswer(files, f, trigger, payload) && files[f].manifest.value.name == r.value;
      var g :| g in files && FirstAnswer(files, g, trigger, payload) && files[g].manifest.value.name == r'.value;
      Total(f, g);
    }
  }

  /** A lookup where one file answers always and an earlier one sometimes. */
  lemma FirstOfTwo(files: Files, f: string, g: string, sometimes: bool, trigger: string, payload: string, r: Option<string>)
    requires Finds(files, trigger, payload, r) && Before(f, g)
    requires forall h :: Answers(files, h, trigger, payload) <==> (h == f && sometimes) || h == g
    ensures IsManifest(files, g) && (sometimes ==> IsManifest(files, f))
    ensures r == Some(files[if sometimes then f else g].manifest.value.name)
  {
    assert Answers(files, g, trigger, payload) && (sometimes ==> Answers(files, f, trigger, payload));
    Total(f, g);
    if r.Some? {
      var h :| h in files && FirstAnswer(files, h, trigger, payload) && files[h].manifest.value.name == r.value;
      assert h == if sometimes then f else g;
    }
  }

  /** Names that no file can have: they denote the directory itself or its parent. */
  const NO_FILE := {"", ".", ".."}

  /** A file name that is not itself a manifest file's name. */
  predicate PlainName(name: string) { name !in NO_FILE && !HasSuffix(name) }

  predicate IsDirectory(files: Files, f: string) { f in files && files[f].Directory? }

  function Deployed(files: Files, name: string, trigger: string): Files {
    files[name := File(None)][name + SUFFIX := File(Some(Manifest(name, trigger, map[])))]
  }

  /** The directory on disk; when not reliable, reads and writes may fail. */
  class BinaryRunner {
    var files: Files
    const reliable: bool

    constructor (files: Files, reliable: bool)
      ensures this.files == files && this.reliable == reliable
    {
      this.files := files;
      this.reliable := reliable;
    }

    /** Scans the directory in name order for the first manifest that answers. */
    method Lookup(trigger: string, payload: string) returns (r: Option<string>)
      ensures reliable ==> Finds(files, trigger, payload, r)
      ensures r.None? && reliable ==> forall f | f in files :: !PlainlyAnswers(files, f, trigger, payload)
      ensures r.Some? ==> exists f | f in files ::
        && PlainlyAnswers(files, f, trigger, payload) && files[f].manifest.value.name == r.value
        && (reliable ==>
              forall g | g in files && PlainlyAnswers(files, g, trigger, payload) :: f == g || Lexicographic(f, g))
    {
      if !reliable {
        if * { return None; }
      }
      var entries := SortedNames(files.Keys);
      for i := 0 to |entries|
        invariant reliable ==> forall j | 0 <= j < i :: !Answers(files, entries[j], trigger, payload)
      {
        var e := entries[i];
        if files[e].Directory? || !HasSuffix(e) { continue; }
        if !reliable {
          if * { continue; }
        }
        if files[e].manifest.None? || files[e].manifest.value.trigger != trigger { continue; }
        var m := files[e].manifest.value;
        var matches := Matcher.PayloadMatches(payload, m.payloadMatch);
        if !matches { continue; }
        if IsBinary(files, m.name) {
          forall g | g in files && reliable && Answers(files, g, trigger, payload) ensures NotAfter(e, g) {
            var j :| 0 <= j < |entries| && entries[j] == g;
          }
          AnswersPlainly(files, e, trigger, payload);
          if reliable { FindsPlainly(files, trigger, payload, Some(m.name)); }
          return Some(m.name);
        }
      }
      r := None;
      if reliable { FindsPlainly(files, trigger, payload, r); }
    }

    /** Writes the binary, which is no manifest itself, then the manifest; no other path is ever touched. */
    method Deploy(name: string, trigger: string) returns (ok: bool)
      modifies this
      ensures ok ==> files == Deployed(old(files), name, trigger)
      ensures ok ==>
        && name in files && files[name] == File(manifest := None)
        && name + ".json" in files
        && files[name + ".json"] == File(manifest := Some(Manifest(name := name, trigger := trigger, payloadMatch := map[])))
      ensures forall f | f !in {name, name + SUFFIX} :: f in files <==> f in old(files)
      ensures forall f | f in old(files) && f !in {name, name + SUFFIX} :: files[f] == old(files)[f]
      ensures reliable ==> (ok <==>
        && name !in {"", ".", ".."}
        && !(name in old(files) && old(files)[name].Directory?)
        && !(name + ".json" in old(files) && old(files)[name + ".json"].Directory?))
    {
      assert name != name + SUFFIX;
      if name in NO_FILE || IsDirectory(files, name) { return false; }
      if !reliable {
        if * { return false; }
      }
      files := files[name := File(None)];
      if !reliable {
        if * { return false; }
      }
      if IsDirectory(files, name + SUFFIX) { return false; }
      if !reliable {
        if * {
          files := files[name + SUFFIX := File(None)];
          return false;
        }
      }
      files := files[name + SUFFIX := File(Some(Manifest(name, trigger, map[])))];
      ok := true;
    }
  }

  // ---------- deploying makes a function visible, and nothing else ----------

  /** Every manifest file is called after its function. */
  ghost predicate NamedAfterFunction(files: Files) {
    forall f | f in files && IsManifest(files, f) :: f == files[f].manifest.value.name + SUFFIX
  }

  /** The manifest file f exists and has this trigger. */
  predicate HadTrigger(files: Files, f: string, trigger: string) {
    IsManifest(files, f) && files[f].manifest.value.trigger == trigger
  }

  lemma SuffixShape(name: string)
    ensures HasSuffix(name + SUFFIX) && name != name + SUFFIX
    ensures forall other: string :: other + SUFFIX == name + SUFFIX ==> other == name
  {}

  /** The deployment leaves manifests named after their functions, and adds one that answers its trigger. */
  lemma DeployedAnswers(files: Files, name: string, trigger: string, payload: string)
    requires NamedAfterFunction(files) && PlainName(name)
    ensures NamedAfterFunction(Deployed(files, name, trigger))
    ensures Answers(Deployed(files, name, trigger), name + SUFFIX, trigger, payload)
  {
    SuffixShape(name);
  }

  /**
   * After a deployment the trigger is answered for every payload, by a manifest at or before
   * the new one.
   */
  lemma DeployIsVisible(files: Files, name: string, trigger: string, payload: string, r: Option<string>)
    requires NamedAfterFunction(files) && PlainName(name)
    requires Finds(Deployed(files, name, trigger), trigger, payload, r)
    ensures var after, f := Deployed(files, name, trigger), name + SUFFIX;
      r.Some? && exists g | g in after ::
        FirstAnswer(after, g, trigger, payload) && after[g].manifest.value.name == r.value && NotAfter(g, f)
  {
    DeployedAnswers(files, name, trigger, payload);
    var after, f := Deployed(files, name, trigger), name + SUFFIX;
    assert f in after;
    var g :| g in after && FirstAnswer(after, g, trigger, payload) && after[g].manifest.value.name == r.value;
    assert NotAfter(g, f);
  }

  /**
   * Before the deployment: a function called `name`.json has a manifest that would answer, but
   * no binary, which the new manifest file will stand in for; and it comes before every answer.
   */
  ghost predicate StandsIn(files: Files, name: string, trigger: string, payload: string) {
    var binary, manifest := name + SUFFIX, name + SUFFIX + SUFFIX;
    && binary !in files
    && Matches(files, manifest, trigger, payload)
    && forall g | g in files && Answers(files, g, trigger, payload) :: Before(manifest, g)
  }

  /** A lookup on another trigger, but the one the overwritten manifest had. */
  ghost predicate OtherTrigger(files: Files, name: string, trigger: string, other: string) {
    && NamedAfterFunction(files) && PlainName(name)
    && !IsDirectory(files, name) && !IsDirectory(files, name + SUFFIX)
    && other != trigger && !HadTrigger(files, name + SUFFIX, other)
  }

  /** Any file but the manifest of a function called `name`.json answers as it did before. */
  lemma SameAnswers(files: Files, name: string, trigger: string, other: string, payload: string)
    requires OtherTrigger(files, name, trigger, other)
    ensures forall g | g != name + SUFFIX + SUFFIX :: SameAnswer(files, Deployed(files, name, trigger), g, other, payload)
  {
    SuffixShape(name);
    SuffixShape(name + SUFFIX);
    var after, f := Deployed(files, name, trigger), name + SUFFIX;
    forall g | g != f + SUFFIX ensures SameAnswer(files, after, g, other, payload) {
      if g != f && g != name && IsManifest(files, g) {
        assert files[g].manifest.value.name != name && files[g].manifest.value.name != f;
      }
    }
  }

  /** That one answers afterwards whenever it matches, and answered before only with its binary there. */
  lemma StandInAnswers(files: Files, name: string, trigger: string, other: string, payload: string)
    requires OtherTrigger(files, name, trigger, other)
    ensures var after, m := Deployed(files, name, trigger), name + SUFFIX + SUFFIX;
      && (Answers(after, m, other, payload) <==> Matches(files, m, other, payload))
      && (Answers(files, m, other, payload) <==> Matches(files, m, other, payload) && name + SUFFIX in files)
      && (Matches(files, m, other, payload) ==> after[m] == files[m] && files[m].manifest.value.name == name + SUFFIX)
  {
    SuffixShape(name);
    SuffixShape(name + SUFFIX);
    var m := name + SUFFIX + SUFFIX;
    assert |m| == |name| + 10;
  }

  /**
   * Deploying is local, exactly: a lookup on another trigger finds what it found before if and
   * only if the new manifest file does not stand in for a missing binary.
   */
  lemma DeployIsLocalIff(files: Files, name: string, trigger: string, other: string, payload: string,
                         r: Option<string>, r': Option<string>)
    requires OtherTrigger(files, name, trigger, other)
    requires Finds(files, other, payload, r) && Finds(Deployed(files, name, trigger), other, payload, r')
    ensures r == r' <==> !StandsIn(files, name, other, payload)
  {
    var after, m := Deployed(files, name, trigger), name + SUFFIX + SUFFIX;
    SameAnswers(files, name, trigger, other, payload);
    StandInAnswers(files, name, trigger, other, payload);
    if StandsIn(files, name, other, payload) {
      StandInFound(files, after, m, other, payload, r);
      FindsIsUnique(after, other, payload, r', Some(name + SUFFIX));
    } else {
      OldFound(files, after, m, other, payload, r);
      FindsIsUnique(after, other, payload, r, r');
    }
  }

  /** The file answers before and after alike, and unchanged. */
  ghost predicate SameAnswer(files: Files, after: Files, g: string, trigger: string, payload: string) {
    && (Answers(files, g, trigger, payload) <==> Answers(after, g, trigger, payload))
    && (Answers(files, g, trigger, payload) ==> after[g] == files[g])
  }

  /** An answer gained before all others is the new finding, and it is a different one. */
  lemma StandInFound(files: Files, after: Files, m: string, trigger: string, payload: string, r: Option<string>)
    requires NamedAfterFunction(files) && Finds(files, trigger, payload, r)
    requires forall g | g != m :: SameAnswer(files, after, g, trigger, payload)
    requires !Answers(files, m, trigger, payload) && Answers(after, m, trigger, payload) && IsManifest(files, m)
    requires after[m] == files[m]
    requires forall g | g in files && Answers(files, g, trigger, payload) :: Before(m, g)
    ensures Finds(after, trigger, payload, Some(files[m].manifest.value.name)) && r != Some(files[m].manifest.value.name)
  {
    forall g | g in after && Answers(after, g, trigger, payload) ensures NotAfter(m, g) {
      if g != m { assert SameAnswer(files, after, g, trigger, payload); }
    }
    assert m in after && FirstAnswer(after, m, trigger, payload);
    if r.Some? {
      var f :| f in files && FirstAnswer(files, f, trigger, payload) && files[f].manifest.value.name == r.value;
      assert f != m;
    }
  }

  /** Without such an answer the old finding stands. */
  lemma OldFound(files: Files, after: Files, m: string, trigger: string, payload: string, r: Option<string>)
    requires Finds(files, trigger, payload, r)
    requires forall g | g != m :: SameAnswer(files, after, g, trigger, payload)
    requires Answers(files, m, trigger, payload) ==> Answers(after, m, trigger, payload) && after[m] == files[m]
    requires !Answers(files, m, trigger, payload) && Answers(after, m, trigger, payload) ==>
      exists g | g in files && Answers(files, g, trigger, payload) :: !Before(m, g)
    ensures Finds(after, trigger, payload, r)
  {
    hide IsBinary;
    if r.Some? {
      var f :| f in files && FirstAnswer(files, f, trigger, payload) && files[f].manifest.value.name == r.value;
      assert f != m ==> SameAnswer(files, after, f, trigger, payload);
      forall g | g in after && Answers(after, g, trigger, payload) ensures NotAfter(f, g) {
        if g != m {
          assert SameAnswer(files, after, g, trigger, payload);
        } else if !Answers(files, m, trigger, payload) {
          var h :| h in files && Answers(files, h, trigger, payload) && !Before(m, h);
          Total(m, h);
          AtOrBefore(f, h, m);
        }
      }
      assert f in after && FirstAnswer(after, f, trigger, payload);
    } else {
      forall g | g in after ensures !Answers(after, g, trigger, payload) {
        if g != m { assert SameAnswer(files, after, g, trigger, payload); }
      }
    }
  }

  lemma AtOrBefore(f: string, h: string, m: string)
    requires NotAfter(f, h) && NotAfter(h, m)
    ensures NotAfter(f, m)
  {
    if Before(f, h) && Before(h, m) { Transitive(f, h, m); }
  }

  /** A function called like a manifest breaks locality: deploying "f" gives trigger "t" an answer. */
  lemma ManifestLikeNameIsNotLocal(payload: string)
    ensures var files := map["f.json.json" := File(Some(Manifest("f.json", "t", map[])))];
      && Finds(files, "t", payload, None)
      && !Finds(Deployed(files, "f", "u"), "t", payload, None)
  {
    var files := map["f.json.json" := File(Some(Manifest("f.json", "t", map[])))];
    var after, g := Deployed(files, "f", "u"), "f.json.json";
    assert "f" + SUFFIX == "f.json" && "f.json" != g && "f" != g;
    assert HasSuffix(g) by { assert g[6..] == SUFFIX; }
    assert after[g].manifest.value.name == "f.json" && IsBinary(after, "f.json");
    assert g in after && Answers(after, g, "t", payload);
  }
}
