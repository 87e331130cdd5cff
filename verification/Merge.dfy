/**
 * Merging a compiled feature branch: many jobs may ask for the same merge, and comparing
 * the two branch heads is what keeps the later ones from asking again. The Git service is
 * remote; merging is taken to be a fast-forward, and nothing else moves either head.
 */
module Merge {
  import Matcher

  // ---------- one job at a time ----------

  const MAIN := "main"

  datatype CompileResult = CompileResult(branch: string, status: string)

  datatype Git = Git(heads: map<string, string>, requests: seq<string>)

  /** The compile result names a branch to merge. */
  predicate Eligible(c: CompileResult) { c.branch != "" && c.branch != MAIN && c.status == "ok" }

  /** Both branches exist and their heads differ, or one has none. */
  predicate Unmerged(g: Git, branch: string) {
    branch in g.heads && MAIN in g.heads && Compare(g.heads[branch], g.heads[MAIN]).Proceed?
  }

  function Merged(g: Git, branch: string): Git
    requires branch in g.heads
  {
    Git(g.heads[MAIN := g.heads[branch]], g.requests + [branch])
  }

  /** The remote service; when not reliable, any request may fail, a merge also after taking effect. */
  class GitService {
    var git: Git
    const reliable: bool

    constructor (git: Git, reliable: bool)
      ensures this.git == git && this.reliable == reliable
    {
      this.git := git;
      this.reliable := reliable;
    }

    /**
     * Reads a branch's head. The text of a refusal names the request and the status; a read
     * cut off without an HTTP status ends the script.
     */
    method Head(branch: string) returns (r: Reading)
      ensures reliable ==> r == if branch in git.heads then Read(git.heads[branch]) else Refused(NOT_FOUND)
      ensures r.Read? ==> branch in git.heads && (r.commit == git.heads[branch] || r.commit == "")
    {
      if !reliable {
        var text: string := *;
        if * { return Refused(text); }
        if * { return CutOff; }
        if branch in git.heads {
          if * { return Read(""); }
        }
      }
      r := if branch in git.heads then Read(git.heads[branch]) else Refused(NOT_FOUND);
    }

    method PostMerge(branch: string) returns (ok: bool)
      modifies this
      ensures git == Git(git.heads, old(git).requests + [branch])
      ensures git.heads == old(git).heads
              || (branch in old(git).heads && git.heads == old(git).heads[MAIN := old(git).heads[branch]])
      ensures ok ==> branch in old(git).heads && git == Merged(old(git), branch)
      ensures reliable && branch in old(git).heads ==> ok
    {
      git := git.(requests := git.requests + [branch]);
      if branch !in git.heads { return false; }
      if !reliable {
        if * { return false; }
      }
      git := git.(heads := git.heads[MAIN := git.heads[branch]]);
      ok := true;
      if !reliable {
        if * { return false; }
      }
    }

    /**
     * One merge job, given the compile job's result. Undisturbed, it asks for the merge
     * exactly when the branch is there and unmerged. It reports success only when it left
     * everything as it was or merged the branch.
     */
    method MergeJob(c: CompileResult) returns (ok: bool)
      modifies this
      ensures c.status != "ok" || c.branch in {"", "main"} ==> ok && git == old(git)
      ensures reliable && c.status == "ok" && c.branch !in {"", "main"} ==>
        var heads := old(git).heads;
        && ok
        && (if c.branch in heads && "main" in heads
               && (heads[c.branch] != heads["main"] || heads[c.branch] == "" || heads["main"] == "") then
              git.requests == old(git).requests + [c.branch] && git.heads == heads["main" := heads[c.branch]]
            else git == old(git))
      ensures ok ==>
        || git == old(git)
        || (git.requests == old(git).requests + [c.branch]
            && c.branch in old(git).heads && git.heads == old(git).heads["main" := old(git).heads[c.branch]])
      ensures !ok ==>
        || git == old(git)
        || (git.requests == old(git).requests + [c.branch]
            && (git.heads == old(git).heads
                || (c.branch in old(git).heads && git.heads == old(git).heads["main" := old(git).heads[c.branch]])))
      ensures reliable ==> ok && git == AfterJob(old(git), c)
    {
      NotFoundIsSkipped();
      if c.branch == "" || c.branch == MAIN { return true; }
      if c.status != "ok" { return true; }
      var feature := Head(c.branch);
      if feature.CutOff? { return false; }
      var verdict := if feature.Refused? then AfterRefusal(feature.text) else Proceed;
      if feature.Read? {
        var main := Head(MAIN);
        if main.CutOff? { return false; }
        verdict := if main.Refused? then AfterRefusal(main.text) else Compare(feature.commit, main.commit);
      }
      if verdict.Skip? { return true; }
      ok := PostMerge(c.branch);
    }
  }

  datatype Reading = Read(commit: string) | Refused(text: string) | CutOff

  datatype Verdict = Skip | Proceed

  const NOT_FOUND := "404"

  /** A failed read counts as "already merged and deleted" when its text mentions 404. */
  function AfterRefusal(text: string): Verdict {
    if Matcher.Contains(text, NOT_FOUND) then Skip else Proceed
  }

  lemma RefusalMeans(text: string)
    ensures AfterRefusal(text) == Skip <==> Matcher.Within(text, "404")
  {
    Matcher.ContainsWithin(text, "404");
  }

  lemma NotFoundIsSkipped()
    ensures AfterRefusal(NOT_FOUND) == Skip
  {
    assert Matcher.OccursAt(NOT_FOUND, NOT_FOUND, 0);
  }

  function Compare(feature: string, main: string): Verdict {
    if feature != "" && main != "" && feature == main then Skip else Proceed
  }

  function AfterJob(g: Git, c: CompileResult): Git {
    if Eligible(c) && Unmerged(g, c.branch) then Merged(g, c.branch) else g
  }

  function AfterJobs(g: Git, n: nat, c: CompileResult): Git {
    if n == 0 then g else AfterJob(AfterJobs(g, n - 1, c), c)
  }

  /** However many jobs run for one branch, one after the other, the merge is asked for once. */
  lemma {:induction false} RepeatedJobsMergeOnce(g: Git, n: nat, c: CompileResult)
    requires n > 0 && (c.branch in g.heads ==> g.heads[c.branch] != "")
    ensures AfterJobs(g, n, c) == AfterJob(g, c)
    ensures |AfterJobs(g, n, c).requests| <= |g.requests| + 1
    ensures Eligible(c) ==> !Unmerged(AfterJobs(g, n, c), c.branch)
  {
    if n == 1 { assert AfterJobs(g, 0, c) == g; } else { RepeatedJobsMergeOnce(g, n - 1, c); }
  }

  // ---------- jobs for one branch that overlap ----------

  /** Where a job stands between two requests. */
  datatype Phase = ReadFeature | ReadMain(feature: string) | Posting | Ended

  /** How a request goes: truly answered, answered without a head, refused, or cut off before or after its effect. */
  datatype Reply = Truth | Blank | Refusal(text: string) | Cut | CutAfter

  /** `head` is the feature branch's, for as long as the branch is present. */
  datatype State = State(head: string, present: bool, main: string, jobs: seq<Phase>, requests: nat, moves: nat)

  datatype Action = Spawn | Step(n: nat, reply: Reply) | DeleteBranch

  function Decided(v: Verdict): Phase { if v.Skip? then Ended else Posting }

  function JobStep(s: State, p: Phase, r: Reply): Phase {
    if p.Posting? || r.Cut? || r.CutAfter? then Ended
    else if r.Refusal? then Decided(AfterRefusal(r.text))
    else match p
      case ReadFeature => if !s.present then Decided(AfterRefusal(NOT_FOUND)) else ReadMain(if r.Blank? then "" else s.head)
      case ReadMain(feature) => Decided(Compare(feature, if r.Blank? then "" else s.main))
      case _ => p
  }

  function Next(s: State, a: Action): State {
    match a
    case Spawn => s.(jobs := s.jobs + [ReadFeature])
    case DeleteBranch => s.(present := false)
    case Step(n, r) =>
      if n >= |s.jobs| || s.jobs[n].Ended? then s
      else
        var s' := s.(jobs := s.jobs[n := JobStep(s, s.jobs[n], r)]);
        if !s.jobs[n].Posting? then s'
        else if s.present && (r.Truth? || r.CutAfter?) then
          s'.(requests := s.requests + 1, main := s.head, moves := if s.main == s.head then s.moves else s.moves + 1)
        else s'.(requests := s.requests + 1)
  }

  function After(s: State, actions: seq<Action>): State {
    if actions == [] then s else Next(After(s, actions[..|actions| - 1]), actions[|actions| - 1])
  }

  function Init(head: string, main: string): State { State(head, true, main, [], 0, 0) }

  /** In every interleaving, whatever fails, the main branch moves at most once, and then to the feature's head. */
  lemma {:induction false} MainMovesAtMostOnce(head: string, main: string, actions: seq<Action>)
    ensures var s := After(Init(head, main), actions);
      s.head == head && s.moves == (if s.main == main then 0 else 1) && s.main in {main, head}
  {
    if actions != [] { MainMovesAtMostOnce(head, main, actions[..|actions| - 1]); }
  }

  /** The step of a job that is not over yet. */
  predicate Works(s: State, a: Action) { a.Step? && a.n < |s.jobs| && !s.jobs[a.n].Ended? }

  /** The step merges: a merge request takes effect. */
  predicate Merges(s: State, a: Action) {
    Works(s, a) && s.jobs[a.n].Posting? && s.present && (a.reply.Truth? || a.reply.CutAfter?)
  }

  /**
   * While main is not at the feature's head, the step gives the merge up: a merge request
   * without effect, a read cut off, a read refused with a text that mentions 404, or a read
   * of a deleted branch.
   */
  predicate GivesUp(s: State, a: Action) {
    && s.main != s.head && Works(s, a)
    && if s.jobs[a.n].Posting? then !Merges(s, a)
       else
         || a.reply.Cut? || a.reply.CutAfter?
         || (a.reply.Refusal? && Matcher.Contains(a.reply.text, NOT_FOUND))
         || (s.jobs[a.n].ReadFeature? && !s.present && !a.reply.Refusal?)
  }

  /** What a job has read of the feature's head is that head, or nothing. */
  ghost predicate ReadsHold(s: State) {
    forall i | 0 <= i < |s.jobs| && s.jobs[i].ReadMain? :: s.jobs[i].feature in {"", s.head}
  }

  /** No job has ended and left the branch unmerged. */
  ghost predicate NoneLost(s: State) {
    forall i | 0 <= i < |s.jobs| && s.jobs[i].Ended? :: s.main == s.head
  }

  /** One step: it merges exactly if its request takes effect, and loses the merge exactly if it gives up. */
  lemma StepMergesIff(s: State, a: Action)
    requires ReadsHold(s)
    ensures ReadsHold(Next(s, a)) && Next(s, a).head == s.head
    ensures Next(s, a).main == s.head <==> s.main == s.head || Merges(s, a)
    ensures NoneLost(s) ==> (NoneLost(Next(s, a)) <==> !GivesUp(s, a))
  {
    NotFoundIsSkipped();
    if a.Step? && a.n < |s.jobs| {
      var s' := Next(s, a);
      assert forall i | 0 <= i < |s.jobs| && i != a.n :: s'.jobs[i] == s.jobs[i];
      assert GivesUp(s, a) ==> s'.jobs[a.n].Ended?;
    }
  }

  /** At no point of the run has a job ended and left the branch unmerged. */
  ghost predicate NeverLost(s: State, actions: seq<Action>) {
    forall k | 0 <= k <= |actions| :: NoneLost(After(s, actions[..k]))
  }

  ghost predicate NoneGivesUp(s: State, actions: seq<Action>) {
    forall k | 0 <= k < |actions| :: !GivesUp(After(s, actions[..k]), actions[k])
  }

  ghost predicate SomeMerges(s: State, actions: seq<Action>) {
    exists k | 0 <= k < |actions| :: Merges(After(s, actions[..k]), actions[k])
  }

  /** A run's properties from those of the run without its last action. */
  lemma LastAction(s: State, actions: seq<Action>)
    requires actions != []
    ensures var head, last := actions[..|actions| - 1], actions[|actions| - 1];
      && (NeverLost(s, actions) <==> NeverLost(s, head) && NoneLost(After(s, actions)))
      && (NoneGivesUp(s, actions) <==> NoneGivesUp(s, head) && !GivesUp(After(s, head), last))
      && (SomeMerges(s, actions) <==> SomeMerges(s, head) || Merges(After(s, head), last))
  {
    hide After;
    hide NoneLost;
    hide GivesUp;
    hide Merges;
    var n := |actions| - 1;
    assert actions[..n + 1] == actions;
    assert forall k | 0 <= k <= n :: actions[..n][..k] == actions[..k];
    assert forall k | 0 <= k < n :: actions[..n][k] == actions[k];
    if NeverLost(s, actions[..n]) && NoneLost(After(s, actions)) {
      forall k | 0 <= k <= n + 1 ensures NoneLost(After(s, actions[..k])) {
        if k <= n { assert actions[..n][..k] == actions[..k]; }
      }
    }
    if NeverLost(s, actions) {
      forall k | 0 <= k <= n ensures NoneLost(After(s, actions[..n][..k])) { assert actions[..n][..k] == actions[..k]; }
      assert NoneLost(After(s, actions[..n + 1]));
    }
  }

  /**
   * Over every run, with any failures and deletions: the branch is merged if and only if some
   * request took effect, and no job ever ends with the branch unmerged if and only if no step
   * gives the merge up.
   */
  lemma {:induction false} MergeIsNotLost(head: string, main: string, actions: seq<Action>)
    ensures var init := Init(head, main);
      && ReadsHold(After(init, actions))
      && (After(init, actions).main == head <==> main == head || SomeMerges(init, actions))
      && (NeverLost(init, actions) <==> NoneGivesUp(init, actions))
  {
    if actions != [] {
      hide GivesUp;
      hide Merges;
      var n := |actions| - 1;
      MergeIsNotLost(head, main, actions[..n]);
      MainMovesAtMostOnce(head, main, actions[..n]);
      LastAction(Init(head, main), actions);
      assert actions[..n][..n] == actions[..n];
      StepMergesIff(After(Init(head, main), actions[..n]), actions[n]);
    }
  }

  /** A head read cut off without an HTTP status ends the job unmerged. */
  lemma CutReadLosesMerge(head: string, main: string)
    requires head != main
    ensures var s := After(Init(head, main), [Spawn, Step(0, Cut)]);
      s.jobs == [Ended] && s.requests == 0 && s.main != head
  {
    var actions := [Spawn, Step(0, Cut)];
    assert actions[..1] == [Spawn] && actions[..1][..0] == [];
    assert After(Init(head, main), actions[..1]) == Next(Init(head, main), Spawn);
  }

  /** A server error for a branch whose name mentions 404 is taken for a missing branch. */
  lemma ServerErrorTakenForMissing(head: string, main: string)
    requires head != main
    ensures var text := "GET /branches/404-page: 500";
      var s := After(Init(head, main), [Spawn, Step(0, Refusal(text))]);
      s.jobs == [Ended] && s.requests == 0 && s.main != head
  {
    var text := "GET /branches/404-page: 500";
    assert Matcher.OccursAt(text, NOT_FOUND, 14);
    var actions := [Spawn, Step(0, Refusal(text))];
    assert actions[..1] == [Spawn] && actions[..1][..0] == [];
    assert After(Init(head, main), actions[..1]) == Next(Init(head, main), Spawn);
  }

  /** The job will ask for the merge whatever it still reads. */
  predicate Committed(s: State, p: Phase) { p.Posting? || (p.ReadMain? && p.feature != s.head) }

  ghost predicate NoneCommitted(s: State) {
    forall i | 0 <= i < |s.jobs| :: !Committed(s, s.jobs[i])
  }

  /** Every request is answered in one of the allowed ways. */
  ghost predicate Obeys(actions: seq<Action>, allowed: Reply -> bool) {
    forall i | 0 <= i < |actions| :: actions[i].Step? ==> allowed(actions[i].reply)
  }

  /** The reply, to a head read of a merged branch, makes the job ask for the merge. */
  predicate Misleads(s: State, r: Reply) {
    || (r.Refusal? && !Matcher.Contains(r.text, NOT_FOUND))
    || (r.Blank? && (s.present || exists i | 0 <= i < |s.jobs| :: s.jobs[i].ReadMain?))
  }

  /** Nothing under way is committed to asking, and no allowed reply can mislead. */
  ghost predicate Idle(s: State, allowed: Reply -> bool) {
    && s.head != "" && s.main == s.head && NoneCommitted(s)
    && forall r | allowed(r) :: !Misleads(s, r)
  }

  lemma IdleNext(s: State, a: Action, allowed: Reply -> bool)
    requires Idle(s, allowed) && (a.Step? ==> allowed(a.reply))
    ensures Idle(Next(s, a), allowed) && Next(s, a).requests == s.requests
  {
    NotFoundIsSkipped();
    var s' := Next(s, a);
    forall r | allowed(r) ensures !Misleads(s', r) {
      assert !Misleads(s, r);
      if i :| 0 <= i < |s'.jobs| && s'.jobs[i].ReadMain? {
        assert s.present || (i < |s.jobs| && s.jobs[i].ReadMain?);
      }
    }
  }

  lemma {:induction false} IdleStays(s: State, actions: seq<Action>, allowed: Reply -> bool)
    requires Idle(s, allowed) && Obeys(actions, allowed)
    ensures Idle(After(s, actions), allowed) && After(s, actions).requests == s.requests
  {
    if actions != [] {
      IdleStays(s, actions[..|actions| - 1], allowed);
      IdleNext(After(s, actions[..|actions| - 1]), actions[|actions| - 1], allowed);
    }
  }

  /** A committed job, answered truly, asks. */
  lemma CommittedAsks(s: State, past: seq<Action>, n: nat, allowed: Reply -> bool) returns (actions: seq<Action>)
    requires allowed(Truth) && Obeys(past, allowed)
    requires var t := After(s, past); n < |t.jobs| && Committed(t, t.jobs[n]) && t.main == t.head
    ensures Obeys(actions, allowed) && After(s, actions).requests == After(s, past).requests + 1
  {
    var step := Step(n, Truth);
    Extend(s, past, step);
    actions := past + [step];
    if After(s, past).jobs[n].ReadMain? {
      Extend(s, actions, step);
      actions := actions + [step];
    }
  }

  /** A job misled, a new one or one that has yet to read main, is committed. */
  lemma MisledCommits(s: State, r: Reply, allowed: Reply -> bool) returns (actions: seq<Action>, n: nat)
    requires allowed(r) && allowed(Truth) && Misleads(s, r) && s.head != "" && s.main == s.head
    ensures Obeys(actions, allowed)
    ensures var t := After(s, actions); n < |t.jobs| && Committed(t, t.jobs[n]) && t.main == t.head && t.requests == s.requests
  {
    Extend(s, [], Spawn);
    Extend(s, [], Step(0, r));
    if r.Refusal? || s.present {
      n := |s.jobs|;
      Extend(s, [Spawn], Step(n, r));
      assert [] + [Spawn] == [Spawn];
      actions := [Spawn] + [Step(n, r)];
    } else {
      var i :| 0 <= i < |s.jobs| && s.jobs[i].ReadMain?;
      n := i;
      Extend(s, [], Step(n, r));
      actions := [] + [Step(n, r)];
    }
  }

  /**
   * Once merged, the merge is never asked for again in any continuation whose requests are
   * answered in the allowed ways, true answers among them, with any number of new jobs, if and
   * only if no job under way is committed to asking and no allowed reply misleads one.
   */
  lemma MergedIsFinalIff(s: State, allowed: Reply -> bool)
    requires s.head != "" && s.main == s.head && allowed(Truth)
    ensures (forall actions | Obeys(actions, allowed) :: After(s, actions).requests == s.requests)
       <==> NoneCommitted(s) && forall r | allowed(r) :: !Misleads(s, r)
  {
    if Idle(s, allowed) {
      forall actions | Obeys(actions, allowed) ensures After(s, actions).requests == s.requests {
        IdleStays(s, actions, allowed);
      }
    } else {
      var past, n := [], 0;
      assert After(s, []) == s;
      if r :| allowed(r) && Misleads(s, r) {
        past, n := MisledCommits(s, r, allowed);
      } else {
        n :| 0 <= n < |s.jobs| && Committed(s, s.jobs[n]);
      }
      var actions := CommittedAsks(s, past, n, allowed);
      assert After(s, actions).requests != s.requests;
    }
  }

  ghost predicate Quiet(actions: seq<Action>) { Obeys(actions, (r: Reply) => r.Truth?) }

  lemma Extend(s: State, actions: seq<Action>, a: Action)
    ensures After(s, actions + [a]) == Next(After(s, actions), a)
  {
    assert (actions + [a])[..|actions|] == actions;
  }

  /** Two more steps of one job. */
  lemma ExtendTwice(s: State, actions: seq<Action>, a: Action, b: Action)
    ensures After(s, actions + [a] + [b]) == Next(Next(After(s, actions), a), b)
  {
    Extend(s, actions, a);
    Extend(s, actions + [a], b);
  }

  /** Reading both heads of an unmerged branch commits a job to asking. */
  lemma ReadsCommit(s: State, n: nat)
    requires n < |s.jobs| && s.jobs[n] == ReadFeature && s.present && s.head != s.main
    ensures Next(Next(s, Step(n, Truth)), Step(n, Truth)) == s.(jobs := s.jobs[n := Posting])
  {}

  /** Two overlapping jobs ask twice although no request fails; the second moves nothing. */
  lemma OverlappingJobsAskTwice(head: string, main: string) returns (actions: seq<Action>)
    requires head != main
    ensures Quiet(actions) && After(Init(head, main), actions).requests == 2 && After(Init(head, main), actions).moves == 1
  {
    var s, first, second := Init(head, main), Step(0, Truth), Step(1, Truth);
    ExtendTwice(s, [], Spawn, Spawn);
    actions := [] + [Spawn] + [Spawn];
    assert After(s, actions).jobs == [ReadFeature, ReadFeature];
    ReadsCommit(After(s, actions), 0);
    ExtendTwice(s, actions, first, first);
    actions := actions + [first] + [first];
    ReadsCommit(After(s, actions), 1);
    ExtendTwice(s, actions, second, second);
    actions := actions + [second] + [second];
    assert After(s, actions) == s.(jobs := [Posting, Posting]);
    ExtendTwice(s, actions, first, second);
    actions := actions + [first] + [second];
  }
}
