/** `kubectl neo4j diagnose` on a backup: the verdict is the Jobs' own, and a finished attempt cannot outvote it. */
module BackupVerdict {

  datatype Mark = Problem | Waiting | Warning | Pass

  datatype Symptom = Symptom(mark: Mark, subject: string, what: string)

  type Labels = map<string, string>

  datatype ConditionType = JobFailed | JobComplete | OtherCondition

  datatype Condition = Condition(kind: ConditionType, isTrue: bool)

  /** `failed` counts failed pod attempts, `succeeded` finished pods. */
  datatype Job = Job(name: string, conditions: seq<Condition>, failed: int, succeeded: int)

  datatype Owner = Owner(kind: string, name: string, controller: bool)

  datatype Pod = Pod(name: string, labels: Labels, owners: seq<Owner>, failed: bool)

  /** diagnosePod: what a pod's own conditions and containers show. Nothing below depends on which function it is. */
  type Findings = Pod -> seq<Symptom>

  datatype Outcome = InProgress | Succeeded | Failed

  const JOB_NAME_LABEL := "batch.kubernetes.io/job-name"

  predicate HasProblem(symptoms: seq<Symptom>) {
    exists i :: 0 <= i < |symptoms| && symptoms[i].mark == Problem
  }

  predicate HasCondition(j: Job, kind: ConditionType) {
    exists i :: 0 <= i < |j.conditions| && j.conditions[i] == Condition(kind, true)
  }

  method BackupJobOutcome(j: Job) returns (outcome: Outcome)
    ensures outcome == OutcomeOf(j)
  {
    for i := 0 to |j.conditions|
      invariant forall k :: 0 <= k < i ==> j.conditions[k] != Condition(JobFailed, true)
    {
      if j.conditions[i].kind == JobFailed && j.conditions[i].isTrue { return Failed; }
    }
    for i := 0 to |j.conditions|
      invariant forall k :: 0 <= k < i ==> j.conditions[k] != Condition(JobComplete, true)
    {
      if j.conditions[i].kind == JobComplete && j.conditions[i].isTrue { return Succeeded; }
    }
    return if j.succeeded > 0 then Succeeded else InProgress;
  }

  /** A true Failed condition decides first; failed attempts never do. */
  function OutcomeOf(j: Job): Outcome {
    if HasCondition(j, JobFailed) then Failed
    else if HasCondition(j, JobComplete) || j.succeeded > 0 then Succeeded
    else InProgress
  }

  /** The Job a pod belongs to: by its label, else by its controlling owner, else none. */
  function JobNameOf(p: Pod): string {
    if JOB_NAME_LABEL in p.labels && p.labels[JOB_NAME_LABEL] != "" then p.labels[JOB_NAME_LABEL]
    else OwnerJob(p.owners)
  }

  predicate IsController(o: Owner) {
    o.kind == "Job" && o.controller
  }

  /** The first owner that is a controlling Job. */
  function OwnerJob(owners: seq<Owner>): (name: string)
    ensures (forall i :: 0 <= i < |owners| ==> !IsController(owners[i])) ==> name == ""
    ensures (exists i :: 0 <= i < |owners| && IsController(owners[i])) ==>
      exists i :: 0 <= i < |owners| && IsController(owners[i]) && owners[i].name == name && forall k :: 0 <= k < i ==> !IsController(owners[k])
  {
    if owners == [] then ""
    else if IsController(owners[0]) then owners[0].name
    else
      var rest := owners[1..];
      assert forall i :: 0 < i < |owners| ==> owners[i] == rest[i - 1];
      OwnerJob(rest)
  }

  /** The outcome of each listed Job, by name; of two Jobs with one name the later counts. */
  function Outcomes(jobs: seq<Job>): map<string, Outcome> {
    if jobs == [] then map[]
    else Outcomes(jobs[..|jobs| - 1])[jobs[|jobs| - 1].name := OutcomeOf(jobs[|jobs| - 1])]
  }

  /** A finished attempt of a listed Job that has not failed. */
  predicate Superseded(p: Pod, outcomes: map<string, Outcome>) {
    p.failed && JobNameOf(p) in outcomes && outcomes[JobNameOf(p)] != Failed
  }

  function Softened(s: Symptom, outcome: Outcome): Symptom {
    if s.mark == Problem then s.(mark := if outcome == Succeeded then Warning else Waiting) else s
  }

  /** The findings of a pod, softened when the pod is a superseded attempt. */
  function Capped(p: Pod, symptoms: seq<Symptom>, outcomes: map<string, Outcome>): (r: seq<Symptom>)
    ensures |r| == |symptoms|
    ensures HasProblem(r) <==> !Superseded(p, outcomes) && HasProblem(symptoms)
  {
    if Superseded(p, outcomes)
    then seq(|symptoms|, i requires 0 <= i < |symptoms| => Softened(symptoms[i], outcomes[JobNameOf(p)]))
    else symptoms
  }

  method CapFinishedAttempt(p: Pod, symptoms: seq<Symptom>, outcomes: map<string, Outcome>) returns (r: seq<Symptom>)
    ensures r == Capped(p, symptoms, outcomes)
  {
    if !p.failed || JobNameOf(p) !in outcomes || outcomes[JobNameOf(p)] == Failed {
      return symptoms;
    }
    var softened := if outcomes[JobNameOf(p)] == Succeeded then Warning else Waiting;
    r := [];
    for i := 0 to |symptoms|
      invariant |r| == i && forall k :: 0 <= k < i ==> r[k] == Softened(symptoms[k], outcomes[JobNameOf(p)])
    {
      var s := symptoms[i];
      if s.mark == Problem { s := s.(mark := softened); }
      r := r + [s];
    }
  }

  /** An empty selector matches nothing. */
  predicate MatchesLabels(labels: Labels, selector: Labels) {
    |selector| > 0 && forall k :: k in selector ==> (if k in labels then labels[k] else "") == selector[k]
  }

  /** A pod of the backup, not a superseded attempt, that shows a problem. */
  predicate Counts(findings: Findings, selector: Labels, outcomes: map<string, Outcome>, p: Pod) {
    MatchesLabels(p.labels, selector) && !Superseded(p, outcomes) && HasProblem(findings(p))
  }

  predicate PodProblem(findings: Findings, selector: Labels, outcomes: map<string, Outcome>, pods: seq<Pod>) {
    exists i :: 0 <= i < |pods| && Counts(findings, selector, outcomes, pods[i])
  }

  predicate JobProblem(jobs: seq<Job>) {
    exists i :: 0 <= i < |jobs| && OutcomeOf(jobs[i]) == Failed
  }

  /** The backup has a problem: one of its Jobs failed, or a pod that still counts shows one. */
  predicate BackupProblem(findings: Findings, selector: Labels, jobs: seq<Job>, pods: seq<Pod>) {
    jobs != [] && (JobProblem(jobs) || PodProblem(findings, selector, Outcomes(jobs), pods))
  }

  function Count(jobs: seq<Job>, outcome: Outcome): nat {
    if jobs == [] then 0
    else Count(jobs[..|jobs| - 1], outcome) + if OutcomeOf(jobs[|jobs| - 1]) == outcome then 1 else 0
  }

  lemma {:induction false} CountsAddUp(jobs: seq<Job>)
    ensures Count(jobs, Succeeded) + Count(jobs, Failed) + Count(jobs, InProgress) == |jobs|
    decreases |jobs|
  {
    if jobs != [] { CountsAddUp(jobs[..|jobs| - 1]); }
  }

  /** What one Job contributes; only a failed one is a problem. */
  function JobSymptoms(j: Job): (r: seq<Symptom>)
    ensures HasProblem(r) <==> OutcomeOf(j) == Failed
  {
    match OutcomeOf(j)
    case Failed =>
      var r := [Symptom(Problem, "job " + j.name, if j.failed > 0 then "failed after pod failures" else "failed")];
      assert r[0].mark == Problem;
      r
    case Succeeded => if j.failed > 0 then [Symptom(Warning, "job " + j.name, "succeeded after failed attempts")] else []
    case InProgress => if j.failed > 0 then [Symptom(Waiting, "job " + j.name, "is retrying after failed attempts")] else []
  }

  function AllJobSymptoms(jobs: seq<Job>): seq<Symptom> {
    if jobs == [] then [] else AllJobSymptoms(jobs[..|jobs| - 1]) + JobSymptoms(jobs[|jobs| - 1])
  }

  function AllPodSymptoms(findings: Findings, selector: Labels, outcomes: map<string, Outcome>, pods: seq<Pod>): seq<Symptom> {
    if pods == [] then []
    else
      var last := pods[|pods| - 1];
      AllPodSymptoms(findings, selector, outcomes, pods[..|pods| - 1])
        + if MatchesLabels(last.labels, selector) then Capped(last, findings(last), outcomes) else []
  }

  /** Everything reported about the backup. */
  function Reported(findings: Findings, selector: Labels, jobs: seq<Job>, pods: seq<Pod>): seq<Symptom> {
    if jobs == [] then [] else AllJobSymptoms(jobs) + AllPodSymptoms(findings, selector, Outcomes(jobs), pods)
  }

  method DiagnoseJobs(jobs: seq<Job>)
    returns (succeeded: nat, failed: nat, running: nat, outcomes: map<string, Outcome>, symptoms: seq<Symptom>)
    ensures succeeded == Count(jobs, Succeeded) && failed == Count(jobs, Failed) && running == Count(jobs, InProgress)
    ensures outcomes == Outcomes(jobs) && symptoms == AllJobSymptoms(jobs)
  {
    succeeded, failed, running, outcomes, symptoms := 0, 0, 0, map[], [];
    for i := 0 to |jobs|
      invariant outcomes == Outcomes(jobs[..i]) && symptoms == AllJobSymptoms(jobs[..i])
      invariant succeeded == Count(jobs[..i], Succeeded) && failed == Count(jobs[..i], Failed)
      invariant running == Count(jobs[..i], InProgress)
    {
      var j := jobs[i];
      assert jobs[..i + 1][..i] == jobs[..i];
      var outcome := BackupJobOutcome(j);
      outcomes := outcomes[j.name := outcome];
      match outcome {
        case Failed => failed := failed + 1;
        case Succeeded => succeeded := succeeded + 1;
        case InProgress => running := running + 1;
      }
      symptoms := symptoms + JobSymptoms(j);
    }
    assert jobs[..|jobs|] == jobs;
  }

  method DiagnosePods(findings: Findings, selector: Labels, outcomes: map<string, Outcome>, pods: seq<Pod>)
    returns (symptoms: seq<Symptom>)
    ensures symptoms == AllPodSymptoms(findings, selector, outcomes, pods)
  {
    symptoms := [];
    for i := 0 to |pods|
      invariant symptoms == AllPodSymptoms(findings, selector, outcomes, pods[..i])
    {
      var p := pods[i];
      assert pods[..i + 1][..i] == pods[..i];
      if MatchesLabels(p.labels, selector) {
        var capped := CapFinishedAttempt(p, findings(p), outcomes);
        symptoms := symptoms + capped;
      }
    }
    assert pods[..|pods|] == pods;
  }

  method DiagnoseBackup(findings: Findings, selector: Labels, jobs: seq<Job>, pods: seq<Pod>)
    returns (succeeded: nat, failed: nat, running: nat, symptoms: seq<Symptom>)
    ensures symptoms == Reported(findings, selector, jobs, pods)
    ensures HasProblem(symptoms) <==> BackupProblem(findings, selector, jobs, pods)
    ensures succeeded == Count(jobs, Succeeded) && failed == Count(jobs, Failed) && running == Count(jobs, InProgress)
    ensures succeeded + failed + running == |jobs|
  {
    CountsAddUp(jobs);
    ProblemIff(findings, selector, jobs, pods);
    if |jobs| == 0 {
      return 0, 0, 0, [];
    }
    var outcomes, podSymptoms;
    succeeded, failed, running, outcomes, symptoms := DiagnoseJobs(jobs);
    podSymptoms := DiagnosePods(findings, selector, outcomes, pods);
    symptoms := symptoms + podSymptoms;
  }

  lemma {:induction false} JobProblemIff(jobs: seq<Job>)
    ensures HasProblem(AllJobSymptoms(jobs)) <==> JobProblem(jobs)
    decreases |jobs|
  {
    if jobs != [] {
      var n := |jobs| - 1;
      JobProblemIff(jobs[..n]);
      ProblemAppend(AllJobSymptoms(jobs[..n]), JobSymptoms(jobs[n]));
      JobProblemStep(jobs, n);
      assert jobs[..n + 1] == jobs;
    }
  }

  lemma {:induction false} PodProblemIff(findings: Findings, selector: Labels, outcomes: map<string, Outcome>, pods: seq<Pod>)
    ensures HasProblem(AllPodSymptoms(findings, selector, outcomes, pods)) <==> PodProblem(findings, selector, outcomes, pods)
    decreases |pods|
  {
    if pods != [] {
      var n := |pods| - 1;
      PodProblemIff(findings, selector, outcomes, pods[..n]);
      var front := AllPodSymptoms(findings, selector, outcomes, pods[..n]);
      ProblemAppend(front, Capped(pods[n], findings(pods[n]), outcomes));
      assert front + [] == front;
      PodProblemStep(findings, selector, outcomes, pods, n);
      assert pods[..n + 1] == pods;
    }
  }

  /** The report shows a problem exactly when a Job failed or a pod that still counts shows one. */
  lemma ProblemIff(findings: Findings, selector: Labels, jobs: seq<Job>, pods: seq<Pod>)
    ensures HasProblem(Reported(findings, selector, jobs, pods)) <==> BackupProblem(findings, selector, jobs, pods)
  {
    JobProblemIff(jobs);
    PodProblemIff(findings, selector, Outcomes(jobs), pods);
    ProblemAppend(AllJobSymptoms(jobs), AllPodSymptoms(findings, selector, Outcomes(jobs), pods));
  }

  lemma ProblemAppend(a: seq<Symptom>, b: seq<Symptom>)
    ensures HasProblem(a + b) <==> HasProblem(a) || HasProblem(b)
  {
    assert forall i :: 0 <= i < |a| ==> (a + b)[i] == a[i];
    assert forall i :: 0 <= i < |b| ==> (a + b)[|a| + i] == b[i];
  }

  lemma JobProblemStep(jobs: seq<Job>, i: nat)
    requires i < |jobs|
    ensures JobProblem(jobs[..i + 1]) <==> JobProblem(jobs[..i]) || OutcomeOf(jobs[i]) == Failed
  {
    var more, fewer := jobs[..i + 1], jobs[..i];
    assert more[i] == jobs[i] && forall k :: 0 <= k < i ==> more[k] == fewer[k];
  }

  lemma PodProblemStep(findings: Findings, selector: Labels, outcomes: map<string, Outcome>, pods: seq<Pod>, i: nat)
    requires i < |pods|
    ensures PodProblem(findings, selector, outcomes, pods[..i + 1])
      <==> PodProblem(findings, selector, outcomes, pods[..i]) || Counts(findings, selector, outcomes, pods[i])
  {
    var more, fewer := pods[..i + 1], pods[..i];
    assert more[i] == pods[i] && forall k :: 0 <= k < i ==> more[k] == fewer[k];
  }

  // ---- Non-interference ----

  /** The pods that are not superseded attempts. */
  function Standing(pods: seq<Pod>, outcomes: map<string, Outcome>): seq<Pod> {
    if pods == [] then []
    else
      var last := pods[|pods| - 1];
      Standing(pods[..|pods| - 1], outcomes) + if Superseded(last, outcomes) then [] else [last]
  }

  lemma {:induction false} OnlyStandingCount(findings: Findings, selector: Labels, outcomes: map<string, Outcome>, pods: seq<Pod>)
    ensures PodProblem(findings, selector, outcomes, pods)
      <==> PodProblem(findings, selector, outcomes, Standing(pods, outcomes))
    decreases |pods|
  {
    if pods != [] {
      var n := |pods| - 1;
      OnlyStandingCount(findings, selector, outcomes, pods[..n]);
      PodProblemStep(findings, selector, outcomes, pods, n);
      assert pods[..n + 1] == pods;
      if !Superseded(pods[n], outcomes) {
        var standing := Standing(pods, outcomes);
        assert standing[..|standing| - 1] == Standing(pods[..n], outcomes) && standing[..|standing|] == standing;
        PodProblemStep(findings, selector, outcomes, standing, |standing| - 1);
      }
    }
  }

  /**
    Two lists of pods that agree on the pods standing are reported with the same verdict:
    failed attempts of a Job that has not failed can come and go unnoticed.
   */
  lemma SupersededPodsDoNotInterfere(findings: Findings, selector: Labels, jobs: seq<Job>, pods: seq<Pod>, pods': seq<Pod>)
    requires Standing(pods, Outcomes(jobs)) == Standing(pods', Outcomes(jobs))
    ensures HasProblem(Reported(findings, selector, jobs, pods)) <==> HasProblem(Reported(findings, selector, jobs, pods'))
  {
    ProblemIff(findings, selector, jobs, pods);
    ProblemIff(findings, selector, jobs, pods');
    OnlyStandingCount(findings, selector, Outcomes(jobs), pods);
    OnlyStandingCount(findings, selector, Outcomes(jobs), pods');
  }

  // ---- In terms of the Jobs and pods themselves ----

  /** A Job has failed exactly when a Failed condition says so, and else succeeded when Complete does or a pod finished. */
  lemma OutcomeIff(j: Job)
    ensures OutcomeOf(j) == Failed <==> Condition(JobFailed, true) in j.conditions
    ensures OutcomeOf(j) == Succeeded <==>
      Condition(JobFailed, true) !in j.conditions && (Condition(JobComplete, true) in j.conditions || j.succeeded > 0)
  {
  }

  /** Failed attempts never decide, however many there were. */
  lemma FailedAttemptsDoNotDecide(j: Job, failed: int)
    ensures OutcomeOf(j.(failed := failed)) == OutcomeOf(j)
  {
    OutcomeIff(j);
    OutcomeIff(j.(failed := failed));
  }

  /** The Job of a pod: named by its label, or without one by the first owner that is a controlling Job. */
  predicate RunsFor(p: Pod, job: string) {
    if "batch.kubernetes.io/job-name" in p.labels && p.labels["batch.kubernetes.io/job-name"] != ""
    then p.labels["batch.kubernetes.io/job-name"] == job
    else exists i :: 0 <= i < |p.owners| && p.owners[i] == Owner("Job", job, true)
           && forall k :: 0 <= k < i ==> p.owners[k].kind != "Job" || !p.owners[k].controller
  }

  lemma RunsForIff(p: Pod, job: string)
    requires job != ""
    ensures RunsFor(p, job) <==> JobNameOf(p) == job
  {
  }

  /** The pod carries every label of the selector, which has some. */
  lemma MatchesLabelsIff(labels: Labels, selector: Labels)
    requires forall k :: k in selector ==> selector[k] != ""
    ensures MatchesLabels(labels, selector) <==>
      selector != map[] && forall k :: k in selector ==> k in labels && labels[k] == selector[k]
  {
  }

  /** A failed pod whose Job is listed and has no true Failed condition; of Jobs with one name the last counts. */
  predicate Outvoted(jobs: seq<Job>, p: Pod) {
    p.failed && exists k :: 0 <= k < |jobs| && jobs[k].name == JobNameOf(p) && LastOfItsName(jobs, k)
                            && Condition(JobFailed, true) !in jobs[k].conditions
  }

  predicate LastOfItsName(jobs: seq<Job>, k: nat)
    requires k < |jobs|
  {
    forall i :: k < i < |jobs| ==> jobs[i].name != jobs[k].name
  }

  /** The outcome recorded under a name is that of the last Job of that name. */
  lemma {:induction false} OutcomeFrom(jobs: seq<Job>, name: string) returns (k: nat)
    requires name in Outcomes(jobs)
    ensures k < |jobs| && jobs[k].name == name && Outcomes(jobs)[name] == OutcomeOf(jobs[k]) && LastOfItsName(jobs, k)
    decreases |jobs|
  {
    k := |jobs| - 1;
    if jobs[k].name != name {
      k := OutcomeFrom(jobs[..|jobs| - 1], name);
    }
  }

  lemma {:induction false} OutcomeRecorded(jobs: seq<Job>, k: nat)
    requires k < |jobs|
    ensures jobs[k].name in Outcomes(jobs)
    decreases |jobs|
  {
    if k < |jobs| - 1 {
      OutcomeRecorded(jobs[..|jobs| - 1], k);
    }
  }

  lemma OutvotedIff(jobs: seq<Job>, p: Pod)
    ensures Superseded(p, Outcomes(jobs)) <==> Outvoted(jobs, p)
  {
    if Superseded(p, Outcomes(jobs)) {
      var k := OutcomeFrom(jobs, JobNameOf(p));
      OutcomeIff(jobs[k]);
    }
    if Outvoted(jobs, p) {
      var k :| 0 <= k < |jobs| && jobs[k].name == JobNameOf(p) && LastOfItsName(jobs, k)
               && Condition(JobFailed, true) !in jobs[k].conditions;
      OutcomeRecorded(jobs, k);
      var last := OutcomeFrom(jobs, JobNameOf(p));
      assert last == k;
      OutcomeIff(jobs[k]);
    }
  }

  /**
    The report shows a problem exactly when a Job has a true Failed condition, or
    a pod of the backup shows a problem and is not a failed pod whose Job is
    listed and has not failed.
   */
  lemma VerdictIff(findings: Findings, selector: Labels, jobs: seq<Job>, pods: seq<Pod>)
    ensures HasProblem(Reported(findings, selector, jobs, pods)) <==>
      jobs != [] &&
      (|| (exists k :: 0 <= k < |jobs| && Condition(JobFailed, true) in jobs[k].conditions)
       || (exists i :: 0 <= i < |pods| && MatchesLabels(pods[i].labels, selector) && HasProblem(findings(pods[i]))
             && !Outvoted(jobs, pods[i])))
  {
    ProblemIff(findings, selector, jobs, pods);
    forall k | 0 <= k < |jobs| ensures OutcomeOf(jobs[k]) == Failed <==> Condition(JobFailed, true) in jobs[k].conditions {
      OutcomeIff(jobs[k]);
    }
    forall i | 0 <= i < |pods| ensures Superseded(pods[i], Outcomes(jobs)) <==> Outvoted(jobs, pods[i]) {
      OutvotedIff(jobs, pods[i]);
    }
  }

  /** What is softened becomes a warning under a Job that succeeded and a note to wait under one in progress. */
  lemma SoftenedMarks(p: Pod, symptoms: seq<Symptom>, outcomes: map<string, Outcome>, i: nat)
    requires i < |symptoms|
    ensures var r := Capped(p, symptoms, outcomes)[i];
      && r == symptoms[i].(mark := r.mark)
      && (r.mark != symptoms[i].mark <==>
            symptoms[i].mark == Problem && p.failed && JobNameOf(p) in outcomes && outcomes[JobNameOf(p)] != Failed)
      && (r.mark != symptoms[i].mark ==> r.mark == if outcomes[JobNameOf(p)] == Succeeded then Warning else Waiting)
  {
  }

  /** What a Job contributes: nothing, or one symptom about it. */
  lemma JobSymptomsAre(j: Job)
    ensures JobSymptoms(j) == [] <==> OutcomeOf(j) != Failed && j.failed <= 0
    ensures JobSymptoms(j) != [] ==>
      && |JobSymptoms(j)| == 1 && JobSymptoms(j)[0].subject == "job " + j.name
      && JobSymptoms(j)[0].mark == match OutcomeOf(j)
           case Failed => Problem
           case Succeeded => Warning
           case InProgress => Waiting
  {
  }

  // ---- The exit code ----

  datatype ExitCode = ExitOK | ExitProblems

  /** renderDiagnosis; `results` are the symptoms of each resource. Quiet hides resources and never changes the exit code. */
  method RenderDiagnosis(results: seq<seq<Symptom>>, quiet: bool) returns (code: ExitCode)
    ensures code == ExitProblems <==> exists i :: 0 <= i < |results| && HasProblem(results[i])
  {
    var shown, problems := 0, 0;
    for i := 0 to |results|
      invariant 0 <= problems && 0 <= shown
      invariant problems > 0 <==> exists k :: 0 <= k < i && HasProblem(results[k])
      invariant problems > 0 ==> shown > 0
    {
      if HasProblem(results[i]) {
        problems := problems + 1;
      }
      if quiet && |results[i]| == 0 {
        continue;
      }
      shown := shown + 1;
    }
    if shown == 0 {
      return ExitOK;
    }
    return if problems > 0 then ExitProblems else ExitOK;
  }
}
