/** The two build pipelines as data. A profile is what a build function walks
    through: the status becomes processing, then a sequence of phases, each a
    milestone (new progress and step text) followed by external actions that
    may throw, then the completion (status completed, progress 100, download
    URL), then the cleanup actions. `Build` is the reference meaning of a
    profile; the straight-line build methods of the server are proved equal
    to it. */
module Profiles {
  import opened Jobs

  /** The external actions of both build functions, in the order they run. */
  datatype Op =
    | MakeExtractDir        // fs.mkdirSync(extractPath)
    | ExtractArchive        // new AdmZip(zipPath).extractAllTo(extractPath)
    | WriteCapacitorConfig  // fs.writeFileSync(capacitor.config.json)
    | MakeWwwDir            // fs.mkdirSync(wwwDir)
    | CopyIntoWww           // fs.cpSync(extractPath, wwwDir)
    | NpmInit               // npm init -y
    | NpmInstall            // npm install @capacitor/...
    | CapInit               // npx cap init
    | CapAddAndroid         // npx cap add android
    | CapSyncAndroid        // npx cap sync android
    | GradleAssembleDebug   // ./gradlew assembleDebug
    | CopyApk               // fs.copyFileSync(app-debug.apk, builds/{id}.apk)
    | ReadExtractDir        // fs.readdirSync(extractPath)
    | AddEntries            // fs.statSync / addLocalFile / addLocalFolder in the repack loop
    | WriteZip              // outputZip.writeZip(builds/{id}.zip)
    | RemoveExtractDir      // fs.rmSync(extractPath)
    | RemoveUpload          // fs.rmSync(zipPath)

  datatype Phase = Phase(progress: nat, text: string, calls: seq<Op>)

  datatype Profile = Profile(phases: seq<Phase>, cleanup: seq<Op>)

  /** processAndroidBuild (server/index.js:175-245). */
  const AndroidProfile: Profile := Profile(
    [ Phase(10, "Extracting files...", [MakeExtractDir, ExtractArchive]),
      Phase(30, "Configuring Capacitor...", [WriteCapacitorConfig]),
      Phase(50, "Building Android project...",
            [MakeWwwDir, CopyIntoWww, NpmInit, NpmInstall, CapInit, CapAddAndroid]),
      Phase(70, "Building APK...", [CapSyncAndroid, GradleAssembleDebug, CopyApk]) ],
    [RemoveExtractDir, RemoveUpload])

  /** processPCBuild (server/index.js:248-307). */
  const PcProfile: Profile := Profile(
    [ Phase(20, "Processing files...", [MakeExtractDir, ExtractArchive]),
      Phase(50, "Optimizing for desktop...", [ReadExtractDir, AddEntries]),
      Phase(80, "Creating PC package...", [WriteZip]) ],
    [RemoveExtractDir, RemoveUpload])

  /** The upload handler's dispatch: exactly "android" takes the Android path. */
  function ProfileFor(platform: string): Profile {
    if platform == Android then AndroidProfile else PcProfile
  }

  /** The outcome of running `ops` in order and stopping at the first throw. */
  function FirstFailure(ops: seq<Op>, o: Op -> Outcome): (r: Outcome)
    ensures r.Ok? <==> forall i :: 0 <= i < |ops| ==> o(ops[i]).Ok?
  {
    if |ops| == 0 then Ok
    else if o(ops[0]).Err? then o(ops[0])
    else FirstFailure(ops[1..], o)
  }

  /** A failure is the outcome of an action all of whose predecessors returned. */
  lemma {:induction false} FirstFailureIsFirst(ops: seq<Op>, o: Op -> Outcome)
    requires FirstFailure(ops, o).Err?
    ensures exists i :: 0 <= i < |ops| && o(ops[i]) == FirstFailure(ops, o)
                        && forall k :: 0 <= k < i ==> o(ops[k]).Ok?
  {
    if o(ops[0]).Ok? {
      FirstFailureIsFirst(ops[1..], o);
      var i :| 0 <= i < |ops[1..]| && o(ops[1..][i]) == FirstFailure(ops[1..], o)
               && forall k :: 0 <= k < i ==> o(ops[1..][k]).Ok?;
      assert o(ops[i + 1]) == FirstFailure(ops, o) && forall k :: 0 <= k < i + 1 ==> o(ops[k]).Ok?;
    } else {
      assert o(ops[0]) == FirstFailure(ops, o);
    }
  }

  /** An action that throws after all its predecessors returned decides the outcome. */
  lemma {:induction false} FirstFailureAt(ops: seq<Op>, i: nat, o: Op -> Outcome)
    requires i < |ops| && o(ops[i]).Err?
    requires forall k :: 0 <= k < i ==> o(ops[k]).Ok?
    ensures FirstFailure(ops, o) == o(ops[i])
  {
    if i > 0 {
      FirstFailureAt(ops[1..], i - 1, o);
    }
  }

  lemma {:induction false} FirstFailureAppend(a: seq<Op>, b: seq<Op>, o: Op -> Outcome)
    ensures FirstFailure(a + b, o) == if FirstFailure(a, o).Err? then FirstFailure(a, o) else FirstFailure(b, o)
  {
    if a != [] {
      assert (a + b)[1..] == a[1..] + b;
      FirstFailureAppend(a[1..], b, o);
    } else {
      assert a + b == b;
    }
  }

  /** The external actions of the phases, in the order they run. */
  function PhaseOps(ps: seq<Phase>): seq<Op> {
    if |ps| == 0 then [] else ps[0].calls + PhaseOps(ps[1..])
  }

  /** Every external action of a profile, in the order it would run. */
  function AllOps(P: Profile): seq<Op> {
    PhaseOps(P.phases) + P.cleanup
  }

  /** What a stretch of the try block leaves behind: the record, what it
      throws (`Ok` when it runs to its end) and every value it writes to
      `progress` and to `step`, in order. */
  datatype Run = Run(job: Job, thrown: Outcome, progressWrites: seq<nat>, stepWrites: seq<string>)

  /** Runs the phases from `j`: each writes its milestone, then its actions
      run; the first throwing action stops the run and is returned. */
  function RunPhases(j: Job, ps: seq<Phase>, o: Op -> Outcome): Run
    decreases |ps|, j
  {
    if |ps| == 0 then Run(j, Ok, [], [])
    else
      var marked := j.(progress := Some(ps[0].progress), step := Some(ps[0].text));
      var failure := FirstFailure(ps[0].calls, o);
      if failure.Err? then Run(marked, failure, [ps[0].progress], [ps[0].text])
      else
        var rest := RunPhases(marked, ps[1..], o);
        Run(rest.job, rest.thrown, [ps[0].progress] + rest.progressWrites, [ps[0].text] + rest.stepWrites)
  }

  /** The phases touch only progress and step, and they throw exactly what
      the first throwing action of their concatenated actions throws. */
  lemma {:induction false} RunPhasesOutcome(j: Job, ps: seq<Phase>, o: Op -> Outcome)
    ensures SameIdentity(j, RunPhases(j, ps, o).job)
    ensures RunPhases(j, ps, o).job.status == j.status
    ensures RunPhases(j, ps, o).job.error == j.error
    ensures RunPhases(j, ps, o).job.downloadUrl == j.downloadUrl
    ensures RunPhases(j, ps, o).thrown == FirstFailure(PhaseOps(ps), o)
    decreases |ps|
  {
    if ps != [] {
      var marked := j.(progress := Some(ps[0].progress), step := Some(ps[0].text));
      FirstFailureAppend(ps[0].calls, PhaseOps(ps[1..]), o);
      RunPhasesOutcome(marked, ps[1..], o);
    }
  }

  /** Run `a` writes `progress` and `steps`, then continues as run `b`. */
  predicate Continues(a: Run, progress: seq<nat>, steps: seq<string>, b: Run) {
    && a.job == b.job && a.thrown == b.thrown
    && a.progressWrites == progress + b.progressWrites
    && a.stepWrites == steps + b.stepWrites
  }

  function Complete(j: Job): Job {
    j.(status := Completed, progress := Some(100), downloadUrl := Some(DownloadUrl(j.id)))
  }

  /** The catch block: status failed, error = message or the default text. */
  function Fail(j: Job, message: string): Job {
    j.(status := Failed, error := Some(ErrorText(message)))
  }

  /** Where the try block of a build function stops, and what it throws
      there (`Ok` when it runs to its end): the phases, then the
      completion, then the cleanup actions. */
  function TryBlock(j: Job, P: Profile, o: Op -> Outcome): Run {
    var staged := RunPhases(j.(status := Processing), P.phases, o);
    if staged.thrown.Err? then staged
    else Run(Complete(staged.job), FirstFailure(P.cleanup, o), staged.progressWrites + [100], staged.stepWrites)
  }

  /** The reference meaning of running profile `P` on record `j` when the
      external actions behave as `o` says: the try block, then the catch
      block when it threw. */
  function Build(j: Job, P: Profile, o: Op -> Outcome): Job {
    var r := TryBlock(j, P, o);
    if r.thrown.Err? then Fail(r.job, r.thrown.message) else r.job
  }

  /** The try block reaches the completion exactly when every action of
      the phases returned. */
  lemma TryBlockCompletes(j: Job, P: Profile, o: Op -> Outcome)
    ensures TryBlock(j, P, o).job.status == Completed <==> FirstFailure(PhaseOps(P.phases), o).Ok?
  {
    RunPhasesOutcome(j.(status := Processing), P.phases, o);
  }

  /** A build ends completed exactly when every external action of the
      profile returned, and failed otherwise, with the first thrown message
      (or the default text) as its error; the identity fields are untouched. */
  lemma BuildOutcome(j: Job, P: Profile, o: Op -> Outcome)
    ensures SameIdentity(j, Build(j, P, o))
    ensures Build(j, P, o).status == Completed || Build(j, P, o).status == Failed
    ensures Build(j, P, o).status == Completed <==> FirstFailure(AllOps(P), o).Ok?
    ensures Build(j, P, o).status == Failed ==>
              Build(j, P, o).error == Some(ErrorText(FirstFailure(AllOps(P), o).message))
    ensures Build(j, P, o).status == Completed ==> Build(j, P, o).error == j.error
  {
    RunPhasesOutcome(j.(status := Processing), P.phases, o);
    FirstFailureAppend(PhaseOps(P.phases), P.cleanup, o);
  }

  /** The download URL is written exactly when all phases (up to and
      including the artifact write) succeeded; when the cleanup succeeds as
      well, it is set exactly when the build completed. */
  lemma BuildDownloadUrl(j: Job, P: Profile, o: Op -> Outcome)
    requires j.downloadUrl == None
    ensures Build(j, P, o).downloadUrl.Some? <==> FirstFailure(PhaseOps(P.phases), o).Ok?
    ensures Build(j, P, o).downloadUrl.Some? ==> Build(j, P, o).downloadUrl == Some(DownloadUrl(j.id))
    ensures FirstFailure(P.cleanup, o).Ok? ==>
              (Build(j, P, o).downloadUrl.Some? <==> Build(j, P, o).status == Completed)
  {
    RunPhasesOutcome(j.(status := Processing), P.phases, o);
    FirstFailureAppend(PhaseOps(P.phases), P.cleanup, o);
    BuildOutcome(j, P, o);
  }

  /** The cleanup runs inside the same try block as the build: when it throws
      after completion the record turns failed but keeps its download URL
      and progress 100. */
  lemma CleanupFailureAfterCompletion(j: Job, P: Profile, o: Op -> Outcome)
    requires FirstFailure(PhaseOps(P.phases), o).Ok?
    requires FirstFailure(P.cleanup, o).Err?
    ensures Build(j, P, o).status == Failed
    ensures Build(j, P, o).downloadUrl == Some(DownloadUrl(j.id))
    ensures Build(j, P, o).progress == Some(100)
    ensures Build(j, P, o).error == Some(ErrorText(FirstFailure(P.cleanup, o).message))
  {
    RunPhasesOutcome(j.(status := Processing), P.phases, o);
  }

  // ---------------------------------------------------------------------
  // Milestones

  /** How many phases a run enters (writes the milestone of) before it stops. */
  function Entered(ps: seq<Phase>, o: Op -> Outcome): (n: nat)
    ensures n <= |ps|
    ensures ps != [] ==> n >= 1
    ensures FirstFailure(PhaseOps(ps), o).Ok? ==> n == |ps|
    decreases |ps|
  {
    if |ps| == 0 then 0
    else
      FirstFailureAppend(ps[0].calls, PhaseOps(ps[1..]), o);
      if FirstFailure(ps[0].calls, o).Err? then 1 else 1 + Entered(ps[1..], o)
  }

  function Progresses(ps: seq<Phase>): (r: seq<nat>)
    ensures |r| == |ps| && forall i :: 0 <= i < |ps| ==> r[i] == ps[i].progress
  {
    seq(|ps|, i requires 0 <= i < |ps| => ps[i].progress)
  }

  function Labels(ps: seq<Phase>): (r: seq<string>)
    ensures |r| == |ps| && forall i :: 0 <= i < |ps| ==> r[i] == ps[i].text
  {
    seq(|ps|, i requires 0 <= i < |ps| => ps[i].text)
  }

  /** Every progress value a profile would write, in order. */
  function Milestones(P: Profile): seq<nat> {
    Progresses(P.phases) + [100]
  }

  /** The phases a run enters, in order: each phase's milestone is written,
      and the run goes on to the next phase only when every action of this
      one returned. This follows the recursion of `RunPhases`. */
  function Written(ps: seq<Phase>, o: Op -> Outcome): seq<Phase>
    decreases |ps|, o
  {
    if |ps| == 0 then []
    else if FirstFailure(ps[0].calls, o).Err? then [ps[0]]
    else [ps[0]] + Written(ps[1..], o)
  }

  /** The phases entered are the first `Entered` phases of the profile. */
  lemma {:induction false} WrittenIsPrefix(ps: seq<Phase>, o: Op -> Outcome)
    ensures Written(ps, o) == ps[..Entered(ps, o)]
    decreases |ps|
  {
    if |ps| != 0 {
      if FirstFailure(ps[0].calls, o).Err? {
        assert ps[..1] == [ps[0]];
      } else {
        WrittenIsPrefix(ps[1..], o);
        assert ps[..Entered(ps, o)] == [ps[0]] + ps[1..][..Entered(ps[1..], o)];
      }
    }
  }

  /** Every phase's actions return, so the run reaches the completion. */
  predicate Completes(ps: seq<Phase>, o: Op -> Outcome)
    decreases |ps|, o
  {
    |ps| == 0 || (FirstFailure(ps[0].calls, o).Ok? && Completes(ps[1..], o))
  }

  lemma {:induction false} CompletesIff(ps: seq<Phase>, o: Op -> Outcome)
    ensures Completes(ps, o) <==> FirstFailure(PhaseOps(ps), o).Ok?
    decreases |ps|
  {
    if |ps| != 0 {
      FirstFailureAppend(ps[0].calls, PhaseOps(ps[1..]), o);
      CompletesIff(ps[1..], o);
    }
  }

  /** Progress values a run with outcomes `o` writes: the milestone of every
      phase it enters, then 100 at the completion. */
  function ProgressTrace(P: Profile, o: Op -> Outcome): seq<nat> {
    Progresses(Written(P.phases, o))
      + (if Completes(P.phases, o) then [100] else [])
  }

  /** Step texts a run with outcomes `o` writes. */
  function StepTrace(P: Profile, o: Op -> Outcome): seq<string> {
    Labels(Written(P.phases, o))
  }

  /** The values the phases write are the milestones and step texts of the
      phases the run enters. */
  lemma {:induction false} RunPhasesWrites(j: Job, ps: seq<Phase>, o: Op -> Outcome)
    ensures RunPhases(j, ps, o).progressWrites == Progresses(Written(ps, o))
    ensures RunPhases(j, ps, o).stepWrites == Labels(Written(ps, o))
    decreases |ps|
  {
    if ps != [] && FirstFailure(ps[0].calls, o).Ok? {
      var marked := j.(progress := Some(ps[0].progress), step := Some(ps[0].text));
      RunPhasesWrites(marked, ps[1..], o);
      assert Progresses(Written(ps, o)) == [ps[0].progress] + Progresses(Written(ps[1..], o));
      assert Labels(Written(ps, o)) == [ps[0].text] + Labels(Written(ps[1..], o));
    }
  }

  /** After the phases, progress and step hold the last values written,
      whichever action stopped the run. */
  lemma {:induction false} RunPhasesLastWrite(j: Job, ps: seq<Phase>, o: Op -> Outcome)
    requires ps != []
    ensures var r := RunPhases(j, ps, o);
              && |r.progressWrites| > 0 && r.job.progress == Some(r.progressWrites[|r.progressWrites| - 1])
              && |r.stepWrites| > 0 && r.job.step == Some(r.stepWrites[|r.stepWrites| - 1])
    decreases |ps|
  {
    if FirstFailure(ps[0].calls, o).Ok? && |ps| > 1 {
      RunPhasesLastWrite(j.(progress := Some(ps[0].progress), step := Some(ps[0].text)), ps[1..], o);
    }
  }

  /** The try block writes exactly the progress and step traces of its
      profile. */
  lemma TryBlockWrites(j: Job, P: Profile, o: Op -> Outcome)
    ensures TryBlock(j, P, o).progressWrites == ProgressTrace(P, o)
    ensures TryBlock(j, P, o).stepWrites == StepTrace(P, o)
  {
    RunPhasesOutcome(j.(status := Processing), P.phases, o);
    RunPhasesWrites(j.(status := Processing), P.phases, o);
    CompletesIff(P.phases, o);
  }

  predicate Increasing(s: seq<nat>) {
    forall i, k :: 0 <= i < k < |s| ==> s[i] < s[k]
  }

  /** The progress writes of a run are an in-order prefix of the profile's
      milestones, and all of them when nothing throws before completion. */
  lemma ProgressTraceIsPrefix(P: Profile, o: Op -> Outcome)
    requires P.phases != []
    ensures 0 < |ProgressTrace(P, o)| <= |Milestones(P)|
    ensures ProgressTrace(P, o) == Milestones(P)[..|ProgressTrace(P, o)|]
    ensures FirstFailure(PhaseOps(P.phases), o).Ok? ==> ProgressTrace(P, o) == Milestones(P)
  {
    var n := Entered(P.phases, o);
    var m := Progresses(P.phases);
    WrittenIsPrefix(P.phases, o);
    CompletesIff(P.phases, o);
    assert Progresses(Written(P.phases, o)) == m[..n];
    if FirstFailure(PhaseOps(P.phases), o).Ok? {
      assert m[..n] == m;
    } else {
      assert ProgressTrace(P, o) == m[..n];
      assert (m + [100])[..n] == m[..n];
    }
  }

  /** The step texts a run writes are an in-order prefix of the profile's
      step texts, and all of them when nothing throws before completion. */
  lemma StepTraceIsPrefix(P: Profile, o: Op -> Outcome)
    requires P.phases != []
    ensures 0 < |StepTrace(P, o)| <= |P.phases|
    ensures StepTrace(P, o) == Labels(P.phases)[..|StepTrace(P, o)|]
    ensures FirstFailure(PhaseOps(P.phases), o).Ok? ==> StepTrace(P, o) == Labels(P.phases)
  {
    WrittenIsPrefix(P.phases, o);
    assert Labels(Written(P.phases, o)) == Labels(P.phases)[..Entered(P.phases, o)];
    assert Labels(P.phases)[..|P.phases|] == Labels(P.phases);
  }

  /** The run gets as far as phase `k` of `ps` when every earlier phase's
      actions returned. */
  predicate Reaches(ps: seq<Phase>, o: Op -> Outcome, k: nat) {
    k < |ps| && forall i :: 0 <= i < k ==> FirstFailure(ps[i].calls, o).Ok?
  }

  /** A run that reaches phase `k` enters it, and stops there exactly when
      one of its actions throws. */
  lemma {:induction false} WrittenFrom(ps: seq<Phase>, o: Op -> Outcome, k: nat)
    requires Reaches(ps, o, k)
    ensures FirstFailure(ps[k].calls, o).Err? ==> Written(ps, o) == ps[..k + 1]
    ensures FirstFailure(ps[k].calls, o).Err? ==> !Completes(ps, o)
    ensures FirstFailure(ps[k].calls, o).Ok? && k == |ps| - 1 ==> Written(ps, o) == ps
    ensures FirstFailure(ps[k].calls, o).Ok? && k == |ps| - 1 ==> Completes(ps, o)
    decreases k
  {
    if k == 0 {
      assert ps[..1] == [ps[0]];
      if FirstFailure(ps[0].calls, o).Ok? && |ps| == 1 {
        assert ps[1..] == [];
      }
    } else {
      assert FirstFailure(ps[0].calls, o).Ok?;
      assert Reaches(ps[1..], o, k - 1) by {
        forall i | 0 <= i < k - 1
          ensures FirstFailure(ps[1..][i].calls, o).Ok?
        {
          assert ps[1..][i] == ps[i + 1];
        }
      }
      WrittenFrom(ps[1..], o, k - 1);
      assert ps[1..][k - 1] == ps[k];
      assert ps[..k + 1] == [ps[0]] + ps[1..][..k];
      assert ps == [ps[0]] + ps[1..];
    }
  }

  /** A run that reaches phase `k` and throws there has written the first
      `k + 1` milestones and step texts, and no completion; one that gets
      through the last phase has written them all. */
  lemma PhaseTrace(P: Profile, o: Op -> Outcome, k: nat)
    requires Reaches(P.phases, o, k)
    ensures FirstFailure(P.phases[k].calls, o).Err? ==>
              ProgressTrace(P, o) == Milestones(P)[..k + 1] && StepTrace(P, o) == Labels(P.phases)[..k + 1]
    ensures FirstFailure(P.phases[k].calls, o).Ok? && k == |P.phases| - 1 ==>
              ProgressTrace(P, o) == Milestones(P) && StepTrace(P, o) == Labels(P.phases)
  {
    WrittenFrom(P.phases, o, k);
    var m := Progresses(P.phases);
    if FirstFailure(P.phases[k].calls, o).Err? {
      assert Progresses(P.phases[..k + 1]) == m[..k + 1] == (m + [100])[..k + 1];
      assert Labels(P.phases[..k + 1]) == Labels(P.phases)[..k + 1];
    }
  }

  /** The record ends with the last progress and the last step written,
      whichever action failed. */
  lemma BuildProgress(j: Job, P: Profile, o: Op -> Outcome)
    requires P.phases != []
    ensures |ProgressTrace(P, o)| > 0 && Build(j, P, o).progress == Some(ProgressTrace(P, o)[|ProgressTrace(P, o)| - 1])
    ensures |StepTrace(P, o)| > 0 && Build(j, P, o).step == Some(StepTrace(P, o)[|StepTrace(P, o)| - 1])
  {
    var started := j.(status := Processing);
    RunPhasesOutcome(started, P.phases, o);
    RunPhasesLastWrite(started, P.phases, o);
    TryBlockWrites(j, P, o);
  }

  /** With increasing milestones, the progress a build writes never
      decreases. */
  lemma ProgressNeverDecreases(j: Job, P: Profile, o: Op -> Outcome)
    requires P.phases != []
    requires Increasing(Milestones(P))
    ensures Increasing(TryBlock(j, P, o).progressWrites)
  {
    TryBlockWrites(j, P, o);
    ProgressTraceIsPrefix(P, o);
  }

  /** The progress values each pipeline reports, in order. */
  function MilestonesOf(platform: string): seq<nat> {
    if platform == Android then [10, 30, 50, 70, 100] else [20, 50, 80, 100]
  }

  /** The step texts each pipeline reports, in order. */
  function StepsOf(platform: string): seq<string> {
    if platform == Android
    then ["Extracting files...", "Configuring Capacitor...", "Building Android project...", "Building APK..."]
    else ["Processing files...", "Optimizing for desktop...", "Creating PC package..."]
  }

  /** The profile a platform runs writes exactly these milestones and
      steps, and its progress rises strictly. */
  lemma ProfileMilestones(platform: string)
    ensures Milestones(ProfileFor(platform)) == MilestonesOf(platform)
    ensures Labels(ProfileFor(platform).phases) == StepsOf(platform)
    ensures Increasing(Milestones(ProfileFor(platform)))
    ensures forall i :: 0 <= i < |Milestones(ProfileFor(platform))| ==>
              0 < Milestones(ProfileFor(platform))[i] <= 100
  {
  }

  /** Both build functions write strictly rising progress values between
      1 and 100, whichever action throws. */
  lemma PlatformProgressRises(j: Job, platform: string, o: Op -> Outcome)
    ensures Increasing(TryBlock(j, ProfileFor(platform), o).progressWrites)
    ensures forall i :: 0 <= i < |TryBlock(j, ProfileFor(platform), o).progressWrites| ==>
              0 < TryBlock(j, ProfileFor(platform), o).progressWrites[i] <= 100
  {
    var P := ProfileFor(platform);
    ProfileMilestones(platform);
    ProgressNeverDecreases(j, P, o);
    ProgressTraceIsPrefix(P, o);
    TryBlockWrites(j, P, o);
  }

  // ---------------------------------------------------------------------
  // The state every stored record is in once its build function returned

  /** A record just created by the upload handler. */
  predicate Fresh(j: Job) {
    && j.status == Queued
    && j.progress == None && j.step == None
    && j.error == None && j.downloadUrl == None
  }

  /** A record whose build function has returned. */
  predicate Settled(j: Job) {
    && (j.status == Completed || j.status == Failed)
    && j.progress.Some? && 0 < j.progress.value <= 100
    && j.step.Some?
    && (j.error.Some? <==> j.status == Failed)
    && (j.error.Some? ==> j.error.value != "")
    && (j.status == Completed ==> j.downloadUrl.Some?)
    && (j.downloadUrl.Some? ==> j.downloadUrl == Some(DownloadUrl(j.id)) && j.progress == Some(100))
  }

  /** Running its platform's profile takes a fresh record to a settled one. */
  lemma BuildSettles(j: Job, o: Op -> Outcome)
    requires Fresh(j)
    ensures Settled(Build(j, ProfileFor(j.platform), o))
    ensures Build(j, ProfileFor(j.platform), o).status == Completed ==>
              FirstFailure(PhaseOps(ProfileFor(j.platform).phases), o).Ok?
  {
    var P := ProfileFor(j.platform);
    var r := Build(j, P, o);
    BuildOutcome(j, P, o);
    BuildDownloadUrl(j, P, o);
    BuildProgress(j, P, o);
    ProgressTraceIsPrefix(P, o);
    var t := ProgressTrace(P, o);
    assert r.progress.value == Milestones(P)[|t| - 1];
    ProfileMilestones(j.platform);
  }
}
