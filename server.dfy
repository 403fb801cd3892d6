/** The upload handler and the two build functions of server/index.js,
    acting on the server's state: the record map `builds` (line 57), the
    order in which records were inserted (what `builds.values()` walks),
    and the artifact directory (`server/builds/`). */
module Server {
  import opened Jobs
  import opened Profiles
  import opened Repack
  import opened Endpoints

  /** An uploaded file as express-fileupload describes it. */
  datatype FormFile = FormFile(name: string, size: nat)

  /** A form field of `req.files`: one file, or several under the same name. */
  datatype FileField = Single(file: FormFile) | Several(files: seq<FormFile>)

  /** The replies of POST /api/builds/upload: 201, 400 or 500. */
  datatype UploadReply = Created(buildId: string) | BadRequest(error: string) | ServerError(error: string)

  const NoFiles: string := "No files were uploaded."
  const OnlyZip: string := "Only ZIP files are allowed."
  const UploadFailed: string := "Failed to upload file."

  /** `req.body.platform || 'android'`: a missing or empty field selects Android. */
  function PlatformOf(field: Option<string>): (r: string)
    ensures field.Some? && field.value != "" ==> r == field.value
    ensures field.None? || field.value == "" ==> r == Android
  {
    if field.Some? && field.value != "" then field.value else Android
  }

  /** The record the upload handler stores before starting the build. */
  function NewRecord(id: string, file: FormFile, platform: string, createdAt: string): (r: Job)
    ensures Fresh(r)
  {
    Job(id, StripFirstZip(file.name), Queued, createdAt, file.size, None, None, platform, None, None)
  }

  /** The upload passes the handler's checks: a single file under the field
      name "file", whose name ends in ".zip". */
  predicate Accepted(files: map<string, FileField>) {
    "file" in files && files["file"].Single? && EndsWithZip(files["file"].file.name)
  }

  /** What a successful build leaves in the artifact directory. */
  function ArtifactOf(platform: string, listing: seq<Entry>): Artifact {
    if platform == Android then ApkPackage else ZipArchive(RepackSpec(listing))
  }

  /** The state the server is in between requests: `order` lists every key
      of `builds` once, every record is stored under its own id and its
      build function has returned, and every completed record's artifact
      is in the artifact directory. */
  predicate RegistryValid(builds: map<string, Job>, order: seq<string>, artifacts: map<string, Artifact>) {
    && |order| == |builds|
    && (forall i :: 0 <= i < |order| ==> order[i] in builds)
    && (forall i, k :: 0 <= i < k < |order| ==> order[i] != order[k])
    && (forall id :: id in builds ==> id in order)
    && (forall id :: id in builds ==> builds[id].id == id && Settled(builds[id]))
    && (forall id :: id in builds && builds[id].status == Completed ==>
                       ArtifactFile(id, builds[id].platform) in artifacts)
  }

  class BuildServer {
    var builds: map<string, Job>
    var order: seq<string>
    var artifacts: map<string, Artifact>

    ghost predicate Valid()
      reads this
    {
      RegistryValid(builds, order, artifacts)
    }

    /** The server at start-up: no records, and the artifact directory with
        whatever an earlier run left in it (`existing`); the directory is
        only created when it is missing. */
    constructor (existing: map<string, Artifact>)
      ensures builds == map[] && order == [] && artifacts == existing
      ensures Valid()
    {
      builds := map[];
      order := [];
      artifacts := existing;
    }

    /** The try block of processAndroidBuild run on the record `j`: the
        record as the block leaves it and what it throws. The APK lands in
        the artifact directory once its copy returns. */
    method AndroidTry(id: string, j: Job, o: Op -> Outcome)
      returns (build: Job, thrown: Outcome, ghost progressLog: seq<nat>, ghost stepLog: seq<string>)
      requires j.id == id
      modifies this`artifacts
      ensures build == TryBlock(j, AndroidProfile, o).job && thrown == TryBlock(j, AndroidProfile, o).thrown
      ensures progressLog == TryBlock(j, AndroidProfile, o).progressWrites
      ensures stepLog == TryBlock(j, AndroidProfile, o).stepWrites
      ensures artifacts == if build.status == Completed
                           then old(artifacts)[id + ".apk" := ApkPackage] else old(artifacts)
    {
      build := j.(status := Processing);
      ghost var ps := AndroidProfile.phases;
      ghost var entry := build;
      build := build.(progress := Some(10), step := Some("Extracting files..."));
      progressLog, stepLog := [10], ["Extracting files..."];
      thrown := o(MakeExtractDir); if thrown.Err? { return; }
      thrown := o(ExtractArchive); if thrown.Err? { return; }
      assert Continues(RunPhases(entry, ps, o), progressLog, stepLog, RunPhases(build, ps[1..], o));
      entry := build;
      build := build.(progress := Some(30), step := Some("Configuring Capacitor..."));
      progressLog, stepLog := progressLog + [30], stepLog + ["Configuring Capacitor..."];
      thrown := o(WriteCapacitorConfig); if thrown.Err? { return; }
      assert Continues(RunPhases(entry, ps[1..], o), [30], ["Configuring Capacitor..."], RunPhases(build, ps[2..], o));
      entry := build;
      build := build.(progress := Some(50), step := Some("Building Android project..."));
      progressLog, stepLog := progressLog + [50], stepLog + ["Building Android project..."];
      thrown := o(MakeWwwDir); if thrown.Err? { return; }
      thrown := o(CopyIntoWww); if thrown.Err? { return; }
      thrown := o(NpmInit); if thrown.Err? { return; }
      thrown := o(NpmInstall); if thrown.Err? { return; }
      thrown := o(CapInit); if thrown.Err? { return; }
      thrown := o(CapAddAndroid); if thrown.Err? { return; }
      assert Continues(RunPhases(entry, ps[2..], o), [50], ["Building Android project..."], RunPhases(build, ps[3..], o));
      entry := build;
      build := build.(progress := Some(70), step := Some("Building APK..."));
      progressLog, stepLog := progressLog + [70], stepLog + ["Building APK..."];
      thrown := o(CapSyncAndroid); if thrown.Err? { return; }
      thrown := o(GradleAssembleDebug); if thrown.Err? { return; }
      thrown := o(CopyApk); if thrown.Err? { return; }
      assert Continues(RunPhases(entry, ps[3..], o), [70], ["Building APK..."], RunPhases(build, [], o));
      artifacts := artifacts[id + ".apk" := ApkPackage];
      build := build.(status := Completed, progress := Some(100), downloadUrl := Some(DownloadUrl(id)));
      progressLog := progressLog + [100];
      thrown := o(RemoveExtractDir); if thrown.Err? { return; }
      thrown := o(RemoveUpload);
    }

    /** The try block of processPCBuild run on the record `j`, with
        `listing` the entries `readdirSync` finds in the extraction
        directory. The repacked archive lands in the artifact directory
        once its write returns. */
    method PcTry(id: string, j: Job, o: Op -> Outcome, listing: seq<Entry>)
      returns (build: Job, thrown: Outcome, ghost progressLog: seq<nat>, ghost stepLog: seq<string>)
      requires j.id == id
      modifies this`artifacts
      ensures build == TryBlock(j, PcProfile, o).job && thrown == TryBlock(j, PcProfile, o).thrown
      ensures progressLog == TryBlock(j, PcProfile, o).progressWrites
      ensures stepLog == TryBlock(j, PcProfile, o).stepWrites
      ensures artifacts == if build.status == Completed
                           then old(artifacts)[id + ".zip" := ZipArchive(RepackSpec(listing))] else old(artifacts)
    {
      build := j.(status := Processing);
      ghost var ps := PcProfile.phases;
      ghost var entry := build;
      build := build.(progress := Some(20), step := Some("Processing files..."));
      progressLog, stepLog := [20], ["Processing files..."];
      thrown := o(MakeExtractDir); if thrown.Err? { return; }
      thrown := o(ExtractArchive); if thrown.Err? { return; }
      assert Continues(RunPhases(entry, ps, o), progressLog, stepLog, RunPhases(build, ps[1..], o));
      entry := build;
      build := build.(progress := Some(50), step := Some("Optimizing for desktop..."));
      progressLog, stepLog := progressLog + [50], stepLog + ["Optimizing for desktop..."];
      thrown := o(ReadExtractDir); if thrown.Err? { return; }
      var paths := RepackEntries(listing);
      thrown := o(AddEntries); if thrown.Err? { return; }
      assert Continues(RunPhases(entry, ps[1..], o), [50], ["Optimizing for desktop..."], RunPhases(build, ps[2..], o));
      entry := build;
      build := build.(progress := Some(80), step := Some("Creating PC package..."));
      progressLog, stepLog := progressLog + [80], stepLog + ["Creating PC package..."];
      thrown := o(WriteZip); if thrown.Err? { return; }
      assert Continues(RunPhases(entry, ps[2..], o), [80], ["Creating PC package..."], RunPhases(build, [], o));
      artifacts := artifacts[id + ".zip" := ZipArchive(paths)];
      build := build.(status := Completed, progress := Some(100), downloadUrl := Some(DownloadUrl(id)));
      progressLog := progressLog + [100];
      thrown := o(RemoveExtractDir); if thrown.Err? { return; }
      thrown := o(RemoveUpload);
    }

    /** processAndroidBuild: nothing happens for an unknown id; otherwise
        the record ends as `Build` of the Android profile says, and the APK
        is in the artifact directory exactly when every action up to its
        copy returned. */
    method ProcessAndroidBuild(id: string, o: Op -> Outcome)
      requires id in builds ==> builds[id].id == id
      modifies this`builds, this`artifacts
      ensures id !in old(builds) ==> builds == old(builds) && artifacts == old(artifacts)
      ensures id in old(builds) ==> builds == old(builds)[id := Build(old(builds)[id], AndroidProfile, o)]
      ensures id in old(builds) ==>
                artifacts == if FirstFailure(PhaseOps(AndroidProfile.phases), o).Ok?
                             then old(artifacts)[id + ".apk" := ApkPackage] else old(artifacts)
    {
      if id !in builds {
        return;
      }
      TryBlockCompletes(builds[id], AndroidProfile, o);
      var build, thrown, _, _ := AndroidTry(id, builds[id], o);
      if thrown.Err? {
        build := Fail(build, thrown.message);
      }
      builds := builds[id := build];
    }

    /** processPCBuild: nothing happens for an unknown id; otherwise the
        record ends as `Build` of the PC profile says, and the repacked
        archive is in the artifact directory exactly when every action up
        to its write returned. */
    method ProcessPcBuild(id: string, o: Op -> Outcome, listing: seq<Entry>)
      requires id in builds ==> builds[id].id == id
      modifies this`builds, this`artifacts
      ensures id !in old(builds) ==> builds == old(builds) && artifacts == old(artifacts)
      ensures id in old(builds) ==> builds == old(builds)[id := Build(old(builds)[id], PcProfile, o)]
      ensures id in old(builds) ==>
                artifacts == if FirstFailure(PhaseOps(PcProfile.phases), o).Ok?
                             then old(artifacts)[id + ".zip" := ZipArchive(RepackSpec(listing))] else old(artifacts)
    {
      if id !in builds {
        return;
      }
      TryBlockCompletes(builds[id], PcProfile, o);
      var build, thrown, _, _ := PcTry(id, builds[id], o, listing);
      if thrown.Err? {
        build := Fail(build, thrown.message);
      }
      builds := builds[id := build];
    }

    /** The dispatch on the platform: exactly "android" runs the Android
        build, anything else the PC build. A fresh record ends settled, and
        when it completed its artifact is in place. */
    method StartBuild(id: string, platform: string, o: Op -> Outcome, listing: seq<Entry>)
      requires id in builds && builds[id].id == id
      modifies this`builds, this`artifacts
      ensures builds == old(builds)[id := Build(old(builds)[id], ProfileFor(platform), o)]
      ensures artifacts == if FirstFailure(PhaseOps(ProfileFor(platform).phases), o).Ok?
                           then old(artifacts)[ArtifactFile(id, platform) := ArtifactOf(platform, listing)]
                           else old(artifacts)
      ensures Fresh(old(builds)[id]) && old(builds)[id].platform == platform ==>
                && builds[id].id == id && builds[id].platform == platform
                && Settled(builds[id])
                && (builds[id].status == Completed ==> ArtifactFile(id, platform) in artifacts)
                && old(artifacts).Keys <= artifacts.Keys
    {
      ghost var j := builds[id];
      if platform == Android {
        ProcessAndroidBuild(id, o);
      } else {
        ProcessPcBuild(id, o, listing);
      }
      if Fresh(j) && j.platform == platform {
        BuildOutcome(j, ProfileFor(platform), o);
        BuildSettles(j, o);
      }
    }

    /** The accepted upload: the new record is stored, appended to the
        order, and built by its platform's build function. */
    method Accept(gameFile: FormFile, platform: string, buildId: string, createdAt: string,
                  o: Op -> Outcome, listing: seq<Entry>)
      requires Valid() && buildId !in builds
      modifies this
      ensures Valid()
      ensures order == old(order) + [buildId]
      ensures builds == old(builds)[buildId := Build(NewRecord(buildId, gameFile, platform, createdAt), ProfileFor(platform), o)]
      ensures artifacts == if FirstFailure(PhaseOps(ProfileFor(platform).phases), o).Ok?
                           then old(artifacts)[ArtifactFile(buildId, platform) := ArtifactOf(platform, listing)]
                           else old(artifacts)
    {
      var build := NewRecord(buildId, gameFile, platform, createdAt);
      builds := builds[buildId := build];
      order := order + [buildId];
      StartBuild(buildId, platform, o, listing);
      OverwriteTwice(old(builds), buildId, build, builds[buildId]);
      RegistryInsert(old(builds), old(order), old(artifacts), buildId, builds, order, artifacts);
    }

    /** POST /api/builds/upload. `files` is `req.files` (empty when absent),
        `platformField` is `req.body.platform`, `buildId` and `createdAt`
        are what `uuidv4()` and the clock return, `saved` is the outcome of
        `gameFile.mv`, `o` the outcomes of the build's external actions and
        `listing` what the PC build finds in its extraction directory. The
        build function runs before the reply is sent, since it never awaits. */
    method Upload(files: map<string, FileField>, platformField: Option<string>, buildId: string,
                  createdAt: string, saved: Outcome, o: Op -> Outcome, listing: seq<Entry>)
      returns (reply: UploadReply)
      requires Valid()
      requires buildId !in builds
      modifies this
      ensures Valid()
      ensures |files| == 0 ==> reply == BadRequest(NoFiles)
      ensures |files| != 0 && ("file" !in files || files["file"].Several?) ==> reply == ServerError(UploadFailed)
      ensures "file" in files && files["file"].Single? && !EndsWithZip(files["file"].file.name) ==>
                reply == BadRequest(OnlyZip)
      ensures Accepted(files) && saved.Err? ==> reply == ServerError(UploadFailed)
      ensures reply.Created? <==> Accepted(files) && saved.Ok?
      ensures !reply.Created? ==> builds == old(builds) && order == old(order) && artifacts == old(artifacts)
      ensures reply.Created? ==>
                var platform := PlatformOf(platformField);
                var record := NewRecord(buildId, files["file"].file, platform, createdAt);
                && reply.buildId == buildId
                && order == old(order) + [buildId]
                && builds == old(builds)[buildId := Build(record, ProfileFor(platform), o)]
                && artifacts == if FirstFailure(PhaseOps(ProfileFor(platform).phases), o).Ok?
                                then old(artifacts)[ArtifactFile(buildId, platform) := ArtifactOf(platform, listing)]
                                else old(artifacts)
    {
      if |files| == 0 {
        return BadRequest(NoFiles);
      }
      if "file" !in files || files["file"].Several? {
        // `gameFile.name` of a missing field, or `.endsWith` of an array's
        // missing name, throws a TypeError that the outer catch answers.
        return ServerError(UploadFailed);
      }
      var gameFile := files["file"].file;
      var platform := PlatformOf(platformField);
      if !EndsWithZip(gameFile.name) {
        return BadRequest(OnlyZip);
      }
      if saved.Err? {
        return ServerError(UploadFailed);
      }
      Accept(gameFile, platform, buildId, createdAt, o, listing);
      return Created(buildId);
    }
  }

  /** Writing the same key twice leaves the second value. */
  lemma OverwriteTwice<K, V>(m: map<K, V>, k: K, a: V, b: V)
    ensures m[k := a][k := b] == m[k := b]
  {
  }

  /** Storing a settled record under a new id, at the end of the order,
      keeps the registry valid, provided its artifact is there when it
      completed and no artifact went away. */
  lemma RegistryInsert(builds: map<string, Job>, order: seq<string>, artifacts: map<string, Artifact>,
                       id: string, builds': map<string, Job>, order': seq<string>, artifacts': map<string, Artifact>)
    requires RegistryValid(builds, order, artifacts) && id !in builds
    requires id in builds' && builds' == builds[id := builds'[id]] && order' == order + [id]
    requires builds'[id].id == id && Settled(builds'[id])
    requires builds'[id].status == Completed ==> ArtifactFile(id, builds'[id].platform) in artifacts'
    requires artifacts.Keys <= artifacts'.Keys
    ensures RegistryValid(builds', order', artifacts')
  {
    assert id !in order;
    forall k | k in builds'
      ensures k in order'
    {
      if k != id {
        assert k in builds;
      }
    }
  }

  /** A stored record's status view is terminal, carries a progress between
      1 and 100 (so the `|| 0` fallback never shows), a step, and an error
      exactly when the build failed. */
  lemma StoredStatus(builds: map<string, Job>, order: seq<string>, artifacts: map<string, Artifact>, id: string)
    requires RegistryValid(builds, order, artifacts) && id in builds
    ensures StatusOf(builds, id).Found?
    ensures var v := StatusOf(builds, id).body;
            && (v.status == Completed || v.status == Failed)
            && 0 < v.progress <= 100
            && v.step.Some?
            && (v.error.Some? <==> v.status == Failed)
  {
    var j := builds[id];
    assert Settled(j);
  }

  /** In a valid server every completed build can be downloaded, and
      nothing else can. */
  lemma DownloadOfStored(builds: map<string, Job>, order: seq<string>, artifacts: map<string, Artifact>, id: string)
    requires RegistryValid(builds, order, artifacts)
    ensures Download(builds, artifacts, id).Found? <==> id in builds && builds[id].status == Completed
  {
  }

  /** GET /api/builds lists every stored record exactly once. */
  lemma ListStored(builds: map<string, Job>, order: seq<string>, artifacts: map<string, Artifact>)
    requires RegistryValid(builds, order, artifacts)
    ensures |ListBuilds(builds, order)| == |builds|
    ensures forall id :: id in builds ==>
              exists i :: 0 <= i < |ListBuilds(builds, order)| && ListBuilds(builds, order)[i] == builds[id]
    ensures forall i, k :: 0 <= i < k < |ListBuilds(builds, order)| ==>
              ListBuilds(builds, order)[i].id != ListBuilds(builds, order)[k].id
  {
    var r := ListBuilds(builds, order);
    forall id | id in builds
      ensures exists i :: 0 <= i < |r| && r[i] == builds[id]
    {
      var i :| 0 <= i < |order| && order[i] == id;
      assert r[i] == builds[id];
    }
  }

  /** A new upload appears at the end of the list, after every record that
      was there before, which are unchanged. */
  lemma ListAfterUpload(builds: map<string, Job>, order: seq<string>, artifacts: map<string, Artifact>,
                        id: string, j: Job)
    requires RegistryValid(builds, order, artifacts) && id !in builds
    ensures ListBuilds(builds[id := j], order + [id]) == ListBuilds(builds, order) + [j]
  {
    var left := ListBuilds(builds[id := j], order + [id]);
    var right := ListBuilds(builds, order) + [j];
    forall i | 0 <= i < |left|
      ensures left[i] == right[i]
    {
      if i < |order| {
        assert order[i] != id;
      }
    }
  }
}
