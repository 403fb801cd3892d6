/** The read-only endpoints (server/index.js:110-158): status projection,
    single record, list, and download lookup. Each is a function of the
    registry's state: the record map, its insertion order, and the contents
    of the artifact directory. */
module Endpoints {
  import opened Jobs

  /** A file in the artifact directory: an APK copied out of the Android
      project, or a repacked archive given by the paths of its files. */
  datatype Artifact = ApkPackage | ZipArchive(paths: seq<string>)

  /** A 200 response with a body, or a 404 with an error message. */
  datatype Reply<T> = Found(body: T) | NotFound(error: string)

  /** The body of GET /api/builds/:buildId/status. */
  datatype StatusView = StatusView(status: Status, progress: nat, step: Option<string>,
                                   error: Option<string>, platform: string)

  /** What res.download is called with: the file and the suggested name. */
  datatype DownloadFile = DownloadFile(path: string, filename: string)

  const BuildNotFound: string := "Build not found."
  const NotCompleted: string := "Build not found or not completed."
  const FileNotFound: string := "Build file not found."

  /** The file name, inside the artifact directory, the download handler
      looks up for a record. */
  function ArtifactFile(id: string, platform: string): string {
    id + Extension(platform)
  }

  /** GET /api/builds/:buildId/status: 404 for an unknown id, otherwise the
      five projected fields, with an unset progress read as 0. */
  function StatusOf(builds: map<string, Job>, id: string): (r: Reply<StatusView>)
    ensures r.NotFound? <==> id !in builds
    ensures r.NotFound? ==> r.error == BuildNotFound
    ensures r.Found? ==>
              && r.body.status == builds[id].status
              && r.body.progress == builds[id].progress.GetOr(0)
              && r.body.step == builds[id].step
              && r.body.error == builds[id].error
              && r.body.platform == builds[id].platform
  {
    if id !in builds then NotFound(BuildNotFound)
    else
      var b := builds[id];
      Found(StatusView(b.status, b.progress.GetOr(0), b.step, b.error, b.platform))
  }

  /** GET /api/builds/:buildId: 404 for an unknown id, otherwise the record. */
  function GetBuild(builds: map<string, Job>, id: string): (r: Reply<Job>)
    ensures r.Found? <==> id in builds
    ensures r.Found? ==> r.body == builds[id]
    ensures r.NotFound? ==> r.error == BuildNotFound
  {
    if id in builds then Found(builds[id]) else NotFound(BuildNotFound)
  }

  /** GET /api/builds: `Array.from(builds.values())`, in insertion order. */
  function ListBuilds(builds: map<string, Job>, order: seq<string>): (r: seq<Job>)
    requires forall i :: 0 <= i < |order| ==> order[i] in builds
    ensures |r| == |order|
    ensures forall i :: 0 <= i < |order| ==> r[i] == builds[order[i]]
  {
    seq(|order|, i requires 0 <= i < |order| => builds[order[i]])
  }

  /** GET /api/builds/:buildId/download: 404 unless the record exists, is
      completed and its artifact file exists; otherwise the artifact with
      the record's name plus the platform's extension as download name. */
  function Download(builds: map<string, Job>, artifacts: map<string, Artifact>, id: string): (r: Reply<DownloadFile>)
    ensures r.Found? <==>
              (id in builds && builds[id].status == Completed
               && ArtifactFile(id, builds[id].platform) in artifacts)
    ensures (id !in builds || builds[id].status != Completed) ==> r == NotFound(NotCompleted)
    ensures id in builds && builds[id].status == Completed && !r.Found? ==> r == NotFound(FileNotFound)
    ensures r.Found? ==>
              (r.body.path == ArtifactFile(id, builds[id].platform)
               && r.body.filename == builds[id].name + Extension(builds[id].platform))
  {
    if id !in builds || builds[id].status != Completed then NotFound(NotCompleted)
    else
      var b := builds[id];
      var file := ArtifactFile(id, b.platform);
      if file !in artifacts then NotFound(FileNotFound)
      else Found(DownloadFile(file, b.name + Extension(b.platform)))
  }
}
