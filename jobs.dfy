/** The build record kept by the server for every accepted upload, and the
    small string conventions the upload handler and the build functions share. */
module Jobs {

  datatype Option<+T> = None | Some(value: T) {
    function GetOr(default: T): T {
      match this
      case Some(v) => v
      case None => default
    }
  }

  /** Lifecycle of a build: queued -> processing -> completed | failed. */
  datatype Status = Queued | Processing | Completed | Failed

  /** One build record. `progress` and `step` are absent until the build
      function first writes them; `downloadUrl` and `error` start out null. */
  datatype Job = Job(
    id: string,
    name: string,
    status: Status,
    createdAt: string,
    fileSize: nat,
    downloadUrl: Option<string>,
    error: Option<string>,
    platform: string,
    progress: Option<nat>,
    step: Option<string>)

  /** What an external action (a filesystem call, the archive library, a
      child process) did: returned normally, or threw with a message. */
  datatype Outcome = Ok | Err(message: string)

  /** The only platform value that selects the Android pipeline; every other
      value selects the PC pipeline. */
  const Android: string := "android"

  const DefaultError: string := "An unknown error occurred during the build process."

  /** Text stored in a failed record: the thrown message, or the fixed
      default when the message is empty. */
  function ErrorText(message: string): (r: string)
    ensures r != ""
    ensures message != "" ==> r == message
    ensures message == "" ==> r == DefaultError
  {
    if message == "" then DefaultError else message
  }

  function DownloadUrl(id: string): string {
    "/api/builds/" + id + "/download"
  }

  /** File extension of the artifact for a platform. */
  function Extension(platform: string): (r: string)
    ensures platform == Android ==> r == ".apk"
    ensures platform != Android ==> r == ".zip"
  {
    if platform == Android then ".apk" else ".zip"
  }

  /** The fields a build function never writes. */
  predicate SameIdentity(a: Job, b: Job) {
    && a.id == b.id
    && a.name == b.name
    && a.createdAt == b.createdAt
    && a.fileSize == b.fileSize
    && a.platform == b.platform
  }

  predicate EndsWithZip(s: string) {
    |s| >= 4 && s[|s| - 4..] == ".zip"
  }

  /** ".zip" occurs in `s` starting at index `k`. */
  predicate ZipAt(s: string, k: int) {
    0 <= k && k + 4 <= |s| && s[k..k + 4] == ".zip"
  }

  lemma ZipAtTail(s: string, k: int)
    requires |s| > 0 && k >= 1
    ensures ZipAt(s, k) <==> ZipAt(s[1..], k - 1)
  {
    if k + 4 <= |s| {
      assert s[1..][k - 1..k + 3] == s[k..k + 4];
    }
  }

  /** `String.prototype.replace(".zip", "")`: removes the first occurrence of
      ".zip", wherever it is (see StripFirstZipCuts and StripFirstZipKeeps). */
  function StripFirstZip(s: string): (r: string)
    ensures |r| == |s| || |r| == |s| - 4
    ensures |r| == |s| ==> r == s
    decreases |s|
  {
    if |s| < 4 then s
    else if s[..4] == ".zip" then s[4..]
    else [s[0]] + StripFirstZip(s[1..])
  }

  /** The first ".zip" is cut out and everything around it is kept. */
  lemma {:induction false} StripFirstZipCuts(s: string, k: nat)
    requires ZipAt(s, k)
    requires forall i :: 0 <= i < k ==> !ZipAt(s, i)
    ensures StripFirstZip(s) == s[..k] + s[k + 4..]
    decreases k
  {
    if k == 0 {
      assert s[..4] == s[0..4];
    } else {
      assert s[..4] != ".zip" by {
        assert !ZipAt(s, 0);
        assert s[..4] == s[0..4];
      }
      ZipAtTail(s, k);
      forall i | 0 <= i < k - 1
        ensures !ZipAt(s[1..], i)
      {
        ZipAtTail(s, i + 1);
      }
      StripFirstZipCuts(s[1..], k - 1);
      assert [s[0]] + (s[1..][..k - 1] + s[1..][k + 3..]) == s[..k] + s[k + 4..];
    }
  }

  /** A string without ".zip" in it is left unchanged. */
  lemma {:induction false} StripFirstZipKeeps(s: string)
    requires forall k :: !ZipAt(s, k)
    ensures StripFirstZip(s) == s
    decreases |s|
  {
    if |s| >= 4 {
      assert s[..4] != ".zip" by {
        assert !ZipAt(s, 0);
        assert s[..4] == s[0..4];
      }
      forall i
        ensures !ZipAt(s[1..], i)
      {
        if i >= 0 {
          ZipAtTail(s, i + 1);
        }
      }
      StripFirstZipKeeps(s[1..]);
      assert [s[0]] + s[1..] == s;
    }
  }

  /** For an ordinary archive name, whose only ".zip" is its suffix, the
      display name is the name without the extension. */
  lemma StripPlainArchiveName(base: string)
    requires forall k :: 0 <= k < |base| ==> !ZipAt(base + ".zip", k)
    ensures StripFirstZip(base + ".zip") == base
  {
    var s := base + ".zip";
    assert s[|base|..|base| + 4] == ".zip";
    StripFirstZipCuts(s, |base|);
    assert s[..|base|] == base;
    assert s[|base| + 4..] == [];
  }
}
