/** The PC repack loop (server/index.js:268-280): every top-level entry of
    the extraction directory goes into a new archive, a file at the archive
    root under its own name, a directory under a folder named after itself.
    An archive is described by the paths of the files it holds. */
module Repack {

  /** A directory entry as `readdirSync` and `statSync` see it. */
  datatype Entry = File(name: string) | Dir(name: string, children: seq<Entry>)

  /** `addLocalFolder(path, prefix)`: every file below the folder whose
      entries are `es`, at `prefix/relative path`. */
  function FolderFiles(prefix: string, es: seq<Entry>): seq<string>
    decreases es
  {
    if es == [] then []
    else
      (match es[0]
       case File(n) => [prefix + "/" + n]
       case Dir(n, cs) => FolderFiles(prefix + "/" + n, cs))
      + FolderFiles(prefix, es[1..])
  }

  /** What one iteration of the loop adds: `addLocalFile` for a file (at the
      root, under its base name), `addLocalFolder(filePath, file)` otherwise. */
  function EntryPaths(e: Entry): seq<string> {
    match e
    case File(n) => [n]
    case Dir(n, cs) => FolderFiles(n, cs)
  }

  /** The archive the loop builds from the listing `es`, in listing order. */
  function RepackSpec(es: seq<Entry>): seq<string>
    decreases |es|
  {
    if es == [] then [] else RepackSpec(es[..|es| - 1]) + EntryPaths(es[|es| - 1])
  }

  /** The `files.forEach` loop, accumulating into the output archive. */
  method RepackEntries(entries: seq<Entry>) returns (paths: seq<string>)
    ensures paths == RepackSpec(entries)
  {
    paths := [];
    var i := 0;
    while i < |entries|
      invariant 0 <= i <= |entries|
      invariant paths == RepackSpec(entries[..i])
    {
      var e := entries[i];
      if e.File? {
        paths := paths + [e.name];
      } else {
        paths := paths + FolderFiles(e.name, e.children);
      }
      assert entries[..i + 1][..i] == entries[..i];
      i := i + 1;
    }
    assert entries[..|entries|] == entries;
  }

  /** Some file lies somewhere below these entries. */
  predicate HasFile(es: seq<Entry>)
    decreases es
  {
    es != [] &&
    ((match es[0]
      case File(_) => true
      case Dir(_, cs) => HasFile(cs))
     || HasFile(es[1..]))
  }

  /** Path `p` lies inside the folder `n` of the archive. */
  predicate Under(p: string, n: string) {
    |p| > |n| && p[..|n| + 1] == n + "/"
  }

  lemma UnderNested(p: string, prefix: string, n: string)
    requires Under(p, prefix + "/" + n)
    ensures Under(p, prefix)
  {
    var q := prefix + "/" + n;
    assert p[..|prefix| + 1] == p[..|q| + 1][..|prefix| + 1];
    assert (q + "/")[..|prefix| + 1] == prefix + "/";
  }

  /** Everything a folder contributes lies inside that folder. */
  lemma {:induction false} FolderFilesUnder(prefix: string, es: seq<Entry>)
    ensures forall p :: p in FolderFiles(prefix, es) ==> Under(p, prefix)
    decreases es
  {
    if es != [] {
      FolderFilesUnder(prefix, es[1..]);
      match es[0]
      case File(n) =>
        var p := prefix + "/" + n;
        assert p[..|prefix| + 1] == prefix + "/";
      case Dir(n, cs) =>
        FolderFilesUnder(prefix + "/" + n, cs);
        forall p | p in FolderFiles(prefix + "/" + n, cs)
          ensures Under(p, prefix)
        {
          UnderNested(p, prefix, n);
        }
    }
  }

  /** A folder with a file somewhere below it contributes something. */
  lemma {:induction false} FolderFilesNonEmpty(prefix: string, es: seq<Entry>)
    requires HasFile(es)
    ensures FolderFiles(prefix, es) != []
    decreases es
  {
    match es[0]
    case File(_) =>
    case Dir(n, cs) =>
      if HasFile(cs) {
        FolderFilesNonEmpty(prefix + "/" + n, cs);
      } else {
        FolderFilesNonEmpty(prefix, es[1..]);
      }
  }

  /** A folder with no file below it contributes nothing. */
  lemma {:induction false} FolderFilesEmpty(prefix: string, es: seq<Entry>)
    requires !HasFile(es)
    ensures FolderFiles(prefix, es) == []
    decreases es
  {
    if es != [] {
      FolderFilesEmpty(prefix, es[1..]);
      if es[0].Dir? {
        FolderFilesEmpty(prefix + "/" + es[0].name, es[0].children);
      }
    }
  }

  /** A path is in the archive exactly when some entry contributed it. */
  lemma {:induction false} RepackSpecMembers(es: seq<Entry>, p: string)
    ensures p in RepackSpec(es) <==> exists i :: 0 <= i < |es| && p in EntryPaths(es[i])
    decreases |es|
  {
    if es != [] {
      var init := es[..|es| - 1];
      RepackSpecMembers(init, p);
      if p in RepackSpec(init) {
        var i :| 0 <= i < |init| && p in EntryPaths(init[i]);
        assert es[i] == init[i];
      }
      if i :| 0 <= i < |es| - 1 && p in EntryPaths(es[i]) {
        assert init[i] == es[i];
      }
    }
  }

  /** The repack keeps the top-level structure: every archive path is a
      top-level file's own name or lies inside the folder of a top-level
      directory; every top-level file is at the root under its own name;
      every top-level directory that holds a file gets a folder named after
      itself. */
  lemma RepackTopLevel(es: seq<Entry>)
    ensures forall p :: p in RepackSpec(es) ==>
              exists i :: 0 <= i < |es| &&
                ((es[i].File? && p == es[i].name) || (es[i].Dir? && Under(p, es[i].name)))
    ensures forall i :: 0 <= i < |es| && es[i].File? ==> es[i].name in RepackSpec(es)
    ensures forall i :: 0 <= i < |es| && es[i].Dir? && HasFile(es[i].children) ==>
              exists p :: p in RepackSpec(es) && Under(p, es[i].name)
  {
    forall p | p in RepackSpec(es)
      ensures exists i :: 0 <= i < |es| &&
                ((es[i].File? && p == es[i].name) || (es[i].Dir? && Under(p, es[i].name)))
    {
      RepackSpecMembers(es, p);
      var i :| 0 <= i < |es| && p in EntryPaths(es[i]);
      if es[i].Dir? {
        FolderFilesUnder(es[i].name, es[i].children);
      }
    }
    forall i | 0 <= i < |es| && es[i].File?
      ensures es[i].name in RepackSpec(es)
    {
      RepackSpecMembers(es, es[i].name);
    }
    forall i | 0 <= i < |es| && es[i].Dir? && HasFile(es[i].children)
      ensures exists p :: p in RepackSpec(es) && Under(p, es[i].name)
    {
      FolderFilesNonEmpty(es[i].name, es[i].children);
      FolderFilesUnder(es[i].name, es[i].children);
      var p := FolderFiles(es[i].name, es[i].children)[0];
      RepackSpecMembers(es, p);
    }
  }

  /** The first path segment: everything before the first "/". */
  function TopName(p: string): string {
    if p == [] || p[0] == '/' then [] else [p[0]] + TopName(p[1..])
  }

  lemma {:induction false} TopNameOfName(n: string, rest: string)
    requires '/' !in n
    ensures TopName(n) == n
    ensures TopName(n + "/" + rest) == n
  {
    if n != [] {
      assert n[0] != '/';
      TopNameOfName(n[1..], rest);
      assert (n + "/" + rest)[1..] == n[1..] + "/" + rest;
      assert [n[0]] + n[1..] == n;
    }
  }

  /** A path inside a top-level folder has that folder's name as first segment. */
  lemma TopNameUnder(p: string, n: string)
    requires '/' !in n && Under(p, n)
    ensures TopName(p) == n
  {
    assert p == p[..|n| + 1] + p[|n| + 1..];
    TopNameOfName(n, p[|n| + 1..]);
  }

  /** An entry that shows up in the archive: a file, or a directory with a
      file somewhere below it. */
  predicate Contributes(e: Entry) {
    e.File? || HasFile(e.children)
  }

  /** Each archive path starts with the name of an entry that contributes. */
  lemma TopNamesFromEntries(es: seq<Entry>, p: string)
    requires forall i :: 0 <= i < |es| ==> '/' !in es[i].name
    requires p in RepackSpec(es)
    ensures exists k :: 0 <= k < |es| && Contributes(es[k]) && es[k].name == TopName(p)
  {
    RepackSpecMembers(es, p);
    var k :| 0 <= k < |es| && p in EntryPaths(es[k]);
    var m := es[k].name;
    if es[k].File? {
      TopNameOfName(m, "");
    } else {
      if !HasFile(es[k].children) {
        FolderFilesEmpty(m, es[k].children);
      }
      FolderFilesUnder(m, es[k].children);
      TopNameUnder(p, m);
    }
  }

  /** Each contributing entry is the top-level name of some archive path. */
  lemma EntriesToTopNames(es: seq<Entry>, i: nat)
    requires forall i :: 0 <= i < |es| ==> '/' !in es[i].name
    requires i < |es| && Contributes(es[i])
    ensures exists p :: p in RepackSpec(es) && TopName(p) == es[i].name
  {
    var n := es[i].name;
    if es[i].File? {
      TopNameOfName(n, "");
      RepackSpecMembers(es, n);
    } else {
      FolderFilesNonEmpty(n, es[i].children);
      FolderFilesUnder(n, es[i].children);
      var p := FolderFiles(n, es[i].children)[0];
      RepackSpecMembers(es, p);
      TopNameUnder(p, n);
    }
  }

  /** Names returned by `readdirSync` contain no path separator, so the
      top-level names of the archive are exactly the names of the entries
      that contribute to it. */
  lemma RepackTopNames(es: seq<Entry>)
    requires forall i :: 0 <= i < |es| ==> '/' !in es[i].name
    ensures (set p | p in RepackSpec(es) :: TopName(p)) ==
            (set i | 0 <= i < |es| && Contributes(es[i]) :: es[i].name)
  {
    var left := set p | p in RepackSpec(es) :: TopName(p);
    var right := set i | 0 <= i < |es| && Contributes(es[i]) :: es[i].name;
    forall n | n in left
      ensures n in right
    {
      var p :| p in RepackSpec(es) && TopName(p) == n;
      TopNamesFromEntries(es, p);
    }
    forall n | n in right
      ensures n in left
    {
      var i :| 0 <= i < |es| && Contributes(es[i]) && es[i].name == n;
      EntriesToTopNames(es, i);
    }
  }
}
