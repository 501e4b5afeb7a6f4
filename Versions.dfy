/** The collaborators `WikiFilePage` is given: the versions controller, an
    abstract store of file revisions, and the sub-wiki page factory, an
    abstract lookup of child pages. */
module Versions {
  import opened Text
  import opened Properties

  /** A committable revision: the target file, its full text and its author
      (`null` in the source becomes `None`). */
  datatype FileVersion = FileVersion(file: string, content: string, author: Option<string>)

  /** A revision's identity as the controller reports it: its position in
      the file's history and its author. */
  datatype VersionInfo = VersionInfo(name: nat, author: Option<string>)

  /** The failures the page turns into `WikiPageLoadException`s. */
  datatype Failure =
    | RevisionNotFound(file: string)
    | PageDataLoadFailure(path: string)
    | VersionLoadFailure(versionName: Option<nat>, path: string)

  datatype Result<T> = Ok(value: T) | Err(failure: Failure)

  /** The revisions of a file, oldest first. */
  function Revisions(files: map<string, seq<FileVersion>>, file: string): seq<FileVersion>
  {
    if file in files then files[file] else []
  }

  /** `delete(dir, file)`: drops the page file and everything stored under
      the page's directory. */
  function Deleted(files: map<string, seq<FileVersion>>, dir: string, file: string): (r: map<string, seq<FileVersion>>)
    ensures file !in r
    ensures forall f :: f in r ==> !IsPrefix(dir + "/", f)
    ensures forall f :: f in files && f != file && !IsPrefix(dir + "/", f) ==> f in r && r[f] == files[f]
    ensures forall f :: f in r ==> f in files
  {
    map f | f in files && f != file && !IsPrefix(dir + "/", f) :: files[f]
  }

  class VersionsController {
    var files: map<string, seq<FileVersion>>

    constructor ()
      ensures files == map[]
    {
      files := map[];
    }

    /** `getRevisionData(versionName, file)`: the head revision for `None`,
        the named one otherwise; a missing file or name is an error. */
    function RevisionData(versionName: Option<nat>, file: string): (r: Result<FileVersion>)
      reads this
      ensures r.Ok? <==> |Revisions(files, file)| > 0 && (versionName.Some? ==> versionName.value < |Revisions(files, file)|)
      ensures r.Ok? && versionName.None? ==> r.value == Revisions(files, file)[|Revisions(files, file)| - 1]
      ensures r.Ok? && versionName.Some? ==> r.value == Revisions(files, file)[versionName.value]
      ensures r.Err? ==> r.failure == RevisionNotFound(file)
    {
      var revs := Revisions(files, file);
      match versionName
      case None => if |revs| == 0 then Err(RevisionNotFound(file)) else Ok(revs[|revs| - 1])
      case Some(n) => if n < |revs| then Ok(revs[n]) else Err(RevisionNotFound(file))
    }

    /** `history(file)`: one entry per revision, in order. */
    function History(file: string): (r: seq<VersionInfo>)
      reads this
      ensures |r| == |Revisions(files, file)|
      ensures forall i :: 0 <= i < |r| ==> r[i] == VersionInfo(i, Revisions(files, file)[i].author)
    {
      var revs := Revisions(files, file);
      seq(|revs|, i requires 0 <= i < |revs| => VersionInfo(i, revs[i].author))
    }

    /** `makeVersion(version)`: appends a revision to its file's history;
        the head of that file is then the revision just written. */
    method MakeVersion(version: FileVersion) returns (info: VersionInfo)
      modifies this
      ensures files == old(files)[version.file := Revisions(old(files), version.file) + [version]]
      ensures info == VersionInfo(|Revisions(old(files), version.file)|, version.author)
      ensures RevisionData(None, version.file) == Ok(version)
    {
      info := VersionInfo(|Revisions(files, version.file)|, version.author);
      files := files[version.file := Revisions(files, version.file) + [version]];
    }

    /** `delete(dir, file)`. */
    method Delete(dir: string, file: string)
      modifies this
      ensures files == Deleted(old(files), dir, file)
    {
      files := Deleted(files, dir, file);
    }
  }

  /** Appending a revision to a file adds exactly its entry to the file's
      history. */
  lemma HistoryAppend(c: VersionsController, file: string, before: seq<VersionInfo>,
                      revs: seq<FileVersion>, v: FileVersion)
    requires Revisions(c.files, file) == revs + [v]
    requires |before| == |revs| && forall i :: 0 <= i < |revs| ==> before[i] == VersionInfo(i, revs[i].author)
    ensures c.History(file) == before + [VersionInfo(|revs|, v.author)]
  {
    var after := c.History(file);
    assert forall i :: 0 <= i < |revs| ==> (revs + [v])[i] == revs[i];
    assert forall i :: 0 <= i < |after| ==> after[i] == (before + [VersionInfo(|revs|, v.author)])[i];
  }

  /** Writing a revision leaves every other file's revisions alone. */
  lemma MakeVersionElsewhere(files: map<string, seq<FileVersion>>, version: FileVersion, file: string)
    requires file != version.file
    ensures Revisions(files[version.file := Revisions(files, version.file) + [version]], file) == Revisions(files, file)
  {
  }

  /** `SubWikiPageFactory`: the child pages that exist, by parent path and
      child name, each given by its own path. */
  datatype SubWikiPageFactory = SubWikiPageFactory(children: map<(string, string), string>)
  {
    /** `getChildPage(parent, childName)`: the child's path, or `None` for
        a child that does not exist. */
    function ChildPage(parentPath: string, childName: string): (r: Option<string>)
      ensures r.Some? <==> (parentPath, childName) in children
      ensures r.Some? ==> r.value == children[(parentPath, childName)]
    {
      if (parentPath, childName) in children then Some(children[(parentPath, childName)]) else None
    }
  }
}
