/** The install root on disk: links, version directories, the gate marker and the blacklist file. Every
    system call is one step that may fail; `fault` says that the call failed for a reason outside the model. */
module Disk {
  import opened Common

  datatype LinkName = Current | Previous | SwapTmp

  /** A link's text, split at its last slash: "versions/v1" is Target("versions", "v1"). */
  datatype Target = Target(dir: string, base: Version)

  type Links = map<LinkName, Target>

  datatype DirName = Promoted(v: Version) | Staging(v: Version)

  /** `Partial`: some of the tree is missing, because it is being built or being removed. */
  datatype DirState = Partial | Complete

  type Dirs = map<DirName, DirState>

  /** `Torn`: created or truncated, but not all of the content is there. */
  datatype File<+T> = Absent | Torn | Whole(content: T)

  datatype Marker = Marker(version: Version, installedAt: Time)

  datatype Record = Record(version: Version, at: Time, reason: string)

  /** A file that is rewritten by filling a sibling `.tmp` and renaming it over. */
  datatype TmpFile<+T> = TmpFile(file: File<T>, tmp: File<T>)

  datatype Disk = Disk(links: Links, dirs: Dirs, marker: TmpFile<Marker>, list: TmpFile<seq<Record>>)

  /** The target an install writes for a version. */
  function VersionTarget(v: Version): Target {
    Target("versions", v)
  }

  // ------------------------------------------------------------- Calls on links

  datatype Read = Found(target: Target) | Missing | Broken

  function Readlink(l: Links, n: LinkName, fault: bool): Read {
    if fault then Broken else if n in l then Found(l[n]) else Missing
  }

  /** rename(2): replaces `to` in one step. */
  function Rename(l: Links, n: LinkName, to: LinkName, fault: bool): (Links, bool) {
    if fault || n !in l then (l, false) else ((l - {n})[to := l[n]], true)
  }

  /** Remove, with a missing link counting as success, as every caller treats it. */
  function Remove(l: Links, n: LinkName, fault: bool): (Links, bool) {
    if fault then (l, false) else (l - {n}, true)
  }

  function Symlink(l: Links, n: LinkName, t: Target, fault: bool): (Links, bool) {
    if fault || n in l then (l, false) else (l[n := t], true)
  }

  lemma SameLinks(a: Links, b: Links)
    requires Current in a <==> Current in b
    requires Previous in a <==> Previous in b
    requires SwapTmp in a <==> SwapTmp in b
    requires Current in a ==> a[Current] == b[Current]
    requires Previous in a ==> a[Previous] == b[Previous]
    requires SwapTmp in a ==> a[SwapTmp] == b[SwapTmp]
    ensures a == b
  {
    forall n: LinkName
      ensures n in a <==> n in b
      ensures n in a ==> a[n] == b[n]
    {
      match n
      case Current =>
      case Previous =>
      case SwapTmp =>
    }
  }

  // ------------------------------------------------------------- Calls on files

  /** open(O_CREATE|O_EXCL) of the temporary file. */
  function CreateTmp<T>(f: TmpFile<T>, fault: bool): (TmpFile<T>, bool) {
    if fault || f.tmp != Absent then (f, false) else (f.(tmp := Torn), true)
  }

  /** open(O_CREATE|O_TRUNC) of the temporary file. */
  function TruncateTmp<T>(f: TmpFile<T>, fault: bool): (TmpFile<T>, bool) {
    if fault then (f, false) else (f.(tmp := Torn), true)
  }

  function FillTmp<T>(f: TmpFile<T>, content: T, fault: bool): (TmpFile<T>, bool) {
    if fault then (f, false) else (f.(tmp := Whole(content)), true)
  }

  function DropTmp<T>(f: TmpFile<T>, fault: bool): (TmpFile<T>, bool) {
    if fault then (f, false) else (f.(tmp := Absent), true)
  }

  /** rename(tmp, file). */
  function Publish<T>(f: TmpFile<T>, fault: bool): (TmpFile<T>, bool) {
    if fault || f.tmp == Absent then (f, false) else (TmpFile(f.tmp, Absent), true)
  }

  /** Remove of the file itself; a missing file counts as success. */
  function Unlink<T>(f: TmpFile<T>, fault: bool): (TmpFile<T>, bool) {
    if fault then (f, false) else (f.(file := Absent), true)
  }

  /** The root as the running programs change it. Whether a call is made to fail is the caller's input. */
  class InstallRoot {
    var links: Links
    var dirs: Dirs
    var marker: TmpFile<Marker>
    var list: TmpFile<seq<Record>>

    function Contents(): Disk
      reads this
    {
      Disk(links, dirs, marker, list)
    }

    constructor (d: Disk)
      ensures Contents() == d
    {
      links, dirs, marker, list := d.links, d.dirs, d.marker, d.list;
    }

    /** Another process changed the root. */
    method Become(d: Disk)
      modifies this
      ensures Contents() == d
    {
      links, dirs, marker, list := d.links, d.dirs, d.marker, d.list;
    }

    method RenameLink(n: LinkName, to: LinkName, fault: bool) returns (ok: bool)
      modifies this`links
      ensures (links, ok) == Rename(old(links), n, to, fault)
    {
      ok := !fault && n in links;
      if ok {
        links := (links - {n})[to := links[n]];
      }
    }

    method RemoveLink(n: LinkName, fault: bool) returns (ok: bool)
      modifies this`links
      ensures (links, ok) == Remove(old(links), n, fault)
    {
      ok := !fault;
      if ok {
        links := links - {n};
      }
    }

    method MakeLink(n: LinkName, t: Target, fault: bool) returns (ok: bool)
      modifies this`links
      ensures (links, ok) == Symlink(old(links), n, t, fault)
    {
      ok := !fault && n !in links;
      if ok {
        links := links[n := t];
      }
    }
  }
}
