/** A POSIX-like file system that distinguishes what processes see from what a
    power failure may leave behind. */
module FileSystem {
  import opened Wrappers

  type Content = string

  datatype Path = Path(dir: nat, name: string)

  /** File data; `synced` once fsync has completed after the last write. */
  datatype Inode = Inode(content: Content, synced: bool)

  /** For every name, what it has been bound to since its directory was last
      synchronised, oldest first; the last entry is the present binding. */
  datatype Fs = Fs(inodes: map<nat, Inode>, names: map<Path, seq<Option<nat>>>)

  function Bindings(fs: Fs, p: Path): (b: seq<Option<nat>>)
    ensures b != []
  {
    if p in fs.names && fs.names[p] != [] then fs.names[p] else [None]
  }

  function Current(fs: Fs, p: Path): Option<nat> {
    var b := Bindings(fs, p);
    b[|b| - 1]
  }

  /** What opening the name reads now. */
  function Read(fs: Fs, p: Path): Option<Content> {
    match Current(fs, p)
    case Some(i) => if i in fs.inodes then Some(fs.inodes[i].content) else None
    case None => None
  }

  function Bind(fs: Fs, p: Path, b: Option<nat>): Fs {
    fs.(names := fs.names[p := Bindings(fs, p) + [b]])
  }

  /** `CreateTemp`: a new empty file under a new name. */
  function Create(fs: Fs, p: Path, ino: nat): Fs {
    Bind(fs.(inodes := fs.inodes[ino := Inode("", false)]), p, Some(ino))
  }

  /** Write through an open file: the data are not yet durable. */
  function Write(fs: Fs, ino: nat, c: Content): Fs {
    fs.(inodes := fs.inodes[ino := Inode(c, false)])
  }

  function SyncFile(fs: Fs, ino: nat): Fs
    requires ino in fs.inodes
  {
    fs.(inodes := fs.inodes[ino := fs.inodes[ino].(synced := true)])
  }

  /** Atomic replacement of `to` by the file `from` names. */
  function Rename(fs: Fs, from: Path, to: Path): Fs {
    Bind(Bind(fs, to, Current(fs, from)), from, None)
  }

  function Remove(fs: Fs, p: Path): Fs {
    if Current(fs, p).None? then fs else Bind(fs, p, None)
  }

  /** fsync of a directory: its present bindings become the only ones. */
  function SyncDir(fs: Fs, dir: nat): Fs {
    fs.(names := map p | p in fs.names :: if p.dir == dir then [Current(fs, p)] else fs.names[p])
  }

  /** What may be read under a name after a power failure: any binding since
      the last directory sync, with unsynchronised data replaced by anything. */
  ghost predicate AfterCrash(fs: Fs, p: Path, r: Option<Content>) {
    exists b :: b in Bindings(fs, p) &&
      match b
      case None => r == None
      case Some(i) => r.Some? && (i in fs.inodes && fs.inodes[i].synced ==> r.value == fs.inodes[i].content)
  }
}
