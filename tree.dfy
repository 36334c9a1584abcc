/** The part of a file system the installer moves around: files with their
    bytes and directories with named entries and a modification time. */
module Tree {

  newtype byte = x: int | 0 <= x < 256

  datatype Node = File(data: seq<byte>) | Sub(dir: Dir)

  /** A directory's entries by name and its mtime (what `os.path.getmtime`
      reports; a rename keeps it). */
  datatype Dir = Dir(entries: map<string, Node>, mtime: int)

  /** Python's `(d / name).exists()`: an entry of any kind. */
  predicate HasEntry(d: Dir, name: string) {
    name in d.entries
  }
}
