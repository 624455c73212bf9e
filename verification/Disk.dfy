/** The files the loop can see: project YAML, and the durable snapshot directory. */
module Disk {
  import opened Text
  import opened YamlEdit

  /** A project file, or one of the files inside the snapshot directory. */
  datatype Path =
    | Project(name: string)
    | Copy(index: nat, base: string)
    | Manifest
    | CorruptManifest

  /** One manifest line of a snapshot. */
  datatype FileRecord = FileRecord(path: Path, existed: bool, stored: Option<Path>)

  /** File contents up to YAML and JSON syntax. Blank covers empty and comment-only files. */
  datatype Content =
    | Blank(text: string)
    | Broken(text: string)
    | Document(root: seq<Entry>)
    | Records(files: seq<FileRecord>)

  type Files = map<Path, Content>

  /** loadYAMLDoc: a missing or blank file is an empty mapping; anything that is not a
      mapping is an error. */
  function Load(disk: Files, path: Path): Option<seq<Entry>> {
    if path !in disk then Some([])
    else match disk[path]
      case Blank(_) => Some([])
      case Document(root) => Some(root)
      case Broken(_) => None
      case Records(_) => None
  }

  /** A file that is not there, or holds no more than comments, reads as an empty mapping; a file that does
      not parse is an error, never an empty one. */
  lemma LoadIs(disk: Files, path: Path)
    ensures path !in disk ==> Load(disk, path) == Some([])
    ensures path in disk && disk[path].Blank? ==> Load(disk, path) == Some([])
    ensures path in disk && disk[path].Document? ==> Load(disk, path) == Some(disk[path].root)
    ensures path in disk && (disk[path].Broken? || disk[path].Records?) ==> Load(disk, path).None?
  {
  }

  /** Whether path is inside the snapshot directory. */
  predicate InSnapshot(path: Path) { !path.Project? }

  /** The disk as an object. Every write is atomic (atomicfile.Write), and the ghost
      history keeps each state the disk passed through, oldest first. */
  class FileSystem {
    var files: Files
    ghost var history: seq<Files>

    ghost predicate Valid()
      reads this
    {
      history != [] && history[|history| - 1] == files
    }

    constructor (files: Files)
      ensures Valid() && this.files == files && history == [files]
    {
      this.files := files;
      this.history := [files];
    }

    method Write(path: Path, content: Content)
      requires Valid()
      modifies this
      ensures Valid() && files == old(files)[path := content]
      ensures history == old(history) + [files]
    {
      files := files[path := content];
      history := history + [files];
    }

    method Remove(path: Path)
      requires Valid()
      modifies this
      ensures Valid() && files == old(files) - {path}
      ensures history == old(history) + [files]
    {
      files := files - {path};
      history := history + [files];
    }
  }
}
