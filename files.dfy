/**
 * The part of java.io.File the tool uses, over a store that maps each existing
 * file's absolute path to its text content. Paths are absolute and use '/' as
 * File.separator.
 */
module Files {

  type Path = string

  /** `new File(parent, child)` for a child that starts with the separator. */
  function Under(parent: Path, child: string): Path {
    parent + child
  }

  /** `new File(parent, name)` for a plain file name. */
  function Child(parent: Path, name: string): Path {
    parent + "/" + name
  }

  class FileStore {
    var files: map<Path, string>

    constructor (initial: map<Path, string>)
      ensures files == initial
    {
      files := initial;
    }

    /** `File.exists()`. */
    predicate Exists(p: Path)
      reads this
    {
      p in files
    }

    /** `File.delete()`: true when there was a file to remove. */
    method Delete(p: Path) returns (deleted: bool)
      modifies this
      ensures deleted == (p in old(files))
      ensures files == old(files) - {p}
    {
      deleted := p in files;
      files := files - {p};
    }

    /** Creating (or truncating) the file and writing `content` to it. */
    method Write(p: Path, content: string)
      modifies this
      ensures files == old(files)[p := content]
    {
      files := files[p := content];
    }

    /**
     * `File.renameTo(dest)`. Whether the platform lets the rename through is not
     * something the tool decides, so it is the parameter `permitted`; a missing
     * source always fails.
     */
    method RenameTo(source: Path, dest: Path, permitted: bool) returns (ok: bool)
      modifies this
      ensures ok == (permitted && source in old(files))
      ensures ok ==> files == (old(files) - {source})[dest := old(files)[source]]
      ensures !ok ==> files == old(files)
    {
      ok := permitted && source in files;
      if ok {
        files := (files - {source})[dest := files[source]];
      }
    }
  }
}
