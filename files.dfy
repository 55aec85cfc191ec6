/**
  The part of the filesystem the plugin touches: file contents by absolute
  path, and the log of every write (a write fires the file watcher even when
  it stores the bytes that were already there).
 */
module Files {
  import opened Wrappers

  type Path = string
  type Bytes = seq<bv8>

  class Disk {
    var files: map<Path, Bytes>
    var writes: seq<Path>

    constructor (files: map<Path, Bytes>)
      ensures this.files == files && writes == []
    {
      this.files := files;
      writes := [];
    }

    /** `fs.readFileSync`: fails when nothing is stored at `path`. */
    method ReadFile(path: Path) returns (r: Option<Bytes>)
      ensures r.Some? <==> path in files
      ensures r.Some? ==> r.value == files[path]
    {
      if path in files {
        r := Some(files[path]);
      } else {
        r := None;
      }
    }

    /** `fs.writeFileSync`: replaces the whole content of `path`. */
    method WriteFile(path: Path, data: Bytes)
      modifies this
      ensures files == old(files)[path := data]
      ensures writes == old(writes) + [path]
    {
      files := files[path := data];
      writes := writes + [path];
    }
  }
}
