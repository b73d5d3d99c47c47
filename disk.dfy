/**
 * The part of the file system the agentary code touches: regular files with
 * their contents, directories, and the paths on which every operation fails
 * (permissions, a full disk).  Paths are compared as strings.
 */
module Disk {
  import opened Wrappers

  /** What reading one file gives. */
  datatype FileState = Missing | Unreadable(reason: string) | Contents(data: string)

  class FileSystem {
    var files: map<string, string>
    var dirs: set<string>
    var failing: set<string>

    constructor(files0: map<string, string>, dirs0: set<string>, failing0: set<string>)
      ensures files == files0 && dirs == dirs0 && failing == failing0
    {
      files := files0;
      dirs := dirs0;
      failing := failing0;
    }

    /** `os.ReadFile`: a failing path is unreadable, an absent one is missing. */
    function Lookup(path: string): (r: FileState)
      reads this
      ensures path in failing ==> r.Unreadable?
      ensures path !in failing && path in files ==> r == Contents(files[path])
      ensures path !in failing && path !in files ==> r == Missing
    {
      if path in failing then Unreadable("permission denied")
      else if path in files then Contents(files[path])
      else Missing
    }

    /** The contents of a file, `""` when it does not exist. */
    function ContentOrEmpty(path: string): string
      reads this
    {
      if path in files then files[path] else ""
    }

    /** `os.MkdirAll`: fails on a failing path and adds the directory otherwise. */
    method MkdirAll(path: string) returns (err: Error)
      modifies this
      ensures path in failing ==> err.Some? && dirs == old(dirs)
      ensures path !in failing ==> err.None? && dirs == old(dirs) + {path}
      ensures files == old(files) && failing == old(failing)
    {
      if path in failing {
        return Some("mkdir " + path + ": permission denied");
      }
      dirs := dirs + {path};
      return None;
    }

    /** `os.WriteFile`: the file then holds exactly `text`. */
    method WriteFile(path: string, text: string) returns (err: Error)
      modifies this
      ensures path in failing ==> err.Some? && files == old(files)
      ensures path !in failing ==> err.None? && files == old(files)[path := text]
      ensures dirs == old(dirs) && failing == old(failing)
    {
      if path in failing {
        return Some("open " + path + ": permission denied");
      }
      files := files[path := text];
      return None;
    }

    /** Opening with `O_APPEND|O_CREATE` and writing `text`: the file ends with `text` and keeps what it had. */
    method AppendFile(path: string, text: string) returns (err: Error)
      modifies this
      ensures path in failing ==> err.Some? && files == old(files)
      ensures path !in failing ==> err.None? && files == old(files)[path := old(ContentOrEmpty(path)) + text]
      ensures dirs == old(dirs) && failing == old(failing)
    {
      if path in failing {
        return Some("open " + path + ": permission denied");
      }
      files := files[path := ContentOrEmpty(path) + text];
      return None;
    }
  }
}
