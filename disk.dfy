/**
 * A snapshot of the file system as the core sees it: the directories that
 * can be opened, each with the tree below it in listing order, the plain
 * files that exist, and the paths `is_writable` accepts.
 */
module Disk {

  /** One directory entry as the directory iterator lists it. */
  datatype Entry = File(name: string) | Dir(name: string, children: seq<Entry>)

  datatype Snapshot = Snapshot(dirs: map<string, seq<Entry>>, files: set<string>, writable: set<string>) {
    /**
     * Whether a directory iterator can open `path`: the empty path is
     * refused whatever the map holds.
     */
    predicate IsDir(path: string) {
      path != [] && path in dirs
    }

    /** `file_exists($path)`: true for files and directories, false for the empty path. */
    predicate Exists(path: string) {
      path != [] && (path in files || path in dirs)
    }

    /** `is_writable($path)`. */
    predicate IsWritable(path: string) {
      path in writable
    }
  }
}
