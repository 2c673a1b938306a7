/** Entries of a directory listing. */
module Direntries {
  datatype Direntry = Direntry(name: string, size: int, ownerGroup: string, isDir: bool, unsure: bool)
}
