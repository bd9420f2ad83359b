/** An abstract snapshot of the part of the file system the setup scripts
    read: the entries of one directory in the order `os.listdir` returns
    them, each with its name, whether it is a directory, and (for a
    directory) the names it lists, again in listing order. */
module Snapshot {
  import opened Lists

  /** One entry of a directory listing. `files` is the listing of the entry
      when it is a directory and is ignored otherwise. */
  datatype Entry = Entry(name: string, isDir: bool, files: seq<string>)

  /** `os.path.isdir(join(root, name))` and `os.listdir(join(root, name))`:
      the listing of the directory called `name` in `root`, or None when
      `root` holds no directory of that name. */
  function FolderListing(root: seq<Entry>, name: string): (r: Option<seq<string>>)
    ensures r.None? <==> forall k :: 0 <= k < |root| ==> !(root[k].name == name && root[k].isDir)
    ensures r.Some? ==> Entry(name, true, r.value) in root
  {
    if root == [] then None
    else if root[0].name == name && root[0].isDir then Some(root[0].files)
    else FolderListing(root[1..], name)
  }
}
