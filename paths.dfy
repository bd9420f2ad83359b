/** POSIX path operations of Python's `os.path`. */
module Paths {
  import opened Strings

  /** Two-argument `os.path.join` on POSIX: an absolute second part replaces
      the first; otherwise a '/' is inserted exactly when the first part is
      non-empty and does not already end with one. */
  function Join(dir: string, name: string): (r: string)
    ensures EndsWith(r, name)
    ensures StartsWith(name, "/") ==> r == name
    ensures !StartsWith(name, "/") ==> StartsWith(r, dir)
    ensures !StartsWith(name, "/") && (dir == [] || dir[|dir| - 1] == '/') ==> r == dir + name
    ensures !StartsWith(name, "/") && dir != [] && dir[|dir| - 1] != '/' ==> r == dir + "/" + name
  {
    if |name| > 0 && name[0] == '/' then name
    else if dir == [] || dir[|dir| - 1] == '/' then
      assert (dir + name)[|dir|..] == name;
      dir + name
    else
      assert (dir + "/" + name)[|dir| + 1..] == name;
      dir + "/" + name
  }
}
