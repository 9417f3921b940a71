/** The parts of a `vscode.Uri` the file systems of src/fs.ts and
    src/debug.ts read and write, and the file status record they return. */
module Uris {

  import opened Wrappers

  datatype Uri = Uri(scheme: string, authority: string, path: string, query: string, fragment: string)

  /** The schemes whose path the `Uri` constructor makes absolute. */
  predicate HasAbsolutePath(scheme: string) {
    scheme == "file" || scheme == "http" || scheme == "https"
  }

  /** The scheme a non-strict `Uri` is given: an empty one becomes `file`. */
  function SchemeFix(scheme: string): (s: string)
    ensures s != ""
    ensures scheme != "" ==> s == scheme
    ensures scheme == "" ==> s == "file"
  {
    if scheme == "" then "file" else scheme
  }

  /** The path a `Uri` is given: for `file`, `http` and `https` an empty
      path becomes "/" and a relative one gets a leading "/"; other schemes
      keep it as it is. */
  function ReferenceResolution(scheme: string, path: string): (p: string)
    ensures HasAbsolutePath(scheme) ==> |p| > 0 && p[0] == '/'
    ensures HasAbsolutePath(scheme) && |path| > 0 && path[0] == '/' ==> p == path
    ensures !HasAbsolutePath(scheme) ==> p == path
  {
    if !HasAbsolutePath(scheme) then path
    else if |path| == 0 then "/"
    else if path[0] != '/' then "/" + path
    else path
  }

  /** What every `vscode.Uri` value satisfies, because its constructor
      establishes it: a scheme, and a path already in resolved form. */
  predicate IsUri(u: Uri) {
    u.scheme != "" && ReferenceResolution(u.scheme, u.path) == u.path
  }

  /** `new Uri(scheme, authority, path, query, fragment)` as `Uri.with`
      calls it, non-strict: the scheme is fixed and the path resolved. */
  function NewUri(scheme: string, authority: string, path: string, query: string, fragment: string): (u: Uri)
    ensures IsUri(u)
    ensures u.scheme == SchemeFix(scheme) && u.authority == authority
    ensures u.path == ReferenceResolution(u.scheme, path)
    ensures u.query == query && u.fragment == fragment
  {
    var s := SchemeFix(scheme);
    Uri(s, authority, ReferenceResolution(s, path), query, fragment)
  }

  /** `getEncapsulatedUri`: the authority becomes the scheme again, `file`
      when there is none, and the authority is emptied; the query and
      fragment are kept and the path is resolved for the new scheme. */
  function GetEncapsulatedUri(u: Uri): (r: Uri)
    ensures IsUri(r)
    ensures r.scheme == (if u.authority == "" then "file" else u.authority) && r.authority == ""
    ensures r.path == ReferenceResolution(r.scheme, u.path)
    ensures r.query == u.query && r.fragment == u.fragment
  {
    NewUri(u.authority, "", u.path, u.query, u.fragment)
  }

  /** A URI moved into the authority of a wrapper, as `makeUri` and a
      `readonly:` URI do, comes back unchanged. */
  lemma {:induction false} EncapsulateWrapped(v: Uri, scheme: string, fragment: string)
    requires IsUri(v) && v.authority == ""
    ensures GetEncapsulatedUri(v.(scheme := scheme, authority := v.scheme, fragment := fragment)) ==
            v.(fragment := fragment)
  {
    assert SchemeFix(v.scheme) == v.scheme;
  }

  datatype FileType = Unknown | File | Directory | SymbolicLink

  datatype Permission = Readonly

  /** `vscode.FileStat`. A size that JavaScript would compute as NaN is `None`. */
  datatype FileStat = FileStat(fileType: FileType, ctime: int, mtime: int, size: Option<int>, permissions: Option<Permission>)
}
