/** `_checkNameAndRealPath` (lib/ps_slave_servers.py:261-268, repeated at
    lib/ps_main_httpd.py:105-112) and the invariant it keeps: a registry of
    domain names to directories whose directories are absolute, carry no
    trailing slash, and never contain one another. */
module DirRegistry {
  import opened Wrappers
  import opened Text
  import opened PyDict
  import opened PsUtil

  /** `_checkNameAndRealPath(dictObj, name, realPath)` */
  function CheckNameAndRealPath(d: Dict<string, string>, name: string, realPath: string): (r: bool)
    requires d.Valid()
    ensures r <==> name !in d.m && IsAbs(realPath) && !EndsWith(realPath, "/")
                   && forall n :: n in d.m ==> !Overlap(realPath, d.m[n])
  {
    if name in d.m then false
    else if !IsAbs(realPath) || EndsWith(realPath, "/") then false
    else
      var values := d.Values();
      assert forall n :: n in d.m ==> exists k :: 0 <= k < |d.keys| && d.keys[k] == n;
      if IsPathOverlap(realPath, values) then false else true
  }

  /** What every registry of the slave servers keeps between calls. */
  ghost predicate WellFormed(d: Dict<string, string>) {
    && d.Valid()
    && (forall n :: n in d.m ==> IsAbs(d.m[n]) && !EndsWith(d.m[n], "/"))
    && (forall a, b :: a in d.m && b in d.m && a != b ==> !Overlap(d.m[a], d.m[b]))
  }

  /** An accepted directory keeps the registry well formed, and for a new
      name it is accepted exactly when the registry stays well formed. */
  lemma CheckIffWellFormed(d: Dict<string, string>, name: string, realPath: string)
    requires WellFormed(d) && name !in d.m
    ensures CheckNameAndRealPath(d, name, realPath) <==> WellFormed(d.Put(name, realPath))
  {
    var e := d.Put(name, realPath);
    if WellFormed(e) {
      forall n | n in d.m ensures !Overlap(realPath, d.m[n]) {
        assert n != name && e.m[n] == d.m[n] && e.m[name] == realPath;
      }
    }
  }
}
