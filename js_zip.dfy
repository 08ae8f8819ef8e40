/** The part of the JSZip archive object that the packaging code uses: a
    root object whose `file(path, data, options)` and `folder(name)` calls
    add entries, kept in the order they were first added. Compression and
    the generated bytes are not modelled. */
module JsZip {
  import opened Wrappers

  /** An archive entry: a file whose content is a string (taken verbatim,
      or base64 text when `{ base64: true }` was passed), or a directory. */
  datatype ZipEntry = FileEntry(data: string, base64: bool) | DirEntry

  /** What `generateAsync` packs: the entries by path, in insertion order. */
  datatype Archive = Archive(entries: map<string, ZipEntry>, order: seq<string>)

  /** The order lists each path of the map exactly once. */
  ghost predicate WellFormed(a: Archive) {
    && NoDuplicates(a.order)
    && (forall p :: p in a.entries <==> p in a.order)
  }

  /** The path of a folder entry always ends in "/". */
  function WithTrailingSlash(name: string): (r: string)
    ensures r != [] && r[|r| - 1] == '/'
    ensures r == name || r == name + "/"
    ensures name != [] && name[|name| - 1] == '/' ==> r == name
  {
    if name != [] && name[|name| - 1] == '/' then name else name + "/"
  }

  /** The archive after `file(path, data, options)`: the entry at `path` is
      set, every other entry stays as it was, and a new path goes after all
      the existing ones, which keep their places. */
  function WithFile(a: Archive, path: string, data: string, base64: bool): (r: Archive)
    ensures WellFormed(a) ==> WellFormed(r)
    ensures path in r.entries && r.entries[path] == FileEntry(data, base64)
    ensures forall p :: p != path ==> (p in r.entries <==> p in a.entries)
    ensures forall p :: p in a.entries && p != path ==> r.entries[p] == a.entries[p]
    ensures path in a.entries ==> r.order == a.order
    ensures path !in a.entries ==> r.order == a.order + [path]
  {
    Archive(a.entries[path := FileEntry(data, base64)],
            if path in a.entries then a.order else a.order + [path])
  }

  /** The archive after `folder(name)`: a directory entry at the folder's
      path, added after the existing entries unless that path is taken. */
  function WithFolder(a: Archive, name: string): (r: Archive)
    ensures WellFormed(a) ==> WellFormed(r)
    ensures WithTrailingSlash(name) in r.entries
    ensures WithTrailingSlash(name) in a.entries ==> r == a
    ensures WithTrailingSlash(name) !in a.entries ==>
      && r.entries == a.entries[WithTrailingSlash(name) := DirEntry]
      && r.order == a.order + [WithTrailingSlash(name)]
  {
    var root := WithTrailingSlash(name);
    if root in a.entries then a else Archive(a.entries[root := DirEntry], a.order + [root])
  }

  class Zip {
    var entries: map<string, ZipEntry>
    var order: seq<string>

    ghost predicate Valid()
      reads this
    {
      WellFormed(Archive(entries, order))
    }

    /** `new JSZip()`: an empty archive. */
    constructor ()
      ensures Valid() && entries == map[] && order == []
    {
      entries := map[];
      order := [];
    }

    /** `zip.file(path, data, options)`: adds the file, or replaces the
        content of an entry already at that path, which keeps its place. */
    method File(path: string, data: string, base64: bool)
      requires Valid()
      modifies this
      ensures Valid()
      ensures Snapshot() == WithFile(old(Snapshot()), path, data, base64)
    {
      if path !in entries {
        order := order + [path];
      }
      entries := entries[path := FileEntry(data, base64)];
    }

    /** `zip.folder(name)`: adds a directory entry at `name` with a trailing
        "/" unless one is there, and returns that path, the prefix under
        which the returned folder object's `file` calls write. */
    method Folder(name: string) returns (root: string)
      requires Valid()
      modifies this
      ensures Valid()
      ensures root == WithTrailingSlash(name)
      ensures Snapshot() == WithFolder(old(Snapshot()), name)
    {
      root := WithTrailingSlash(name);
      if root !in entries {
        order := order + [root];
        entries := entries[root := DirEntry];
      }
    }

    /** The archive `generateAsync` packs from the current state. */
    function Snapshot(): (a: Archive)
      reads this
      requires Valid()
      ensures WellFormed(a) && a.entries == entries && a.order == order
    {
      Archive(entries, order)
    }
  }
}
