/**
 The recursion of mkbootfs as it runs: two buffers hold the path of the file being read and the
 path being written, every level appends a name to both and cuts it off again.
 */
module BootFsWalk {
  import opened CStrings
  import opened Cpio
  import opened BootFs
  import opened Wrappers

  // ---- C strings in buffers ----

  /** The buffer holds this path and its terminator. */
  ghost predicate Shows(a: array<char>, path: string)
    reads a
  {
    |path| < a.Length && a[..|path|] == path && a[|path|] == NUL && NUL !in path
  }

  method CopyName(a: array<char>, at: nat, name: string)
    requires at + |name| < a.Length
    modifies a
    ensures a[..at] == old(a[..at]) && a[at..at + |name|] == name && a[at + |name|] == NUL
  {
    forall k | 0 <= k < |name| {
      a[at + k] := name[k];
    }
    a[at + |name|] := NUL;
  }

  /** A name is put behind the path with a slash between. */
  method Descend(a: array<char>, len: nat, name: string)
    requires len + 1 + |name| < a.Length && NUL !in a[..len] && NUL !in name
    modifies a
    ensures Shows(a, old(a[..len]) + "/" + name) && a[..len] == old(a[..len])
  {
    a[len] := '/';
    CopyName(a, len + 1, name);
    assert a[..len] == a[..len + 1][..len];
    assert a[..len + 1 + |name|] == a[..len] + [a[len]] + a[len + 1..len + 1 + |name|];
    assert a[len] == a[..len + 1][len];
  }

  // ---- the file system ----

  /** What lstat, open, readlink and readdir find under each path. */
  type Fs = map<string, Node>

  ghost predicate Mounted(fs: Fs, path: string, node: Node)
    decreases node
  {
    && path in fs && fs[path] == node
    && (node.Dir? ==> forall i :: 0 <= i < |node.children| ==>
          NUL !in node.children[i].name && Mounted(fs, path + "/" + node.children[i].name, node.children[i].node))
  }

  /** How far the paths below a node go beyond its own. */
  function Reach(node: Node): nat
  {
    if node.Dir? then KidsReach(node.children) else 0
  }

  function KidsReach(children: seq<Child>): nat
  {
    if children == [] then 0
    else
      var r, later := 1 + |children[0].name| + Reach(children[0].node), KidsReach(children[1..]);
      if r > later then r else later
  }

  lemma {:induction false} ReachBelow(children: seq<Child>, name: string)
    requires name in Names(children)
    ensures 1 + |name| + Reach(Lookup(children, name)) <= KidsReach(children)
  {
    if children[0].name != name {
      ReachBelow(children[1..], name);
    }
  }

  lemma {:induction false} FoundAt(children: seq<Child>, name: string) returns (i: nat)
    requires name in Names(children)
    ensures i < |children| && children[i] == Child(name, Lookup(children, name))
  {
    if children[0].name == name {
      i := 0;
    } else {
      var j := FoundAt(children[1..], name);
      i := j + 1;
    }
  }

  lemma MountedBelow(fs: Fs, path: string, node: Node, name: string)
    requires Mounted(fs, path, node) && node.Dir? && name in Names(node.children)
    ensures NUL !in name && Mounted(fs, path + "/" + name, Lookup(node.children, name))
  {
    var i := FoundAt(node.children, name);
  }

  // ---- the walk ----

  /** The entries of what a directory holds, without its own. */
  function Below(node: Node, path: string): Option<seq<Entry>>
    requires node.Dir?
  {
    FlattenAll(Listing(node.children), node.children, path)
  }

  /** What archiving these entries does to the output. */
  ghost predicate Wrote(w: Writer, out: string, inode: nat, entries: seq<Entry>)
    reads w
  {
    w.Valid() && w.stdout == AllEjected(out, entries, inode) && w.nextInode == inode + |entries|
  }

  lemma WroteMore(w: Writer, out: string, inode: nat, done: seq<Entry>, mid: string, next: nat, own: seq<Entry>)
    requires mid == AllEjected(out, done, inode) && next == inode + |done| && Wrote(w, mid, next, own)
    ensures Wrote(w, out, inode, done + own)
  {
    EjectedAppend(out, done, own, inode);
  }

  function Onto(done: seq<Entry>, later: Option<seq<Entry>>): Option<seq<Entry>>
  {
    if later.None? then None else Some(done + later.value)
  }

  lemma OntoStep(done: seq<Entry>, names: seq<string>, children: seq<Child>, path: string)
    requires names != [] && forall n :: n in names ==> n in Names(children)
    ensures var own := Flatten(Lookup(children, names[0]), Join(path, names[0]));
            var later := FlattenAll(names[1..], children, path);
            Onto(done, FlattenAll(names, children, path)) == if own.None? then None else Onto(done + own.value, later)
  {
    var own := Flatten(Lookup(children, names[0]), Join(path, names[0]));
    var later := FlattenAll(names[1..], children, path);
    if own.Some? && later.Some? {
      assert done + (own.value + later.value) == (done + own.value) + later.value;
    }
  }

  lemma OntoEnds(done: seq<Entry>, later: Option<seq<Entry>>)
    ensures Onto([], later) == later && Onto(done, Some([])) == Some(done)
  {
    assert done + [] == done && (later.Some? ==> [] + later.value == later.value);
  }

  class Walker {
    const fs: Fs
    const src: array<char>
    const dst: array<char>
    const writer: Writer

    /** The buffers of archive, still to be filled. */
    constructor (fs: Fs, writer: Writer)
      ensures this.fs == fs && this.writer == writer
      ensures fresh(src) && fresh(dst) && src != dst && src.Length == dst.Length == BUFFER
    {
      this.fs, this.writer := fs, writer;
      src, dst := new char[BUFFER], new char[BUFFER];
    }

    /** The buffers hold the paths of a node of the file system, with room for all below it. */
    ghost predicate Placed(from: string, path: string, node: Node)
      reads src, dst, writer
    {
      && src != dst && writer.Valid()
      && Shows(src, from) && Shows(dst, path) && Mounted(fs, from, node)
      && |from| + Reach(node) < src.Length && |path| + Reach(node) < dst.Length
    }

    /** The walk succeeds if and only if there are entries; then they have been written behind what
        was there, and the buffers hold the same paths. */
    ghost predicate Done(ok: bool, entries: Option<seq<Entry>>, out: string, inode: nat, from: string, path: string)
      reads src, dst, writer
    {
      && (ok <==> entries.Some?)
      && (ok ==> Shows(src, from) && Shows(dst, path) && Wrote(writer, out, inode, entries.value))
    }

    /** _archive: the file the path names is found, its entries are written under the other path,
        and both buffers are left as they were. */
    method Archive(ilen: nat, olen: nat, ghost from: string, ghost path: string, ghost node: Node) returns (ok: bool)
      requires Placed(from, path, node) && ilen == |from| && olen == |path|
      modifies src, dst, writer
      ensures Done(ok, Flatten(node, path), old(writer.stdout), old(writer.nextInode), from, path)
      decreases Height(node), 0
    {
      StrShown(src, from);
      var found := fs[Str(src[..])];
      if found.Special? {
        return false;
      }
      ghost var out, inode := writer.stdout, writer.nextInode;
      EjectNode(found, path);
      ok := true;
      if found.Dir? {
        ghost var mid := writer.stdout;
        ok := ArchiveDir(ilen, olen, from, path, node);
        DoneDir(ok, node, out, inode, mid, from, path);
      }
    }

    lemma DoneDir(ok: bool, node: Node, out: string, inode: nat, mid: string, from: string, path: string)
      requires node.Dir? && mid == AllEjected(out, [EntryOf(node, path)], inode)
      requires Done(ok, Below(node, path), mid, inode + 1, from, path)
      ensures Done(ok, Flatten(node, path), out, inode, from, path)
    {
      if ok {
        WroteMore(writer, out, inode, [EntryOf(node, path)], mid, inode + 1, Below(node, path).value);
      }
    }

    method EjectNode(found: Node, ghost path: string)
      requires writer.Valid() && Shows(dst, path) && !found.Special?
      modifies writer
      ensures Wrote(writer, old(writer.stdout), old(writer.nextInode), [EntryOf(found, path)])
    {
      StrShown(dst, path);
      var e := EntryOf(found, Str(dst[..]));
      OneEjected(writer.stdout, e, writer.nextInode);
      writer.Eject(e);
    }

    /** One turn of the loop of _archive_dir. */
    method ArchiveChild(ilen: nat, olen: nat, name: string, ghost from: string, ghost path: string, ghost node: Node)
        returns (ok: bool)
      requires Placed(from, path, node) && ilen == |from| && olen == |path|
      requires node.Dir? && name in Names(node.children)
      modifies src, dst, writer
      ensures var own := Flatten(Lookup(node.children, name), Join(path, name));
              Done(ok, own, old(writer.stdout), old(writer.nextInode), from, path)
      decreases KidsHeight(node.children), 1
    {
      ghost var child := Lookup(node.children, name);
      MountedBelow(fs, from, node, name);
      ReachBelow(node.children, name);
      var t := |name|;
      Descend(src, ilen, name);
      if olen > 0 {
        Descend(dst, olen, name);
        ok := Archive(ilen + t + 1, olen + t + 1, from + "/" + name, path + "/" + name, child);
      } else {
        CopyName(dst, 0, name);
        assert dst[..|name|] == dst[0..|name|];
        ok := Archive(ilen + t + 1, t, from + "/" + name, name, child);
      }
      if ok {
        CutBack(src, ilen, from, name);
        CutBackOut(olen, path, name);
      }
    }

    method CutBackOut(olen: nat, ghost path: string, ghost name: string)
      requires olen == |path| && Shows(dst, Join(path, name)) && NUL !in path
      modifies dst
      ensures Shows(dst, path)
    {
      dst[olen] := NUL;
    }

    method ArchiveDir(ilen: nat, olen: nat, ghost from: string, ghost path: string, ghost node: Node)
        returns (ok: bool)
      requires node.Dir? && Placed(from, path, node) && ilen == |from| && olen == |path|
      modifies src, dst, writer
      ensures Done(ok, Below(node, path), old(writer.stdout), old(writer.nextInode), from, path)
      decreases KidsHeight(node.children), 2
    {
      StrShown(src, from);
      var names := Listing(fs[Str(src[..])].children);
      ghost var below := FlattenAll(names, node.children, path);
      ghost var out, inode, done := writer.stdout, writer.nextInode, [];
      var i := 0;
      assert names[0..] == names;
      OntoEnds(done, below);
      while i < |names|
        invariant i <= |names| && Placed(from, path, node) && Wrote(writer, out, inode, done)
        invariant below == Onto(done, FlattenAll(names[i..], node.children, path))
      {
        assert names[i..][0] == names[i] && names[i..][1..] == names[i + 1..];
        OntoStep(done, names[i..], node.children, path);
        ghost var mid, next := writer.stdout, writer.nextInode;
        ok := ArchiveChild(ilen, olen, names[i], from, path, node);
        if !ok {
          return false;
        }
        ghost var own := Flatten(Lookup(node.children, names[i]), Join(path, names[i])).value;
        WroteMore(writer, out, inode, done, mid, next, own);
        done := done + own;
        i := i + 1;
      }
      assert names[i..] == [];
      OntoEnds(done, below);
      return true;
    }
  }

  lemma StrShown(a: array<char>, path: string)
    requires Shows(a, path)
    ensures Str(a[..]) == path
  {
    assert a[..][..|path|] == a[..|path|];
    StrIs(a[..], |path|);
  }

  lemma OneEjected(out: string, e: Entry, inode: nat)
    ensures AllEjected(out, [e], inode) == Ejected(out, e, inode)
  {
    var all := [e];
    assert all[0] == e && all[1..] == [];
    assert AllEjected(out, all, inode) == Written(Ejected(out, e, inode), all[1..], inode + 1, Ejected);
  }

  method CutBack(a: array<char>, len: nat, ghost path: string, ghost name: string)
    requires len == |path| && Shows(a, path + "/" + name)
    modifies a
    ensures Shows(a, path)
  {
    assert a[..len] == a[..len + 1 + |name|][..len] == path;
    assert forall c :: c in path ==> c in path + "/" + name;
    a[len] := NUL;
  }

  /** mkbootfs on one directory: the image written is the archive of its entries, in order. */
  method Mkbootfs(fs: Fs, start: string, prefix: string) returns (ok: bool, image: string)
    requires NUL !in start && NUL !in prefix && |start| < BUFFER && |prefix| < BUFFER
    requires start in fs ==> Mounted(fs, start, fs[start]) && |start| + Reach(fs[start]) < BUFFER
                             && |prefix| + Reach(fs[start]) < BUFFER
    ensures ok <==> start in fs && fs[start].Dir? && Below(fs[start], prefix).Some?
    ensures ok ==> image == Cpio.Archive(Below(fs[start], prefix).value)
  {
    image := "";
    if start !in fs || !fs[start].Dir? {
      return false, image;
    }
    var writer := new Writer();
    var walker := new Walker(fs, writer);
    CopyName(walker.src, 0, start);
    CopyName(walker.dst, 0, prefix);
    assert walker.src[..|start|] == walker.src[0..|start|] && walker.dst[..|prefix|] == walker.dst[0..|prefix|];
    ok := walker.ArchiveDir(|start|, |prefix|, start, prefix, fs[start]);
    if ok {
      ghost var entries := Below(fs[start], prefix).value;
      EjectedAppend("", entries, [LAST], FIRST_INODE);
      OneEjected(writer.stdout, LAST, writer.nextInode);
      writer.EjectTrailer();
      image := writer.stdout;
    }
  }

  /** Two file systems that differ only in the order in which directories list their names give the
      same image, and it can be read back. */
  lemma SameImage(a: Node, b: Node, path: string)
    requires a.Dir? && b.Dir? && Same(a, b)
    ensures Below(a, path) == Below(b, path)
    ensures Below(a, path).Some? && AllWritable(Below(a, path).value) ==>
              ReadArchive(Cpio.Archive(Below(b, path).value), 0) == Some(UpToTrailer(Below(a, path).value))
  {
    SameListing(a.children, b.children);
    OrderIndependentAll(Listing(a.children), a, b, path);
    if Below(a, path).Some? && AllWritable(Below(a, path).value) {
      RoundTrip(Below(a, path).value);
    }
  }

  /** What is reached below the top is in what is archived of it. */
  lemma BelowArchived(node: Node, path: string, route: seq<string>, e: Entry)
    requires node.Dir? && Below(node, path).Some? && route != [] && Archives(node, path, route, e)
    ensures e in Below(node, path).value
  {
    var n := route[0];
    var child := Lookup(node.children, n);
    ListedAll(node.children, n);
    PartOfAll(Listing(node.children), node.children, path, n);
    ArchivesIs(node, path, route, e);
    ReachedArchived(child, Join(path, n), route[1..]);
  }

  /** A reader of the image finds every file of the tree, with its mode and all of its data, and every
      link and directory, under its path. */
  lemma FilesComeBack(node: Node, path: string, route: seq<string>, e: Entry)
    requires node.Dir? && Below(node, path).Some? && AllWritable(Below(node, path).value)
    requires forall i :: 0 <= i < |Below(node, path).value| ==> Below(node, path).value[i].name != TRAILER
    requires route != [] && Archives(node, path, route, e)
    ensures var read := ReadArchive(Cpio.Archive(Below(node, path).value), 0);
            read.Some? && e in read.value
  {
    BelowArchived(node, path, route, e);
    RoundTrip(Below(node, path).value);
  }
}
