/**
 How mkbootfs walks a directory tree: which entries end up in the archive and in which order, and
 the two path buffers that the whole recursion shares.
 */
module BootFs {
  import opened CStrings
  import opened Cpio
  import opened Wrappers

  const BUFFER: nat := 8192
  const LINK_MAX: nat := 1024

  datatype Node =
    | File(mode: nat, data: string)
    | Link(mode: nat, target: string)
    | Dir(mode: nat, children: seq<Child>)
    | Special(mode: nat)

  /** The children of a directory are in the order in which it lists them. */
  datatype Child = Child(name: string, node: Node)

  // ---- the order of names ----

  /** strcmp(a, b) < 0 */
  predicate Less(a: string, b: string)
  {
    b != "" && (a == "" || a[0] < b[0] || (a[0] == b[0] && Less(a[1..], b[1..])))
  }

  lemma {:induction false} LessTransitive(a: string, b: string, c: string)
    requires Less(a, b) && Less(b, c)
    ensures Less(a, c)
  {
    if a != "" && a[0] == b[0] && b[0] == c[0] {
      LessTransitive(a[1..], b[1..], c[1..]);
    }
  }

  lemma {:induction false} LessTotal(a: string, b: string)
    ensures a == b <==> !Less(a, b) && !Less(b, a)
    ensures !(Less(a, b) && Less(b, a))
  {
    if a != "" && b != "" {
      LessTotal(a[1..], b[1..]);
      assert a == [a[0]] + a[1..] && b == [b[0]] + b[1..];
    }
  }

  predicate Sorted(names: seq<string>)
  {
    names == [] || ((forall n :: n in names[1..] ==> !Less(n, names[0])) && Sorted(names[1..]))
  }

  function Insert(x: string, names: seq<string>): seq<string>
  {
    if names == [] || !Less(names[0], x) then [x] + names else [names[0]] + Insert(x, names[1..])
  }

  function Sort(names: seq<string>): seq<string>
  {
    if names == [] then [] else Insert(names[0], Sort(names[1..]))
  }

  lemma {:induction false} InsertKeeps(x: string, names: seq<string>)
    ensures multiset(Insert(x, names)) == multiset(names) + multiset{x}
  {
    if names != [] {
      InsertKeeps(x, names[1..]);
      assert names == [names[0]] + names[1..];
    }
  }

  lemma {:induction false} InsertSorts(x: string, names: seq<string>)
    requires Sorted(names)
    ensures Sorted(Insert(x, names)) && multiset(Insert(x, names)) == multiset(names) + multiset{x}
  {
    InsertKeeps(x, names);
    if names == [] {
    } else if !Less(names[0], x) {
      forall n | n in names ensures !Less(n, x) {
        if n != names[0] {
          assert n in names[1..];
          NotLessTransitive(n, names[0], x);
        }
      }
      assert ([x] + names)[1..] == names;
    } else {
      InsertSorts(x, names[1..]);
      var r := Insert(x, names[1..]);
      assert ([names[0]] + r)[1..] == r;
      forall n | n in r ensures !Less(n, names[0]) {
        assert n in multiset(r);
        LessTotal(names[0], x);
      }
    }
  }

  lemma NotLessTransitive(a: string, b: string, c: string)
    requires !Less(a, b) && !Less(b, c)
    ensures !Less(a, c)
  {
    LessTotal(a, b);
    LessTotal(b, c);
    LessTotal(a, c);
    if Less(b, a) && Less(c, b) {
      LessTransitive(c, b, a);
    }
  }

  lemma {:induction false} SortSorts(names: seq<string>)
    ensures Sorted(Sort(names)) && multiset(Sort(names)) == multiset(names)
  {
    if names != [] {
      SortSorts(names[1..]);
      InsertSorts(names[0], Sort(names[1..]));
      assert names == [names[0]] + names[1..];
    }
  }

  lemma SameHead(a: seq<string>, b: seq<string>)
    requires Sorted(a) && Sorted(b) && multiset(a) == multiset(b) && a != [] && b != []
    ensures a[0] == b[0]
  {
    assert a[0] in multiset(a) && b[0] in multiset(b);
    assert a[0] in b && b[0] in a;
    LessTotal(a[0], b[0]);
  }

  /** There is only one way to sort: whatever qsort does, it is this. */
  lemma {:induction false} SortUnique(a: seq<string>, b: seq<string>)
    requires Sorted(a) && Sorted(b) && multiset(a) == multiset(b)
    ensures a == b
  {
    assert |a| == |multiset(a)| == |multiset(b)| == |b|;
    if a != [] {
      SameHead(a, b);
      assert multiset(a[1..]) == multiset(a) - multiset{a[0]} by {
        assert a == [a[0]] + a[1..];
      }
      assert multiset(b[1..]) == multiset(b) - multiset{b[0]} by {
        assert b == [b[0]] + b[1..];
      }
      SortUnique(a[1..], b[1..]);
    }
  }

  // ---- the entries of a tree ----

  function Names(children: seq<Child>): (names: seq<string>)
    ensures |names| == |children|
  {
    if children == [] then [] else [children[0].name] + Names(children[1..])
  }

  /** Dot files and anything called "root" are left out. */
  predicate Keep(name: string)
  {
    (name == "" || name[0] != '.') && name != "root"
  }

  function Kept(names: seq<string>): (kept: seq<string>)
    ensures forall n :: n in kept ==> n in names && Keep(n)
  {
    if names == [] then []
    else if Keep(names[0]) then [names[0]] + Kept(names[1..])
    else Kept(names[1..])
  }

  /** The names of a directory in the order in which they are archived. */
  function Listing(children: seq<Child>): (names: seq<string>)
    ensures forall n :: n in names ==> n in Names(children) && Keep(n)
  {
    SortSorts(Kept(Names(children)));
    var sorted := Sort(Kept(Names(children)));
    assert forall n :: n in sorted ==> n in multiset(sorted);
    sorted
  }

  function Height(node: Node): nat
  {
    if node.Dir? then 1 + KidsHeight(node.children) else 0
  }

  function KidsHeight(children: seq<Child>): nat
  {
    if children == [] then 0
    else
      var h, later := Height(children[0].node), KidsHeight(children[1..]);
      if h > later then h else later
  }

  function Lookup(children: seq<Child>, name: string): (node: Node)
    requires name in Names(children)
    ensures Height(node) <= KidsHeight(children)
  {
    if children[0].name == name then children[0].node else Lookup(children[1..], name)
  }

  function Join(path: string, name: string): string
  {
    if path == "" then name else path + "/" + name
  }

  /** The entry of one node; the target of a link is read into 1024 bytes. */
  function EntryOf(node: Node, path: string): Entry
    requires !node.Special?
  {
    match node
    case File(mode, data) => Entry(path, mode, data)
    case Link(mode, target) => Entry(path, mode, if |target| > LINK_MAX then target[..LINK_MAX] else target)
    case Dir(mode, _) => Entry(path, mode, "")
  }

  /** All entries of a node, or none when something in it cannot be archived. */
  function Flatten(node: Node, path: string): Option<seq<Entry>>
    decreases Height(node), 0
  {
    if node.Special? then None
    else if !node.Dir? then Some([EntryOf(node, path)])
    else
      var below := FlattenAll(Listing(node.children), node.children, path);
      if below.None? then None else Some([EntryOf(node, path)] + below.value)
  }

  function FlattenAll(names: seq<string>, children: seq<Child>, path: string): Option<seq<Entry>>
    requires forall n :: n in names ==> n in Names(children)
    decreases KidsHeight(children), 1 + |names|
  {
    if names == [] then Some([])
    else
      var first := Flatten(Lookup(children, names[0]), Join(path, names[0]));
      var later := FlattenAll(names[1..], children, path);
      if first.None? || later.None? then None else Some(first.value + later.value)
  }

  // ---- the order in which directories list their names does not matter ----

  /** The same tree, up to the order of the children at every level. */
  ghost predicate Same(a: Node, b: Node)
    decreases Height(a)
  {
    if a.Dir? && b.Dir? then
      && a.mode == b.mode
      && multiset(Names(a.children)) == multiset(Names(b.children))
      && forall n :: n in Names(a.children) && n in Names(b.children) ==>
           Same(Lookup(a.children, n), Lookup(b.children, n))
    else a == b
  }

  lemma {:induction false} KeptCount(names: seq<string>, n: string)
    ensures multiset(Kept(names))[n] == if Keep(n) then multiset(names)[n] else 0
  {
    if names != [] {
      KeptCount(names[1..], n);
      assert names == [names[0]] + names[1..];
    }
  }

  lemma SameListing(a: seq<Child>, b: seq<Child>)
    requires multiset(Names(a)) == multiset(Names(b))
    ensures Listing(a) == Listing(b)
  {
    var ka, kb := Kept(Names(a)), Kept(Names(b));
    forall n ensures multiset(ka)[n] == multiset(kb)[n] {
      KeptCount(Names(a), n);
      KeptCount(Names(b), n);
    }
    assert multiset(ka) == multiset(kb);
    SortSorts(ka);
    SortSorts(kb);
    SortUnique(Sort(ka), Sort(kb));
  }

  /** The archive is the same for any order in which the directories list their children. */
  lemma {:induction false} OrderIndependent(a: Node, b: Node, path: string)
    requires Same(a, b)
    ensures Flatten(a, path) == Flatten(b, path)
    decreases Height(a), 0
  {
    if a.Dir? && b.Dir? {
      SameListing(a.children, b.children);
      OrderIndependentAll(Listing(a.children), a, b, path);
    }
  }

  lemma {:induction false} OrderIndependentAll(names: seq<string>, a: Node, b: Node, path: string)
    requires a.Dir? && b.Dir? && Same(a, b)
    requires forall n :: n in names ==> n in Names(a.children) && n in Names(b.children)
    ensures FlattenAll(names, a.children, path) == FlattenAll(names, b.children, path)
    decreases KidsHeight(a.children), 1 + |names|
  {
    if names != [] {
      var n := names[0];
      OrderIndependent(Lookup(a.children, n), Lookup(b.children, n), Join(path, n));
      OrderIndependentAll(names[1..], a, b, path);
    }
  }

  // ---- exactly the nodes that can be reached through kept names are archived ----

  /** The node at the end of a list of names. */
  function At(node: Node, route: seq<string>): Option<Node>
    decreases route
  {
    if route == [] then Some(node)
    else if node.Dir? && Keep(route[0]) && route[0] in Names(node.children)
    then At(Lookup(node.children, route[0]), route[1..])
    else None
  }

  function PathOf(path: string, route: seq<string>): string
    decreases route
  {
    if route == [] then path else PathOf(Join(path, route[0]), route[1..])
  }

  lemma ListedAll(children: seq<Child>, n: string)
    ensures n in Listing(children) <==> n in Names(children) && Keep(n)
  {
    var kept := Kept(Names(children));
    KeptCount(Names(children), n);
    SortSorts(kept);
    assert n in multiset(Sort(kept)) <==> n in multiset(kept);
    assert n in Names(children) <==> n in multiset(Names(children));
  }

  /** A subtree of a directory is archived as part of it. */
  lemma {:induction false} PartOfAll(names: seq<string>, children: seq<Child>, path: string, n: string)
    requires n in names && forall m :: m in names ==> m in Names(children)
    requires FlattenAll(names, children, path).Some?
    ensures Flatten(Lookup(children, n), Join(path, n)).Some?
    ensures forall e :: e in Flatten(Lookup(children, n), Join(path, n)).value ==>
                          e in FlattenAll(names, children, path).value
  {
    if n != names[0] {
      PartOfAll(names[1..], children, path, n);
    }
  }

  lemma {:induction false} ReachedArchived(node: Node, path: string, route: seq<string>)
    requires Flatten(node, path).Some? && At(node, route).Some?
    ensures !At(node, route).value.Special?
    ensures EntryOf(At(node, route).value, PathOf(path, route)) in Flatten(node, path).value
    decreases route
  {
    if route != [] {
      var n := route[0];
      ListedAll(node.children, n);
      PartOfAll(Listing(node.children), node.children, path, n);
      ReachedArchived(Lookup(node.children, n), Join(path, n), route[1..]);
    }
  }

  /** The route to an entry of an archived tree. */
  lemma {:induction false} RouteTo(node: Node, path: string, e: Entry) returns (route: seq<string>)
    requires Flatten(node, path).Some? && e in Flatten(node, path).value
    ensures At(node, route).Some? && !At(node, route).value.Special?
    ensures e == EntryOf(At(node, route).value, PathOf(path, route))
    decreases Height(node), 0
  {
    if e == EntryOf(node, path) {
      route := [];
    } else {
      var n, later := RouteBelow(Listing(node.children), node, path, e);
      route := [n] + later;
      assert route[1..] == later;
    }
  }

  lemma {:induction false} RouteBelow(names: seq<string>, node: Node, path: string, e: Entry)
      returns (n: string, route: seq<string>)
    requires node.Dir? && forall m :: m in names ==> m in Names(node.children)
    requires FlattenAll(names, node.children, path).Some? && e in FlattenAll(names, node.children, path).value
    ensures n in names
    ensures var child := Lookup(node.children, n);
            && At(child, route).Some? && !At(child, route).value.Special?
            && e == EntryOf(At(child, route).value, PathOf(Join(path, n), route))
    decreases KidsHeight(node.children), 1 + |names|
  {
    var child := Lookup(node.children, names[0]);
    if e in Flatten(child, Join(path, names[0])).value {
      n := names[0];
      route := RouteTo(child, Join(path, n), e);
    } else {
      n, route := RouteBelow(names[1..], node, path, e);
    }
  }

  /** Something that stops the archive can be reached. */
  lemma {:induction false} RouteToSpecial(node: Node, path: string) returns (route: seq<string>)
    requires Flatten(node, path).None?
    ensures At(node, route).Some? && At(node, route).value.Special?
    decreases Height(node), 0
  {
    if node.Special? {
      route := [];
    } else {
      var n, later := SpecialBelow(Listing(node.children), node, path);
      route := [n] + later;
      assert route[1..] == later;
    }
  }

  lemma {:induction false} SpecialBelow(names: seq<string>, node: Node, path: string)
      returns (n: string, route: seq<string>)
    requires node.Dir? && forall m :: m in names ==> m in Names(node.children)
    requires FlattenAll(names, node.children, path).None?
    ensures n in names
    ensures var child := Lookup(node.children, n); At(child, route).Some? && At(child, route).value.Special?
    decreases KidsHeight(node.children), 1 + |names|
  {
    var child := Lookup(node.children, names[0]);
    if Flatten(child, Join(path, names[0])).None? {
      n := names[0];
      route := RouteToSpecial(child, Join(path, n));
    } else {
      n, route := SpecialBelow(names[1..], node, path);
    }
  }

  /** An entry has the mode of a node and what there is to the node: all of a file, the first 1024
      bytes of the target of a link, nothing of a directory. */
  predicate Holds(e: Entry, node: Node)
  {
    && e.mode == node.mode
    && (node.File? ==> e.data == node.data)
    && (node.Link? ==> e.data <= node.target && |e.data| == if |node.target| < 1024 then |node.target| else 1024)
    && (node.Dir? ==> e.data == "")
  }

  lemma EntryHolds(node: Node, path: string)
    requires !node.Special?
    ensures EntryOf(node, path).name == path && Holds(EntryOf(node, path), node)
  {
  }

  lemma HeldOnce(node: Node, e: Entry)
    requires !node.Special? && Holds(e, node)
    ensures e == EntryOf(node, e.name)
  {
  }

  /** The node at a route is archived under the path of the route. */
  ghost predicate Archives(node: Node, path: string, route: seq<string>, e: Entry)
  {
    && At(node, route).Some? && !At(node, route).value.Special?
    && e.name == PathOf(path, route) && Holds(e, At(node, route).value)
  }

  lemma ArchivesIs(node: Node, path: string, route: seq<string>, e: Entry)
    ensures Archives(node, path, route, e) <==>
              && At(node, route).Some? && !At(node, route).value.Special?
              && e == EntryOf(At(node, route).value, PathOf(path, route))
  {
    if At(node, route).Some? && !At(node, route).value.Special? {
      EntryHolds(At(node, route).value, PathOf(path, route));
      if Archives(node, path, route, e) {
        HeldOnce(At(node, route).value, e);
      }
    }
  }

  /** A tree can be archived if and only if no special file is reached through kept names, and its
      entries are exactly those of the nodes reached that way. */
  lemma EntriesExact(node: Node, path: string)
    ensures Flatten(node, path).Some? <==> forall route :: At(node, route).Some? ==> !At(node, route).value.Special?
    ensures Flatten(node, path).Some? ==>
              forall e :: e in Flatten(node, path).value <==> exists route :: Archives(node, path, route, e)
  {
    if Flatten(node, path).None? {
      var route := RouteToSpecial(node, path);
      assert At(node, route).Some?;
    } else {
      forall route | At(node, route).Some? ensures !At(node, route).value.Special? {
        ReachedArchived(node, path, route);
      }
      forall e ensures e in Flatten(node, path).value <==> exists route :: Archives(node, path, route, e) {
        if e in Flatten(node, path).value {
          var route := RouteTo(node, path, e);
          ArchivesIs(node, path, route, e);
          assert Archives(node, path, route, e);
        }
        forall route | Archives(node, path, route, e) ensures e in Flatten(node, path).value {
          ArchivesIs(node, path, route, e);
          ReachedArchived(node, path, route);
        }
      }
    }
  }

  /** What that means for each kind of node: a file is archived with its mode and all of its data, a link
      with the first 1024 bytes of its target, a directory with nothing. */
  lemma FileArchived(node: Node, path: string, route: seq<string>)
    requires Flatten(node, path).Some? && At(node, route).Some?
    ensures var n, name, entries := At(node, route).value, PathOf(path, route), Flatten(node, path).value;
            && (n.File? ==> Entry(name, n.mode, n.data) in entries)
            && (n.Link? && |n.target| <= 1024 ==> Entry(name, n.mode, n.target) in entries)
            && (n.Link? && |n.target| > 1024 ==> Entry(name, n.mode, n.target[..1024]) in entries)
            && (n.Dir? ==> Entry(name, n.mode, "") in entries)
  {
    ReachedArchived(node, path, route);
  }

  // ---- names, paths and their order ----

  /** Names that begin with a dot, and "root", are left out, and nothing else is. */
  lemma NamesKept(children: seq<Child>, n: string)
    ensures n in Listing(children) <==> n in Names(children) && !("." <= n) && n != "root"
  {
    ListedAll(children, n);
  }

  /** The order of strcmp: the names agree up to a place where the one ends first or is smaller. */
  lemma {:induction false} LessMeans(a: string, b: string)
    ensures Less(a, b) <==> exists k :: Before(a, b, k)
  {
    if a != "" && b != "" && a[0] == b[0] {
      LessMeans(a[1..], b[1..]);
      if k :| Before(a[1..], b[1..], k) {
        assert a[..k + 1] == [a[0]] + a[1..][..k] && b[..k + 1] == [b[0]] + b[1..][..k];
        assert Before(a, b, k + 1);
      }
      forall k | Before(a, b, k) ensures exists m :: Before(a[1..], b[1..], m) {
        assert k > 0;
        assert a[1..][..k - 1] == a[..k][1..] && b[1..][..k - 1] == b[..k][1..];
        assert Before(a[1..], b[1..], k - 1);
      }
    } else if Less(a, b) {
      assert Before(a, b, 0);
    } else {
      assert forall k :: 0 < k <= |a| && k <= |b| && a[..k] == b[..k] ==> a[..k][0] == b[..k][0];
    }
  }

  predicate Before(a: string, b: string, k: int)
  {
    0 <= k <= |a| && k < |b| && a[..k] == b[..k] && (k == |a| || a[k] < b[k])
  }

  /** The names of a route behind one another, each with a slash before it. */
  function Slashed(route: seq<string>): string
  {
    Joined(seq(|route|, i requires 0 <= i < |route| => "/" + route[i]))
  }

  lemma SlashedCons(route: seq<string>)
    requires route != []
    ensures Slashed(route) == "/" + route[0] + Slashed(route[1..])
  {
    var parts := seq(|route|, i requires 0 <= i < |route| => "/" + route[i]);
    assert parts[1..] == seq(|route[1..]|, i requires 0 <= i < |route[1..]| => "/" + route[1..][i]);
  }

  /** The path of an entry is the names on the way to it with slashes between them, behind the path of
      the root if that has one. */
  lemma {:induction false} PathMeans(path: string, route: seq<string>)
    ensures path != "" ==> PathOf(path, route) == path + Slashed(route)
    ensures path == "" && route != [] && route[0] != "" ==> PathOf(path, route) == route[0] + Slashed(route[1..])
    decreases |route|
  {
    if route == [] {
      assert path + Slashed(route) == path;
    } else {
      SlashedCons(route);
      PathMeans(Join(path, route[0]), route[1..]);
      assert path != "" ==> path + ("/" + route[0] + Slashed(route[1..])) == (path + "/" + route[0]) + Slashed(route[1..]);
    }
  }
}
