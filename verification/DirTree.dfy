/** The file system the tree walkers of lab_02/ftw see: a finite tree, path names,
    and what `lstat` and `chdir` make of a path. */
module DirTree {
  import opened Options
  import opened Strings

  const NAME_MAX: nat := 255

  datatype Kind = Regular | Block | Character | Fifo | Link | Socket

  /** Missing: `lstat` fails.  A directory can be opened when it is readable; names
      in it can be looked up, and it can be entered, when it is searchable. */
  datatype Node =
    | Missing
    | File(kind: Kind)
    | Dir(readable: bool, searchable: bool, entries: Listing)

  /** What `readdir` delivers, one call after the other; "." and ".." may be among
      the names, with a node that nobody looks at. */
  datatype Listing = End | Entry(name: string, node: Node, rest: Listing)

  predicate Dots(name: string) { name == "." || name == ".." }

  predicate Name(s: string) { s != "" && '/' !in s && NUL !in s && |s| <= NAME_MAX }

  /** The node behind a name in a directory. */
  function Find(l: Listing, name: string): Node {
    match l
    case End => Missing
    case Entry(n, node, rest) => if n == name then node else Find(rest, name)
  }

  predicate Has(l: Listing, name: string) {
    l.Entry? && (l.name == name || Has(l.rest, name))
  }

  /** Proper names, each used once in its directory. */
  predicate Sound(node: Node) {
    node.Dir? ==> SoundList(node.entries)
  }

  predicate SoundList(l: Listing) {
    l.Entry? ==> Name(l.name) && !Has(l.rest, l.name) && Sound(l.node) && SoundList(l.rest)
  }

  predicate Enterable(node: Node) { node.Dir? && node.searchable }

  function Child(node: Node, name: string): Node {
    if Enterable(node) then Find(node.entries, name) else Missing
  }

  function Size(node: Node): (n: nat)
    ensures n > 0
  {
    if node.Dir? then 1 + SizeList(node.entries) else 1
  }

  function SizeList(l: Listing): nat {
    if l.End? then 0 else 1 + Size(l.node) + SizeList(l.rest)
  }

  lemma {:induction false} FindSound(l: Listing, name: string)
    requires SoundList(l)
    ensures Sound(Find(l, name))
  {
    if l.Entry? && l.name != name {
      FindSound(l.rest, name);
    }
  }

  /** Every name still to be read from a directory leads to its own entry. */
  ghost predicate Within(l: Listing, all: Listing) {
    forall name :: Has(l, name) ==> Find(all, name) == Find(l, name)
  }

  lemma WithinRest(l: Listing, all: Listing)
    requires l.Entry? && Within(l, all) && !Has(l.rest, l.name)
    ensures Find(all, l.name) == l.node && Within(l.rest, all)
  {
    assert Has(l, l.name);
    forall name | Has(l.rest, name)
      ensures Find(all, name) == Find(l.rest, name)
    {
      assert Has(l, name);
    }
  }

  // ------------------------------------------------------------- locations

  /** A place in the tree, as the names on the way from the root. */
  type Location = seq<string>

  function At(fs: Node, loc: Location): Node {
    if loc == [] then fs else Child(At(fs, loc[..|loc| - 1]), loc[|loc| - 1])
  }

  function Parent(loc: Location): Location { if loc == [] then [] else loc[..|loc| - 1] }

  lemma {:induction false} AtSound(fs: Node, loc: Location)
    requires Sound(fs)
    ensures Sound(At(fs, loc))
  {
    if loc != [] {
      AtSound(fs, loc[..|loc| - 1]);
      var d := At(fs, loc[..|loc| - 1]);
      if Enterable(d) {
        FindSound(d.entries, loc[|loc| - 1]);
      }
    }
  }

  /** The components of a path name. */
  function Components(path: string): seq<string> {
    if path == "" then []
    else if path[0] == '/' then Components(path[1..])
    else
      var n := FirstOf(path, '/');
      [path[..n]] + Components(path[n..])
  }

  lemma ComponentsOfName(name: string)
    requires name != "" && '/' !in name
    ensures Components(name) == [name]
  {
    assert name[..|name|] == name;
    FirstOfIs(name, '/', |name|);
    assert name[|name|..] == "";
  }

  lemma {:induction false} ComponentsJoin(a: string, b: string)
    ensures Components(a + "/" + b) == Components(a) + Components(b)
    decreases |a|
  {
    var all := a + "/" + b;
    if a == "" {
      assert all[1..] == b;
    } else if a[0] == '/' {
      ComponentsJoin(a[1..], b);
      assert all[1..] == a[1..] + "/" + b;
    } else {
      var n := FirstOf(a, '/');
      NoneBefore(a, '/');
      assert all[..n] == a[..n];
      FirstOfIs(all, '/', n);
      ComponentsJoin(a[n..], b);
      assert all[n..] == a[n..] + "/" + b;
    }
  }

  function Enter(loc: Location, name: string): Location {
    if name == "." then loc else if name == ".." then Parent(loc) else loc + [name]
  }

  /** Where a list of components leads from a location; every component needs a
      directory that can be searched. */
  function Follow(fs: Node, loc: Location, names: seq<string>): Option<Location>
    decreases |names|
  {
    if names == [] then Some(loc)
    else if !Enterable(At(fs, loc)) then None
    else Follow(fs, Enter(loc, names[0]), names[1..])
  }

  function Resolve(fs: Node, cwd: Location, path: string): Option<Location> {
    if path == "" then None
    else Follow(fs, if path[0] == '/' then [] else cwd, Components(path))
  }

  /** What `lstat` finds; a trailing slash insists on a directory. */
  function Lookup(fs: Node, cwd: Location, path: string): Node {
    match Resolve(fs, cwd, path)
    case None => Missing
    case Some(loc) =>
      var node := At(fs, loc);
      if path[|path| - 1] == '/' && !node.Dir? then Missing else node
  }

  lemma {:induction false} FollowConcat(fs: Node, loc: Location, a: seq<string>, b: seq<string>)
    ensures Follow(fs, loc, a + b) ==
            match Follow(fs, loc, a)
            case None => None
            case Some(mid) => Follow(fs, mid, b)
    decreases |a|
  {
    if a == [] {
      assert a + b == b;
    } else {
      assert (a + b)[1..] == a[1..] + b;
      if Enterable(At(fs, loc)) {
        FollowConcat(fs, Enter(loc, a[0]), a[1..], b);
      }
    }
  }

  /** A slash after the path of a directory changes nothing. */
  lemma ResolveSlash(fs: Node, cwd: Location, path: string)
    requires path != ""
    ensures Resolve(fs, cwd, path + "/") == Resolve(fs, cwd, path)
  {
    ComponentsJoin(path, "");
    assert path + "/" + "" == path + "/";
    assert Components(path) + [] == Components(path);
  }

  lemma LookupSlash(fs: Node, cwd: Location, path: string)
    requires Lookup(fs, cwd, path).Dir?
    ensures Lookup(fs, cwd, path + "/") == Lookup(fs, cwd, path)
  {
    ResolveSlash(fs, cwd, path);
  }

  lemma LookupSound(fs: Node, cwd: Location, path: string)
    requires Sound(fs)
    ensures Sound(Lookup(fs, cwd, path))
  {
    var loc := Resolve(fs, cwd, path);
    if loc.Some? {
      AtSound(fs, loc.value);
    }
  }

  /** A name after the path of a directory leads to the entry of that name. */
  lemma ResolveChild(fs: Node, cwd: Location, path: string, name: string)
    requires Lookup(fs, cwd, path).Dir? && Name(name) && !Dots(name)
    ensures path != "" && Resolve(fs, cwd, path).Some?
    ensures Enterable(Lookup(fs, cwd, path)) ==>
              Resolve(fs, cwd, path + "/" + name) == Some(Resolve(fs, cwd, path).value + [name])
    ensures Lookup(fs, cwd, path + "/" + name) ==
            var dir := Lookup(fs, cwd, path); if dir.searchable then Find(dir.entries, name) else Missing
  {
    var from := if path[0] == '/' then [] else cwd;
    var loc := Resolve(fs, cwd, path).value;
    ComponentsJoin(path, name);
    ComponentsOfName(name);
    FollowConcat(fs, from, Components(path), [name]);
    FollowName(fs, loc, name);
  }

  lemma FollowName(fs: Node, loc: Location, name: string)
    requires !Dots(name)
    ensures Follow(fs, loc, [name]) == if Enterable(At(fs, loc)) then Some(loc + [name]) else None
    ensures At(fs, loc + [name]) == Child(At(fs, loc), name)
  {
    assert (loc + [name])[..|loc|] == loc;
  }

  /** A bare name is looked up in the working directory. */
  lemma ResolveName(fs: Node, cwd: Location, name: string)
    requires Name(name) && !Dots(name)
    ensures Enterable(At(fs, cwd)) ==> Resolve(fs, cwd, name) == Some(cwd + [name])
    ensures Lookup(fs, cwd, name) == Child(At(fs, cwd), name)
  {
    ComponentsOfName(name);
    FollowName(fs, cwd, name);
  }

  /** A component "." stays where it is. */
  lemma ResolveDot(fs: Node, cwd: Location, path: string)
    requires path != ""
    ensures Resolve(fs, cwd, path + "/.") ==
            match Resolve(fs, cwd, path)
            case None => None
            case Some(loc) => if At(fs, loc).Dir? && At(fs, loc).searchable then Some(loc) else None
  {
    ComponentsJoin(path, ".");
    ComponentsOfName(".");
    assert path + "/" + "." == path + "/.";
    FollowConcat(fs, if path[0] == '/' then [] else cwd, Components(path), ["."]);
    DotStays(fs, Resolve(fs, cwd, path));
  }

  lemma DotStays(fs: Node, loc: Option<Location>)
    ensures loc.Some? ==> Follow(fs, loc.value, ["."]) ==
                          if At(fs, loc.value).Dir? && At(fs, loc.value).searchable then Some(loc.value) else None
  {
    assert ["."][1..] == [];
  }

  lemma ResolveUp(fs: Node, cwd: Location)
    requires Enterable(At(fs, cwd))
    ensures Resolve(fs, cwd, "..") == Some(Parent(cwd)) && Enterable(At(fs, Parent(cwd)))
  {
    ComponentsOfName("..");
    assert Follow(fs, Parent(cwd), []) == Some(Parent(cwd));
    assert Enter(cwd, "..") == Parent(cwd);
    if cwd != [] {
      assert At(fs, cwd) == Child(At(fs, Parent(cwd)), cwd[|cwd| - 1]);
    }
  }
}
