/** What a walk of lab_02/ftw visits, without reference to how it goes about it:
    every node that can be reached through names other than "." and "..", each once,
    nothing else, in the order of `readdir`; and where the callback ends it. */
module WalkVisits {
  import opened DirTree
  import opened Strings
  import opened TreeWalk
  import opened WalkTheorems

  /** What the names add to the start path. */
  function Below(names: seq<string>): string {
    if names == [] then "" else "/" + names[0] + Below(names[1..])
  }

  /** The names lead from a node to t: each is in the listing of a readable directory,
      and its node can be looked at when that directory can be searched. */
  predicate Reached(node: Node, names: seq<string>, t: Node)
    decreases |names|
  {
    if names == [] then node == t
    else
      && node.Dir? && node.readable && names[0] != "." && names[0] != ".." && Has(node.entries, names[0])
      && Reached(if node.searchable then Find(node.entries, names[0]) else Missing, names[1..], t)
  }

  /** `readdir` delivers a before b. */
  predicate Before(l: Listing, a: string, b: string) {
    l.Entry? && ((l.name == a && Has(l.rest, b)) || Before(l.rest, a, b))
  }

  /** A directory comes before its entries, and the entries in the order of `readdir`,
      each with all that is below it. */
  predicate Earlier(node: Node, x: seq<string>, y: seq<string>)
    decreases |x|
  {
    y != [] &&
    (x == [] ||
     if x[0] == y[0] then node.Dir? && Earlier(Find(node.entries, x[0]), x[1..], y[1..])
     else node.Dir? && Before(node.entries, x[0], y[0]))
  }

  /** The calls of nochdir.c with a callback that never ends the walk. */
  function AllCalls(path: string, node: Node): seq<Call> {
    Upto(Script(Nochdir, path, node, 0, 2 * |path|).0, [], _ => 0).calls
  }

  // ------------------------------------------------- the names of every event

  /** The names that lead to the node of each event of a walk. */
  ghost function Names(node: Node): seq<seq<string>>
    decreases Size(node)
  {
    if !node.Dir? then [[]]
    else if !node.readable then [[], []]
    else [[]] + NamesIn(node.entries, node.searchable)
  }

  ghost function NamesIn(l: Listing, searchable: bool): seq<seq<string>>
    decreases SizeList(l)
  {
    if l.End? then []
    else if Dots(l.name) then NamesIn(l.rest, searchable)
    else Under(l.name, Names(if searchable then l.node else Missing)) + NamesIn(l.rest, searchable)
  }

  function Under(name: string, s: seq<seq<string>>): (r: seq<seq<string>>)
    ensures |r| == |s|
  {
    seq(|s|, i requires 0 <= i < |s| => [name] + s[i])
  }

  /** A call about the node t that the names lead to. */
  predicate About(e: Event, path: string, names: seq<string>, depth: nat, t: Node) {
    && e.Visit? && e.call.depth == depth + |names|
    && match e.call.kind
       case NS => t.Missing? && e.call.path == path + Below(names)
       case F(k) => t == File(k) && e.call.path == path + Below(names)
       case D => t.Dir? && e.call.path == path + Below(names)
       case DNR => t.Dir? && !t.readable && e.call.path == path + Below(names) + "/"
  }

  lemma AboutChild(e: Event, path: string, name: string, names: seq<string>, depth: nat, t: Node)
    requires About(e, path + "/" + name, names, depth + 1, t)
    ensures About(e, path, [name] + names, depth, t)
  {
    assert ([name] + names)[1..] == names;
    assert path + "/" + name + Below(names) == path + Below([name] + names);
  }

  lemma HasName(l: Listing, name: string)
    requires SoundList(l) && Has(l, name)
    ensures Name(name) && Sound(Find(l, name))
  {
    if l.name != name {
      HasName(l.rest, name);
    }
  }

  lemma {:induction false} EventAbout(path: string, node: Node, depth: nat, i: nat) returns (t: Node)
    requires Sound(node) && i < |Preorder(Nochdir, path, node, depth)|
    ensures |Names(node)| == |Preorder(Nochdir, path, node, depth)|
    ensures Reached(node, Names(node)[i], t)
    ensures About(Preorder(Nochdir, path, node, depth)[i], path, Names(node)[i], depth, t)
    decreases Size(node), 0
  {
    t := node;
    assert path + "" == path;
    if node.Dir? && node.readable {
      var l := node.entries;
      NamesLength(path, node.searchable, l, depth + 1);
      if i > 0 {
        t := ListAbout(path, node, l, depth, i - 1);
      }
    }
  }

  lemma {:induction false} NamesLength(path: string, searchable: bool, l: Listing, depth: nat)
    requires SoundList(l)
    ensures |NamesIn(l, searchable)| == |PreorderList(Nochdir, path, searchable, l, depth)|
    decreases SizeList(l), 1
  {
    if l.Entry? {
      NamesLength(path, searchable, l.rest, depth);
      if !Dots(l.name) {
        var node := if searchable then l.node else Missing;
        var t := EventAbout(path + "/" + l.name, node, depth, 0);
      }
    }
  }

  lemma {:induction false} ListAbout(path: string, dir: Node, l: Listing, depth: nat, i: nat) returns (t: Node)
    requires dir.Dir? && dir.readable && SoundList(l) && Within(l, dir.entries)
    requires forall name :: Has(l, name) ==> Has(dir.entries, name)
    requires i < |PreorderList(Nochdir, path, dir.searchable, l, depth + 1)|
    ensures |NamesIn(l, dir.searchable)| == |PreorderList(Nochdir, path, dir.searchable, l, depth + 1)|
    ensures Reached(dir, NamesIn(l, dir.searchable)[i], t)
    ensures About(PreorderList(Nochdir, path, dir.searchable, l, depth + 1)[i], path,
                  NamesIn(l, dir.searchable)[i], depth, t)
    decreases SizeList(l), 2
  {
    NamesLength(path, dir.searchable, l, depth + 1);
    NamesLength(path, dir.searchable, l.rest, depth + 1);
    WithinRest(l, dir.entries);
    if Dots(l.name) {
      t := ListAbout(path, dir, l.rest, depth, i);
    } else {
      var child := if dir.searchable then l.node else Missing;
      var n := |Preorder(Nochdir, path + "/" + l.name, child, depth + 1)|;
      var t0 := EventAbout(path + "/" + l.name, child, depth + 1, 0);
      if i < n {
        t := EventAbout(path + "/" + l.name, child, depth + 1, i);
        var e := Preorder(Nochdir, path + "/" + l.name, child, depth + 1)[i];
        AboutChild(e, path, l.name, Names(child)[i], depth, t);
        assert ([l.name] + Names(child)[i])[1..] == Names(child)[i];
      } else {
        t := ListAbout(path, dir, l.rest, depth, i - n);
      }
    }
  }

  // -------------------------------------------------------- every node is visited

  lemma BelowFirst(path: string, names: seq<string>)
    requires names != []
    ensures path + "/" + names[0] + Below(names[1..]) == path + Below(names)
    ensures [names[0]] + names[1..] == names
  {
    var rest := Below(names[1..]);
    assert Below(names) == "/" + names[0] + rest;
    FourParts(path, "/", names[0], rest);
  }

  lemma FourParts(a: string, b: string, c: string, d: string)
    ensures a + b + c + d == a + (b + c + d)
  {
    assert a + b + c == a + (b + c);
  }

  lemma UnderAt(name: string, s: seq<seq<string>>, i: nat, rest: seq<seq<string>>)
    requires i < |s|
    ensures (Under(name, s) + rest)[i] == [name] + s[i]
  {
  }

  /** A node that can be reached has an event of its own kind, and its names. */
  lemma {:induction false} Visited(path: string, node: Node, depth: nat, names: seq<string>, t: Node) returns (i: nat)
    requires Sound(node) && Reached(node, names, t)
    ensures i < |Names(node)| == |Preorder(Nochdir, path, node, depth)| && Names(node)[i] == names
    ensures var e := Preorder(Nochdir, path, node, depth)[i]; e.Visit? && e.call.kind != DNR
    ensures t.Dir? && !t.readable ==>
              i + 1 < |Names(node)| && Names(node)[i + 1] == names
              && Preorder(Nochdir, path, node, depth)[i + 1]
                 == Visit(Call(path + Below(names) + "/", DNR, depth + |names|))
    decreases Size(node), 0
  {
    var t0 := EventAbout(path, node, depth, 0);
    assert path + "" == path;
    if names == [] {
      i := 0;
    } else {
      NamesLength(path, node.searchable, node.entries, depth + 1);
      i := VisitedIn(path, node.entries, node.searchable, depth, names, t);
      i := i + 1;
    }
  }

  lemma {:induction false} VisitedIn(path: string, l: Listing, searchable: bool, depth: nat,
                                     names: seq<string>, t: Node)
    returns (i: nat)
    requires SoundList(l) && names != [] && names[0] != "." && names[0] != ".." && Has(l, names[0])
    requires Reached(if searchable then Find(l, names[0]) else Missing, names[1..], t)
    ensures i < |NamesIn(l, searchable)| == |PreorderList(Nochdir, path, searchable, l, depth + 1)|
    ensures NamesIn(l, searchable)[i] == names
    ensures var e := PreorderList(Nochdir, path, searchable, l, depth + 1)[i]; e.Visit? && e.call.kind != DNR
    ensures t.Dir? && !t.readable ==>
              i + 1 < |NamesIn(l, searchable)| && NamesIn(l, searchable)[i + 1] == names
              && PreorderList(Nochdir, path, searchable, l, depth + 1)[i + 1]
                 == Visit(Call(path + Below(names) + "/", DNR, depth + |names|))
    decreases SizeList(l), 1
  {
    hide Below;
    NamesLength(path, searchable, l, depth + 1);
    NamesLength(path, searchable, l.rest, depth + 1);
    if l.name == names[0] {
      var child := if searchable then l.node else Missing;
      i := Visited(path + "/" + l.name, child, depth + 1, names[1..], t);
      BelowFirst(path, names);
    } else {
      i := VisitedIn(path, l.rest, searchable, depth, names, t);
      if !Dots(l.name) {
        var child := if searchable then l.node else Missing;
        var t0 := EventAbout(path + "/" + l.name, child, depth + 1, 0);
        i := i + |Names(child)|;
      }
    }
  }

  // ------------------------------------------------------------------- the order

  lemma BeforeHas(l: Listing, a: string, b: string)
    requires Before(l, a, b)
    ensures Has(l, a) && Has(l, b)
  {
  }

  lemma BeforeOnce(l: Listing, a: string, b: string)
    requires SoundList(l) && Before(l, a, b)
    ensures a != b && !Before(l, b, a)
  {
    if l.name == a {
      if Before(l.rest, a, b) {
        BeforeHas(l.rest, a, b);
      }
      if Before(l.rest, b, a) {
        BeforeHas(l.rest, b, a);
      }
    } else {
      BeforeOnce(l.rest, a, b);
      BeforeHas(l.rest, a, b);
    }
  }

  lemma {:induction false} EarlierOnce(node: Node, x: seq<string>, y: seq<string>)
    requires Sound(node) && Earlier(node, x, y)
    ensures x != y && !Earlier(node, y, x)
    decreases |x|
  {
    if x != [] {
      if x[0] == y[0] {
        FindSound(node.entries, x[0]);
        EarlierOnce(Find(node.entries, x[0]), x[1..], y[1..]);
      } else {
        BeforeOnce(node.entries, x[0], y[0]);
      }
    }
  }

  /** Of two events the first is about an earlier node, or both are about one
      directory that cannot be read. */
  lemma {:induction false} EventsInOrder(path: string, node: Node, depth: nat, i: nat, j: nat)
    requires Sound(node) && i < j < |Preorder(Nochdir, path, node, depth)|
    ensures |Names(node)| == |Preorder(Nochdir, path, node, depth)|
    ensures var e := Preorder(Nochdir, path, node, depth)[j];
            Earlier(node, Names(node)[i], Names(node)[j]) || (e.Visit? && e.call.kind == DNR)
    decreases Size(node), 0
  {
    var t := EventAbout(path, node, depth, 0);
    if node.readable {
      NamesLength(path, node.searchable, node.entries, depth + 1);
      if i == 0 {
        var t1 := ListAbout(path, node, node.entries, depth, j - 1);
        ListNotEmpty(node.entries, node.searchable, j - 1);
      } else {
        ListInOrder(path, node, node.entries, depth, i - 1, j - 1);
      }
    }
  }

  lemma {:induction false} ListNotEmpty(l: Listing, searchable: bool, i: nat)
    requires i < |NamesIn(l, searchable)|
    ensures NamesIn(l, searchable)[i] != [] && Has(l, NamesIn(l, searchable)[i][0])
  {
    if !Dots(l.name) && i < |Names(if searchable then l.node else Missing)| {
    } else {
      ListNotEmpty(l.rest, searchable, if Dots(l.name) then i else i - |Names(if searchable then l.node else Missing)|);
    }
  }

  /** What comes before among the entries still to be read comes before in the directory. */
  ghost predicate Suffix(l: Listing, all: Listing) {
    && (forall a, b :: Before(l, a, b) ==> Before(all, a, b))
    && (forall a :: Has(l, a) ==> Has(all, a))
  }

  lemma {:induction false} ListInOrder(path: string, dir: Node, l: Listing, depth: nat, i: nat, j: nat)
    requires dir.Dir? && SoundList(l) && Within(l, dir.entries) && Suffix(l, dir.entries)
    requires i < j < |PreorderList(Nochdir, path, dir.searchable, l, depth + 1)|
    ensures |NamesIn(l, dir.searchable)| == |PreorderList(Nochdir, path, dir.searchable, l, depth + 1)|
    ensures var e := PreorderList(Nochdir, path, dir.searchable, l, depth + 1)[j];
            Earlier(dir, NamesIn(l, dir.searchable)[i], NamesIn(l, dir.searchable)[j])
            || (e.Visit? && e.call.kind == DNR)
    decreases SizeList(l), 1
  {
    NamesLength(path, dir.searchable, l, depth + 1);
    NamesLength(path, dir.searchable, l.rest, depth + 1);
    WithinRest(l, dir.entries);
    if Dots(l.name) {
      ListInOrder(path, dir, l.rest, depth, i, j);
    } else {
      var child := if dir.searchable then l.node else Missing;
      var n := |Names(child)|;
      var t0 := EventAbout(path + "/" + l.name, child, depth + 1, 0);
      if j < n {
        EventsInOrder(path + "/" + l.name, child, depth + 1, i, j);
      } else if i >= n {
        ListInOrder(path, dir, l.rest, depth, i - n, j - n);
      } else {
        ListNotEmpty(l.rest, dir.searchable, j - n);
        var b := NamesIn(l.rest, dir.searchable)[j - n][0];
        assert Before(l, l.name, b) && b != l.name;
      }
    }
  }

  // ------------------------------------------------------------------- theorems

  lemma {:induction false} ReachedNames(node: Node, names: seq<string>, t: Node, k: nat)
    requires Sound(node) && Reached(node, names, t) && k < |names|
    ensures names[k] != "" && '/' !in names[k]
    decreases |names|
  {
    HasName(node.entries, names[0]);
    if k > 0 {
      ReachedNames(if node.searchable then Find(node.entries, names[0]) else Missing, names[1..], t, k - 1);
    }
  }

  predicate Slashless(names: seq<string>) {
    forall k :: 0 <= k < |names| ==> names[k] != "" && '/' !in names[k]
  }

  lemma ReachedSlashless(node: Node, names: seq<string>, t: Node)
    requires Sound(node) && Reached(node, names, t)
    ensures Slashless(names)
  {
    forall k | 0 <= k < |names|
      ensures names[k] != "" && '/' !in names[k]
    {
      ReachedNames(node, names, t, k);
    }
  }

  lemma FirstName(a: seq<string>)
    requires a != [] && Slashless(a)
    ensures FirstOf(a[0] + Below(a[1..]), '/') == |a[0]|
    ensures (a[0] + Below(a[1..]))[..|a[0]|] == a[0] && (a[0] + Below(a[1..]))[|a[0]|..] == Below(a[1..])
  {
    var s := a[0] + Below(a[1..]);
    assert s[..|a[0]|] == a[0];
    FirstOfIs(s, '/', |a[0]|);
  }

  lemma BelowDrop(a: seq<string>)
    requires a != []
    ensures Below(a)[1..] == a[0] + Below(a[1..])
  {
    assert "/" + a[0] + Below(a[1..]) == "/" + (a[0] + Below(a[1..]));
  }

  /** The names can be read off the path. */
  lemma {:induction false} BelowInjective(a: seq<string>, b: seq<string>)
    requires Slashless(a) && Slashless(b) && Below(a) == Below(b)
    ensures a == b
  {
    if a != [] && b != [] {
      FirstName(a);
      FirstName(b);
      BelowDrop(a);
      BelowDrop(b);
      BelowInjective(a[1..], b[1..]);
      hide Below, FirstOf;
      assert a == [a[0]] + a[1..] && b == [b[0]] + b[1..];
    }
  }

  lemma SamePath(path: string, a: seq<string>, b: seq<string>)
    requires Slashless(a) && Slashless(b) && path + Below(a) == path + Below(b)
    ensures a == b
  {
    assert (path + Below(a))[|path|..] == Below(a) && (path + Below(b))[|path|..] == Below(b);
    BelowInjective(a, b);
  }

  lemma {:induction false} CallsAt(events: seq<Event>)
    requires forall i :: 0 <= i < |events| ==> events[i].Visit?
    ensures |Calls(events)| == |events| && forall i :: 0 <= i < |events| ==> events[i] == Visit(Calls(events)[i])
  {
    if events != [] {
      CallsAt(events[1..]);
    }
  }

  lemma AllCallsAre(path: string, node: Node)
    requires Sound(node) && |path| >= 86
    ensures var events, calls := Preorder(Nochdir, path, node, 0), AllCalls(path, node);
            |calls| == |events| && forall i :: 0 <= i < |events| ==> events[i] == Visit(calls[i])
  {
    var events := Preorder(Nochdir, path, node, 0);
    ScriptIsPreorder(Nochdir, path, node, 0, 2 * |path|);
    PreorderFits(Nochdir, path, node, 0);
    PreorderCounts(Nochdir, path, node, 0, NOTHING, D);
    ZeroVisitsAll(events, []);
    forall i | 0 <= i < |events|
      ensures events[i].Visit?
    {
      var t := EventAbout(path, node, 0, i);
    }
    CallsAt(events);
  }

  /** The i-th call, its names and its node. */
  lemma CallAbout(path: string, node: Node, i: nat) returns (names: seq<string>, t: Node)
    requires Sound(node) && |path| >= 86 && i < |AllCalls(path, node)|
    ensures |Names(node)| == |AllCalls(path, node)| && names == Names(node)[i] && Slashless(names)
    ensures Reached(node, names, t) && About(Visit(AllCalls(path, node)[i]), path, names, 0, t)
  {
    AllCallsAre(path, node);
    t := EventAbout(path, node, 0, i);
    names := Names(node)[i];
    ReachedSlashless(node, names, t);
  }

  /** Every call of nochdir.c is about a node that can be reached, under its path and
      at its depth, and tells what the node is. */
  lemma EveryCallIsOfANode(path: string, node: Node, i: nat) returns (names: seq<string>, t: Node)
    requires Sound(node) && |path| >= 86 && i < |AllCalls(path, node)|
    ensures Reached(node, names, t)
    ensures var c := AllCalls(path, node)[i];
            && c.depth == |names|
            && c.path == path + Below(names) + (if c.kind == DNR then "/" else "")
            && (c.kind == NS <==> t.Missing?) && (c.kind.F? <==> t.File?) && (c.kind.F? ==> c.kind.kind == t.kind)
            && (c.kind == D || c.kind == DNR <==> t.Dir?) && (c.kind == DNR ==> !t.readable)
  {
    names, t := CallAbout(path, node, i);
    assert path + Below(names) + "" == path + Below(names);
  }

  /** Whatever can be reached from the start path through names other than "." and
      ".." is visited: exactly one call that is not FTW_DNR has its path, it tells
      what the node is and how deep, and a directory that cannot be read has its
      FTW_DNR call right after. */
  lemma EveryNodeVisited(path: string, node: Node, names: seq<string>, t: Node) returns (i: nat)
    requires Sound(node) && |path| >= 86 && Reached(node, names, t)
    ensures i < |AllCalls(path, node)|
    ensures var c := AllCalls(path, node)[i];
            && c.path == path + Below(names) && c.depth == |names|
            && (t.Missing? ==> c.kind == NS) && (t.File? ==> c.kind == F(t.kind)) && (t.Dir? ==> c.kind == D)
    ensures t.Dir? && !t.readable ==>
              i + 1 < |AllCalls(path, node)|
              && AllCalls(path, node)[i + 1] == Call(path + Below(names) + "/", DNR, |names|)
    ensures forall j :: 0 <= j < |AllCalls(path, node)| && j != i && AllCalls(path, node)[j].kind != DNR ==>
              AllCalls(path, node)[j].path != path + Below(names)
  {
    AllCallsAre(path, node);
    i := Visited(path, node, 0, names, t);
    var names', t' := CallAbout(path, node, i);
    ReachedOnce(node, names, t, t');
    forall j: nat | j < |AllCalls(path, node)| && j != i && AllCalls(path, node)[j].kind != DNR
      ensures AllCalls(path, node)[j].path != path + Below(names)
    {
      NotTwice(path, node, i, j);
    }
  }

  lemma {:induction false} ReachedOnce(node: Node, names: seq<string>, t: Node, t': Node)
    requires Reached(node, names, t) && Reached(node, names, t')
    ensures t == t'
    decreases |names|
  {
    if names != [] {
      ReachedOnce(if node.searchable then Find(node.entries, names[0]) else Missing, names[1..], t, t');
    }
  }

  lemma NotTwice(path: string, node: Node, i: nat, j: nat)
    requires Sound(node) && |path| >= 86 && i < |AllCalls(path, node)| && j < |AllCalls(path, node)| && i != j
    requires AllCalls(path, node)[i].kind != DNR && AllCalls(path, node)[j].kind != DNR
    ensures AllCalls(path, node)[i].path != AllCalls(path, node)[j].path
  {
    var x, t := CallAbout(path, node, i);
    var y, u := CallAbout(path, node, j);
    InOrder(path, node, i, j);
    if AllCalls(path, node)[i].path == AllCalls(path, node)[j].path {
      SamePath(path, x, y);
      EarlierOnce(node, if i < j then x else y, if i < j then y else x);
    }
  }

  lemma InOrder(path: string, node: Node, i: nat, j: nat)
    requires Sound(node) && |path| >= 86 && i < |AllCalls(path, node)| && j < |AllCalls(path, node)| && i != j
    requires AllCalls(path, node)[i].kind != DNR && AllCalls(path, node)[j].kind != DNR
    ensures |Names(node)| == |AllCalls(path, node)|
    ensures if i < j then Earlier(node, Names(node)[i], Names(node)[j])
            else Earlier(node, Names(node)[j], Names(node)[i])
  {
    AllCallsAre(path, node);
    if i < j {
      EventsInOrder(path, node, 0, i, j);
    } else {
      EventsInOrder(path, node, 0, j, i);
    }
  }

  /** The calls come in the order of the tree: a directory before its entries, and
      entries, with all below them, in the order of `readdir`. */
  lemma VisitOrder(path: string, node: Node, x: seq<string>, y: seq<string>, i: nat, j: nat)
    requires Sound(node) && |path| >= 86 && i < |AllCalls(path, node)| && j < |AllCalls(path, node)| && i != j
    requires Slashless(x) && AllCalls(path, node)[i].kind != DNR && AllCalls(path, node)[i].path == path + Below(x)
    requires Slashless(y) && AllCalls(path, node)[j].kind != DNR && AllCalls(path, node)[j].path == path + Below(y)
    ensures i < j <==> Earlier(node, x, y)
  {
    var x', t := CallAbout(path, node, i);
    var y', u := CallAbout(path, node, j);
    SamePath(path, x, x');
    SamePath(path, y, y');
    InOrder(path, node, i, j);
    EarlierOnce(node, if i < j then x else y, if i < j then y else x);
  }

  // ------------------------------------------------------------ chdir.c as well

  lemma {:induction false} UptoZero(events: seq<Event>, before: seq<Call>, f: seq<Call> -> int)
    requires forall h :: f(h) == 0
    ensures Upto(events, before, f) == Upto(events, before, _ => 0)
  {
    if events != [] && events[0].Visit? {
      UptoZero(events[1..], before + [events[0].call], f);
    }
  }

  /** Through a tree whose readable directories can all be entered, chdir.c makes a
      call for each call of nochdir.c, with the last name of its path. */
  lemma ChdirVisitsTheSame(path: string, node: Node, i: nat)
    requires Sound(node) && Open(node) && |path| >= 86
    ensures var c := Upto(Script(Chdir, path, node, 0, 2 * |path|).0, [], _ => 0).calls;
            && |c| == |AllCalls(path, node)|
            && (i < |c| ==> c[i].kind == AllCalls(path, node)[i].kind && c[i].depth == AllCalls(path, node)[i].depth
                            && Base(c[i].path) == Base(AllCalls(path, node)[i].path))
  {
    var g: seq<Call> -> int := _ => 0;
    var f := (h: seq<Call>) => g(Bases(h));
    SameRun(path, node, g);
    UptoZero(Script(Chdir, path, node, 0, 2 * |path|).0, [], f);
    UptoZero(Script(Nochdir, path, node, 0, 2 * |path|).0, [], f);
    var c := Upto(Script(Chdir, path, node, 0, 2 * |path|).0, [], _ => 0).calls;
    if i < |c| {
      assert Bases(c)[i] == BaseCall(c[i]) && Bases(AllCalls(path, node))[i] == BaseCall(AllCalls(path, node)[i]);
    }
  }

  // ------------------------------------------------- where the callback ends it

  lemma {:induction false} StopsAt(events: seq<Event>, before: seq<Call>, f: seq<Call> -> int)
    requires Exit !in events && Overrun !in events
    ensures var t, all := Upto(events, before, f), Calls(events);
            && t.calls <= all
            && (forall k :: 0 < k < |t.calls| ==> f(before + all[..k]) == 0)
            && (t.calls == [] ==> events == [] && t.outcome == Return(0))
            && (t.calls != [] ==> t.outcome == Return(f(before + t.calls)))
            && (t.calls != [] && f(before + t.calls) == 0 ==> t.calls == all)
  {
    if events != [] {
      assert events[0].Visit?;
      var c, rest := events[0].call, events[1..];
      StopsAt(rest, before + [c], f);
      var t := Upto(rest, before + [c], f);
      assert Calls(events) == [c] + Calls(rest);
      assert f(before + [c]) == 0 ==> Upto(events, before, f) == Extend([c], t);
      assert before + [c] + t.calls == before + ([c] + t.calls);
      assert t.calls == [] ==> [c] + t.calls == [c];
      AnswersBefore(c, t.calls, Calls(rest), before, f);
      hide Upto, Calls;
    }
  }

  lemma AnswersBefore(c: Call, calls: seq<Call>, all: seq<Call>, before: seq<Call>, f: seq<Call> -> int)
    requires calls <= all && forall k :: 0 < k < |calls| ==> f(before + [c] + all[..k]) == 0
    ensures f(before + [c]) == 0 ==> forall k :: 0 < k < |[c] + calls| ==> f(before + ([c] + all)[..k]) == 0
  {
    forall k | f(before + [c]) == 0 && 0 < k < |[c] + calls|
      ensures f(before + ([c] + all)[..k]) == 0
    {
      assert before + ([c] + all)[..k] == before + [c] + all[..k - 1];
      assert k == 1 ==> before + [c] + all[..0] == before + [c];
    }
  }

  /** Whatever the callback: the calls of either program are the first ones of the
      full walk, all answers before the last are 0, the last answer is returned, and
      if that is 0 too the walk is complete. */
  lemma FirstAnswerEnds(w: Walker, path: string, node: Node, f: seq<Call> -> int)
    requires Sound(node) && |path| >= (if w.Nochdir? then 86 else 64) && (w.Chdir? ==> Open(node))
    ensures var events := Script(w, path, node, 0, 2 * |path|).0;
            var t, all := Upto(events, [], f), Upto(events, [], _ => 0).calls;
            && t.calls != [] && t.calls <= all
            && (forall k :: 0 < k < |t.calls| ==> f(all[..k]) == 0)
            && t.outcome == Return(f(t.calls))
            && (f(t.calls) == 0 ==> t.calls == all)
  {
    var events := Preorder(w, path, node, 0);
    ScriptIsPreorder(w, path, node, 0, 2 * |path|);
    PreorderFits(w, path, node, 0);
    PreorderCounts(w, path, node, 0, NOTHING, D);
    ZeroVisitsAll(events, []);
    StopsAt(events, [], f);
    var t := Upto(events, [], f);
    assert [] + t.calls == t.calls;
    assert events != [];
    assert forall k :: 0 < k < |t.calls| ==> [] + Calls(events)[..k] == Calls(events)[..k];
  }

  // ------------------------------------------------------------ the counters

  predicate IsOf(calls: seq<Call>, i: nat, kind: Type) { i < |calls| && calls[i].kind == kind }

  function Number(calls: seq<Call>, kind: Type): nat {
    |set i: nat | i < |calls| && IsOf(calls, i, kind)|
  }

  lemma NumberMore(calls: seq<Call>, c: Call, kind: Type)
    ensures Number(calls + [c], kind) == Number(calls, kind) + if c.kind == kind then 1 else 0
  {
    var a := set i: nat | i < |calls + [c]| && IsOf(calls + [c], i, kind);
    var b := set i: nat | i < |calls| && IsOf(calls, i, kind);
    forall i: nat
      ensures i in a <==> i in b || (c.kind == kind && i == |calls|)
    {
    }
    hide IsOf;
    SizeMore(a, b, |calls|, c.kind == kind);
  }

  lemma SizeMore(a: set<nat>, b: set<nat>, n: nat, more: bool)
    requires n !in b && forall i :: i in a <==> i in b || (more && i == n)
    ensures |a| == |b| + if more then 1 else 0
  {
    assert a == b + if more then {n} else {};
  }

  lemma {:induction false} CounterIsNumber(calls: seq<Call>, of: Type)
    requires of.D? || of.F?
    ensures Counter(Counted(NOTHING, calls), of) == Number(calls, of)
  {
    if calls == [] {
      assert (set i: nat | i < |calls| && IsOf(calls, i, of)) == {};
    } else {
      var front, last := calls[..|calls| - 1], calls[|calls| - 1];
      CounterIsNumber(front, of);
      NumberMore(front, last, of);
      CountedConcat(NOTHING, front, [last]);
      assert calls == front + [last];
      CountOne(Counted(NOTHING, front), last.kind, of);
      hide Counter, Count, Number;
    }
  }

  /** The counters of `myfunc` after any calls: nreg, nblk, nchr, nfifo, nslink and
      nsock count the FTW_F calls for files of their kind, ndir the FTW_D calls. */
  lemma CountersCountCalls(calls: seq<Call>)
    ensures var c := Counted(NOTHING, calls);
            && c.reg == Number(calls, F(Regular)) && c.blk == Number(calls, F(Block))
            && c.chr == Number(calls, F(Character)) && c.fifo == Number(calls, F(Fifo))
            && c.slink == Number(calls, F(Link)) && c.sock == Number(calls, F(Socket))
            && c.dir == Number(calls, D)
  {
    CounterIsNumber(calls, F(Regular));
    CounterIsNumber(calls, F(Block));
    CounterIsNumber(calls, F(Character));
    CounterIsNumber(calls, F(Fifo));
    CounterIsNumber(calls, F(Link));
    CounterIsNumber(calls, F(Socket));
    CounterIsNumber(calls, D);
  }
}
