/** What the two tree walkers of lab_02/ftw promise: the preorder of the tree, the
    same calls from both, and the counts of `myfunc`. */
module WalkTheorems {
  import opened DirTree
  import opened Strings
  import opened TreeWalk

  // ------------------------------------------ equal up to the first stop event

  /** b is a, or goes on differently from the first `stop` in a. */
  predicate Ahead(a: seq<Event>, b: seq<Event>, stop: Event) {
    if a == [] then b == []
    else a[0] == stop || (b != [] && a[0] == b[0] && Ahead(a[1..], b[1..], stop))
  }

  lemma {:induction false} AheadConcat(a: seq<Event>, b: seq<Event>, c: seq<Event>, d: seq<Event>, stop: Event)
    requires Ahead(a, b, stop) && Ahead(c, d, stop)
    ensures Ahead(a + c, b + d, stop)
  {
    if a == [] {
      assert a + c == c && b + d == d;
    } else if a[0] != stop {
      AheadConcat(a[1..], b[1..], c, d, stop);
      assert (a + c)[1..] == a[1..] + c && (b + d)[1..] == b[1..] + d;
    }
  }

  lemma {:induction false} AheadSame(a: seq<Event>, stop: Event)
    ensures Ahead(a, a, stop)
  {
    if a != [] {
      AheadSame(a[1..], stop);
    }
  }

  function Ending(stop: Event): Outcome
    requires !stop.Visit?
  {
    if stop.Exit? then Exited else Overran
  }

  /** A walk of a is a walk of b, or was stopped earlier. */
  lemma {:induction false} AheadWalks(a: seq<Event>, b: seq<Event>, stop: Event, before: seq<Call>, f: seq<Call> -> int)
    requires !stop.Visit? && Ahead(a, b, stop)
    ensures var t, u := Upto(a, before, f), Upto(b, before, f);
            if t.outcome == Ending(stop) then t.calls <= u.calls else t == u
  {
    if a != [] && a[0].Visit? {
      AheadWalks(a[1..], b[1..], stop, before + [a[0].call], f);
    }
  }

  // ------------------------------------------------------ the preorder, in order

  lemma {:induction false} ScriptAhead(w: Walker, path: string, node: Node, depth: nat, len: nat)
    ensures Ahead(Script(w, path, node, depth, len).0, Preorder(w, path, node, depth), Overrun)
    decreases Size(node), 0
  {
    if node.Dir? {
      var body := Body(w, path, node, depth, len).0;
      var first := [Visit(Call(path, D, depth))];
      var rest := if !node.readable then [Visit(Call(path + "/", DNR, depth))]
                  else if w.Chdir? && !node.searchable then [Exit]
                  else PreorderList(w, path, node.searchable, node.entries, depth + 1);
      ScriptListAhead(w, path, node.searchable, node.entries, depth + 1, Grown(|path|, len));
      AheadSame(first, Overrun);
      AheadSame(rest, Overrun);
      AheadConcat(first, first, body, rest, Overrun);
    }
  }

  lemma {:induction false} ScriptListAhead(w: Walker, path: string, searchable: bool, l: Listing, depth: nat, len: nat)
    ensures Ahead(ScriptList(w, path, searchable, l, depth, len).0, PreorderList(w, path, searchable, l, depth),
                  Overrun)
    decreases SizeList(l), 0
  {
    if l.Entry? {
      if Dots(l.name) {
        ScriptListAhead(w, path, searchable, l.rest, depth, len);
      } else {
        var child, node := ChildPath(w, path, l.name), if searchable then l.node else Missing;
        var first := EntryScript(w, path, l.name, node, depth, len);
        ScriptAhead(w, child, node, depth, len);
        ScriptListAhead(w, path, searchable, l.rest, depth, first.1);
        AheadConcat(first.0, Preorder(w, child, node, depth), ScriptList(w, path, searchable, l.rest, depth, first.1).0,
                    PreorderList(w, path, searchable, l.rest, depth), Overrun);
      }
    }
  }

  /** For any tree, any order of `readdir` and any callback, in any buffer: the calls
      are the preorder of the tree, cut just after the first answer that is not 0,
      and that answer is returned; or the buffer was overrun first. */
  lemma WalkIsPreorder(w: Walker, path: string, node: Node, len: nat, f: seq<Call> -> int)
    ensures var t, u := Upto(Script(w, path, node, 0, len).0, [], f), Upto(Preorder(w, path, node, 0), [], f);
            if t.outcome == Overran then t.calls <= u.calls else t == u
  {
    ScriptAhead(w, path, node, 0, len);
    AheadWalks(Script(w, path, node, 0, len).0, Preorder(w, path, node, 0), Overrun, [], f);
  }

  // ------------------------------------------------------------ two equal walkers

  /** The name `myfunc` finds with `strrchr`: what follows the last slash. */
  function Base(path: string): string { path[LastOf(path, '/') + 1..] }

  lemma BaseOfName(prefix: string, name: string)
    requires '/' !in name
    ensures Base(prefix + "/" + name) == name && Base(name) == name
  {
    var all := prefix + "/" + name;
    assert all[|prefix| + 1..] == name;
    LastOfIs(all, '/', |prefix|);
  }

  function BaseCall(c: Call): Call { c.(path := Base(c.path)) }

  function BaseEvent(e: Event): Event { if e.Visit? then Visit(BaseCall(e.call)) else e }

  function BaseEvents(events: seq<Event>): (r: seq<Event>)
    ensures |r| == |events|
  {
    seq(|events|, i requires 0 <= i < |events| => BaseEvent(events[i]))
  }

  function Bases(calls: seq<Call>): (r: seq<Call>)
    ensures |r| == |calls|
  {
    seq(|calls|, i requires 0 <= i < |calls| => BaseCall(calls[i]))
  }

  lemma BaseEventsConcat(a: seq<Event>, b: seq<Event>)
    ensures BaseEvents(a + b) == BaseEvents(a) + BaseEvents(b)
  {
  }

  /** A callback that looks at base names only sees the walk of the base names. */
  lemma {:induction false} UptoBases(events: seq<Event>, before: seq<Call>, g: seq<Call> -> int)
    ensures var t := Upto(events, before, h => g(Bases(h)));
            Upto(BaseEvents(events), Bases(before), g) == Trail(Bases(t.calls), t.outcome)
  {
    hide Base;
    if events != [] && events[0].Visit? {
      var c := events[0].call;
      UptoBases(events[1..], before + [c], g);
      assert BaseEvents(events)[1..] == BaseEvents(events[1..]);
      assert Bases(before + [c]) == Bases(before) + [BaseCall(c)];
      var t := Upto(events[1..], before + [c], h => g(Bases(h)));
      assert Bases([c] + t.calls) == [BaseCall(c)] + Bases(t.calls);
    }
  }

  /** For paths with the same base name the walkers make the same calls, except that
      chdir.c may exit. */
  lemma {:induction false} WalkersAgree(pathC: string, pathN: string, node: Node, depth: nat)
    requires Base(pathC) == Base(pathN) && Sound(node)
    ensures Ahead(BaseEvents(Preorder(Chdir, pathC, node, depth)), BaseEvents(Preorder(Nochdir, pathN, node, depth)),
                  Exit)
    decreases Size(node), 0
  {
    hide Base;
    if node.Dir? {
      var first := [Visit(Call(Base(pathC), D, depth))];
      var c, n := Preorder(Chdir, pathC, node, depth), Preorder(Nochdir, pathN, node, depth);
      assert BaseEvents(c) == first + BaseEvents(c[1..]);
      assert BaseEvents(n) == first + BaseEvents(n[1..]);
      AheadSame(first, Exit);
      if !node.readable {
        BaseOfName(pathC, "");
        BaseOfName(pathN, "");
        assert pathC + "/" + "" == pathC + "/" && pathN + "/" + "" == pathN + "/";
        AheadSame(BaseEvents(c[1..]), Exit);
        assert BaseEvents(c[1..]) == BaseEvents(n[1..]);
      } else if node.searchable {
        ListsAgree(pathC, pathN, node.entries, depth + 1);
        assert c[1..] == PreorderList(Chdir, pathC, true, node.entries, depth + 1);
        assert n[1..] == PreorderList(Nochdir, pathN, true, node.entries, depth + 1);
      }
      AheadConcat(first, first, BaseEvents(c[1..]), BaseEvents(n[1..]), Exit);
    }
  }

  lemma {:induction false} ListsAgree(pathC: string, pathN: string, l: Listing, depth: nat)
    requires SoundList(l)
    ensures Ahead(BaseEvents(PreorderList(Chdir, pathC, true, l, depth)),
                  BaseEvents(PreorderList(Nochdir, pathN, true, l, depth)), Exit)
    decreases SizeList(l), 1
  {
    hide Base;
    if l.Entry? {
      hide Preorder, BaseEvents, Ahead;
      ListsAgree(pathC, pathN, l.rest, depth);
      if !Dots(l.name) {
        BaseOfName(pathN, l.name);
        WalkersAgree(l.name, pathN + "/" + l.name, l.node, depth);
        var c, n := Preorder(Chdir, l.name, l.node, depth), Preorder(Nochdir, pathN + "/" + l.name, l.node, depth);
        var c' := PreorderList(Chdir, pathC, true, l.rest, depth);
        var n' := PreorderList(Nochdir, pathN, true, l.rest, depth);
        BaseEventsConcat(c, c');
        BaseEventsConcat(n, n');
        AheadConcat(BaseEvents(c), BaseEvents(n), BaseEvents(c'), BaseEvents(n'), Exit);
      }
    }
  }

  /** For the same tree and start path, and a callback that depends on base names,
      types and depths only, the two programs make the same calls (up to base names)
      and return the same answer; when chdir.c exits at a directory it cannot enter,
      its calls up to there are the first calls of nochdir.c. */
  lemma SameWalk(path: string, node: Node, g: seq<Call> -> int)
    requires Sound(node)
    ensures var f := (h: seq<Call>) => g(Bases(h));
            var c, n := Upto(Preorder(Chdir, path, node, 0), [], f), Upto(Preorder(Nochdir, path, node, 0), [], f);
            if c.outcome == Exited then Bases(c.calls) <= Bases(n.calls)
            else Bases(c.calls) == Bases(n.calls) && c.outcome == n.outcome
  {
    var c, n := Preorder(Chdir, path, node, 0), Preorder(Nochdir, path, node, 0);
    WalkersAgree(path, path, node, 0);
    AheadWalks(BaseEvents(c), BaseEvents(n), Exit, [], g);
    UptoBases(c, [], g);
    UptoBases(n, [], g);
    assert Bases([]) == [];
  }

  /** No directory that can be read but not entered is in the way. */
  predicate Open(node: Node)
    decreases Size(node)
  {
    node.Dir? && node.readable ==> node.searchable && OpenList(node.entries)
  }

  predicate OpenList(l: Listing)
    decreases SizeList(l)
  {
    l.Entry? ==> (Dots(l.name) || Open(l.node)) && OpenList(l.rest)
  }

  lemma {:induction false} OpenMeansNoExit(path: string, node: Node, depth: nat)
    ensures Open(node) <==> Exit !in Preorder(Chdir, path, node, depth)
    decreases Size(node), 0
  {
    if node.Dir? && node.readable {
      OpenListMeansNoExit(path, node.entries, depth + 1);
    }
  }

  lemma {:induction false} OpenListMeansNoExit(path: string, l: Listing, depth: nat)
    ensures OpenList(l) <==> Exit !in PreorderList(Chdir, path, true, l, depth)
    decreases SizeList(l), 1
  {
    if l.Entry? {
      OpenListMeansNoExit(path, l.rest, depth);
      if !Dots(l.name) {
        OpenMeansNoExit(l.name, l.node, depth);
      }
    }
  }

  lemma {:induction false} ExitNeedsEvent(events: seq<Event>, before: seq<Call>, f: seq<Call> -> int)
    ensures Upto(events, before, f).outcome == Exited ==> Exit in events
  {
    if events != [] && events[0].Visit? {
      ExitNeedsEvent(events[1..], before + [events[0].call], f);
    }
  }

  lemma {:induction false} ZeroReachesExit(events: seq<Event>, before: seq<Call>)
    requires Overrun !in events && Exit in events
    ensures Upto(events, before, _ => 0).outcome == Exited
  {
    if events[0].Visit? {
      ZeroReachesExit(events[1..], before + [events[0].call]);
    }
  }

  lemma PreorderExitsIff(path: string, node: Node)
    ensures (forall f :: Upto(Preorder(Chdir, path, node, 0), [], f).outcome != Exited) <==> Open(node)
  {
    OpenMeansNoExit(path, node, 0);
    var events := Preorder(Chdir, path, node, 0);
    if Open(node) {
      forall f
        ensures Upto(events, [], f).outcome != Exited
      {
        ExitNeedsEvent(events, [], f);
      }
    } else {
      PreorderFits(Chdir, path, node, 0);
      ZeroReachesExit(events, []);
    }
  }

  /** From a start path that is long enough the buffer never matters: both programs
      do exactly the walk that is meant. */
  lemma LongStartIsPreorder(w: Walker, path: string, node: Node, f: seq<Call> -> int)
    requires Sound(node) && |path| >= if w.Nochdir? then 86 else 64
    ensures Upto(Script(w, path, node, 0, 2 * |path|).0, [], f) == Upto(Preorder(w, path, node, 0), [], f)
    ensures Upto(Preorder(w, path, node, 0), [], f).outcome != Overran
  {
    ScriptIsPreorder(w, path, node, 0, 2 * |path|);
    PreorderFits(w, path, node, 0);
    OverrunNeedsEvent(Preorder(w, path, node, 0), [], f);
  }

  /** chdir.c, from a start path of at least 64 bytes, never exits, whatever the
      callback, exactly when every directory that the walk can read can be entered. */
  lemma NeverExitsIff(path: string, node: Node)
    requires Sound(node) && |path| >= 64
    ensures (forall f :: Upto(Script(Chdir, path, node, 0, 2 * |path|).0, [], f).outcome != Exited) <==> Open(node)
  {
    ScriptIsPreorder(Chdir, path, node, 0, 2 * |path|);
    PreorderExitsIff(path, node);
  }

  /** The two programs as they are, buffers included: from a start path of at least
      86 bytes, through a tree whose readable directories can all be entered, they
      make the same calls up to base names and return the same answer. */
  lemma SameRun(path: string, node: Node, g: seq<Call> -> int)
    requires Sound(node) && Open(node) && |path| >= 86
    ensures var f := (h: seq<Call>) => g(Bases(h));
            var c := Upto(Script(Chdir, path, node, 0, 2 * |path|).0, [], f);
            var n := Upto(Script(Nochdir, path, node, 0, 2 * |path|).0, [], f);
            Bases(c.calls) == Bases(n.calls) && c.outcome == n.outcome && c.outcome.Return?
  {
    var f := (h: seq<Call>) => g(Bases(h));
    LongStartIsPreorder(Chdir, path, node, f);
    LongStartIsPreorder(Nochdir, path, node, f);
    SameWalk(path, node, g);
    PreorderExitsIff(path, node);
  }

  lemma {:induction false} OverrunNeedsEvent(events: seq<Event>, before: seq<Call>, f: seq<Call> -> int)
    ensures Upto(events, before, f).outcome == Overran ==> Overrun in events
  {
    if events != [] && events[0].Visit? {
      OverrunNeedsEvent(events[1..], before + [events[0].call], f);
    }
  }

  // ------------------------------------------------------------- true paths

  predicate TrueCalls(fs: Node, cwd: Location, events: seq<Event>) {
    forall i :: 0 <= i < |events| && events[i].Visit? ==>
      Told(Lookup(fs, cwd, events[i].call.path), events[i].call.kind)
  }

  /** Every path that nochdir.c gives to the callback leads, from the working
      directory, to the node the call is about. */
  lemma {:induction false} PathsAreTrue(fs: Node, cwd: Location, path: string, node: Node, depth: nat)
    requires Sound(node) && Lookup(fs, cwd, path) == node
    ensures TrueCalls(fs, cwd, Preorder(Nochdir, path, node, depth))
    decreases Size(node), 0
  {
    if node.Dir? {
      LookupSlash(fs, cwd, path);
      if node.readable {
        ListPathsAreTrue(fs, cwd, path, node, node.entries, depth + 1);
      }
    }
  }

  lemma {:induction false} ListPathsAreTrue(fs: Node, cwd: Location, path: string, dir: Node, l: Listing, depth: nat)
    requires Lookup(fs, cwd, path) == dir && dir.Dir? && SoundList(l) && Within(l, dir.entries)
    ensures TrueCalls(fs, cwd, PreorderList(Nochdir, path, dir.searchable, l, depth))
    decreases SizeList(l), 1
  {
    if l.Entry? {
      WithinRest(l, dir.entries);
      ListPathsAreTrue(fs, cwd, path, dir, l.rest, depth);
      if !Dots(l.name) {
        ResolveChild(fs, cwd, path, l.name);
        PathsAreTrue(fs, cwd, path + "/" + l.name, if dir.searchable then l.node else Missing, depth);
      }
    }
  }

  // --------------------------------------------------------------- the counts

  /** nreg, nblk, nchr, nfifo, nslink, nsock and ndir. */
  datatype Counts = Counts(reg: nat, blk: nat, chr: nat, fifo: nat, slink: nat, sock: nat, dir: nat)

  const NOTHING := Counts(0, 0, 0, 0, 0, 0, 0)

  function Count(c: Counts, kind: Type): Counts {
    match kind
    case D => c.(dir := c.dir + 1)
    case DNR => c
    case NS => c
    case F(k) =>
      match k
      case Regular => c.(reg := c.reg + 1)
      case Block => c.(blk := c.blk + 1)
      case Character => c.(chr := c.chr + 1)
      case Fifo => c.(fifo := c.fifo + 1)
      case Link => c.(slink := c.slink + 1)
      case Socket => c.(sock := c.sock + 1)
  }

  /** The counters after `myfunc` has answered all calls, always with 0. */
  function Counted(c: Counts, calls: seq<Call>): Counts
    decreases |calls|
  {
    if calls == [] then c else Counted(Count(c, calls[0].kind), calls[1..])
  }

  /** Counting the tree itself: the nodes of one type that can be reached by reading
      and searching directories. */
  function HowMany(node: Node, kind: Type): nat
    decreases Size(node)
  {
    match node
    case Missing => 0
    case File(k) => if kind == F(k) then 1 else 0
    case Dir(readable, searchable, entries) =>
      (if kind == D then 1 else 0) + if readable && searchable then HowManyIn(entries, kind) else 0
  }

  function HowManyIn(l: Listing, kind: Type): nat
    decreases SizeList(l)
  {
    if l.End? then 0
    else (if Dots(l.name) then 0 else HowMany(l.node, kind)) + HowManyIn(l.rest, kind)
  }

  /** The counter that belongs to a type; FTW_DNR and FTW_NS have none. */
  function Counter(c: Counts, kind: Type): nat {
    match kind
    case D => c.dir
    case DNR => 0
    case NS => 0
    case F(Regular) => c.reg
    case F(Block) => c.blk
    case F(Character) => c.chr
    case F(Fifo) => c.fifo
    case F(Link) => c.slink
    case F(Socket) => c.sock
  }

  lemma CountOne(c: Counts, kind: Type, of: Type)
    requires of.D? || of.F?
    ensures Counter(Count(c, kind), of) == Counter(c, of) + if kind == of then 1 else 0
  {
  }

  lemma {:induction false} CountedConcat(c: Counts, a: seq<Call>, b: seq<Call>)
    ensures Counted(c, a + b) == Counted(Counted(c, a), b)
    decreases |a|
  {
    if a == [] {
      assert a + b == b;
    } else {
      assert (a + b)[1..] == a[1..] + b;
      CountedConcat(Count(c, a[0].kind), a[1..], b);
    }
  }

  function Calls(events: seq<Event>): seq<Call> {
    if events == [] then []
    else if events[0].Visit? then [events[0].call] + Calls(events[1..])
    else Calls(events[1..])
  }

  lemma {:induction false} CallsConcat(a: seq<Event>, b: seq<Event>)
    ensures Calls(a + b) == Calls(a) + Calls(b)
  {
    if a == [] {
      assert a + b == b;
    } else {
      assert (a + b)[1..] == a[1..] + b;
      CallsConcat(a[1..], b);
    }
  }

  lemma {:induction false} ZeroVisitsAll(events: seq<Event>, before: seq<Call>)
    requires Exit !in events && Overrun !in events
    ensures Upto(events, before, _ => 0) == Trail(Calls(events), Return(0))
  {
    if events != [] {
      assert events[0].Visit?;
      ZeroVisitsAll(events[1..], before + [events[0].call]);
    }
  }

  lemma CountLast(c: Counts, call: Call)
    ensures Counted(c, Calls([Visit(call)])) == Count(c, call.kind)
  {
    assert Calls([Visit(call)]) == [call] + Calls([]);
    assert [call] + Calls([]) == [call];
    assert Counted(Count(c, call.kind), []) == Count(c, call.kind);
  }

  lemma {:induction false} PreorderCounts(w: Walker, path: string, node: Node, depth: nat, c: Counts, of: Type)
    requires (of.D? || of.F?) && (w.Chdir? ==> Open(node))
    ensures Exit !in Preorder(w, path, node, depth)
    ensures Counter(Counted(c, Calls(Preorder(w, path, node, depth))), of) == Counter(c, of) + HowMany(node, of)
    decreases Size(node), 0
  {
    if node.Dir? {
      var first := Call(path, D, depth);
      var events := Preorder(w, path, node, depth);
      var rest := Calls(events[1..]);
      assert Calls(events) == [first] + rest;
      assert ([first] + rest)[1..] == rest;
      assert Counted(c, Calls(events)) == Counted(Count(c, D), rest);
      CountOne(c, D, of);
      if node.readable {
        assert events[1..] == PreorderList(w, path, node.searchable, node.entries, depth + 1);
        ListCounts(w, path, node.searchable, node.entries, depth + 1, Count(c, D), of);
      } else {
        assert events[1..] == [Visit(Call(path + "/", DNR, depth))];
        CountLast(Count(c, D), Call(path + "/", DNR, depth));
      }
    } else {
      CountOne(c, if node.Missing? then NS else F(node.kind), of);
    }
  }

  lemma {:induction false} ListCounts(w: Walker, path: string, searchable: bool, l: Listing, depth: nat, c: Counts,
                                      of: Type)
    requires (of.D? || of.F?) && (w.Chdir? ==> searchable && OpenList(l))
    ensures Exit !in PreorderList(w, path, searchable, l, depth)
    ensures Counter(Counted(c, Calls(PreorderList(w, path, searchable, l, depth))), of)
         == Counter(c, of) + if searchable then HowManyIn(l, of) else 0
    decreases SizeList(l), 1
  {
    if l.Entry? {
      if Dots(l.name) {
        ListCounts(w, path, searchable, l.rest, depth, c, of);
      } else {
        var child, node := ChildPath(w, path, l.name), if searchable then l.node else Missing;
        var first, rest := Preorder(w, child, node, depth), PreorderList(w, path, searchable, l.rest, depth);
        PreorderCounts(w, child, node, depth, c, of);
        CallsConcat(first, rest);
        CountedConcat(c, Calls(first), Calls(rest));
        ListCounts(w, path, searchable, l.rest, depth, Counted(c, Calls(first)), of);
      }
    }
  }

  /** With `myfunc` as the callback both programs, from a start path that is long
      enough, visit everything and return 0, and each counter is the number of nodes
      of its type in the tree; chdir.c needs directories that it can enter. */
  lemma MyfuncCountsTree(w: Walker, path: string, node: Node, of: Type)
    requires Sound(node) && |path| >= (if w.Nochdir? then 86 else 64) && (w.Chdir? ==> Open(node))
    requires of.D? || of.F?
    ensures var t := Upto(Script(w, path, node, 0, 2 * |path|).0, [], _ => 0);
            t.outcome == Return(0) && Counter(Counted(NOTHING, t.calls), of) == HowMany(node, of)
  {
    ScriptIsPreorder(w, path, node, 0, 2 * |path|);
    PreorderCounts(w, path, node, 0, NOTHING, of);
    PreorderFits(w, path, node, 0);
    ZeroVisitsAll(Preorder(w, path, node, 0), []);
  }
}
