/** What the two tree walkers of lab_02/ftw do, as the sequence of calls they make
    to the callback.

    `Preorder` is the walk as it is meant.  `Script` is the walk as the code does
    it in a path buffer of a given length, where a store may run past the end of
    the buffer; C promises nothing after that, so the script ends there. */
module TreeWalk {
  import opened DirTree

  datatype Type = F(kind: Kind) | D | DNR | NS

  /** One call of the callback. */
  datatype Call = Call(path: string, kind: Type, depth: nat)

  /** The node behind a path is what the callback is told about it. */
  predicate Told(node: Node, kind: Type) {
    match kind
    case NS => node.Missing?
    case F(k) => node == File(k)
    case D => node.Dir?
    case DNR => node.Dir? && !node.readable
  }

  datatype Event = Visit(call: Call) | Exit | Overrun

  /** nochdir.c keeps the whole path in its buffer; chdir.c enters every directory
      and keeps the last name only. */
  datatype Walker = Nochdir | Chdir

  // ----------------------------------------------------------- what is meant

  function ChildPath(w: Walker, path: string, name: string): string {
    if w.Nochdir? then path + "/" + name else name
  }

  /** A directory comes before its entries, an unreadable one is reported twice,
      and an entry of a directory that cannot be searched has no status.  chdir.c
      exits at a directory that it can read but not enter. */
  function Preorder(w: Walker, path: string, node: Node, depth: nat): seq<Event>
    decreases Size(node)
  {
    match node
    case Missing => [Visit(Call(path, NS, depth))]
    case File(kind) => [Visit(Call(path, F(kind), depth))]
    case Dir(readable, searchable, entries) =>
      [Visit(Call(path, D, depth))] +
      if !readable then [Visit(Call(path + "/", DNR, depth))]
      else if w.Chdir? && !searchable then [Exit]
      else PreorderList(w, path, searchable, entries, depth + 1)
  }

  function PreorderList(w: Walker, path: string, searchable: bool, l: Listing, depth: nat): seq<Event>
    decreases SizeList(l)
  {
    if l.End? then []
    else
      var rest := PreorderList(w, path, searchable, l.rest, depth);
      if Dots(l.name) then rest
      else Preorder(w, ChildPath(w, path, l.name), if searchable then l.node else Missing, depth) + rest
  }

  // ----------------------------------------------------- what the buffer allows

  /** The length of the buffer after the check in `dopath`, for a path of length n. */
  function Grown(n: nat, len: nat): nat { if n + NAME_MAX + 2 > len then 2 * len else len }

  /** Where the next name is stored. */
  function Offset(w: Walker, path: string): nat { if w.Nochdir? then |path| + 1 else 0 }

  /** The events of `dopath`, and the length of the buffer after them. */
  function Script(w: Walker, path: string, node: Node, depth: nat, len: nat): (seq<Event>, nat)
    decreases Size(node), 0
  {
    match node
    case Missing => ([Visit(Call(path, NS, depth))], len)
    case File(kind) => ([Visit(Call(path, F(kind), depth))], len)
    case Dir(readable, searchable, entries) =>
      var body := Body(w, path, node, depth, len);
      ([Visit(Call(path, D, depth))] + body.0, body.1)
  }

  /** What follows the first call for a directory. */
  function Body(w: Walker, path: string, node: Node, depth: nat, len: nat): (seq<Event>, nat)
    requires node.Dir?
    decreases SizeList(node.entries), 1
  {
    var grown := Grown(|path|, len);
    if |path| + 2 > grown then ([Overrun], grown)
    else if !node.readable then ([Visit(Call(path + "/", DNR, depth))], grown)
    else if w.Chdir? && !node.searchable then ([Exit], grown)
    else ScriptList(w, path, node.searchable, node.entries, depth + 1, grown)
  }

  function ScriptList(w: Walker, path: string, searchable: bool, l: Listing, depth: nat, len: nat): (seq<Event>, nat)
    decreases SizeList(l), 0
  {
    if l.End? then ([], len)
    else if Dots(l.name) then ScriptList(w, path, searchable, l.rest, depth, len)
    else
      var first := EntryScript(w, path, l.name, if searchable then l.node else Missing, depth, len);
      var rest := ScriptList(w, path, searchable, l.rest, depth, first.1);
      (first.0 + rest.0, rest.1)
  }

  /** One entry of a directory: its name is stored, and its node is walked. */
  function EntryScript(w: Walker, path: string, name: string, node: Node, depth: nat, len: nat): (seq<Event>, nat)
    decreases Size(node), 1
  {
    if Offset(w, path) + |name| + 1 > len then ([Overrun], len)
    else Script(w, ChildPath(w, path, name), node, depth, len)
  }

  /** A path of length n leaves room for a slash, any name and a terminator, after
      the one doubling that its directory may cause. */
  predicate Fits(w: Walker, n: nat, len: nat) {
    && n + 2 <= Grown(n, len)
    && (if w.Nochdir? then n + 1 else 0) + NAME_MAX + 1 <= Grown(n, len)
  }

  /** Once a path fits, every path below it fits, at every depth and after every
      return: one doubling per directory is always enough. */
  lemma {:induction false} ScriptIsPreorder(w: Walker, path: string, node: Node, depth: nat, len: nat)
    requires Sound(node) && Fits(w, |path|, len)
    ensures Script(w, path, node, depth, len).0 == Preorder(w, path, node, depth)
    ensures Script(w, path, node, depth, len).1 >= len
    decreases Size(node)
  {
    if node.Dir? && node.readable && !(w.Chdir? && !node.searchable) {
      ScriptListIsPreorder(w, path, node.searchable, node.entries, depth + 1, Grown(|path|, len));
    }
  }

  lemma {:induction false} ScriptListIsPreorder(w: Walker, path: string, searchable: bool, l: Listing, depth: nat,
                                                len: nat)
    requires SoundList(l) && Offset(w, path) + NAME_MAX + 1 <= len
    ensures ScriptList(w, path, searchable, l, depth, len).0 == PreorderList(w, path, searchable, l, depth)
    ensures ScriptList(w, path, searchable, l, depth, len).1 >= len
    decreases SizeList(l)
  {
    if l.Entry? {
      if Dots(l.name) {
        ScriptListIsPreorder(w, path, searchable, l.rest, depth, len);
      } else {
        var child, node := ChildPath(w, path, l.name), if searchable then l.node else Missing;
        ScriptIsPreorder(w, child, node, depth, len);
        ScriptListIsPreorder(w, path, searchable, l.rest, depth, Script(w, child, node, depth, len).1);
      }
    }
  }

  function Longest(): (s: string)
    ensures Name(s) && |s| == NAME_MAX
  {
    seq(NAME_MAX, _ => 'x')
  }

  /** In the buffer that `myftw` makes, of twice the length of the start path, no
      tree makes the walk store past the end exactly when the start path has at
      least 86 bytes for nochdir.c, and at least 64 for chdir.c. */
  lemma RoomIff(w: Walker, path: string)
    requires path != ""
    ensures (forall node :: Sound(node) ==> Overrun !in Script(w, path, node, 0, 2 * |path|).0)
            <==> |path| >= if w.Nochdir? then 86 else 64
  {
    if |path| >= if w.Nochdir? then 86 else 64 {
      forall node | Sound(node)
        ensures Overrun !in Script(w, path, node, 0, 2 * |path|).0
      {
        ScriptIsPreorder(w, path, node, 0, 2 * |path|);
        PreorderFits(w, path, node, 0);
      }
    } else {
      ShortStartOverruns(w, path);
    }
  }

  /** A directory with one file of the longest name. */
  function Tight(): (node: Node)
    ensures Sound(node)
  {
    Dir(true, true, Entry(Longest(), File(Regular), End))
  }

  lemma ShortStartOverruns(w: Walker, path: string)
    requires path != "" && |path| < if w.Nochdir? then 86 else 64
    ensures Overrun in Script(w, path, Tight(), 0, 2 * |path|).0
  {
    var grown := Grown(|path|, 2 * |path|);
    var l := Tight().entries;
    if |path| + 2 <= grown {
      assert EntryScript(w, path, Longest(), File(Regular), 1, grown) == ([Overrun], grown);
      OverrunFirst(w, path, true, l, 1, grown);
    }
    OverrunInBody(w, path, Tight(), 0, 2 * |path|);
  }

  lemma OverrunFirst(w: Walker, path: string, searchable: bool, l: Listing, depth: nat, len: nat)
    requires l.Entry? && !Dots(l.name) && Offset(w, path) + |l.name| + 1 > len
    ensures Overrun in ScriptList(w, path, searchable, l, depth, len).0
  {
    var rest := ScriptList(w, path, searchable, l.rest, depth, len).0;
    assert ScriptList(w, path, searchable, l, depth, len).0 == [Overrun] + rest;
  }

  lemma OverrunInBody(w: Walker, path: string, node: Node, depth: nat, len: nat)
    requires node.Dir? && Overrun in Body(w, path, node, depth, len).0
    ensures Overrun in Script(w, path, node, depth, len).0
  {
  }

  lemma {:induction false} PreorderFits(w: Walker, path: string, node: Node, depth: nat)
    ensures Overrun !in Preorder(w, path, node, depth)
    decreases Size(node)
  {
    if node.Dir? {
      PreorderListFits(w, path, node.searchable, node.entries, depth + 1);
    }
  }

  lemma {:induction false} PreorderListFits(w: Walker, path: string, searchable: bool, l: Listing, depth: nat)
    ensures Overrun !in PreorderList(w, path, searchable, l, depth)
    decreases SizeList(l)
  {
    if l.Entry? {
      PreorderListFits(w, path, searchable, l.rest, depth);
      if !Dots(l.name) {
        PreorderFits(w, ChildPath(w, path, l.name), if searchable then l.node else Missing, depth);
      }
    }
  }

  // ------------------------------------------------------- the callback's say

  datatype Outcome = Return(ret: int) | Exited | Overran

  /** The calls made, and how the walk ended. */
  datatype Trail = Trail(calls: seq<Call>, outcome: Outcome)

  /** A callback may answer by all the calls made so far, the present one last; the
      first answer that is not 0 ends the walk, and is returned. */
  function Upto(events: seq<Event>, before: seq<Call>, f: seq<Call> -> int): Trail {
    if events == [] then Trail([], Return(0))
    else
      match events[0]
      case Exit => Trail([], Exited)
      case Overrun => Trail([], Overran)
      case Visit(c) =>
        var ret := f(before + [c]);
        if ret != 0 then Trail([c], Return(ret))
        else Extend([c], Upto(events[1..], before + [c], f))
  }

  function Extend(calls: seq<Call>, t: Trail): Trail { t.(calls := calls + t.calls) }

  lemma {:induction false} UptoConcat(a: seq<Event>, b: seq<Event>, before: seq<Call>, f: seq<Call> -> int)
    ensures var t := Upto(a, before, f);
            Upto(a + b, before, f)
            == if t.outcome == Return(0) then Extend(t.calls, Upto(b, before + t.calls, f)) else t
  {
    if a == [] {
      assert a + b == b;
      assert before + [] == before;
    } else {
      assert (a + b)[1..] == a[1..] + b;
      if a[0].Visit? {
        var c := a[0].call;
        UptoConcat(a[1..], b, before + [c], f);
        var t := Upto(a[1..], before + [c], f);
        assert before + [c] + t.calls == before + ([c] + t.calls);
      }
    }
  }

  lemma UptoCons(c: Call, rest: seq<Event>, before: seq<Call>, f: seq<Call> -> int)
    ensures Upto([Visit(c)] + rest, before, f) ==
            if f(before + [c]) != 0 then Trail([c], Return(f(before + [c])))
            else Extend([c], Upto(rest, before + [c], f))
  {
    assert ([Visit(c)] + rest)[1..] == rest;
  }

  /** The log has grown from h0, and what is left of the whole trail is `rest`. */
  ghost predicate Progress(whole: Trail, h0: seq<Call>, log: seq<Call>, rest: Trail) {
    h0 <= log && whole == Extend(log[|h0|..], rest)
  }

  lemma ProgressMore(whole: Trail, h0: seq<Call>, log: seq<Call>, calls: seq<Call>, rest: Trail)
    requires Progress(whole, h0, log, Extend(calls, rest))
    ensures Progress(whole, h0, log + calls, rest)
  {
    assert (log + calls)[|h0|..] == log[|h0|..] + calls;
  }

  lemma ProgressStart(h0: seq<Call>, whole: Trail)
    ensures Progress(whole, h0, h0, whole)
  {
  }

  lemma ProgressUnique(t: Trail, log: seq<Call>, log': seq<Call>, outcome: Outcome)
    requires Progress(t, log, log', Trail([], outcome))
    ensures t.outcome == outcome && log' == log + t.calls
  {
  }

  /** The next call of the callback. */
  lemma VisitNext(whole: Trail, h0: seq<Call>, log: seq<Call>, c: Call, rest: seq<Event>, f: seq<Call> -> int)
    requires Progress(whole, h0, log, Upto([Visit(c)] + rest, log, f))
    ensures f(log + [c]) != 0 ==> Progress(whole, h0, log + [c], Trail([], Return(f(log + [c]))))
    ensures f(log + [c]) == 0 ==> Progress(whole, h0, log + [c], Upto(rest, log + [c], f))
  {
    UptoCons(c, rest, log, f);
    if f(log + [c]) != 0 {
      ProgressMore(whole, h0, log, [c], Trail([], Return(f(log + [c]))));
    } else {
      ProgressMore(whole, h0, log, [c], Upto(rest, log + [c], f));
    }
  }

  lemma VisitLast(whole: Trail, h0: seq<Call>, log: seq<Call>, c: Call, f: seq<Call> -> int)
    requires Progress(whole, h0, log, Upto([Visit(c)], log, f))
    ensures Progress(whole, h0, log + [c], Trail([], Return(f(log + [c]))))
  {
    assert [Visit(c)] == [Visit(c)] + [];
    VisitNext(whole, h0, log, c, [], f);
  }

  /** The rest was walked, from log to log'. */
  lemma WalkLast(whole: Trail, h0: seq<Call>, log: seq<Call>, log': seq<Call>, outcome: Outcome,
                 rest: seq<Event>, f: seq<Call> -> int)
    requires Progress(whole, h0, log, Upto(rest, log, f))
    requires Progress(Upto(rest, log, f), log, log', Trail([], outcome))
    ensures Progress(whole, h0, log', Trail([], outcome))
  {
    var t := Upto(rest, log, f);
    ProgressUnique(t, log, log', outcome);
    ProgressMore(whole, h0, log, t.calls, Trail([], outcome));
  }

  /** The next entry of a directory was walked, from log to log'. */
  lemma WalkNext(whole: Trail, h0: seq<Call>, log: seq<Call>, log': seq<Call>, outcome: Outcome,
                 first: seq<Event>, rest: seq<Event>, f: seq<Call> -> int)
    requires Progress(whole, h0, log, Upto(first + rest, log, f))
    requires Progress(Upto(first, log, f), log, log', Trail([], outcome))
    ensures Progress(whole, h0, log', if outcome == Return(0) then Upto(rest, log', f) else Trail([], outcome))
  {
    var t := Upto(first, log, f);
    UptoConcat(first, rest, log, f);
    ProgressUnique(t, log, log', outcome);
    if outcome == Return(0) {
      ProgressMore(whole, h0, log, t.calls, Upto(rest, log', f));
    } else {
      ProgressMore(whole, h0, log, t.calls, Trail([], outcome));
    }
  }
}
