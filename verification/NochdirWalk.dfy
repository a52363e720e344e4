/** lab_02/ftw/nochdir.c: the walker that keeps the whole path in its buffer. */
module NochdirWalk {
  import opened DirTree
  import opened Strings
  import opened TreeWalk
  import opened PathBuffers

  class Walk {
    const fs: Node
    const cwd: Location
    const path: PathBuffer
    const func: seq<Call> -> int
    var log: seq<Call>

    constructor (fs: Node, cwd: Location, func: seq<Call> -> int)
      ensures this.fs == fs && this.cwd == cwd && this.func == func && log == []
      ensures fresh(path) && path.block.Length == 0
    {
      this.fs, this.cwd, this.func, log := fs, cwd, func, [];
      path := new PathBuffer(0);
    }

    ghost predicate Valid()
      reads this, path, path.block
    {
      Sound(fs) && path.Valid()
    }

    ghost function Here(): Node
      reads this, path, path.block
    {
      Lookup(fs, cwd, path.Str())
    }

    method Func(kind: Type, depth: nat) returns (ret: int)
      modifies this
      ensures log == old(log) + [Call(path.Str(), kind, depth)] && ret == func(log)
    {
      log := log + [Call(path.Str(), kind, depth)];
      ret := func(log);
    }

    /** The calls of `dopath` are the script of its node, cut where the callback
        ends it; a return leaves the path as it was, or with a slash behind it when
        the directory could not be opened. */
    method Dopath(depth: nat) returns (outcome: Outcome)
      requires Valid()
      modifies this, path, path.block
      ensures path.block == old(path.block) || fresh(path.block)
      ensures Progress(Upto(Script(Nochdir, old(path.Str()), old(Here()), depth, old(path.block.Length)).0,
                            old(log), func),
                       old(log), log, Trail([], outcome))
      ensures outcome == Return(0) ==>
                path.block.Length == Script(Nochdir, old(path.Str()), old(Here()), depth, old(path.block.Length)).1
      ensures outcome.Return? ==> Valid() && Kept(old(path.Str()), old(Here()))
      decreases Size(Here()), 1
    {
      var node := Lookup(fs, cwd, path.Str());
      ghost var p, h0, len := path.Str(), log, path.block.Length;
      ghost var whole := Upto(Script(Nochdir, p, node, depth, len).0, h0, func);
      ProgressStart(h0, whole);
      if node.Missing? {
        VisitLast(whole, h0, log, Call(p, NS, depth), func);
        var ret := Func(NS, depth);
        return Return(ret);
      }
      if !node.Dir? {
        VisitLast(whole, h0, log, Call(p, F(node.kind), depth), func);
        var ret := Func(F(node.kind), depth);
        return Return(ret);
      }
      ghost var body := Body(Nochdir, p, node, depth, len);
      VisitNext(whole, h0, log, Call(p, D, depth), body.0, func);
      var ret := Func(D, depth);
      if ret != 0 {
        return Return(ret);
      }
      ghost var log1 := log;
      outcome := Directory(depth, p, node);
      WalkLast(whole, h0, log1, log, outcome, body.0, func);
    }

    /** The path is still at the start of the buffer; only the exit for a directory
        that cannot be opened leaves something behind it. */
    ghost predicate Kept(p: string, node: Node)
      reads this, path, path.block
    {
      && p <= path.Bytes()
      && (path.Str() == p || (node.Dir? && !node.readable && path.Str() == p + "/"))
    }

    /** The part of `dopath` after its first call for a directory. */
    method Directory(depth: nat, ghost p: string, ghost node: Node) returns (outcome: Outcome)
      requires Valid() && path.Str() == p && node == Here() && node.Dir?
      modifies this, path, path.block
      ensures path.block == old(path.block) || fresh(path.block)
      ensures Progress(Upto(Body(Nochdir, p, node, depth, old(path.block.Length)).0, old(log), func),
                       old(log), log, Trail([], outcome))
      ensures outcome == Return(0) ==> path.block.Length == Body(Nochdir, p, node, depth, old(path.block.Length)).1
      ensures outcome.Return? ==> Valid() && Kept(p, node)
      decreases Size(node), 0
    {
      hide Upto, Lookup, Resolve;
      ghost var h0, len := log, path.block.Length;
      ghost var whole := Upto(Body(Nochdir, p, node, depth, len).0, h0, func);
      ProgressStart(h0, whole);
      var n := |path.Str()|;
      path.Grow(n);
      LongerBlock(old(path.Bytes()), path.Bytes());
      ghost var bytes := path.Bytes();
      var ok := path.Store(n, "/" + [NUL]);
      if !ok {
        return Overran;
      }
      StoreString(bytes, p, "/");
      n := n + 1;
      LookupSlash(fs, cwd, p);
      var dir := Lookup(fs, cwd, path.Str());
      if !dir.Dir? || !dir.readable {
        VisitLast(whole, h0, log, Call(p + "/", DNR, depth), func);
        var ret := Func(DNR, depth);
        return Return(ret);
      }
      outcome := Entries(dir.entries, n, depth, p, dir);
    }

    /** The loop of `dopath` over the entries of the directory p, and the
        restoration of the path after it; n is the length of the path and slash. */
    method Entries(entries: Listing, n: nat, depth: nat, ghost p: string, ghost dir: Node) returns (outcome: Outcome)
      requires Valid() && NUL !in p && n == |p| + 1 && path.Str() == p + "/"
      requires dir == Lookup(fs, cwd, p) && dir.Dir? && entries == dir.entries
      modifies this, path, path.block
      ensures path.block == old(path.block) || fresh(path.block)
      ensures Progress(Upto(ScriptList(Nochdir, p, dir.searchable, entries, depth + 1, old(path.block.Length)).0,
                            old(log), func),
                       old(log), log, Trail([], outcome))
      ensures outcome == Return(0) ==>
                path.block.Length
                == ScriptList(Nochdir, p, dir.searchable, entries, depth + 1, old(path.block.Length)).1
      ensures outcome.Return? ==> Valid() && path.Str() == p && p <= path.Bytes()
      decreases SizeList(entries), 0
    {
      LookupSound(fs, cwd, p);
      ghost var h0, len := log, path.block.Length;
      ghost var script := ScriptList(Nochdir, p, dir.searchable, entries, depth + 1, len);
      ghost var whole := Upto(script.0, h0, func);
      ProgressStart(h0, whole);
      var l, ret := entries, 0;
      while ret == 0 && l.Entry?
        invariant path.block == old(path.block) || fresh(path.block)
        invariant SoundList(l) && Within(l, entries) && SizeList(l) <= SizeList(entries)
        invariant p + "/" <= path.Bytes() && n < path.block.Length
        invariant Progress(whole, h0, log,
                           if ret != 0 then Trail([], Return(ret))
                           else Upto(ScriptList(Nochdir, p, dir.searchable, l, depth + 1, path.block.Length).0,
                                     log, func))
        invariant ret == 0 ==> script.1 == ScriptList(Nochdir, p, dir.searchable, l, depth + 1, path.block.Length).1
        decreases SizeList(l)
      {
        WithinRest(l, entries);
        if !Dots(l.name) {
          ghost var log1, child := log, if dir.searchable then l.node else Missing;
          ghost var first := EntryScript(Nochdir, p, l.name, child, depth + 1, path.block.Length);
          ghost var rest := ScriptList(Nochdir, p, dir.searchable, l.rest, depth + 1, first.1);
          outcome := One(l.name, n, depth, p, dir, child);
          WalkNext(whole, h0, log1, log, outcome, first.0, rest.0, func);
          if !outcome.Return? {
            return outcome;
          }
          ret := outcome.ret;
        }
        l := l.rest;
      }
      StoreString(path.Bytes(), p, "");
      assert p + "" == p;
      var ok := path.Store(n - 1, "" + [NUL]);
      return Return(ret);
    }

    /** One round of the loop: the name is stored behind the slash and walked. */
    method One(name: string, n: nat, depth: nat, ghost p: string, ghost dir: Node, ghost child: Node)
      returns (outcome: Outcome)
      requires Sound(fs) && NUL !in p && p + "/" <= path.Bytes() && n == |p| + 1 < path.block.Length
      requires dir == Lookup(fs, cwd, p) && dir.Dir? && Name(name) && !Dots(name) && child == Child(dir, name)
      modifies this, path, path.block
      ensures path.block == old(path.block) || fresh(path.block)
      ensures Progress(Upto(EntryScript(Nochdir, p, name, child, depth + 1, old(path.block.Length)).0, old(log), func),
                       old(log), log, Trail([], outcome))
      ensures outcome == Return(0) ==>
                path.block.Length == EntryScript(Nochdir, p, name, child, depth + 1, old(path.block.Length)).1
      ensures outcome.Return? ==> p + "/" <= path.Bytes() && n < path.block.Length
      decreases Size(child), 2
    {
      ghost var bytes := path.Bytes();
      var ok := path.Store(n, name + [NUL]);
      if !ok {
        return Overran;
      }
      StoreString(bytes, p + "/", name);
      ResolveChild(fs, cwd, p, name);
      outcome := Dopath(depth + 1);
      assert p + "/" <= p + "/" + name;
    }

    /** `myftw`, called once on a start path: the calls of the callback and the
        result are those of the script, in a buffer of twice the length of the path. */
    method Myftw(pathname: string) returns (outcome: Outcome)
      requires Sound(fs) && NUL !in pathname && path.block.Length == 0 && log == []
      modifies this, path
      ensures if pathname == "" then outcome == Overran && log == [] else
                Trail(log, outcome)
                == Upto(Script(Nochdir, pathname, Lookup(fs, cwd, pathname), 0, 2 * |pathname|).0, [], func)
    {
      if path.block.Length <= |pathname| {
        path.Allocate(2 * |pathname|);
      }
      ghost var bytes := path.Bytes();
      var ok := path.Store(0, pathname + [NUL]);
      if !ok {
        return Overran;
      }
      StoreString(bytes, "", pathname);
      assert "" + pathname == pathname;
      ghost var whole := Upto(Script(Nochdir, pathname, Lookup(fs, cwd, pathname), 0, 2 * |pathname|).0, [], func);
      outcome := Dopath(0);
      ProgressUnique(whole, [], log, outcome);
    }
  }
}
