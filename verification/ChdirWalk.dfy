/** lab_02/ftw/chdir.c: the walker that enters every directory and keeps only the
    last name in its buffer. */
module ChdirWalk {
  import opened Options
  import opened DirTree
  import opened Strings
  import opened TreeWalk
  import opened PathBuffers

  /** The working directory after `dopath` returns: the parent of a directory whose
      entries were walked, else what it was. */
  function CwdAfter(fs: Node, cwd: Location, p: string, walked: bool): Location {
    var loc, node := Resolve(fs, cwd, p), Lookup(fs, cwd, p);
    if loc.Some? && Enterable(node) && node.readable && walked then Parent(loc.value) else cwd
  }

  class Walk {
    const fs: Node
    const path: PathBuffer
    const func: seq<Call> -> int
    var cwd: Location
    var log: seq<Call>
    ghost var places: seq<Location>

    constructor (fs: Node, cwd: Location, func: seq<Call> -> int)
      ensures this.fs == fs && this.cwd == cwd && this.func == func && log == [] && places == []
      ensures fresh(path) && path.block.Length == 0
    {
      this.fs, this.cwd, this.func, log, places := fs, cwd, func, [], [];
      path := new PathBuffer(0);
    }

    ghost predicate Valid()
      reads this, path, path.block
    {
      Sound(fs) && path.Valid()
    }

    ghost function Here(): Node
      reads this, path, path.block
    {
      Lookup(fs, cwd, path.Str())
    }

    /** `places` are the working directories at the calls so far, and the name given
        to each call leads from there to a node that is what the call says. */
    ghost predicate NamesAreTrue()
      reads this
    {
      |places| == |log| && forall i :: 0 <= i < |log| ==> Told(Lookup(fs, places[i], log[i].path), log[i].kind)
    }

    method Func(kind: Type, depth: nat) returns (ret: int)
      requires NamesAreTrue() && Told(Here(), kind)
      modifies this`log, this`places
      ensures log == old(log) + [Call(path.Str(), kind, depth)] && ret == func(log)
      ensures NamesAreTrue() && places == old(places) + [cwd]
    {
      log, places := log + [Call(path.Str(), kind, depth)], places + [cwd];
      ret := func(log);
    }

    method EnterDirectory(to: string) returns (ok: bool)
      modifies this`cwd
      ensures ok <==> Resolve(fs, old(cwd), to).Some? && Enterable(At(fs, Resolve(fs, old(cwd), to).value))
      ensures cwd == if ok then Resolve(fs, old(cwd), to).value else old(cwd)
    {
      var loc := Resolve(fs, cwd, to);
      ok := loc.Some? && Enterable(At(fs, loc.value));
      if ok {
        cwd := loc.value;
      }
    }

    /** The calls of `dopath` are the script of its node, cut where the callback
        ends it; it returns in the parent of a directory whose entries it walked. */
    method Dopath(depth: nat) returns (outcome: Outcome)
      requires Valid()
      requires NamesAreTrue()
      modifies this, path, path.block
      ensures NamesAreTrue()
      ensures path.block == old(path.block) || fresh(path.block)
      ensures Progress(Upto(Script(Chdir, old(path.Str()), old(Here()), depth, old(path.block.Length)).0,
                            old(log), func),
                       old(log), log, Trail([], outcome))
      ensures outcome == Return(0) ==>
                path.block.Length == Script(Chdir, old(path.Str()), old(Here()), depth, old(path.block.Length)).1
      ensures outcome.Return? ==>
                cwd == CwdAfter(fs, old(cwd), old(path.Str()), func(old(log) + [Call(old(path.Str()), D, depth)]) == 0)
      decreases Size(Here()), 1
    {
      var node := Lookup(fs, cwd, path.Str());
      ghost var p, h0, len := path.Str(), log, path.block.Length;
      ghost var whole := Upto(Script(Chdir, p, node, depth, len).0, h0, func);
      ProgressStart(h0, whole);
      if node.Missing? {
        VisitLast(whole, h0, log, Call(p, NS, depth), func);
        var ret := Func(NS, depth);
        return Return(ret);
      }
      if !node.Dir? {
        VisitLast(whole, h0, log, Call(p, F(node.kind), depth), func);
        var ret := Func(F(node.kind), depth);
        return Return(ret);
      }
      ghost var body := Body(Chdir, p, node, depth, len);
      VisitNext(whole, h0, log, Call(p, D, depth), body.0, func);
      var ret := Func(D, depth);
      if ret != 0 {
        return Return(ret);
      }
      ghost var log1 := log;
      outcome := Directory(depth, p, node);
      WalkLast(whole, h0, log1, log, outcome, body.0, func);
    }

    /** The part of `dopath` after its first call for a directory. */
    method Directory(depth: nat, ghost p: string, ghost node: Node) returns (outcome: Outcome)
      requires Valid() && path.Str() == p && node == Here() && node.Dir?
      requires NamesAreTrue()
      modifies this, path, path.block
      ensures NamesAreTrue()
      ensures path.block == old(path.block) || fresh(path.block)
      ensures Progress(Upto(Body(Chdir, p, node, depth, old(path.block.Length)).0, old(log), func),
                       old(log), log, Trail([], outcome))
      ensures outcome == Return(0) ==> path.block.Length == Body(Chdir, p, node, depth, old(path.block.Length)).1
      ensures outcome.Return? ==> cwd == CwdAfter(fs, old(cwd), p, true)
      decreases Size(node), 0
    {
      ghost var h0, len := log, path.block.Length;
      ghost var whole := Upto(Body(Chdir, p, node, depth, len).0, h0, func);
      ProgressStart(h0, whole);
      var n := |path.Str()|;
      path.Grow(n);
      LongerBlock(old(path.Bytes()), path.Bytes());
      ghost var bytes := path.Bytes();
      var ok := path.Store(n, "/" + [NUL]);
      if !ok {
        return Overran;
      }
      StoreString(bytes, p, "/");
      LookupSlash(fs, cwd, p);
      ResolveSlash(fs, cwd, p);
      var dir := Lookup(fs, cwd, path.Str());
      if !dir.Dir? || !dir.readable {
        VisitLast(whole, h0, log, Call(p + "/", DNR, depth), func);
        var ret := Func(DNR, depth);
        return Return(ret);
      }
      ok := EnterDirectory(path.Str());
      if !ok {
        return Exited;
      }
      hide Upto, Lookup, Resolve;
      outcome := Entries(dir.entries, depth, p, dir);
    }

    /** The loop of `dopath` over the entries of the working directory, and the
        way back out of it. */
    method Entries(entries: Listing, depth: nat, ghost p: string, ghost dir: Node) returns (outcome: Outcome)
      requires Sound(fs) && dir == At(fs, cwd) && Enterable(dir) && entries == dir.entries
      requires NamesAreTrue()
      modifies this, path, path.block
      ensures NamesAreTrue()
      ensures path.block == old(path.block) || fresh(path.block)
      ensures Progress(Upto(ScriptList(Chdir, p, true, entries, depth + 1, old(path.block.Length)).0, old(log), func),
                       old(log), log, Trail([], outcome))
      ensures outcome == Return(0) ==>
                path.block.Length == ScriptList(Chdir, p, true, entries, depth + 1, old(path.block.Length)).1
      ensures outcome.Return? ==> cwd == Parent(old(cwd))
      decreases SizeList(entries), 0
    {
      AtSound(fs, cwd);
      ghost var h0, len := log, path.block.Length;
      ghost var script := ScriptList(Chdir, p, true, entries, depth + 1, len);
      ghost var whole := Upto(script.0, h0, func);
      ProgressStart(h0, whole);
      var l, ret := entries, 0;
      while ret == 0 && l.Entry?
        invariant path.block == old(path.block) || fresh(path.block)
        invariant cwd == old(cwd) && NamesAreTrue()
        invariant SoundList(l) && Within(l, entries) && SizeList(l) <= SizeList(entries)
        invariant Progress(whole, h0, log,
                           if ret != 0 then Trail([], Return(ret))
                           else Upto(ScriptList(Chdir, p, true, l, depth + 1, path.block.Length).0, log, func))
        invariant ret == 0 ==> script.1 == ScriptList(Chdir, p, true, l, depth + 1, path.block.Length).1
        decreases SizeList(l)
      {
        WithinRest(l, entries);
        if !Dots(l.name) {
          ghost var log1 := log;
          ghost var first := EntryScript(Chdir, p, l.name, l.node, depth + 1, path.block.Length);
          ghost var rest := ScriptList(Chdir, p, true, l.rest, depth + 1, first.1);
          outcome := One(l.name, depth, p, l.node);
          WalkNext(whole, h0, log1, log, outcome, first.0, rest.0, func);
          if !outcome.Return? {
            return outcome;
          }
          ret := outcome.ret;
        }
        l := l.rest;
      }
      ResolveUp(fs, cwd);
      var ok := EnterDirectory("..");
      if !ok {
        assert false;
      }
      return Return(ret);
    }

    /** One round of the loop: the name is stored and walked, and the walk comes
        back to the directory it started from, also when the callback ends it. */
    method One(name: string, depth: nat, ghost p: string, ghost child: Node) returns (outcome: Outcome)
      requires Sound(fs) && Enterable(At(fs, cwd)) && Name(name) && !Dots(name) && child == Child(At(fs, cwd), name)
      requires NamesAreTrue()
      modifies this, path, path.block
      ensures NamesAreTrue()
      ensures path.block == old(path.block) || fresh(path.block)
      ensures Progress(Upto(EntryScript(Chdir, p, name, child, depth + 1, old(path.block.Length)).0, old(log), func),
                       old(log), log, Trail([], outcome))
      ensures outcome == Return(0) ==>
                path.block.Length == EntryScript(Chdir, p, name, child, depth + 1, old(path.block.Length)).1
      ensures outcome.Return? ==> cwd == old(cwd)
      decreases Size(child), 2
    {
      ghost var bytes := path.Bytes();
      var ok := path.Store(0, name + [NUL]);
      if !ok {
        return Overran;
      }
      StoreString(bytes, "", name);
      assert "" + name == name;
      ResolveName(fs, cwd, name);
      outcome := Dopath(depth + 1);
    }

    /** `myftw`, called once on a start path. */
    method Myftw(pathname: string) returns (outcome: Outcome)
      requires Sound(fs) && NUL !in pathname && path.block.Length == 0 && log == []
      requires NamesAreTrue()
      modifies this, path
      ensures NamesAreTrue()
      ensures if pathname == "" then outcome == Overran && log == [] else
                && Trail(log, outcome)
                   == Upto(Script(Chdir, pathname, Lookup(fs, old(cwd), pathname), 0, 2 * |pathname|).0, [], func)
                && (outcome.Return? ==> cwd == CwdAfter(fs, old(cwd), pathname, func([Call(pathname, D, 0)]) == 0))
    {
      if path.block.Length <= |pathname| {
        path.Allocate(2 * |pathname|);
      }
      ghost var bytes := path.Bytes();
      var ok := path.Store(0, pathname + [NUL]);
      if !ok {
        return Overran;
      }
      StoreString(bytes, "", pathname);
      assert "" + pathname == pathname;
      assert [] + [Call(pathname, D, 0)] == [Call(pathname, D, 0)];
      ghost var whole := Upto(Script(Chdir, pathname, Lookup(fs, cwd, pathname), 0, 2 * |pathname|).0, [], func);
      outcome := Dopath(0);
      ProgressUnique(whole, [], log, outcome);
    }
  }
}
