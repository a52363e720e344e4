/** The two writers of lab_05: two descriptors of one file, each with its own
    offset, get the characters in turn, those with an odd code through the first
    and those with an even code through the second.  3-write.c writes each
    character at once to a file opened as it is; 3-fprintf.c truncates the file and
    goes through two stdio buffers, of any capacity here, that are flushed when
    full and when closed. */
module SharedInode {

  /** The file after a `write`: a gap beyond its end reads as zero bytes. */
  function Overlay(file: seq<char>, at: nat, data: seq<char>): (r: seq<char>)
    ensures data != [] ==> |r| == if at + |data| > |file| then at + |data| else |file|
  {
    if data == [] then file
    else (if at <= |file| then file[..at] else file + seq(at - |file|, _ => '\0'))
         + data + if at + |data| <= |file| then file[at + |data|..] else []
  }

  predicate Odd(c: char) { c as int % 2 != 0 }

  /** The characters that go through the first descriptor. */
  function Odds(items: seq<char>): (r: seq<char>)
    ensures |r| <= |items|
  {
    if items == [] then []
    else
      var c := items[|items| - 1];
      Odds(items[..|items| - 1]) + if Odd(c) then [c] else []
  }

  /** The characters that go through the second descriptor. */
  function Evens(items: seq<char>): (r: seq<char>)
    ensures |r| <= |items|
  {
    if items == [] then []
    else
      var c := items[|items| - 1];
      Evens(items[..|items| - 1]) + if Odd(c) then [] else [c]
  }

  /** What 3-write.c makes of a file: each character lands at the offset of its own
      descriptor. */
  function Unbuffered(before: seq<char>, items: seq<char>): seq<char> {
    if items == [] then before
    else
      var front, c := items[..|items| - 1], items[|items| - 1];
      Overlay(Unbuffered(before, front), if Odd(c) then |Odds(front)| else |Evens(front)|, [c])
  }

  /** The offset of a descriptor and the buffer in front of it. */
  datatype Pipe = Pipe(offset: nat, buffer: seq<char>)

  datatype Pipes = Pipes(file: seq<char>, one: Pipe, two: Pipe)

  function Flushed(file: seq<char>, p: Pipe): seq<char> { Overlay(file, p.offset, p.buffer) }

  /** A character that does not fit any more flushes the buffer first. */
  function PutTo(file: seq<char>, p: Pipe, c: char, capacity: nat): (seq<char>, Pipe) {
    if |p.buffer| < capacity then (file, p.(buffer := p.buffer + [c]))
    else (Flushed(file, p), Pipe(p.offset + |p.buffer|, [c]))
  }

  function PutInTurn(s: Pipes, c: char, capacity: nat): Pipes {
    if Odd(c) then
      var (file, one) := PutTo(s.file, s.one, c, capacity);
      s.(file := file, one := one)
    else
      var (file, two) := PutTo(s.file, s.two, c, capacity);
      s.(file := file, two := two)
  }

  /** The loop of 3-fprintf.c. */
  function Printed(items: seq<char>, capacity: nat): Pipes {
    if items == [] then Pipes([], Pipe(0, []), Pipe(0, []))
    else PutInTurn(Printed(items[..|items| - 1], capacity), items[|items| - 1], capacity)
  }

  /** What 3-fprintf.c leaves: the first stream is closed first. */
  function Buffered(items: seq<char>, capacity: nat): seq<char> {
    var s := Printed(items, capacity);
    Flushed(Flushed(s.file, s.one), s.two)
  }

  // ------------------------------------------------------------ the programs

  class Inode {
    var data: seq<char>

    constructor (data: seq<char>)
      ensures this.data == data
    {
      this.data := data;
    }
  }

  /** An open file description: `write` goes to its own offset. */
  class Descriptor {
    const inode: Inode
    var offset: nat

    constructor (inode: Inode)
      ensures this.inode == inode && offset == 0
    {
      this.inode, offset := inode, 0;
    }

    method Write(data: seq<char>)
      modifies this, inode
      ensures inode.data == Overlay(old(inode.data), old(offset), data)
      ensures offset == old(offset) + |data|
    {
      inode.data := Overlay(inode.data, offset, data);
      offset := offset + |data|;
    }
  }

  /** 3-write.c, for any characters. */
  method WriteUnbuffered(inode: Inode, items: seq<char>)
    modifies inode
    ensures inode.data == Unbuffered(old(inode.data), items)
  {
    var fd1 := new Descriptor(inode);
    var fd2 := new Descriptor(inode);
    for k := 0 to |items|
      invariant fresh(fd1) && fresh(fd2) && fd1 != fd2 && fd1.inode == fd2.inode == inode
      invariant fd1.offset == |Odds(items[..k])| && fd2.offset == |Evens(items[..k])|
      invariant inode.data == Unbuffered(old(inode.data), items[..k])
    {
      hide Overlay;
      assert items[..k + 1][..k] == items[..k];
      if items[k] as int % 2 != 0 {
        fd1.Write([items[k]]);
      } else {
        fd2.Write([items[k]]);
      }
    }
    assert items[..|items|] == items;
  }

  /** A fully buffered output stream. */
  class Stream {
    const fd: Descriptor
    const capacity: nat
    var buffer: seq<char>

    ghost function View(): Pipe
      reads this, fd
    {
      Pipe(fd.offset, buffer)
    }

    constructor (fd: Descriptor, capacity: nat)
      ensures this.fd == fd && this.capacity == capacity && buffer == []
    {
      this.fd, this.capacity, buffer := fd, capacity, [];
    }

    method Flush()
      modifies this, fd, fd.inode
      ensures fd.inode.data == Flushed(old(fd.inode.data), old(View()))
      ensures View() == Pipe(old(fd.offset) + |old(buffer)|, [])
    {
      fd.Write(buffer);
      buffer := [];
    }

    method Put(c: char)
      modifies this, fd, fd.inode
      ensures (fd.inode.data, View()) == PutTo(old(fd.inode.data), old(View()), c, capacity)
    {
      hide Overlay;
      if |buffer| >= capacity {
        Flush();
        assert buffer + [c] == [c];
      }
      buffer := buffer + [c];
    }
  }

  /** The loop of 3-fprintf.c over two streams of one file, just opened. */
  method PrintInTurn(fs1: Stream, fs2: Stream, items: seq<char>)
    requires fs1 != fs2 && fs1.fd != fs2.fd && fs1.fd.inode == fs2.fd.inode && fs1.capacity == fs2.capacity
    requires fs1.View() == fs2.View() == Pipe(0, []) && fs1.fd.inode.data == []
    modifies fs1, fs2, fs1.fd, fs2.fd, fs1.fd.inode
    ensures Pipes(fs1.fd.inode.data, fs1.View(), fs2.View()) == Printed(items, fs1.capacity)
  {
    var inode := fs1.fd.inode;
    hide PutTo;
    for k := 0 to |items|
      invariant Pipes(inode.data, fs1.View(), fs2.View()) == Printed(items[..k], fs1.capacity)
    {
      var c := items[k];
      assert items[..k + 1][..k] == items[..k];
      if c as int % 2 != 0 {
        fs1.Put(c);
      } else {
        fs2.Put(c);
      }
    }
    assert items[..|items|] == items;
  }

  /** 3-fprintf.c, for any characters; the streams are closed in the order in which
      they were opened. */
  method WriteBuffered(inode: Inode, items: seq<char>, capacity: nat)
    modifies inode
    ensures inode.data == Buffered(items, capacity)
  {
    inode.data := [];
    var fd1 := new Descriptor(inode);
    var fs1 := new Stream(fd1, capacity);
    inode.data := [];
    var fd2 := new Descriptor(inode);
    var fs2 := new Stream(fd2, capacity);
    PrintInTurn(fs1, fs2, items);
    hide Printed, Flushed;
    fs1.Flush();
    fs2.Flush();
  }
}
