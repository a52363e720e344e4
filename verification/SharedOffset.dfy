/** lab_05/src/1.c: two fully buffered input streams on one file descriptor.  The
    descriptor has a single offset, so each refill of a buffer, of `capacity`
    bytes (20 in the program), takes the next block of the file from the other. */
module SharedOffset {

  /** One struct file: what a descriptor and its duplicates share. */
  class OpenFile {
    const data: seq<char>
    var offset: nat

    constructor (data: seq<char>)
      ensures this.data == data && offset == 0
    {
      this.data, offset := data, 0;
    }

    method Read(count: nat) returns (bytes: seq<char>)
      requires offset <= |data|
      modifies this
      ensures offset <= |data|
      ensures bytes == Block(old(data[offset..]), count) && data[offset..] == old(data[offset..])[|bytes|..]
    {
      var end := if offset + count <= |data| then offset + count else |data|;
      bytes := data[offset..end];
      assert bytes == Block(data[offset..], count);
      offset := end;
    }
  }

  /** The bytes a read of count gets from what is left of the file. */
  function Block(left: seq<char>, count: nat): seq<char> {
    if count <= |left| then left[..count] else left
  }

  /** `fscanf("%c")` on a stream with some buffered bytes and a file with some
      bytes left: the characters scanned (none at the end of the file), the
      buffer and the rest of the file after it. */
  function ScanOf(buffer: seq<char>, left: seq<char>, capacity: nat): (seq<char>, seq<char>, seq<char>) {
    var from := if buffer == [] then Block(left, capacity) else buffer;
    var left' := if buffer == [] then left[|from|..] else left;
    if from == [] then ([], [], left') else ([from[0]], from[1..], left')
  }

  class InStream {
    const file: OpenFile
    const capacity: nat
    var buffer: seq<char>

    constructor (file: OpenFile, capacity: nat)
      ensures this.file == file && this.capacity == capacity && buffer == []
    {
      this.file, this.capacity, buffer := file, capacity, [];
    }

    method Scan() returns (c: seq<char>)
      requires file.offset <= |file.data|
      modifies this, file
      ensures file.offset <= |file.data|
      ensures (c, buffer, file.data[file.offset..]) == ScanOf(old(buffer), old(file.data[file.offset..]), capacity)
    {
      if buffer == [] {
        buffer := file.Read(capacity);
      }
      if buffer == [] {
        c := [];
      } else {
        c, buffer := [buffer[0]], buffer[1..];
      }
    }
  }

  /** One character from each in turn, then what is left of the longer one. */
  function Alternate(x: seq<char>, y: seq<char>): seq<char> {
    if x == [] then y
    else if y == [] then x
    else [x[0], y[0]] + Alternate(x[1..], y[1..])
  }

  /** What the program prints: the blocks of the file, alternated two by two. */
  function Weave(data: seq<char>, capacity: nat): seq<char>
    requires capacity > 0
    decreases |data|
  {
    if data == [] then []
    else
      var x := Block(data, capacity);
      var y := Block(data[|x|..], capacity);
      Alternate(x, y) + Weave(data[|x|..][|y|..], capacity)
  }

  /** The two buffers at the head of the loop, when `left` is not read yet. */
  ghost predicate Paired(b1: seq<char>, b2: seq<char>, left: seq<char>) {
    |b2| <= |b1| && (left == [] || |b1| == |b2|)
  }

  /** What is still to be printed at the head of the loop. */
  function Todo(b1: seq<char>, b2: seq<char>, left: seq<char>, capacity: nat): seq<char>
    requires capacity > 0
  {
    Alternate(b1, b2) + Weave(left, capacity)
  }

  lemma TodoEnds(data: seq<char>, capacity: nat)
    requires capacity > 0
    ensures Todo([], [], data, capacity) == Weave(data, capacity)
    ensures Todo([], [], [], capacity) == []
  {
  }

  lemma BuffersPrint(b1: seq<char>, b2: seq<char>, left: seq<char>, capacity: nat)
    requires capacity > 0 && Paired(b1, b2, left) && b1 != []
    ensures var b2' := if b2 == [] then [] else b2[1..];
            && Paired(b1[1..], b2', left)
            && [b1[0]] + ((if b2 == [] then [] else [b2[0]]) + Todo(b1[1..], b2', left, capacity))
               == Todo(b1, b2, left, capacity)
  {
    AlternateStep(b1, b2, Weave(left, capacity));
  }

  lemma RefillPrints(left: seq<char>, capacity: nat)
    requires capacity > 0 && left != []
    ensures var x := Block(left, capacity);
            var y := Block(left[|x|..], capacity);
            && Paired(x, y, left[|x|..][|y|..])
            && Todo(x, y, left[|x|..][|y|..], capacity) == Todo([], [], left, capacity)
  {
  }

  lemma ScanRefills(left: seq<char>, capacity: nat)
    requires capacity > 0 && left != []
    ensures var x := Block(left, capacity);
            && ScanOf([], left, capacity) == ([x[0]], x[1..], left[|x|..])
            && |x[1..]| + |left[|x|..]| < |left|
  {
  }

  lemma ScanBuffered(b: seq<char>, left: seq<char>, capacity: nat)
    ensures b != [] ==> ScanOf(b, left, capacity) == ([b[0]], b[1..], left)
    ensures b == [] && left == [] ==> ScanOf(b, left, capacity) == ([], [], [])
  {
  }

  /** Scanning c and then d leaves the buffers and the file as given, and c and d
      are the next characters to print. */
  ghost predicate Round(b1: seq<char>, b2: seq<char>, left: seq<char>, capacity: nat,
                        c: seq<char>, d: seq<char>, b1': seq<char>, b2': seq<char>, left1: seq<char>, left2: seq<char>)
    requires capacity > 0
  {
    && ScanOf(b1, left, capacity) == (c, b1', left1)
    && ScanOf(b2, left1, capacity) == (d, b2', left2)
    && Paired(b1', b2', left2)
    && c + (d + Todo(b1', b2', left2, capacity)) == Todo(b1, b2, left, capacity)
    && (if c == [] then d == [] && b1' == [] && b2' == [] && left2 == []
        else |b1'| + |b2'| + |left2| < |b1| + |b2| + |left|)
  }

  /** One round of the loop prints the next characters of what is still to print,
      and prints nothing only when nothing is left. */
  lemma RoundPrints(b1: seq<char>, b2: seq<char>, left: seq<char>, capacity: nat)
    returns (c: seq<char>, d: seq<char>, b1': seq<char>, b2': seq<char>, left1: seq<char>, left2: seq<char>)
    requires capacity > 0 && Paired(b1, b2, left)
    ensures Round(b1, b2, left, capacity, c, d, b1', b2', left1, left2)
  {
    if b1 != [] {
      BuffersPrint(b1, b2, left, capacity);
      ScanBuffered(b1, left, capacity);
      ScanBuffered(b2, left, capacity);
      c, b1', left1 := [b1[0]], b1[1..], left;
      d, b2', left2 := if b2 == [] then [] else [b2[0]], if b2 == [] then [] else b2[1..], left;
    } else if left == [] {
      ScanBuffered([], [], capacity);
      c, d, b1', b2', left1, left2 := [], [], [], [], [], [];
    } else {
      c, d, b1', b2', left1, left2 := RefillRound(left, capacity);
    }
  }

  lemma RefillRound(left: seq<char>, capacity: nat)
    returns (c: seq<char>, d: seq<char>, b1': seq<char>, b2': seq<char>, left1: seq<char>, left2: seq<char>)
    requires capacity > 0 && left != []
    ensures Round([], [], left, capacity, c, d, b1', b2', left1, left2)
  {
    var x := Block(left, capacity);
    left1 := left[|x|..];
    var y := Block(left1, capacity);
    left2 := left1[|y|..];
    RefillPrints(left, capacity);
    BuffersPrint(x, y, left2, capacity);
    ScanRefills(left, capacity);
    c, b1' := [x[0]], x[1..];
    if left1 == [] {
      ScanBuffered([], [], capacity);
      d, b2' := [], [];
    } else {
      ScanRefills(left1, capacity);
      d, b2' := [y[0]], y[1..];
    }
  }

  lemma AlternateStep(x: seq<char>, y: seq<char>, rest: seq<char>)
    requires x != []
    ensures var y1, y' := if y == [] then [] else [y[0]], if y == [] then [] else y[1..];
            [x[0]] + (y1 + (Alternate(x[1..], y') + rest)) == Alternate(x, y) + rest
  {
    if y == [] {
      assert Alternate(x[1..], []) == x[1..];
    }
  }

  lemma Regroup(out: seq<char>, next: seq<char>, rest: seq<char>)
    ensures out + next + rest == out + (next + rest)
  {
  }

  /** The program prints the weave of the file, for any file and any buffer size,
      and terminates. */
  method Print(data: seq<char>, capacity: nat) returns (out: seq<char>)
    requires capacity > 0
    ensures out == Weave(data, capacity)
  {
    var fd := new OpenFile(data);
    var fs1 := new InStream(fd, capacity);
    var fs2 := new InStream(fd, capacity);
    var flag1, flag2 := 1, 2;
    out := [];
    ghost var todo := Weave(data, capacity);
    TodoEnds(data, capacity);
    hide Todo, Weave, ScanOf;
    while flag1 == 1 || flag2 == 1
      invariant fs1.file == fs2.file == fd && fs1.capacity == fs2.capacity == capacity && fs1 != fs2
      invariant fd.offset <= |fd.data|
      invariant Paired(fs1.buffer, fs2.buffer, fd.data[fd.offset..])
      invariant todo == Todo(fs1.buffer, fs2.buffer, fd.data[fd.offset..], capacity)
      invariant out + todo == Weave(data, capacity)
      invariant flag1 != 1 && flag2 != 1 ==> fs1.buffer == fs2.buffer == fd.data[fd.offset..] == []
      decreases |fs1.buffer| + |fs2.buffer| + |fd.data[fd.offset..]|, flag1 == 1 || flag2 == 1
    {
      ghost var c', d', b1, b2, left1, left2 := RoundPrints(fs1.buffer, fs2.buffer, fd.data[fd.offset..], capacity);
      var c := fs1.Scan();
      assert c == c' && fs1.buffer == b1 && fd.data[fd.offset..] == left1;
      flag1 := if c == [] then -1 else 1;
      Regroup(out, c, d' + Todo(b1, b2, left2, capacity));
      out := out + c;
      var d := fs2.Scan();
      assert d == d' && fs1.buffer == b1 && fs2.buffer == b2 && fd.data[fd.offset..] == left2;
      flag2 := if d == [] then -1 else 1;
      Regroup(out, d, Todo(b1, b2, left2, capacity));
      out := out + d;
      todo := Todo(b1, b2, left2, capacity);
    }
  }

  // ------------------------------------------------------- what a weave is

  lemma {:induction false} AlternateKeepsAll(x: seq<char>, y: seq<char>)
    ensures multiset(Alternate(x, y)) == multiset(x) + multiset(y)
  {
    if x != [] && y != [] {
      AlternateKeepsAll(x[1..], y[1..]);
      assert x == [x[0]] + x[1..] && y == [y[0]] + y[1..];
    }
  }

  lemma {:induction false} AlternateLength(x: seq<char>, y: seq<char>)
    ensures |Alternate(x, y)| == |x| + |y|
  {
    if x != [] && y != [] {
      AlternateLength(x[1..], y[1..]);
    }
  }

  /** Two streams over one offset lose nothing and repeat nothing: what is printed
      is the file, in another order. */
  lemma {:induction false} WeaveKeepsAll(data: seq<char>, capacity: nat)
    requires capacity > 0
    ensures multiset(Weave(data, capacity)) == multiset(data)
    ensures |Weave(data, capacity)| == |data|
    decreases |data|
  {
    if data != [] {
      var x := Block(data, capacity);
      var y := Block(data[|x|..], capacity);
      var rest := data[|x|..][|y|..];
      AlternateKeepsAll(x, y);
      AlternateLength(x, y);
      WeaveKeepsAll(rest, capacity);
      PartsKeepAll(data, x, y, rest);
    }
  }

  lemma PartsKeepAll(data: seq<char>, x: seq<char>, y: seq<char>, rest: seq<char>)
    requires x <= data && y <= data[|x|..] && rest == data[|x|..][|y|..]
    ensures multiset(data) == multiset(x) + multiset(y) + multiset(rest)
  {
    assert data == x + (y + rest);
  }

  /** Where the characters of two blocks end up. */
  lemma {:induction false} AlternateAt(x: seq<char>, y: seq<char>, i: nat)
    requires |y| <= |x| && i < |x|
    ensures |Alternate(x, y)| == |x| + |y|
    ensures i < |y| ==> Alternate(x, y)[2 * i] == x[i] && Alternate(x, y)[2 * i + 1] == y[i]
    ensures i >= |y| ==> Alternate(x, y)[|y| + i] == x[i]
  {
    if y != [] {
      AlternateLength(x[1..], y[1..]);
      if i > 0 {
        AlternateAt(x[1..], y[1..], i - 1);
      }
    }
  }

  lemma TwoBlocks(x: seq<char>, y: seq<char>, capacity: nat)
    requires |x| == capacity > 0 && |y| <= capacity
    ensures Weave(x + y, capacity) == Alternate(x, y)
  {
    var data := x + y;
    assert Block(data, capacity) == x && data[capacity..] == y && y[|y|..] == [];
    assert Weave(y[|y|..], capacity) == [];
    assert Block(y, capacity) == y;
  }

  /** A file of at most one block is printed as it is; a file of at most two
      blocks is the first block alternating with the rest, then the remainder of
      the first block.  The alphabet with 20-byte buffers is of the second kind. */
  lemma ShortFiles(data: seq<char>, capacity: nat)
    requires capacity > 0
    ensures |data| <= capacity ==> Weave(data, capacity) == data
    ensures capacity < |data| <= 2 * capacity ==> Weave(data, capacity) == Alternate(data[..capacity], data[capacity..])
  {
    if capacity < |data| <= 2 * capacity {
      TwoBlocks(data[..capacity], data[capacity..], capacity);
      assert data == data[..capacity] + data[capacity..];
    } else if 0 < |data| <= capacity {
      assert data[|data|..] == [];
    }
  }
}
