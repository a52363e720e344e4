/** The cookie pot of lab_04/lkm-3: a byte array with a write index and a read
    index.  `fortune_write` appends a NUL-terminated cookie, `fortune_read`
    returns the string at the read index and steps over it, starting again at 0
    when the read index has reached the write index.

    The abstract pot is a list of cookies with a cursor.  A write whose data hold
    NUL bytes adds one cookie for every piece between them; a read that asks for
    fewer bytes than the cookie has leaves the cursor inside that cookie. */
module FortunePot {
  import opened Cycles
  import opened Strings

  const ENOSPC: int := 28
  const EFAULT: int := 14

  // ------------------------------------------------------------------ encoding

  predicate NulFree(s: string) { NUL !in s }

  predicate Clean(cookies: seq<string>) {
    forall i :: 0 <= i < |cookies| ==> NulFree(cookies[i])
  }

  /** The bytes of a list of cookies. */
  function Encode(cookies: seq<string>): (r: seq<char>)
    ensures cookies != [] ==> |r| > 0 && r[|r| - 1] == NUL
  {
    if cookies == [] then []
    else Encode(cookies[..|cookies| - 1]) + (cookies[|cookies| - 1] + [NUL])
  }

  /** The cookies that written data amount to. */
  function Pieces(data: seq<char>): (r: seq<string>)
    ensures |r| > 0
  {
    if data == [] then [""]
    else
      var rest := Pieces(data[1..]);
      if data[0] == NUL then [""] + rest
      else [[data[0]] + rest[0]] + rest[1..]
  }

  function StrLen(s: seq<char>): nat { FirstOf(s, NUL) }

  lemma Associate(a: seq<char>, b: seq<char>, c: seq<char>)
    ensures a + b + c == a + (b + c)
  {
  }

  lemma LastOfConcat(a: seq<string>, b: seq<string>)
    requires b != []
    ensures (a + b)[..|a + b| - 1] == a + b[..|b| - 1] && (a + b)[|a + b| - 1] == b[|b| - 1]
  {
  }

  lemma {:induction false} EncodeConcat(a: seq<string>, b: seq<string>)
    ensures Encode(a + b) == Encode(a) + Encode(b)
  {
    if b == [] {
      assert a + b == a;
    } else {
      var front, last := b[..|b| - 1], b[|b| - 1] + [NUL];
      EncodeConcat(a, front);
      LastOfConcat(a, b);
      Associate(Encode(a), Encode(front), last);
    }
  }

  lemma EncodeCons(c: string, rest: seq<string>)
    ensures Encode([c] + rest) == c + [NUL] + Encode(rest)
  {
    EncodeConcat([c], rest);
    assert [c][..0] == [];
    assert Encode([c]) == c + [NUL];
  }

  /** Writing data and a terminator is adding the pieces of the data. */
  lemma {:induction false} EncodePieces(data: seq<char>)
    ensures Encode(Pieces(data)) == data + [NUL]
    ensures Clean(Pieces(data))
  {
    if data == [] {
      EncodeCons("", []);
    } else {
      EncodePieces(data[1..]);
      PushChar(data[0], data[1..], Pieces(data[1..]));
      assert data == [data[0]] + data[1..];
    }
  }

  lemma PushChar(x: char, data: seq<char>, rest: seq<string>)
    requires |rest| > 0 && Clean(rest) && Encode(rest) == data + [NUL]
    ensures var r := if x == NUL then [""] + rest else [[x] + rest[0]] + rest[1..];
            Clean(r) && Encode(r) == [x] + data + [NUL]
  {
    if x == NUL {
      EncodeCons("", rest);
      assert "" + [NUL] + Encode(rest) == [x] + data + [NUL];
    } else {
      var tail := Encode(rest[1..]);
      EncodeCons(rest[0], rest[1..]);
      assert rest == [rest[0]] + rest[1..];
      EncodeCons([x] + rest[0], rest[1..]);
      assert [x] + rest[0] + [NUL] + tail == [x] + (rest[0] + [NUL] + tail);
      assert [x] + (data + [NUL]) == [x] + data + [NUL];
    }
  }

  /** Data without NUL are one cookie. */
  lemma {:induction false} OnePiece(data: seq<char>)
    requires NulFree(data)
    ensures Pieces(data) == [data]
  {
    if data != [] {
      OnePiece(data[1..]);
      assert data == [data[0]] + data[1..];
    }
  }

  lemma {:induction false} PiecesPrefix(c: string, data: seq<char>)
    requires NulFree(c)
    ensures Pieces(c + [NUL] + data) == [c] + Pieces(data)
  {
    var all := c + [NUL] + data;
    if c == [] {
      assert all[1..] == data;
    } else {
      PiecesPrefix(c[1..], data);
      assert all[1..] == c[1..] + [NUL] + data;
      assert c == [c[0]] + c[1..];
    }
  }

  /** The bytes of a non-empty pot determine its cookies. */
  lemma {:induction false} PiecesOfEncode(cookies: seq<string>)
    requires Clean(cookies) && cookies != []
    ensures var bytes := Encode(cookies); Pieces(bytes[..|bytes| - 1]) == cookies
  {
    var c, rest := cookies[0], cookies[1..];
    assert cookies == [c] + rest;
    EncodeCons(c, rest);
    if rest == [] {
      assert Encode(cookies)[..|c|] == c;
      OnePiece(c);
    } else {
      var bytes := Encode(rest);
      PiecesOfEncode(rest);
      assert Encode(cookies)[..|Encode(cookies)| - 1] == c + [NUL] + bytes[..|bytes| - 1];
      PiecesPrefix(c, bytes[..|bytes| - 1]);
    }
  }

  // ------------------------------------------------------------- list + cursor

  /** The cursor stands at character `skip` of cookie `at`, or past the last one. */
  datatype Shelf = Shelf(cookies: seq<string>, at: nat, skip: nat)

  predicate Proper(s: Shelf) {
    && Clean(s.cookies)
    && s.at <= |s.cookies|
    && s.skip <= if s.at < |s.cookies| then |s.cookies[s.at]| else 0
  }

  function Position(s: Shelf): nat
    requires s.at <= |s.cookies|
  {
    |Encode(s.cookies[..s.at])| + s.skip
  }

  function Used(s: Shelf): nat { |Encode(s.cookies)| }

  function Store(s: Shelf, data: seq<char>): Shelf {
    s.(cookies := s.cookies + Pieces(data))
  }

  function Rewind(s: Shelf): Shelf {
    if s.at >= |s.cookies| then s.(at := 0, skip := 0) else s
  }

  /** The part of the current cookie that a read of len bytes returns. */
  function Fragment(s: Shelf, len: nat): string
    requires Proper(s) && s.at < |s.cookies|
  {
    var rest := s.cookies[s.at][s.skip..];
    if |rest| <= len then rest else rest[..len]
  }

  function Step(s: Shelf, got: nat): Shelf
    requires Proper(s) && s.at < |s.cookies|
  {
    if s.skip + got >= |s.cookies[s.at]| then s.(at := s.at + 1, skip := 0)
    else s.(skip := s.skip + got + 1)
  }

  /** A read on a fresh open of a pot that is not empty. */
  function Fetch(s: Shelf, len: nat): (r: (Shelf, string))
    requires Proper(s) && s.cookies != []
    ensures Proper(r.0) && r.0.cookies == s.cookies
  {
    var s := Rewind(s);
    var got := Fragment(s, len);
    (Step(s, |got|), got)
  }

  /** The current cookie sits in the pot at the read index, terminator included. */
  lemma CookieAtPosition(s: Shelf)
    requires Proper(s) && s.at < |s.cookies|
    ensures var bytes, rest := Encode(s.cookies), s.cookies[s.at][s.skip..];
            && Position(s) + |rest| < |bytes|
            && bytes[Position(s)..Position(s) + |rest|] == rest && bytes[Position(s) + |rest|] == NUL
  {
    var c := s.cookies[s.at];
    EncodeAround(s.cookies, s.at);
    Middle(Encode(s.cookies[..s.at]), c, Encode(s.cookies[s.at + 1..]), s.skip);
  }

  lemma EncodeAround(cookies: seq<string>, i: nat)
    requires i < |cookies|
    ensures Encode(cookies) == Encode(cookies[..i]) + (cookies[i] + [NUL] + Encode(cookies[i + 1..]))
  {
    SplitAt(cookies, i);
    EncodeParts(cookies[..i], cookies[i], cookies[i + 1..]);
  }

  lemma SplitAt(cookies: seq<string>, i: nat)
    requires i < |cookies|
    ensures cookies == cookies[..i] + ([cookies[i]] + cookies[i + 1..])
  {
  }

  lemma EncodeParts(a: seq<string>, c: string, b: seq<string>)
    ensures Encode(a + ([c] + b)) == Encode(a) + (c + [NUL] + Encode(b))
  {
    EncodeCons(c, b);
    EncodeConcat(a, [c] + b);
  }

  lemma Middle(before: seq<char>, c: string, after: seq<char>, skip: nat)
    requires skip <= |c|
    ensures var all, p := before + (c + [NUL] + after), |before| + skip;
            p + |c[skip..]| < |all| && all[p..p + |c[skip..]|] == c[skip..] && all[p + |c[skip..]|] == NUL
  {
    var all, p := before + (c + [NUL] + after), |before| + skip;
    assert all[p..p + |c[skip..]|] == c[skip..];
  }

  /** A read moves the read index past what it returned and one byte more: the
      terminator, or the character a short read drops. */
  lemma StepAdvances(s: Shelf, got: nat)
    requires Proper(s) && s.at < |s.cookies| && s.skip + got <= |s.cookies[s.at]|
    ensures Position(Step(s, got)) == Position(s) + got + 1 <= Used(s)
  {
    CookieAtPosition(s);
    if s.skip + got == |s.cookies[s.at]| {
      assert s.cookies[..s.at + 1][..s.at] == s.cookies[..s.at];
    }
  }

  lemma PositionInside(s: Shelf)
    requires Proper(s)
    ensures Position(s) <= Used(s)
    ensures s.at < |s.cookies| <==> Position(s) < Used(s)
  {
    if s.at < |s.cookies| {
      CookieAtPosition(s);
    } else {
      assert s.cookies[..s.at] == s.cookies;
    }
  }

  lemma StoreEncodes(s: Shelf, data: seq<char>)
    requires Proper(s)
    ensures Proper(Store(s, data))
    ensures Encode(Store(s, data).cookies) == Encode(s.cookies) + (data + [NUL])
    ensures Position(Store(s, data)) == Position(s)
  {
    EncodePieces(data);
    EncodeConcat(s.cookies, Pieces(data));
    assert Store(s, data).cookies[..s.at] == s.cookies[..s.at];
  }

  // ------------------------------------------------------------------- the pot

  /** A copy to or from user space succeeds, or fails and leaves arbitrary bytes
      behind; copying nothing cannot fail. */
  datatype Copy = Copied | Faulted(left: seq<char>)

  function WriteResult(s: Shelf, size: nat, buffer: seq<char>, copy: Copy, offset: nat): (Shelf, int, nat) {
    if Used(s) + |buffer| + 1 > size then (s, -ENOSPC, offset)
    else if copy.Faulted? && buffer != [] then (s, -EFAULT, offset)
    else (Store(s, buffer), |buffer|, offset + |buffer|)
  }

  function ReadResult(s: Shelf, len: nat, copy: Copy, offset: nat): (Shelf, int, string, nat)
    requires Proper(s)
  {
    if offset > 0 || s.cookies == [] then (s, 0, [], offset)
    else if copy.Faulted? && Fetch(s, len).1 != [] then (Rewind(s), -EFAULT, [], offset)
    else (Fetch(s, len).0, |Fetch(s, len).1|, Fetch(s, len).1, offset + |Fetch(s, len).1|)
  }

  /** The bytes below the write index are the cookies; the read index is the cursor. */
  ghost predicate Holds(s: Shelf, pot: seq<char>, writeIndex: nat, readIndex: nat) {
    && Proper(s)
    && readIndex == Position(s) <= writeIndex <= |pot|
    && pot[..writeIndex] == Encode(s.cookies)
  }

  lemma HoldsUsed(s: Shelf, pot: seq<char>, writeIndex: nat, readIndex: nat)
    requires Holds(s, pot, writeIndex, readIndex)
    ensures readIndex <= writeIndex == Used(s) <= |pot|
    ensures writeIndex == 0 <==> s.cookies == []
  {
  }

  lemma SamePrefixHolds(s: Shelf, pot: seq<char>, pot': seq<char>, writeIndex: nat, readIndex: nat)
    requires Holds(s, pot, writeIndex, readIndex)
    requires |pot'| == |pot| && pot'[..writeIndex] == pot[..writeIndex]
    ensures Holds(s, pot', writeIndex, readIndex)
  {
  }

  /** Storing data and a terminator at the write index adds the pieces of the data. */
  lemma WriteHolds(s: Shelf, pot: seq<char>, pot': seq<char>, writeIndex: nat, readIndex: nat, data: seq<char>)
    requires Holds(s, pot, writeIndex, readIndex)
    requires writeIndex + |data| < |pot'|
    requires pot'[..writeIndex] == pot[..writeIndex]
    requires pot'[writeIndex..writeIndex + |data|] == data && pot'[writeIndex + |data|] == NUL
    ensures Holds(Store(s, data), pot', writeIndex + |data| + 1, readIndex)
  {
    StoreEncodes(s, data);
    assert pot'[..writeIndex + |data| + 1] == pot[..writeIndex] + (data + [NUL]);
  }

  class Pot {
    const pot: array<char>
    var writeIndex: nat
    var readIndex: nat
    ghost var shelf: Shelf

    ghost predicate Valid()
      reads this, pot
    {
      Holds(shelf, pot[..], writeIndex, readIndex)
    }

    constructor (size: nat)
      ensures Valid() && shelf == Shelf([], 0, 0) && pot.Length == size && fresh(pot)
    {
      pot := new char[size](_ => NUL);
      writeIndex, readIndex := 0, 0;
      shelf := Shelf([], 0, 0);
      new;
      assert shelf.cookies[..0] == [];
    }

    method CopyIn(at: nat, data: seq<char>)
      requires at + |data| <= pot.Length
      modifies pot
      ensures pot[..at] == old(pot[..at]) && pot[at..at + |data|] == data
      ensures pot[at + |data|..] == old(pot[at + |data|..])
    {
      for i := 0 to |data|
        invariant pot[..at] == old(pot[..at]) && pot[at..at + i] == data[..i]
        invariant pot[at + i..] == old(pot[at + i..])
      {
        assert old(pot[at + i..])[1..] == old(pot[at + i + 1..]);
        pot[at + i] := data[i];
      }
    }

    method Write(buffer: seq<char>, copy: Copy, offset: nat) returns (result: int, offset': nat)
      requires Valid()
      requires copy.Faulted? ==> |copy.left| == |buffer|
      modifies this, pot
      ensures Valid()
      ensures (shelf, result, offset') == WriteResult(old(shelf), pot.Length, buffer, copy, offset)
    {
      hide Holds, Encode, Pieces;
      ghost var was, used := pot[..], writeIndex;
      HoldsUsed(shelf, was, used, readIndex);
      if |buffer| + 1 > pot.Length - writeIndex {
        return -ENOSPC, offset;
      }
      if copy.Faulted? && buffer != [] {
        CopyIn(writeIndex, copy.left);
        SamePrefixHolds(shelf, was, pot[..], used, readIndex);
        return -EFAULT, offset;
      }
      CopyIn(writeIndex, buffer);
      writeIndex := writeIndex + |buffer| + 1;
      pot[writeIndex - 1] := NUL;
      WriteHolds(shelf, was, pot[..], used, readIndex, buffer);
      shelf := Store(shelf, buffer);
      return |buffer|, offset + |buffer|;
    }

    method Read(len: nat, copy: Copy, offset: nat) returns (result: int, data: string, offset': nat)
      requires Valid()
      modifies this
      ensures Valid()
      ensures (shelf, result, data, offset') == ReadResult(old(shelf), len, copy, offset)
    {
      hide Holds, ReadResult, Encode, FirstOf;
      HoldsUsed(shelf, pot[..], writeIndex, readIndex);
      if offset > 0 || writeIndex == 0 {
        ReadNothing(shelf, pot[..], writeIndex, readIndex, len, copy, offset);
        return 0, [], offset;
      }
      ghost var before := readIndex;
      if readIndex >= writeIndex {
        readIndex := 0;
      }
      var readLen := StrLen(pot[readIndex..]);
      if readLen > len {
        readLen := len;
      }
      shelf := ReadHolds(shelf, pot[..], writeIndex, before, len, copy, offset, readIndex, readLen);
      if copy.Faulted? && readLen > 0 {
        return -EFAULT, [], offset;
      }
      data := pot[readIndex..readIndex + readLen];
      readIndex := readIndex + readLen + 1;
      return readLen, data, offset + readLen;
    }
  }

  // --------------------------------------------------- the laws of one operation

  /** A write: refused with ENOSPC exactly when data and terminator do not fit behind
      the bytes in use; failing a copy of something with EFAULT; else its data and
      a terminator are added.  The file offset grows by the result exactly when it
      is not negative, and nothing changes when it is. */
  lemma WriteLaw(s: Shelf, size: nat, buffer: seq<char>, copy: Copy, offset: nat)
    requires Proper(s)
    ensures var (s', result, offset') := WriteResult(s, size, buffer, copy, offset);
            && (result == -28 <==> |Encode(s.cookies)| + |buffer| + 1 > size)
            && (result == -14 <==> result != -28 && copy.Faulted? && |buffer| > 0)
            && (result >= 0 <==> result == |buffer|) && (result < 0 ==> result == -28 || result == -14)
            && offset' == (if result < 0 then offset else offset + result)
            && (result < 0 ==> s' == s)
            && (result >= 0 ==> Encode(s'.cookies) == Encode(s.cookies) + (buffer + ['\0']))
            && Position(s') == Position(s)
  {
    StoreEncodes(s, buffer);
  }

  /** Where a read starts: at the read index, or at 0 when that is at the write index. */
  function Start(s: Shelf): nat
    requires Proper(s)
  {
    if Position(s) >= |Encode(s.cookies)| then 0 else Position(s)
  }

  /** A read, in terms of the bytes in use alone: it gets the n bytes from its start
      up to a NUL or to the length asked for, whichever comes first, and the next one
      starts behind the byte that follows them; a failing copy of something only
      moves the read index to the start. */
  lemma ReadLaw(s: Shelf, len: nat, copy: Copy, offset: nat) returns (n: nat)
    requires Proper(s)
    ensures var (s', result, data, offset') := ReadResult(s, len, copy, offset);
            && s'.cookies == s.cookies
            && offset' == (if result < 0 then offset else offset + result)
            && (offset > 0 || |Encode(s.cookies)| == 0 ==> result == 0 && data == "" && s' == s)
            && (offset == 0 && |Encode(s.cookies)| > 0 ==>
                  && Gets(Encode(s.cookies), Start(s), len, n)
                  && (if copy.Faulted? && n > 0 then result == -14 && data == "" && Position(s') == Start(s)
                      else result == n && data == Encode(s.cookies)[Start(s)..Start(s) + n]
                           && Position(s') == Start(s) + n + 1))
  {
    n := 0;
    if offset == 0 && s.cookies != [] {
      ReadStart(s, len);
      n := |Fetch(s, len).1|;
      hide Fetch, Encode, Position, Rewind, Start;
    }
  }

  predicate Gets(bytes: seq<char>, start: nat, len: nat, n: nat) {
    && start + n < |bytes| && '\0' !in bytes[start..start + n]
    && (n == len || (n < len && bytes[start + n] == '\0'))
  }

  lemma ReadStart(s: Shelf, len: nat)
    requires Proper(s) && s.cookies != []
    ensures var bytes, start, (s', data) := Encode(s.cookies), Start(s), Fetch(s, len);
            && Position(Rewind(s)) == start && Position(s') == start + |data| + 1
            && Gets(bytes, start, len, |data|) && data == bytes[start..start + |data|]
  {
    RewindPosition(s);
    ReadHere(Rewind(s), len);
    hide Encode, Step, Fragment, Gets, Position;
  }

  lemma ReadHere(s: Shelf, len: nat)
    requires Proper(s) && s.at < |s.cookies|
    ensures var bytes, data := Encode(s.cookies), Fragment(s, len);
            && Position(Step(s, |data|)) == Position(s) + |data| + 1
            && Gets(bytes, Position(s), len, |data|) && data == bytes[Position(s)..Position(s) + |data|]
  {
    hide Encode, Position, Step, Gets;
    var rest := s.cookies[s.at][s.skip..];
    assert NulFree(s.cookies[s.at]);
    hide Clean;
    CookieAtPosition(s);
    StepAdvances(s, |Fragment(s, len)|);
    CutRest(Encode(s.cookies), Position(s), rest, len);
  }

  lemma CutRest(bytes: seq<char>, p: nat, rest: string, len: nat)
    requires p + |rest| < |bytes| && bytes[p..p + |rest|] == rest && bytes[p + |rest|] == '\0' && '\0' !in rest
    ensures var got := if |rest| <= len then rest else rest[..len];
            Gets(bytes, p, len, |got|) && got == bytes[p..p + |got|]
  {
    var got := if |rest| <= len then rest else rest[..len];
    assert bytes[p..p + |got|] == rest[..|got|] == got;
  }

  lemma SliceOfPrefix(s: seq<char>, n: nat, i: nat, j: nat)
    requires i <= j <= n <= |s|
    ensures s[..n][i..j] == s[i..j]
  {
  }

  lemma RewindPosition(s: Shelf)
    requires Proper(s) && s.cookies != []
    ensures Position(Rewind(s)) == if Position(s) >= Used(s) then 0 else Position(s)
  {
    PositionInside(s);
    assert s.cookies[..0] == [];
  }

  lemma ReadNothing(s: Shelf, pot: seq<char>, writeIndex: nat, readIndex: nat, len: nat, copy: Copy, offset: nat)
    requires Holds(s, pot, writeIndex, readIndex) && (offset > 0 || writeIndex == 0)
    ensures ReadResult(s, len, copy, offset) == (s, 0, [], offset)
  {
    HoldsUsed(s, pot, writeIndex, readIndex);
  }

  /** What `fortune_read` finds at its index, and where it leaves it. */
  lemma ReadHolds(s: Shelf, pot: seq<char>, writeIndex: nat, readIndex: nat, len: nat, copy: Copy, offset: nat,
                  at: nat, got: nat)
    returns (after: Shelf)
    requires Holds(s, pot, writeIndex, readIndex) && writeIndex > 0 && offset == 0
    requires at == if readIndex >= writeIndex then 0 else readIndex
    requires got == if StrLen(pot[at..]) > len then len else StrLen(pot[at..])
    ensures at + got <= |pot|
    ensures var r, ok := ReadResult(s, len, copy, offset), copy.Copied? || got == 0;
            && r.0 == after
            && r.1 == (if ok then got else -EFAULT)
            && r.2 == (if ok then pot[at..at + got] else [])
            && r.3 == (if ok then offset + got else offset)
            && Holds(after, pot, writeIndex, if ok then at + got + 1 else at)
  {
    ReadFinds(s, pot, writeIndex, readIndex, len, at, got);
    FetchResult(s, len, copy, offset);
    after := if copy.Copied? || got == 0 then Fetch(s, len).0 else Rewind(s);
  }

  lemma FetchResult(s: Shelf, len: nat, copy: Copy, offset: nat)
    requires Proper(s) && s.cookies != [] && offset == 0
    ensures var (s', data) := Fetch(s, len);
            ReadResult(s, len, copy, offset) ==
            if copy.Faulted? && |data| > 0 then (Rewind(s), -EFAULT, [], offset)
            else (s', |data|, data, offset + |data|)
  {
  }

  /** `strlen` at the read index, cut to len, is the fragment of the cookie. */
  lemma ReadFinds(s: Shelf, pot: seq<char>, writeIndex: nat, readIndex: nat, len: nat, at: nat, got: nat)
    requires Holds(s, pot, writeIndex, readIndex) && writeIndex > 0
    requires at == if readIndex >= writeIndex then 0 else readIndex
    requires got == if StrLen(pot[at..]) > len then len else StrLen(pot[at..])
    ensures s.cookies != [] && at + got <= |pot|
    ensures Fetch(s, len).1 == pot[at..at + got]
    ensures Holds(Rewind(s), pot, writeIndex, at)
    ensures Holds(Fetch(s, len).0, pot, writeIndex, at + got + 1)
  {
    hide Encode, FirstOf, Clean;
    HoldsUsed(s, pot, writeIndex, readIndex);
    RewindPosition(s);
    assert at == Position(Rewind(s));
    ReadAtPosition(Rewind(s), pot, writeIndex, len);
    PositionInside(Rewind(s));
    PositionInside(Step(Rewind(s), got));
  }

  lemma ReadAtPosition(s: Shelf, pot: seq<char>, used: nat, len: nat)
    requires Proper(s) && s.at < |s.cookies| && used <= |pot| && pot[..used] == Encode(s.cookies)
    ensures Position(s) <= |pot|
    ensures var n := StrLen(pot[Position(s)..]);
            var got := if n > len then len else n;
            && Position(s) + got <= |pot|
            && pot[Position(s)..Position(s) + got] == Fragment(s, len)
            && Position(Step(s, got)) == Position(s) + got + 1
            && Proper(Step(s, got))
  {
    var rest, p := s.cookies[s.at][s.skip..], Position(s);
    CookieAtPosition(s);
    SliceOfPrefix(pot, used, p, p + |rest|);
    assert pot[p + |rest|] == pot[..used][p + |rest|];
    assert pot[p..][..|rest|] == rest;
    FirstOfIs(pot[p..], NUL, |rest|);
    var got := |Fragment(s, len)|;
    assert pot[p..p + got] == pot[p..p + |rest|][..got];
    StepAdvances(s, got);
  }

  // ------------------------------------------------------------ many operations

  /** The pot after reads of the given lengths on fresh opens, and how many
      characters they returned. */
  function Walk(s: Shelf, lens: seq<nat>): (r: (Shelf, nat))
    requires Proper(s) && s.cookies != []
    ensures Proper(r.0) && r.0.cookies == s.cookies
  {
    if lens == [] then (s, 0)
    else
      var (before, total) := Walk(s, lens[..|lens| - 1]);
      var (after, data) := Fetch(before, lens[|lens| - 1]);
      (after, total + |data|)
  }

  /** None of the reads starts again at the first cookie. */
  predicate NoWrap(s: Shelf, lens: seq<nat>)
    requires Proper(s) && s.cookies != []
  {
    forall i :: 0 <= i < |lens| ==> Walk(s, lens[..i]).0.at < |s.cookies|
  }

  lemma FetchAdvances(s: Shelf, len: nat)
    requires Proper(s) && s.at < |s.cookies|
    ensures var (s', data) := Fetch(s, len);
            && data <= s.cookies[s.at][s.skip..]
            && Position(s') == Position(s) + |data| + 1 <= Used(s)
  {
    StepAdvances(s, |Fragment(s, len)|);
  }

  /** For any data and any read lengths: between two wraps the read index grows by
      at least one with every read, so a pass takes at most write_index reads. */
  lemma {:induction false} PassIsBounded(s: Shelf, lens: seq<nat>)
    requires Proper(s) && s.cookies != [] && NoWrap(s, lens)
    ensures Position(Walk(s, lens).0) == Position(s) + Walk(s, lens).1 + |lens|
    ensures Position(s) + Walk(s, lens).1 + |lens| <= Used(s)
  {
    if lens == [] {
      PositionInside(s);
    } else {
      var n := |lens| - 1;
      forall i | 0 <= i < n
        ensures Walk(s, lens[..n][..i]).0.at < |s.cookies|
      {
        assert lens[..n][..i] == lens[..i];
      }
      PassIsBounded(s, lens[..n]);
      FetchAdvances(Walk(s, lens[..n]).0, lens[n]);
    }
  }

  predicate Reaches(cookies: seq<string>, len: nat) {
    forall i :: 0 <= i < |cookies| ==> |cookies[i]| <= len
  }

  lemma LongFetch(cookies: seq<string>, len: nat, at: nat)
    requires cookies != [] && Clean(cookies) && Reaches(cookies, len) && at <= |cookies|
    ensures var next := if at >= |cookies| then 0 else at;
            Fetch(Shelf(cookies, at, 0), len) == (Shelf(cookies, next + 1, 0), cookies[next])
  {
    var next := if at >= |cookies| then 0 else at;
    assert cookies[next][0..] == cookies[next];
  }

  /** Where the cursor stands after k long reads. */
  function Turn(k: nat, n: nat): (r: nat)
    requires n > 0
    ensures r <= n
  {
    if k == 0 then 0 else Slot(k - 1, n) + 1
  }

  lemma {:induction false} LongWalk(cookies: seq<string>, len: nat, lens: seq<nat>)
    requires cookies != [] && Clean(cookies) && Reaches(cookies, len)
    requires forall i :: 0 <= i < |lens| ==> lens[i] == len
    ensures Walk(Shelf(cookies, 0, 0), lens).0 == Shelf(cookies, Turn(|lens|, |cookies|), 0)
  {
    if lens != [] {
      LongWalk(cookies, len, lens[..|lens| - 1]);
      LongFetch(cookies, len, Turn(|lens| - 1, |cookies|));
    }
  }

  /** Long enough reads of a pot at rest return its cookies in turn, forever: the
      k-th read (from 0) returns cookie k mod n. */
  lemma RoundRobin(cookies: seq<string>, len: nat, k: nat)
    requires cookies != [] && Clean(cookies) && Reaches(cookies, len)
    ensures Fetch(Walk(Shelf(cookies, 0, 0), seq(k, _ => len)).0, len).1 == cookies[k % |cookies|]
  {
    LongWalk(cookies, len, seq(k, _ => len));
    LongFetch(cookies, len, Turn(k, |cookies|));
    SlotIsMod(k, |cookies|);
  }

  datatype Op = Put(data: seq<char>, copy: Copy) | Take(len: nat, copy: Copy)

  /** A list of cookies and the number of the cookie to return next. */
  datatype Simple = Simple(list: seq<string>, next: nat)

  function Cost(list: seq<string>): nat {
    if list == [] then 0 else Cost(list[..|list| - 1]) + |list[|list| - 1]| + 1
  }

  function SimplePerform(m: Simple, size: nat, op: Op): (Simple, int, string) {
    match op
    case Put(data, copy) =>
      if Cost(m.list) + |data| + 1 > size then (m, -ENOSPC, "")
      else if copy.Faulted? && data != [] then (m, -EFAULT, "")
      else (m.(list := m.list + [data]), |data|, "")
    case Take(_, copy) =>
      if m.list == [] then (m, 0, "")
      else
        var next := if m.next >= |m.list| then 0 else m.next;
        var cookie := m.list[next];
        if copy.Faulted? && cookie != [] then (m.(next := next), -EFAULT, "")
        else (m.(next := next + 1), |cookie|, cookie)
  }

  function Perform(s: Shelf, size: nat, op: Op): (Shelf, int, string)
    requires Proper(s)
  {
    match op
    case Put(data, copy) => var (s', result, _) := WriteResult(s, size, data, copy, 0); (s', result, "")
    case Take(len, copy) => var (s', result, data, _) := ReadResult(s, len, copy, 0); (s', result, data)
  }

  lemma PerformKeeps(s: Shelf, size: nat, op: Op)
    requires Proper(s) && Used(s) <= size
    ensures var s' := Perform(s, size, op).0; Proper(s') && Used(s') <= size
  {
    if op.Put? {
      StoreEncodes(s, op.data);
    }
  }

  /** The results of operations on fresh opens of an empty pot, in order. */
  function Results(size: nat, ops: seq<Op>): (r: (Shelf, seq<(int, string)>))
    ensures Proper(r.0) && Used(r.0) <= size && |r.1| == |ops|
  {
    if ops == [] then (Shelf([], 0, 0), [])
    else
      var (before, results) := Results(size, ops[..|ops| - 1]);
      PerformKeeps(before, size, ops[|ops| - 1]);
      var (after, result, data) := Perform(before, size, ops[|ops| - 1]);
      (after, results + [(result, data)])
  }

  function SimpleResults(size: nat, ops: seq<Op>): (r: (Simple, seq<(int, string)>))
    ensures |r.1| == |ops|
  {
    if ops == [] then (Simple([], 0), [])
    else
      var (before, results) := SimpleResults(size, ops[..|ops| - 1]);
      var (after, result, data) := SimplePerform(before, size, ops[|ops| - 1]);
      (after, results + [(result, data)])
  }

  lemma {:induction false} CostIsUsed(list: seq<string>)
    ensures Cost(list) == |Encode(list)|
  {
    if list != [] {
      CostIsUsed(list[..|list| - 1]);
    }
  }

  /** The number of the cookie that is next when the cursor may be at the end. */
  function Due(m: Simple): nat { if m.next >= |m.list| then 0 else m.next }

  /** The read gets the whole cookie, or fails to copy the part it gets. */
  predicate Suits(m: Simple, op: Op) {
    op.Put? || m.list == [] || |m.list[Due(m)]| <= op.len || (op.copy.Faulted? && op.len > 0)
  }

  predicate NulFreePuts(ops: seq<Op>) {
    forall i :: 0 <= i < |ops| && ops[i].Put? ==> NulFree(ops[i].data)
  }

  function Whole(m: Simple): Shelf { Shelf(m.list, m.next, 0) }

  lemma PutRefines(m: Simple, size: nat, op: Op)
    requires op.Put? && NulFree(op.data)
    requires Proper(Whole(m))
    ensures var r := SimplePerform(m, size, op); Perform(Whole(m), size, op) == (Whole(r.0), r.1, r.2)
  {
    CostIsUsed(m.list);
    OnePiece(op.data);
  }

  /** A read with the cursor at the start of a cookie gives what the list gives
      exactly when it suits. */
  lemma TakeRefines(m: Simple, size: nat, op: Op)
    requires op.Take? && Proper(Whole(m))
    ensures var r, s := SimplePerform(m, size, op), Perform(Whole(m), size, op);
            if Suits(m, op) then s == (Whole(r.0), r.1, r.2) else s.1 != r.1
  {
    if m.list != [] {
      assert m.list[Due(m)][0..] == m.list[Due(m)];
    }
  }

  predicate SuitsAt(size: nat, ops: seq<Op>, i: nat)
    requires i < |ops|
  {
    Suits(SimpleResults(size, ops[..i]).0, ops[i])
  }

  predicate AllSuit(size: nat, ops: seq<Op>) {
    forall i :: 0 <= i < |ops| ==> SuitsAt(size, ops, i)
  }

  lemma AllSuitFront(size: nat, ops: seq<Op>)
    requires ops != []
    ensures AllSuit(size, ops) <==> AllSuit(size, ops[..|ops| - 1]) && SuitsAt(size, ops, |ops| - 1)
  {
    var front := ops[..|ops| - 1];
    forall i | 0 <= i < |front|
      ensures SuitsAt(size, front, i) == SuitsAt(size, ops, i)
    {
      assert front[..i] == ops[..i];
    }
    hide SuitsAt;
  }

  lemma OneMoreResult(a: seq<(int, string)>, b: seq<(int, string)>, x: (int, string), y: (int, string))
    requires |a| == |b|
    ensures a + [x] == b + [y] <==> a == b && x == y
  {
    if a + [x] == b + [y] {
      assert a == (a + [x])[..|a|] && b == (b + [y])[..|a|];
      assert x == (a + [x])[|a|] && y == (b + [y])[|a|];
    }
  }

  /** For NUL-free cookies, any mix of writes (stored, refused or failing the copy)
      and reads of any lengths gives what a list with a cursor gives, exactly when
      every read asks for at least the cookie it is due, or fails its copy. */
  lemma {:induction false} PotIsListAndCursor(size: nat, ops: seq<Op>)
    requires NulFreePuts(ops)
    ensures Results(size, ops).1 == SimpleResults(size, ops).1 <==> AllSuit(size, ops)
    ensures AllSuit(size, ops) ==> Results(size, ops).0 == Whole(SimpleResults(size, ops).0)
  {
    if ops != [] {
      var n := |ops| - 1;
      var front, op := ops[..n], ops[n];
      PotIsListAndCursor(size, front);
      AllSuitFront(size, ops);
      var before, simple := Results(size, front), SimpleResults(size, front);
      var x, y := Perform(before.0, size, op), SimplePerform(simple.0, size, op);
      OneMoreResult(before.1, simple.1, (x.1, x.2), (y.1, y.2));
      if AllSuit(size, front) {
        if op.Put? {
          PutRefines(simple.0, size, op);
        } else {
          TakeRefines(simple.0, size, op);
        }
      }
    }
  }

  lemma ShortFetches(s: Shelf)
    requires s == Shelf(["ab"], 0, 0)
    ensures Proper(s) && Fetch(s, 1) == (Shelf(["ab"], 0, 2), "a")
    ensures Fetch(Shelf(["ab"], 0, 2), 1) == (Shelf(["ab"], 1, 0), "")
  {
    assert "ab"[0..][..1] == "a" && "ab"[2..] == "";
  }

  lemma OneMoreOp(size: nat, ops: seq<Op>, op: Op)
    ensures var r := Results(size, ops);
            var x := Perform(r.0, size, op);
            Results(size, ops + [op]) == (x.0, r.1 + [(x.1, x.2)])
    ensures var r := SimpleResults(size, ops);
            var x := SimplePerform(r.0, size, op);
            SimpleResults(size, ops + [op]) == (x.0, r.1 + [(x.1, x.2)])
  {
    assert (ops + [op])[..|ops|] == ops;
  }

  lemma AfterWrite(size: nat, write: Op)
    requires size >= 3 && write == Put("ab", Copied)
    ensures Results(size, [write]).0 == Shelf(["ab"], 0, 0) && Results(size, [write]).1 == [(2, "")]
    ensures SimpleResults(size, [write]).0 == Simple(["ab"], 0) && SimpleResults(size, [write]).1 == [(2, "")]
  {
    OnePiece("ab");
    OneMoreOp(size, [], write);
    assert [] + [write] == [write];
    assert Results(size, []) == (Shelf([], 0, 0), []) && SimpleResults(size, []) == (Simple([], 0), []);
    hide Results, SimpleResults, Pieces;
    assert Encode([]) == [] && Cost([]) == 0;
    assert [] + ["ab"] == ["ab"];
    assert Perform(Shelf([], 0, 0), size, write) == (Shelf(["ab"], 0, 0), 2, "");
  }

  lemma AfterShortRead(size: nat, write: Op, read: Op)
    requires size >= 3 && write == Put("ab", Copied) && read == Take(1, Copied)
    ensures Results(size, [write] + [read]).0 == Shelf(["ab"], 0, 2)
    ensures Results(size, [write] + [read]).1 == [(2, ""), (1, "a")]
    ensures SimpleResults(size, [write] + [read]).1 == [(2, ""), (2, "ab")]
  {
    AfterWrite(size, write);
    OneMoreOp(size, [write], read);
    ShortFetches(Shelf(["ab"], 0, 0));
    hide Results, SimpleResults, Fetch;
    assert Perform(Shelf(["ab"], 0, 0), size, read) == (Shelf(["ab"], 0, 2), 1, "a");
    assert SimplePerform(Simple(["ab"], 0), size, read).1 == 2;
    assert SimplePerform(Simple(["ab"], 0), size, read).2 == "ab";
  }

  /** A read of one byte gets the first byte of a cookie of two and drops the second,
      and the next read gets nothing at all. */
  lemma ShortReadDropsCharacter(size: nat, write: Op, read: Op)
    requires size >= 3 && write == Put("ab", Copied) && read == Take(1, Copied)
    ensures Results(size, [write] + [read] + [read]).1 == [(2, ""), (1, "a"), (0, "")]
    ensures SimpleResults(size, [write] + [read]).1 == [(2, ""), (2, "ab")]
  {
    AfterShortRead(size, write, read);
    OneMoreOp(size, [write] + [read], read);
    ShortFetches(Shelf(["ab"], 0, 0));
    hide Results, SimpleResults, Fetch;
  }
}
