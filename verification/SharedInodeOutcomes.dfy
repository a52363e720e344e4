/** What the two writers of lab_05 leave in the file, and exactly when they leave
    the same. */
module SharedInodeOutcomes {
  import opened SharedInode

  /** No prefix of the characters has more even codes than odd ones. */
  ghost predicate Led(items: seq<char>) {
    forall k :: 0 <= k <= |items| ==> |Evens(items[..k])| <= |Odds(items[..k])|
  }

  /** The characters of the second descriptor, then those of the first that have no
      partner: the others are lost. */
  function Kept(items: seq<char>): seq<char>
    requires |Evens(items)| <= |Odds(items)|
  {
    Evens(items) + Odds(items)[|Evens(items)|..]
  }

  function Longer(items: seq<char>): nat {
    if |Odds(items)| < |Evens(items)| then |Evens(items)| else |Odds(items)|
  }

  function Tail(before: seq<char>, n: nat): seq<char> { if |before| > n then before[n..] else [] }

  lemma LedFront(items: seq<char>)
    requires Led(items)
    ensures |Evens(items)| <= |Odds(items)|
    ensures items != [] ==> Led(items[..|items| - 1])
  {
    assert items[..|items|] == items;
    if items != [] {
      var front := items[..|items| - 1];
      assert forall k :: 0 <= k <= |front| ==> front[..k] == items[..k];
    }
  }

  /** The first descriptor gets exactly the odd codes, the second the even ones. */
  lemma {:induction false} OddsAreOdd(items: seq<char>, p: nat)
    ensures p < |Odds(items)| ==> Odds(items)[p] as int % 2 == 1
    ensures p < |Evens(items)| ==> Evens(items)[p] as int % 2 == 0
    ensures |Odds(items)| + |Evens(items)| == |items|
    ensures multiset(Odds(items)) + multiset(Evens(items)) == multiset(items)
  {
    if items != [] {
      OddsAreOdd(items[..|items| - 1], p);
      assert items == items[..|items| - 1] + [items[|items| - 1]];
    }
  }

  /** The characters of a prefix are the first ones of the whole. */
  lemma {:induction false} Prefixes(items: seq<char>, k: nat)
    requires k <= |items|
    ensures Odds(items[..k]) <= Odds(items) && Evens(items[..k]) <= Evens(items)
  {
    if k == |items| {
      assert items[..k] == items;
    } else {
      var front := items[..|items| - 1];
      assert front[..k] == items[..k];
      Prefixes(front, k);
    }
  }

  // -------------------------------------------------------------- unbuffered

  lemma OverlayMiddle(file: seq<char>, rest: seq<char>, at: nat, c: char)
    requires at < |file|
    ensures Overlay(file + rest, at, [c]) == Overlay(file, at, [c]) + rest
  {
    assert (file + rest)[..at] == file[..at] && (file + rest)[at + 1..] == file[at + 1..] + rest;
  }

  lemma OverlayEnd(file: seq<char>, rest: seq<char>, c: char)
    ensures Overlay(file + rest, |file|, [c]) == Overlay(file, |file|, [c]) + if rest == [] then [] else rest[1..]
  {
    assert (file + rest)[..|file|] == file;
    if rest != [] {
      assert (file + rest)[|file| + 1..] == rest[1..];
    }
  }

  /** One more character at `at`, over a file and a tail. */
  lemma OverlayInside(file: seq<char>, before: seq<char>, at: nat, c: char)
    requires at <= |file|
    ensures Overlay(file + Tail(before, |file|), at, [c])
         == Overlay(file, at, [c]) + Tail(before, if at == |file| then |file| + 1 else |file|)
  {
    hide Overlay;
    if at == |file| {
      OverlayEnd(file, Tail(before, |file|), c);
    } else {
      OverlayMiddle(file, Tail(before, |file|), at, c);
    }
  }

  lemma LongerFront(items: seq<char>)
    requires items != []
    ensures var front, c := items[..|items| - 1], items[|items| - 1];
            var at := if Odd(c) then |Odds(front)| else |Evens(front)|;
            at <= Longer(front) && Longer(items) == if at == Longer(front) then Longer(front) + 1 else Longer(front)
  {
  }

  /** What the file held before matters only beyond the last place written. */
  lemma {:induction false} UnbufferedSplit(before: seq<char>, items: seq<char>)
    ensures |Unbuffered([], items)| == Longer(items)
    ensures Unbuffered(before, items) == Unbuffered([], items) + Tail(before, Longer(items))
  {
    if items == [] {
      assert before == [] + before[0..];
    } else {
      hide Tail, Longer, Odds, Evens;
      var front, c := items[..|items| - 1], items[|items| - 1];
      var at := if Odd(c) then |Odds(front)| else |Evens(front)|;
      UnbufferedSplit(before, front);
      LongerFront(items);
      OverlayInside(Unbuffered([], front), before, at, c);
    }
  }

  lemma OverlayKept(one: seq<char>, two: seq<char>, c: char)
    requires |two| <= |one|
    ensures Overlay(two + one[|two|..], |one|, [c]) == two + (one + [c])[|two|..]
    ensures |two| < |one| ==> Overlay(two + one[|two|..], |two|, [c]) == two + [c] + one[|two| + 1..]
  {
  }

  lemma KeptMore(items: seq<char>)
    requires items != [] && |Evens(items)| <= |Odds(items)|
    requires var front := items[..|items| - 1];
             |Evens(front)| <= |Odds(front)| && Unbuffered([], front) == Kept(front)
    ensures Unbuffered([], items) == Kept(items)
  {
    var front, c := items[..|items| - 1], items[|items| - 1];
    OverlayKept(Odds(front), Evens(front), c);
    assert Odds(items) == if Odd(c) then Odds(front) + [c] else Odds(front);
    assert Evens(items) == if Odd(c) then Evens(front) else Evens(front) + [c];
    hide Odds, Evens, Overlay;
  }

  lemma {:induction false} LedUnbuffered(items: seq<char>)
    requires Led(items)
    ensures |Evens(items)| <= |Odds(items)| && Unbuffered([], items) == Kept(items)
  {
    hide Led, Overlay;
    LedFront(items);
    if items != [] {
      LedFront(items[..|items| - 1]);
      LedUnbuffered(items[..|items| - 1]);
      KeptMore(items);
    }
  }

  // ---------------------------------------------------------------- buffered

  /** A stream has put some characters: those before its offset went to the file,
      the others wait in the buffer, and a flush empties a full one. */
  predicate Waits(p: Pipe, put: seq<char>, capacity: nat) {
    && p.offset <= |put| && p.buffer == put[p.offset..] && |p.buffer| <= capacity
    && (p.offset == 0 || (p.offset >= capacity && p.buffer != []))
  }

  predicate Waiting(s: Pipes, one: seq<char>, two: seq<char>, capacity: nat) {
    && Waits(s.one, one, capacity) && Waits(s.two, two, capacity)
    && |s.file| == if s.one.offset < s.two.offset then s.two.offset else s.one.offset
  }

  lemma PutWaits(s: Pipes, one: seq<char>, two: seq<char>, c: char, capacity: nat)
    requires capacity > 0 && Waiting(s, one, two, capacity)
    ensures Odd(c) ==> Waiting(PutInTurn(s, c, capacity), one + [c], two, capacity)
    ensures !Odd(c) ==> Waiting(PutInTurn(s, c, capacity), one, two + [c], capacity)
  {
  }

  lemma {:induction false} PrintedWaits(items: seq<char>, capacity: nat)
    requires capacity > 0
    ensures Waiting(Printed(items, capacity), Odds(items), Evens(items), capacity)
  {
    if items != [] {
      var front, c := items[..|items| - 1], items[|items| - 1];
      PrintedWaits(front, capacity);
      PutWaits(Printed(front, capacity), Odds(front), Evens(front), c, capacity);
      assert Odds(front) + [] == Odds(front) && Evens(front) + [] == Evens(front);
      hide Waiting, PutInTurn;
    }
  }

  /** With one and two the characters put so far, the first stream is q buffers ahead
      of the second in the file. */
  ghost predicate Level(one: seq<char>, two: seq<char>, s: Pipes, capacity: nat, q: nat) {
    && |two| <= |one|
    && s.two.offset <= |two| && s.one.offset <= |one| && s.two.offset + q * capacity == s.one.offset
    && s.one.buffer == one[s.one.offset..] && s.two.buffer == two[s.two.offset..]
    && |s.one.buffer| <= capacity && |s.two.buffer| <= capacity
    && s.file == two[..s.two.offset] + one[s.two.offset..s.one.offset]
  }

  lemma LevelFirst(one: seq<char>, two: seq<char>, s: Pipes, capacity: nat, q: nat, c: char)
    requires capacity > 0 && Level(one, two, s, capacity, q) && Odd(c)
    ensures var s' := PutInTurn(s, c, capacity);
            Level(one + [c], two, s', capacity, if |s.one.buffer| < capacity then q else q + 1)
  {
    var s' := PutInTurn(s, c, capacity);
    if |s.one.buffer| == capacity {
      assert (q + 1) * capacity == q * capacity + capacity;
      assert s'.file == s.file + s.one.buffer;
    }
  }

  lemma LevelFull(one: seq<char>, two: seq<char>, s: Pipes, capacity: nat, q: nat, c: char)
    requires capacity > 0 && Level(one, two, s, capacity, q) && !Odd(c) && |two| < |one|
    requires |s.two.buffer| == capacity
    ensures q > 0 && Level(one, two + [c], PutInTurn(s, c, capacity), capacity, q - 1)
  {
    OneLess(q, capacity);
    OverlayRange(one, two, s.two.offset, s.one.offset, capacity);
    hide Overlay;
  }

  lemma OneLess(q: nat, capacity: nat)
    ensures if q == 0 then q * capacity == 0 else (q - 1) * capacity + capacity == q * capacity
  {
  }

  lemma LevelSecond(one: seq<char>, two: seq<char>, s: Pipes, capacity: nat, q: nat, c: char)
    requires capacity > 0 && Level(one, two, s, capacity, q) && !Odd(c) && |two| < |one|
    ensures var s' := PutInTurn(s, c, capacity);
            exists q' :: Level(one, two + [c], s', capacity, q')
  {
    var s' := PutInTurn(s, c, capacity);
    if |s.two.buffer| == capacity {
      LevelFull(one, two, s, capacity, q, c);
      hide Level;
      assert Level(one, two + [c], s', capacity, q - 1);
    } else {
      assert Level(one, two + [c], s', capacity, q);
    }
  }

  lemma OverlayRange(one: seq<char>, two: seq<char>, from: nat, to: nat, n: nat)
    requires n > 0 && from + n == |two| && from + n <= to <= |one|
    ensures Overlay(two[..from] + one[from..to], from, two[from..]) == two + one[from + n..to]
  {
  }

  lemma LevelMore(one: seq<char>, two: seq<char>, s: Pipes, capacity: nat, q: nat, c: char,
                  one': seq<char>, two': seq<char>)
    requires capacity > 0 && Level(one, two, s, capacity, q) && (!Odd(c) ==> |two| < |one|)
    requires if Odd(c) then one' == one + [c] && two' == two else one' == one && two' == two + [c]
    ensures exists q' :: Level(one', two', PutInTurn(s, c, capacity), capacity, q')
  {
    if Odd(c) {
      LevelFirst(one, two, s, capacity, q, c);
      hide Level, PutInTurn;
      assert Level(one', two', PutInTurn(s, c, capacity), capacity, if |s.one.buffer| < capacity then q else q + 1);
    } else {
      LevelSecond(one, two, s, capacity, q, c);
    }
  }

  lemma {:induction false} LedLevel(items: seq<char>, capacity: nat)
    requires Led(items) && capacity > 0
    ensures exists q :: Level(Odds(items), Evens(items), Printed(items, capacity), capacity, q)
  {
    if items == [] {
      assert Level([], [], Printed([], capacity), capacity, 0);
    } else {
      var front, c := items[..|items| - 1], items[|items| - 1];
      var s := Printed(front, capacity);
      LedFront(items);
      LedLevel(front, capacity);
      assert Printed(items, capacity) == PutInTurn(s, c, capacity);
      hide Level, Printed, PutInTurn;
      var q :| Level(Odds(front), Evens(front), s, capacity, q);
      LevelMore(Odds(front), Evens(front), s, capacity, q, c, Odds(items), Evens(items));
    }
  }

  lemma LevelClosed(one: seq<char>, two: seq<char>, s: Pipes, capacity: nat, q: nat)
    requires Level(one, two, s, capacity, q)
    ensures Flushed(Flushed(s.file, s.one), s.two) == two + one[|two|..]
  {
    JoinRange(s.file, one, two, s.two.offset, s.one.offset);
    OverlayRest(one, two, s.two.offset);
  }

  lemma JoinRange(file: seq<char>, one: seq<char>, two: seq<char>, from: nat, to: nat)
    requires from <= |two| && from <= to <= |one| && file == two[..from] + one[from..to]
    ensures Overlay(file, to, one[to..]) == two[..from] + one[from..]
  {
  }

  lemma OverlayRest(one: seq<char>, two: seq<char>, from: nat)
    requires from <= |two| <= |one|
    ensures Overlay(two[..from] + one[from..], from, two[from..]) == two + one[|two|..]
  {
  }

  lemma LedBuffered(items: seq<char>, capacity: nat)
    requires Led(items) && capacity > 0
    ensures |Evens(items)| <= |Odds(items)| && Buffered(items, capacity) == Kept(items)
  {
    LedFront(items);
    LedLevel(items, capacity);
    var q :| Level(Odds(items), Evens(items), Printed(items, capacity), capacity, q);
    LevelClosed(Odds(items), Evens(items), Printed(items, capacity), capacity, q);
  }

  // ------------------------------------------------- when they do not agree

  /** The shortest prefix with more even codes than odd ones. */
  lemma {:induction false} FirstLag(items: seq<char>) returns (k: nat)
    requires !Led(items)
    ensures 0 < k <= |items| && !Odd(items[k - 1]) && Led(items[..k - 1])
    ensures |Evens(items[..k - 1])| == |Odds(items[..k - 1])|
  {
    assert Led([]);
    assert items != [];
    var front := items[..|items| - 1];
    if Led(front) {
      LedFront(front);
      if |Evens(items)| <= |Odds(items)| {
        LedMore(items);
      }
      k := |items|;
    } else {
      k := FirstLag(front);
      assert front[..k - 1] == items[..k - 1];
    }
  }

  lemma LedMore(items: seq<char>)
    requires items != [] && Led(items[..|items| - 1]) && |Evens(items)| <= |Odds(items)|
    ensures Led(items)
  {
    var front := items[..|items| - 1];
    forall k | 0 <= k <= |items|
      ensures |Evens(items[..k])| <= |Odds(items[..k])|
    {
      if k <= |front| {
        assert front[..k] == items[..k];
      } else {
        assert items[..k] == items;
      }
    }
  }

  lemma OverlayAt(file: seq<char>, at: nat, c: char, p: nat)
    requires at <= |file| && p < |file|
    ensures p < |Overlay(file, at, [c])| && Overlay(file, at, [c])[p] == if p == at then c else file[p]
  {
  }

  /** At a place that only one of the descriptors can still reach, its character
      stays: that of the first descriptor when it comes, else that of the second. */
  lemma {:induction false} LaterStays(items: seq<char>, k: nat, p: nat)
    requires k <= |items| && p == |Odds(items[..k])| && |Evens(items[..k])| > p
    requires p < |Unbuffered([], items[..k])| && Unbuffered([], items[..k])[p] == Evens(items[..k])[p]
    ensures p < |Unbuffered([], items)| && p < |Evens(items)|
    ensures Unbuffered([], items)[p] == if p < |Odds(items)| then Odds(items)[p] else Evens(items)[p]
  {
    Prefixes(items, k);
    if k == |items| {
      assert items[..k] == items;
    } else {
      var front := items[..|items| - 1];
      assert front[..k] == items[..k];
      LaterStays(front, k, p);
      Prefixes(front, k);
      UnbufferedSplit([], front);
      var c := items[|items| - 1];
      OverlayAt(Unbuffered([], front), if Odd(c) then |Odds(front)| else |Evens(front)|, c, p);
      hide Overlay;
    }
  }

  /** A place that both descriptors have passed is settled. */
  lemma {:induction false} Settled(items: seq<char>, k: nat, p: nat)
    requires k <= |items| && p < |Odds(items[..k])| && p < |Evens(items[..k])|
    ensures p < |Unbuffered([], items)| && p < |Unbuffered([], items[..k])|
    ensures Unbuffered([], items)[p] == Unbuffered([], items[..k])[p]
  {
    Prefixes(items, k);
    UnbufferedSplit([], items);
    if k == |items| {
      assert items[..k] == items;
    } else {
      var front := items[..|items| - 1];
      assert front[..k] == items[..k];
      Settled(front, k, p);
      Prefixes(front, k);
      UnbufferedSplit([], front);
      var c := items[|items| - 1];
      OverlayAt(Unbuffered([], front), if Odd(c) then |Odds(front)| else |Evens(front)|, c, p);
      hide Overlay;
    }
  }

  /** With room for everything in the buffers, the second descriptor wins wherever it
      writes. */
  lemma RoomyBuffers(items: seq<char>, capacity: nat, p: nat)
    requires capacity > |items| && p < |Evens(items)|
    ensures p < |Buffered(items, capacity)| && Buffered(items, capacity)[p] == Evens(items)[p]
  {
    PrintedWaits(items, capacity);
  }

  /** With a buffer for just the characters of the first descriptor and more than
      that through the second, the first one wins at the start of the file. */
  lemma TightBuffers(items: seq<char>, capacity: nat)
    requires capacity == |Odds(items)| > 0 && |Evens(items)| > capacity
    ensures |Buffered(items, capacity)| > 0 && Buffered(items, capacity)[0] == Odds(items)[0]
  {
    PrintedWaits(items, capacity);
  }

  /** At the end of the shortest prefix with more even codes than odd ones. */
  lemma LagPoint(prefix: seq<char>)
    requires prefix != [] && !Odd(prefix[|prefix| - 1]) && Led(prefix[..|prefix| - 1])
    requires var front := prefix[..|prefix| - 1]; |Evens(front)| == |Odds(front)|
    ensures |Evens(prefix)| == |Odds(prefix)| + 1 == |Unbuffered([], prefix)|
    ensures Unbuffered([], prefix)[|Odds(prefix)|] == Evens(prefix)[|Odds(prefix)|]
  {
    var front, c := prefix[..|prefix| - 1], prefix[|prefix| - 1];
    LedUnbuffered(front);
    hide Led;
    assert Unbuffered([], front) == Evens(front);
    assert Overlay(Evens(front), |Evens(front)|, [c]) == Evens(front) + [c];
  }

  /** A first descriptor that comes later than the second wins without buffers. */
  lemma LagRoomy(items: seq<char>, k: nat, p: nat)
    requires k <= |items| && p == |Odds(items[..k])| < |Odds(items)| && |Evens(items[..k])| > p
    requires p < |Unbuffered([], items[..k])| && Unbuffered([], items[..k])[p] == Evens(items[..k])[p]
    ensures Buffered(items, |items| + 1) != Unbuffered([], items)
  {
    hide Buffered, Unbuffered, Odd, Odds, Evens;
    Prefixes(items, k);
    LaterStays(items, k, p);
    RoomyBuffers(items, |items| + 1, p);
    OddAndEven(items, p, p);
  }

  /** A first descriptor that has written everything loses without buffers. */
  lemma LagTight(items: seq<char>, k: nat)
    requires k <= |items| && Led(items[..k]) && |Evens(items[..k])| == |Odds(items[..k])|
    requires |Odds(items[..k])| == |Odds(items)| > 0 && |Evens(items)| > |Odds(items)|
    ensures Buffered(items, |Odds(items)|) != Unbuffered([], items)
  {
    LedUnbuffered(items[..k]);
    hide Buffered, Unbuffered, Odd, Odds, Evens, Led;
    Prefixes(items, k);
    Settled(items, k, 0);
    TightBuffers(items, |Odds(items)|);
    OddAndEven(items, 0, 0);
  }

  lemma OddAndEven(items: seq<char>, p: nat, q: nat)
    requires p < |Odds(items)| && q < |Evens(items)|
    ensures Odds(items)[p] != Evens(items)[q]
  {
    OddsAreOdd(items, p);
    OddsAreOdd(items, q);
  }

  lemma LagPrefix(items: seq<char>, k: nat)
    requires 0 < k <= |items| && !Odd(items[k - 1])
    ensures items[..k][..k - 1] == items[..k - 1] && Odds(items[..k]) == Odds(items[..k - 1])
  {
    assert items[..k][..k - 1] == items[..k - 1];
  }

  /** The buffer for which a lagging first descriptor shows. */
  lemma LagShows(items: seq<char>) returns (capacity: nat)
    requires !Led(items) && Odds(items) != []
    ensures capacity > 0 && Buffered(items, capacity) != Unbuffered([], items)
  {
    hide Buffered, Unbuffered, Odd, Odds, Evens, Led;
    var k := FirstLag(items);
    var p := |Odds(items[..k])|;
    LagPrefix(items, k);
    LagPoint(items[..k]);
    Prefixes(items, k);
    if p < |Odds(items)| {
      LagRoomy(items, k, p);
      capacity := |items| + 1;
    } else {
      LagTight(items, k - 1);
      capacity := |Odds(items)|;
    }
  }

  /** Only the second stream has put anything. */
  predicate Alone(s: Pipes, two: seq<char>) {
    && s.one == Pipe(0, []) && s.two.offset <= |two|
    && s.file == two[..s.two.offset] && s.two.buffer == two[s.two.offset..]
  }

  lemma AloneMore(s: Pipes, two: seq<char>, c: char, capacity: nat)
    requires Alone(s, two) && !Odd(c) && capacity > 0
    ensures Alone(PutInTurn(s, c, capacity), two + [c])
  {
    assert |s.two.buffer| >= capacity ==> Overlay(s.file, s.two.offset, s.two.buffer) == two;
  }

  lemma {:induction false} OnlyEvens(items: seq<char>, capacity: nat)
    requires capacity > 0 && Odds(items) == []
    ensures Unbuffered([], items) == Evens(items)
    ensures Alone(Printed(items, capacity), Evens(items))
  {
    if items != [] {
      var front, c := items[..|items| - 1], items[|items| - 1];
      OnlyEvens(front, capacity);
      AloneMore(Printed(front, capacity), Evens(front), c, capacity);
      hide Alone, PutInTurn;
    }
  }

  lemma OnlyEvensBuffered(items: seq<char>, capacity: nat)
    requires capacity > 0 && Odds(items) == []
    ensures Unbuffered([], items) == Evens(items) == Buffered(items, capacity)
  {
    OnlyEvens(items, capacity);
  }

  /** For a file that was `before`, the two programs leave the same whatever the
      capacity of the buffers, exactly when that file is not longer than what gets
      written, and either no prefix of the characters has more even codes than odd
      ones or there are no odd codes at all. */
  lemma SameFileIff(before: seq<char>, items: seq<char>)
    ensures (forall capacity: nat :: capacity > 0 ==> Buffered(items, capacity) == Unbuffered(before, items))
            <==> |before| <= Longer(items) && (Led(items) || Odds(items) == [])
  {
    UnbufferedSplit(before, items);
    if |before| > Longer(items) {
      PrintedWaits(items, 1);
      BufferedLength(items, 1);
      assert Buffered(items, 1) != Unbuffered(before, items);
    } else {
      assert Unbuffered([], items) + [] == Unbuffered([], items);
      if !Led(items) && Odds(items) != [] {
        var capacity := LagShows(items);
        assert Buffered(items, capacity) != Unbuffered(before, items);
      } else {
        forall capacity: nat | capacity > 0
          ensures Buffered(items, capacity) == Unbuffered(before, items)
        {
          if Led(items) {
            LedUnbuffered(items);
            LedBuffered(items, capacity);
          } else {
            OnlyEvensBuffered(items, capacity);
          }
        }
      }
    }
  }

  lemma BufferedLength(items: seq<char>, capacity: nat)
    requires capacity > 0
    ensures |Buffered(items, capacity)| == Longer(items)
  {
    PrintedWaits(items, capacity);
  }

  /** With no prefix that has more even codes than odd ones, the file is what is kept
      of the two descriptors, and for the unbuffered program what it held beyond. */
  lemma LedKeeps(before: seq<char>, items: seq<char>, capacity: nat)
    requires Led(items) && capacity > 0
    ensures |Evens(items)| <= |Odds(items)|
    ensures Unbuffered(before, items) == Kept(items) + Tail(before, |Odds(items)|)
    ensures Buffered(items, capacity) == Kept(items)
  {
    LedFront(items);
    UnbufferedSplit(before, items);
    LedUnbuffered(items);
    LedBuffered(items, capacity);
  }

  // ---------------------------------------------------------- the alphabet

  /** The characters come in an order of alternating parity, an odd code first, as
      those of 'a'..'z' do. */
  predicate Alternating(items: seq<char>) {
    forall k :: 0 <= k < |items| ==> (items[k] as int % 2 == 1 <==> k % 2 == 0)
  }

  /** What the file holds at place p in the end: the second character of the p-th
      pair, or the first when it has no partner. */
  function Survivor(items: seq<char>, p: nat): char
    requires 2 * p < |items|
  {
    if 2 * p + 1 < |items| then items[2 * p + 1] else items[2 * p]
  }

  lemma {:induction false} AlternatingStreams(items: seq<char>, p: nat)
    requires Alternating(items)
    ensures |Odds(items)| == (|items| + 1) / 2 && |Evens(items)| == |items| / 2
    ensures 2 * p < |items| ==> Odds(items)[p] == items[2 * p]
    ensures 2 * p + 1 < |items| ==> Evens(items)[p] == items[2 * p + 1]
  {
    assert items != [] ==> (Odd(items[|items| - 1]) <==> |items| % 2 == 1);
    hide Odd;
    if items != [] {
      AlternatingStreams(items[..|items| - 1], p);
    }
  }

  lemma AlternatingLeads(items: seq<char>)
    requires Alternating(items)
    ensures Led(items)
  {
    forall k | 0 <= k <= |items|
      ensures |Evens(items[..k])| <= |Odds(items[..k])|
    {
      AlternatingStreams(items[..k], 0);
    }
  }

  /** Of characters of alternating parity half are lost: both programs leave the
      second of every pair, and the last one when it has no partner. */
  lemma AlternatingKeeps(items: seq<char>, capacity: nat, p: nat)
    requires Alternating(items) && capacity > 0 && 2 * p < |items|
    ensures |Buffered(items, capacity)| == (|items| + 1) / 2 && Buffered(items, capacity)[p] == Survivor(items, p)
    ensures Unbuffered([], items) == Buffered(items, capacity)
  {
    AlternatingStreams(items, p);
    AlternatingLeads(items);
    LedUnbuffered(items);
    LedBuffered(items, capacity);
  }

  /** For 'a'..'z' that file is "bdf...z": the letters of the second descriptor. */
  lemma EvenCountKeepsSecond(items: seq<char>, capacity: nat)
    requires Alternating(items) && capacity > 0 && |items| % 2 == 0
    ensures Buffered(items, capacity) == Unbuffered([], items) == Evens(items)
  {
    AlternatingStreams(items, 0);
    AlternatingLeads(items);
    LedUnbuffered(items);
    LedBuffered(items, capacity);
    assert Evens(items) + [] == Evens(items);
  }

  lemma {:induction false} CodesFollow(items: seq<char>, k: nat)
    requires k < |items| && forall i :: 0 < i < |items| ==> items[i] as int == items[i - 1] as int + 1
    ensures items[k] as int == items[0] as int + k
  {
    if k > 0 {
      CodesFollow(items, k - 1);
    }
  }

  /** Characters in the order of their codes, an odd code first: both programs leave
      the second of every pair, and the last one when it has no partner. */
  lemma ConsecutiveKeeps(items: seq<char>, capacity: nat, p: nat)
    requires capacity > 0 && 2 * p < |items| && items[0] as int % 2 == 1
    requires forall i :: 0 < i < |items| ==> items[i] as int == items[i - 1] as int + 1
    ensures |Buffered(items, capacity)| == (|items| + 1) / 2 && Unbuffered([], items) == Buffered(items, capacity)
    ensures Buffered(items, capacity)[p] == if 2 * p + 1 < |items| then items[2 * p + 1] else items[2 * p]
  {
    forall k | 0 <= k < |items|
      ensures items[k] as int % 2 == 1 <==> k % 2 == 0
    {
      CodesFollow(items, k);
    }
    AlternatingKeeps(items, capacity, p);
  }

  /** The programs as they are: 'a'..'z' leaves "bdfhjlnprtvxz". */
  lemma AlphabetKeeps(items: seq<char>, capacity: nat)
    requires capacity > 0 && |items| == 26 && items[0] == 'a'
    requires forall i :: 0 < i < |items| ==> items[i] as int == items[i - 1] as int + 1
    ensures Buffered(items, capacity) == Unbuffered([], items) == "bdfhjlnprtvxz"
  {
    hide Buffered, Unbuffered;
    forall p | 0 <= p < 13
      ensures p < |Buffered(items, capacity)| && Buffered(items, capacity)[p] as int == 98 + 2 * p
    {
      ConsecutiveKeeps(items, capacity, p);
      CodesFollow(items, 2 * p + 1);
    }
    ConsecutiveKeeps(items, capacity, 0);
  }
}
