/** `process_maps_and_pagemap` of lab_03/proc-1: every page of every mapped region
    is looked up in the pagemap, and the sizes of the regions are summed, both in
    64-bit unsigned arithmetic. */
module ProcMaps {
  import opened Cycles

  const WORD: int := 0x1_0000_0000_0000_0000
  const ENTRY_SIZE: nat := 8

  /** A line of the maps file: the addresses it starts with, when it has two. */
  datatype Line = Region(start: nat, end: nat) | Other

  /** A read of the pagemap: the page looked up, and the offset read at. */
  datatype Lookup = Lookup(address: nat, offset: int)

  /** What the kernel writes: regions of whole pages below 2^64, in ascending order
      and not overlapping. */
  predicate Ordered(lines: seq<Line>, page: nat) {
    && page > 0
    && (forall i :: 0 <= i < |lines| ==> Whole(lines[i], page))
    && (forall i, j :: 0 <= i < j < |lines| && lines[i].Region? && lines[j].Region? ==> lines[i].end <= lines[j].start)
  }

  predicate Whole(l: Line, page: nat)
    requires page > 0
  {
    l.Region? ==> l.start <= l.end <= 0xFFFF_FFFF_FFFF_FFFF && l.start % page == 0 && l.end % page == 0
  }

  /** The addresses from start to end, in steps of a page. */
  function Pages(start: nat, end: nat, page: nat): seq<nat>
    requires page > 0
    decreases end - start
  {
    if start >= end then [] else [start] + Pages(start + page, end, page)
  }

  function AllPages(lines: seq<Line>, page: nat): seq<nat>
    requires page > 0
  {
    if lines == [] then []
    else
      var last := lines[|lines| - 1];
      AllPages(lines[..|lines| - 1], page) + if last.Region? then Pages(last.start, last.end, page) else []
  }

  function Lookups(pages: seq<nat>, page: nat): (r: seq<Lookup>)
    requires page > 0
    ensures |r| == |pages|
  {
    seq(|pages|, i requires 0 <= i < |pages| => Lookup(pages[i], pages[i] / page * ENTRY_SIZE % WORD))
  }

  lemma NextPage(start: nat, end: nat, page: nat)
    requires page > 0 && start < end && start % page == 0 && end % page == 0
    ensures start + page <= end && (start + page) % page == 0
  {
    var a, b := start / page, end / page;
    assert start == page * a && end == page * b;
    MultipleGap(page, a, b);
    AddPage(start, page);
  }

  lemma MultipleGap(page: nat, a: nat, b: nat)
    requires page * a < page * b
    ensures page * a + page <= page * b
  {
    if b <= a {
      Multiples(page, b, a);
    } else {
      Multiples(page, a + 1, b);
    }
  }

  lemma NoRemainder(page: nat, d: int, r: nat)
    requires page * d == r < page
    ensures r == 0
  {
    if d > 0 {
      Multiples(page, 1, d);
    } else {
      Multiples(page, d, 0);
    }
  }

  lemma AddPage(x: nat, page: nat)
    requires page > 0 && x % page == 0
    ensures (x + page) % page == 0
  {
    var k := x / page;
    var m, r := (x + page) / page, (x + page) % page;
    assert x + page == page * (k + 1) && x + page == page * m + r;
    NoRemainder(page, k + 1 - m, r);
  }

  /** The inner loop: its counter reaches the end of the region without passing
      2^64, and looks up every page of the region. */
  method LookUpRegion(start: nat, end: nat, page: nat) returns (lookups: seq<Lookup>)
    requires page > 0 && Whole(Region(start, end), page)
    ensures lookups == Lookups(Pages(start, end, page), page)
  {
    lookups := [];
    var i := start;
    while i < end
      invariant start <= i <= end && i % page == 0
      invariant lookups + Lookups(Pages(i, end, page), page) == Lookups(Pages(start, end, page), page)
      decreases end - i
    {
      NextPage(i, end, page);
      assert Pages(i, end, page) == [i] + Pages(i + page, end, page);
      lookups := lookups + [Lookup(i, i / page * ENTRY_SIZE % WORD)];
      i := (i + page) % WORD;
    }
  }

  method ProcessMaps(lines: seq<Line>, page: nat, pagemap: bool) returns (vsize: int, lookups: seq<Lookup>)
    requires Ordered(lines, page)
    ensures vsize == page * |AllPages(lines, page)| <= 0xFFFF_FFFF_FFFF_FFFF
    ensures lookups == if pagemap then Lookups(AllPages(lines, page), page) else []
  {
    vsize, lookups := 0, [];
    for k := 0 to |lines|
      invariant vsize == page * |AllPages(lines[..k], page)| < WORD
      invariant lookups == if pagemap then Lookups(AllPages(lines[..k], page), page) else []
    {
      assert lines[..k + 1][..k] == lines[..k];
      if lines[k].Region? {
        var start, end := lines[k].start, lines[k].end;
        SumFits(lines, page, k);
        vsize := (vsize + (end - start)) % WORD;
        if pagemap {
          var more := LookUpRegion(start, end, page);
          lookups := lookups + more;
        }
      }
    }
    assert lines[..|lines|] == lines;
  }

  lemma {:induction false} PagesFill(start: nat, end: nat, page: nat)
    requires page > 0 && start <= end && start % page == 0 && end % page == 0
    ensures page * |Pages(start, end, page)| == end - start
    decreases end - start
  {
    if start < end {
      NextPage(start, end, page);
      PagesFill(start + page, end, page);
      var n := |Pages(start + page, end, page)|;
      assert page * (n + 1) == page * n + page;
    }
  }

  /** The end of the last region among the first k lines. */
  function Top(lines: seq<Line>): nat {
    if lines == [] then 0
    else if lines[|lines| - 1].Region? then lines[|lines| - 1].end
    else Top(lines[..|lines| - 1])
  }

  lemma {:induction false} TopBelow(lines: seq<Line>, page: nat, k: nat, j: nat)
    requires Ordered(lines, page) && k <= j < |lines| && lines[j].Region?
    ensures Top(lines[..k]) <= lines[j].start
  {
    if k > 0 {
      assert lines[..k][..k - 1] == lines[..k - 1];
      TopBelow(lines, page, k - 1, j);
    }
  }

  lemma {:induction false} SizeBelowTop(lines: seq<Line>, page: nat, k: nat)
    requires Ordered(lines, page) && k <= |lines|
    ensures page * |AllPages(lines[..k], page)| <= Top(lines[..k]) < WORD
  {
    if k > 0 {
      assert lines[..k][..k - 1] == lines[..k - 1];
      SizeBelowTop(lines, page, k - 1);
      if lines[k - 1].Region? {
        TopBelow(lines, page, k - 1, k - 1);
        PagesFill(lines[k - 1].start, lines[k - 1].end, page);
        Distribute(page, |AllPages(lines[..k - 1], page)|, |Pages(lines[k - 1].start, lines[k - 1].end, page)|);
      }
    }
  }

  lemma Distribute(page: nat, a: nat, b: nat)
    ensures page * (a + b) == page * a + page * b
  {
  }

  lemma SumFits(lines: seq<Line>, page: nat, k: nat)
    requires Ordered(lines, page) && k < |lines| && lines[k].Region?
    ensures page * |AllPages(lines[..k + 1], page)|
         == page * |AllPages(lines[..k], page)| + (lines[k].end - lines[k].start) < WORD
  {
    assert lines[..k + 1][..k] == lines[..k];
    SizeBelowTop(lines, page, k + 1);
    PagesFill(lines[k].start, lines[k].end, page);
    Distribute(page, |AllPages(lines[..k], page)|, |Pages(lines[k].start, lines[k].end, page)|);
  }

  // --------------------------------------------------------- every page once

  predicate Ascending(s: seq<nat>) {
    forall i, j :: 0 <= i < j < |s| ==> s[i] < s[j]
  }

  lemma AscendingConcat(a: seq<nat>, b: seq<nat>)
    requires Ascending(a) && Ascending(b) && forall x, y :: x in a && y in b ==> x < y
    ensures Ascending(a + b)
  {
    var c := a + b;
    forall i, j | 0 <= i < j < |c|
      ensures c[i] < c[j]
    {
      if i < |a| <= j {
        assert a[i] in a && b[j - |a|] in b;
      }
    }
  }

  lemma {:induction false} PagesAre(start: nat, end: nat, page: nat)
    requires page > 0 && start <= end && start % page == 0 && end % page == 0
    ensures forall a :: a in Pages(start, end, page) <==> start <= a < end && a % page == 0
    ensures Ascending(Pages(start, end, page))
    decreases end - start
  {
    if start < end {
      NextPage(start, end, page);
      PagesAre(start + page, end, page);
      var rest := Pages(start + page, end, page);
      forall a: nat
        ensures a in [start] + rest <==> start <= a < end && a % page == 0
      {
        if start < a && a % page == 0 {
          NextPage(start, a, page);
        }
      }
      AscendingConcat([start], rest);
    }
  }

  /** An address that is a page of some region. */
  predicate Mapped(lines: seq<Line>, page: nat, address: nat)
    requires page > 0
  {
    address % page == 0 && exists i :: 0 <= i < |lines| && lines[i].Region? && lines[i].start <= address < lines[i].end
  }

  lemma MappedMore(lines: seq<Line>, page: nat, address: nat)
    requires page > 0 && lines != []
    ensures var n := |lines| - 1;
            Mapped(lines, page, address) <==>
            Mapped(lines[..n], page, address)
            || (address % page == 0 && lines[n].Region? && lines[n].start <= address < lines[n].end)
  {
    var n := |lines| - 1;
    if Mapped(lines[..n], page, address) {
      var i :| 0 <= i < n && lines[..n][i].Region? && lines[..n][i].start <= address < lines[..n][i].end;
      assert lines[i].Region?;
    }
    if i :| 0 <= i < |lines| && lines[i].Region? && lines[i].start <= address < lines[i].end && i < n {
      assert lines[..n][i] == lines[i];
    }
  }

  /** The nested loops look up every mapped page, no other, each once, in ascending
      order. */
  lemma {:induction false} EveryPageOnce(lines: seq<Line>, page: nat)
    requires Ordered(lines, page)
    ensures forall a :: a in AllPages(lines, page) <==> Mapped(lines, page, a)
    ensures Ascending(AllPages(lines, page))
    ensures forall a :: a in AllPages(lines, page) ==> a < Top(lines) < WORD
  {
    if lines != [] {
      var n := |lines| - 1;
      EveryPageOnce(lines[..n], page);
      forall a {
        MappedMore(lines, page, a);
      }
      if lines[n].Region? {
        PagesAre(lines[n].start, lines[n].end, page);
        TopBelow(lines, page, n, n);
        AscendingConcat(AllPages(lines[..n], page), Pages(lines[n].start, lines[n].end, page));
      }
    }
  }

  lemma Quotients(page: nat, i: nat, j: nat)
    requires page >= ENTRY_SIZE && page * i < page * j
    ensures i < j && ENTRY_SIZE * j <= page * j
  {
    assert (page - ENTRY_SIZE) * j >= 0;
    if i >= j {
      Multiples(page, j, i);
    }
  }

  lemma OffsetGrows(a: nat, b: nat, page: nat)
    requires page >= ENTRY_SIZE && a % page == 0 && b % page == 0 && a < b < WORD
    ensures a / page * ENTRY_SIZE % WORD < b / page * ENTRY_SIZE % WORD
  {
    var i, j := a / page, b / page;
    assert a == page * i && b == page * j;
    Quotients(page, i, j);
  }

  /** Every page has its own entry of the pagemap: the offset is the number of the
      page times the size of an entry, which 64 bits can hold. */
  lemma OffsetOfPage(lines: seq<Line>, page: nat, i: nat)
    requires Ordered(lines, page) && page >= 8 && i < |AllPages(lines, page)|
    ensures var r := Lookups(AllPages(lines, page), page)[i];
            r.address == AllPages(lines, page)[i] && r.offset * page == r.address * 8
  {
    var pages := AllPages(lines, page);
    EveryPageOnce(lines, page);
    assert pages[i] in pages;
    ExactOffset(pages[i], page);
  }

  lemma ExactOffset(address: nat, page: nat)
    requires page >= ENTRY_SIZE && address % page == 0 && address < WORD
    ensures (address / page * ENTRY_SIZE % WORD) * page == address * ENTRY_SIZE
  {
    var q := address / page;
    assert address == page * q;
    SmallOffset(page, q);
    EightTimes(page, q);
  }

  lemma EightTimes(page: nat, q: nat)
    ensures q * 8 * page == page * q * 8
  {
  }

  lemma SmallOffset(page: nat, q: nat)
    requires page >= ENTRY_SIZE && page * q < WORD
    ensures q * ENTRY_SIZE % WORD == q * ENTRY_SIZE
  {
    assert (page - ENTRY_SIZE) * q >= 0;
  }

  /** The offsets read in the pagemap are strictly increasing. */
  lemma OffsetsAscend(lines: seq<Line>, page: nat, i: nat, j: nat)
    requires Ordered(lines, page) && page >= 8
    requires i < j < |AllPages(lines, page)|
    ensures var r := Lookups(AllPages(lines, page), page); r[i].offset < r[j].offset
  {
    var pages := AllPages(lines, page);
    EveryPageOnce(lines, page);
    assert pages[i] in pages && pages[j] in pages;
    OffsetGrows(pages[i], pages[j], page);
  }
}
