/** The global `fullpath` of the tree walkers: a heap block with a NUL-terminated
    path at its start.  `pathlen` is the length of the block. */
module PathBuffers {
  import opened DirTree
  import opened Strings
  import opened TreeWalk

  function Overwrite(bytes: seq<char>, at: nat, data: seq<char>): seq<char>
    requires at + |data| <= |bytes|
  {
    bytes[..at] + data + bytes[at + |data|..]
  }

  /** Storing d and a terminator behind p makes the string p + d. */
  lemma StoreString(bytes: seq<char>, p: string, d: string)
    requires p <= bytes && NUL !in p && NUL !in d && |p| + |d| + 1 <= |bytes|
    ensures var after := Overwrite(bytes, |p|, d + [NUL]); p + d <= after && CString(after) == p + d
  {
    var after := Overwrite(bytes, |p|, d + [NUL]);
    assert p + d + [NUL] <= after;
    CStringIs(after, p + d);
  }

  lemma LongerBlock(bytes: seq<char>, longer: seq<char>)
    requires bytes <= longer && |CString(bytes)| < |bytes|
    ensures CString(longer) == CString(bytes)
  {
    CStringIs(longer, CString(bytes));
  }

  class PathBuffer {
    var block: array<char>

    function Bytes(): seq<char>
      reads this, block
    {
      block[..]
    }

    ghost predicate Valid()
      reads this, block
    {
      |Str()| < block.Length
    }

    function Str(): string
      reads this, block
    {
      CString(Bytes())
    }

    constructor (len: nat)
      ensures fresh(block) && block.Length == len
    {
      block := new char[len];
    }

    /** A store of some bytes; `ok` is false, and nothing is modelled, when it runs
        past the end of the block. */
    method Store(at: nat, data: seq<char>) returns (ok: bool)
      modifies block
      ensures ok <==> at + |data| <= block.Length
      ensures ok ==> Bytes() == Overwrite(old(Bytes()), at, data)
    {
      ok := at + |data| <= block.Length;
      if ok {
        for i := 0 to |data|
          invariant Bytes() == Overwrite(old(Bytes()), at, data[..i])
        {
          block[at + i] := data[i];
        }
        assert data[..|data|] == data;
      }
    }

    /** A new block; its contents are arbitrary. */
    method Allocate(len: nat)
      modifies this
      ensures fresh(block) && block.Length == len
    {
      block := new char[len];
    }

    /** `realloc` to twice the length. */
    method Double()
      modifies this
      ensures fresh(block) && block.Length == 2 * old(block.Length)
      ensures old(Bytes()) <= Bytes()
    {
      var bigger := new char[2 * block.Length];
      forall i | 0 <= i < block.Length {
        bigger[i] := block[i];
      }
      block := bigger;
    }

    /** The check of `dopath`, for a path of length n. */
    method Grow(n: nat)
      requires n < block.Length
      modifies this
      ensures block == old(block) || fresh(block)
      ensures block.Length == if n + 255 + 2 > old(block.Length) then 2 * old(block.Length) else old(block.Length)
      ensures old(Bytes()) <= Bytes()
    {
      if n + NAME_MAX + 2 > block.Length {
        Double();
      }
    }
  }
}
