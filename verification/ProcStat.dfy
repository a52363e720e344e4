/** The two parsers of /proc/<pid>/stat in lab_03/proc-1.  A stat line is
    "pid (comm) f3 f4 ... f52", where comm is whatever the process calls itself:
    it may hold spaces and parentheses. */
module ProcStat {
  import opened Options
  import opened Strings

  // ------------------------------------------------------------- the C library

  predicate Space(c: char) { c == ' ' || c == '\n' || c == '\t' || c == '\r' || c == '\U{0B}' || c == '\U{0C}' }

  predicate Digit(c: char) { '0' <= c <= '9' }

  predicate Delimiter(c: char) { c == ' ' || c == '\n' }

  /** The length of the token a string starts with. */
  function TokenLength(s: string): (n: nat)
    ensures n <= |s| && (s != "" && !Delimiter(s[0]) ==> n > 0)
  {
    if s == "" || Delimiter(s[0]) then 0 else TokenLength(s[1..]) + 1
  }

  /** `strtok` with " \n": the next token, and what is left behind its terminator. */
  function NextToken(s: string): (r: Option<(string, string)>)
    ensures r.Some? ==> |r.value.1| < |s|
  {
    if s == "" then None
    else if Delimiter(s[0]) then NextToken(s[1..])
    else
      var n := TokenLength(s);
      Some((s[..n], if n < |s| then s[n + 1..] else ""))
  }

  /** At most `limit` tokens. */
  function Tokens(s: string, limit: nat): seq<string>
    decreases |s|
  {
    var r := NextToken(s);
    if limit == 0 || r.None? then [] else [r.value.0] + Tokens(r.value.1, limit - 1)
  }

  function SkipSpaces(s: string): (r: string)
    ensures |r| <= |s|
  {
    if s != "" && Space(s[0]) then SkipSpaces(s[1..]) else s
  }

  function DigitsLength(s: string): (n: nat)
    ensures n <= |s|
  {
    if s != "" && Digit(s[0]) then DigitsLength(s[1..]) + 1 else 0
  }

  /** A %d or %u conversion of `sscanf`: the text converted, and what is left. */
  function ScanNumber(s: string): (r: Option<(string, string)>)
    ensures r.Some? ==> |r.value.1| < |s|
  {
    var s := SkipSpaces(s);
    var sign := if s != "" && (s[0] == '-' || s[0] == '+') then 1 else 0;
    var n := DigitsLength(s[sign..]);
    if n == 0 then None else Some((s[..sign + n], s[sign + n..]))
  }

  /** What is left after n conversions. */
  function SkipNumbers(s: string, n: nat): Option<string>
    decreases |s|
  {
    if n == 0 then Some(s)
    else
      var r := ScanNumber(s);
      if r.None? then None else SkipNumbers(r.value.1, n - 1)
  }

  // ------------------------------------------------------------- the parsers

  /** What print_full_stat shows (the pid as the text its %d converts).  Stray: the
      pointer to the fields is behind the end of the string. */
  datatype Shown = NoParentheses | Stray | Shown(pid: Option<(string, string)>, comm: string, fields: seq<string>)

  const FIELDS: nat := 52

  function FullStat(buf: string): Shown { ShownAt(buf, FirstOf(buf, '('), LastOf(buf, ')')) }

  function ShownAt(buf: string, lp: nat, rp: int): Shown
    requires lp <= |buf| && -1 <= rp < |buf|
  {
    if lp == |buf| || rp < 0 then NoParentheses
    else if rp + 2 > |buf| then Stray
    else if lp < rp then Shown(ScanNumber(buf[..lp]), buf[lp + 1..rp], Tokens(buf[rp + 2..], FIELDS - 2))
    else if rp + 2 <= lp then Shown(ScanNumber(buf[..rp]), buf[lp + 1..], Tokens(buf[rp + 2..lp], FIELDS - 2))
    else Shown(ScanNumber(buf[..rp]), buf[lp + 1..], Tokens(buf[rp + 2..], FIELDS - 2))
  }

  /** The line is in a buffer; the parentheses are overwritten with terminators, and
      the pid, comm and the fields are the strings left at three places of it. */
  method PrintFullStat(buf: array<char>) returns (shown: Shown)
    requires |CString(buf[..])| < buf.Length
    modifies buf
    ensures shown == FullStat(CString(old(buf[..])))
  {
    hide ScanNumber, Tokens, CString, FirstOf, LastOf;
    var line := CString(buf[..]);
    var lp, rp := FirstOf(line, '('), LastOf(line, ')');
    if lp == |line| || rp < 0 {
      return NoParentheses;
    }
    if rp + 2 > |line| {
      return Stray;
    }
    buf[lp] := NUL;
    buf[rp] := NUL;
    ThreeStrings(line, buf[..], lp, rp);
    var pid := ScanNumber(CString(buf[..]));
    var comm := CString(buf[lp + 1..]);
    var fields := PrintFields(CString(buf[rp + 2..]));
    return Shown(pid, comm, fields);
  }

  /** What the terminators leave of a line. */
  lemma ThreeStrings(line: string, bytes: seq<char>, lp: nat, rp: nat)
    requires NUL !in line && |line| < |bytes| && lp < |line| && rp + 2 <= |line| && lp != rp
    requires bytes[lp] == bytes[rp] == bytes[|line|] == NUL
    requires forall i :: 0 <= i < |line| && i != lp && i != rp ==> bytes[i] == line[i]
    ensures ShownAt(line, lp, rp) == Shown(ScanNumber(CString(bytes)), CString(bytes[lp + 1..]),
                                           Tokens(CString(bytes[rp + 2..]), FIELDS - 2))
  {
    hide ScanNumber, Tokens, CString;
    assert line[lp + 1..|line|] == line[lp + 1..] && line[rp + 2..|line|] == line[rp + 2..];
    assert line[0..lp] == line[..lp] && line[0..rp] == line[..rp];
    assert bytes[0..] == bytes;
    CutString(bytes, line, 0, if lp < rp then lp else rp);
    CutString(bytes, line, lp + 1, if lp < rp then rp else |line|);
    CutString(bytes, line, rp + 2, if rp + 2 <= lp then lp else |line|);
  }

  /** The loop over the fields behind the parenthesis. */
  method PrintFields(rest: string) returns (fields: seq<string>)
    ensures fields == Tokens(rest, FIELDS - 2)
  {
    fields := [];
    var token := NextToken(rest);
    var idx := 2;
    ghost var left := rest;
    while token.Some? && idx < FIELDS
      invariant 2 <= idx <= FIELDS && token == NextToken(left)
      invariant fields + Tokens(left, FIELDS - idx) == Tokens(rest, FIELDS - 2)
      decreases FIELDS - idx
    {
      assert Tokens(left, FIELDS - idx) == [token.value.0] + Tokens(token.value.1, FIELDS - idx - 1);
      fields := fields + [token.value.0];
      left := token.value.1;
      token := NextToken(token.value.1);
      idx := idx + 1;
    }
  }

  /** The texts that the skipping `sscanf` of print_stat_and_extract converts to
      vsize and startstack: one character and 19 numbers are skipped before the
      first, four numbers between them. */
  function Extract(buf: string): Option<(string, string)> { ExtractAt(buf, LastOf(buf, ')')) }

  function ExtractAt(buf: string, rp: int): Option<(string, string)>
    requires -1 <= rp < |buf|
  {
    if rp < 0 || rp + 2 >= |buf| then None else TwoNumbers(buf[rp + 3..], 19, 4)
  }

  /** Skip some numbers, convert one, skip some more, convert another. */
  function TwoNumbers(s: string, before: nat, between: nat): Option<(string, string)> {
    var first := NumberAfter(s, before);
    if first.None? then None
    else
      var second := NumberAfter(first.value.1, between);
      if second.None? then None else Some((first.value.0, second.value.0))
  }

  function NumberAfter(s: string, skipped: nat): Option<(string, string)> {
    var rest := SkipNumbers(s, skipped);
    if rest.None? then None else ScanNumber(rest.value)
  }

  // ------------------------------------------------------------ the stat line

  /** A space and the text of each field. */
  function Spaced(fields: seq<string>): string {
    if fields == [] then "" else " " + fields[0] + Spaced(fields[1..])
  }

  function Line(pid: string, comm: string, fields: seq<string>): string {
    pid + " (" + comm + ")" + Spaced(fields) + "\n"
  }

  predicate Digits(s: string) { s != "" && forall i :: 0 <= i < |s| ==> '0' <= s[i] <= '9' }

  predicate Number(s: string) { Digits(s) || (s != "" && s[0] == '-' && Digits(s[1..])) }

  predicate Word(s: string) {
    s != "" && forall i :: 0 <= i < |s| ==> s[i] != ' ' && s[i] != '\n' && s[i] != ')'
  }

  /** What the kernel prints: a pid, a state, and 49 numbers. */
  predicate Proper(pid: string, fields: seq<string>) {
    && Digits(pid)
    && |fields| == 50
    && Word(fields[0]) && |fields[0]| == 1
    && forall i :: 1 <= i < |fields| ==> Number(fields[i])
  }

  lemma ProperWords(pid: string, fields: seq<string>)
    requires Proper(pid, fields)
    ensures forall i :: 0 <= i < |fields| ==> Word(fields[i])
  {
    forall i | 0 <= i < |fields|
      ensures Word(fields[i])
    {
      if i > 0 && !Digits(fields[i]) {
        assert forall j :: 1 <= j < |fields[i]| ==> fields[i][j] == fields[i][1..][j - 1];
      }
    }
  }

  // ----------------------------------------------------------- tokens come back

  lemma {:induction false} TokenOf(w: string, rest: string)
    requires (forall i :: 0 <= i < |w| ==> !Delimiter(w[i])) && rest != "" && Delimiter(rest[0])
    ensures TokenLength(w + rest) == |w|
  {
    if w == "" {
      assert w + rest == rest;
    } else {
      TokenOf(w[1..], rest);
      assert (w + rest)[1..] == w[1..] + rest;
    }
  }

  lemma NextOf(w: string, rest: string)
    requires Word(w) && rest != "" && Delimiter(rest[0])
    ensures NextToken(w + rest) == Some((w, rest[1..]))
  {
    TokenOf(w, rest);
    assert (w + rest)[..|w|] == w && (w + rest)[|w| + 1..] == rest[1..];
  }

  lemma AfterDelimiter(s: string, limit: nat)
    requires s != "" && Delimiter(s[0])
    ensures Tokens(s[1..], limit) == Tokens(s, limit)
  {
  }

  lemma SpacedStart(fields: seq<string>)
    ensures var s := Spaced(fields) + "\n"; s != "" && Delimiter(s[0])
    ensures fields != [] ==> (Spaced(fields) + "\n")[1..] == fields[0] + (Spaced(fields[1..]) + "\n")
  {
  }

  lemma TokensStep(s: string, limit: nat, token: string, rest: string)
    requires limit > 0 && rest != "" && Delimiter(rest[0]) && NextToken(s) == Some((token, rest[1..]))
    ensures Tokens(s, limit) == [token] + Tokens(rest, limit - 1)
  {
    AfterDelimiter(rest, limit - 1);
  }

  lemma NoTokens(limit: nat)
    ensures Tokens("\n", limit) == []
  {
    AfterDelimiter("\n", limit);
  }

  lemma FirstToken(fields: seq<string>, limit: nat)
    requires fields != [] && limit > 0 && Word(fields[0])
    ensures Tokens(Spaced(fields) + "\n", limit) == [fields[0]] + Tokens(Spaced(fields[1..]) + "\n", limit - 1)
  {
    hide Spaced, Tokens, NextToken, Word, Delimiter;
    var s, rest := Spaced(fields) + "\n", Spaced(fields[1..]) + "\n";
    SpacedStart(fields);
    SpacedStart(fields[1..]);
    NextOf(fields[0], rest);
    AfterDelimiter(s, limit);
    TokensStep(s[1..], limit, fields[0], rest);
  }

  /** At most `limit` of some fields. */
  function AtMost(fields: seq<string>, limit: nat): seq<string> {
    if |fields| <= limit then fields else fields[..limit]
  }

  lemma AtMostFirst(fields: seq<string>, limit: nat)
    requires fields != [] && limit > 0
    ensures AtMost(fields, limit) == [fields[0]] + AtMost(fields[1..], limit - 1)
  {
    assert fields == [fields[0]] + fields[1..];
    if |fields| > limit {
      assert fields[..limit] == [fields[0]] + fields[1..][..limit - 1];
    }
  }

  lemma {:induction false} TokensOfSpaced(fields: seq<string>, limit: nat)
    requires forall i :: 0 <= i < |fields| ==> Word(fields[i])
    ensures Tokens(Spaced(fields) + "\n", limit) == AtMost(fields, limit)
    decreases limit
  {
    if fields == [] {
      hide Tokens;
      NoTokens(limit);
      assert Spaced(fields) + "\n" == "\n";
    } else if limit > 0 {
      hide Spaced, Tokens, NextToken, Word, Delimiter;
      TokensOfSpaced(fields[1..], limit - 1);
      FirstToken(fields, limit);
      AtMostFirst(fields, limit);
      hide AtMost;
    }
  }

  // ---------------------------------------------------------- numbers come back

  lemma {:induction false} DigitsOf(w: string, rest: string)
    requires (forall i :: 0 <= i < |w| ==> '0' <= w[i] <= '9') && (rest != "" ==> !('0' <= rest[0] <= '9'))
    ensures DigitsLength(w + rest) == |w|
  {
    if w == "" {
      assert w + rest == rest;
    } else {
      DigitsOf(w[1..], rest);
      assert (w + rest)[1..] == w[1..] + rest;
    }
  }

  lemma ScanOf(w: string, rest: string)
    requires Number(w) && (rest != "" ==> !Digit(rest[0]))
    ensures ScanNumber(w + rest) == Some((w, rest))
    ensures ScanNumber(" " + w + rest) == Some((w, rest))
  {
    var sign := if w[0] == '-' then 1 else 0;
    assert SkipSpaces(w + rest) == w + rest;
    assert (" " + w + rest)[1..] == w + rest;
    assert (w + rest)[sign..] == w[sign..] + rest;
    DigitsOf(w[sign..], rest);
    assert (w + rest)[..|w|] == w && (w + rest)[|w|..] == rest;
  }

  lemma ScanSigned(sign: string, digits: string, rest: string)
    requires sign in ["", "+", "-"] && Digits(digits) && (rest != "" ==> !('0' <= rest[0] <= '9'))
    ensures ScanNumber(sign + digits + rest) == Some((sign + digits, rest))
  {
    var s := sign + digits + rest;
    DigitsOf(digits, rest);
    hide DigitsLength;
    ThreeParts(sign, digits, rest);
    assert s != "" && s[0] == if sign == "" then digits[0] else sign[0];
  }

  lemma ThreeParts(a: string, b: string, c: string)
    ensures var s := a + b + c;
            s[|a|..] == b + c && s[..|a| + |b|] == a + b && s[|a| + |b|..] == c
  {
  }

  /** A conversion skips white space of any kind and takes a sign and all digits. */
  lemma {:induction false} ScanSkips(space: string, sign: string, digits: string, rest: string)
    requires forall i :: 0 <= i < |space| ==> space[i] in [' ', '\n', '\t', '\r', '\U{0B}', '\U{0C}']
    requires sign in ["", "+", "-"] && Digits(digits) && (rest != "" ==> !('0' <= rest[0] <= '9'))
    ensures ScanNumber(space + sign + digits + rest) == Some((sign + digits, rest))
  {
    var s := space + sign + digits + rest;
    if space == "" {
      ScanSigned(sign, digits, rest);
      assert s == sign + digits + rest;
    } else {
      hide DigitsLength, Digits, Digit;
      ScanSkips(space[1..], sign, digits, rest);
      assert s[1..] == space[1..] + sign + digits + rest;
    }
  }

  lemma ScanSpaced(fields: seq<string>)
    requires fields != [] && Number(fields[0])
    ensures ScanNumber(Spaced(fields) + "\n") == Some((fields[0], Spaced(fields[1..]) + "\n"))
  {
    var rest := Spaced(fields[1..]) + "\n";
    SpacedStart(fields[1..]);
    ScanOf(fields[0], rest);
    assert Spaced(fields) + "\n" == " " + fields[0] + rest;
  }

  lemma {:induction false} SkipSpaced(fields: seq<string>, n: nat)
    requires n <= |fields| && forall i :: 0 <= i < n ==> Number(fields[i])
    ensures SkipNumbers(Spaced(fields) + "\n", n) == Some(Spaced(fields[n..]) + "\n")
    decreases n
  {
    if n > 0 {
      ScanSpaced(fields);
      SkipSpaced(fields[1..], n - 1);
      assert fields[1..][n - 1..] == fields[n..];
    }
  }

  // ------------------------------------------------------------ the round trip

  lemma {:induction false} SpacedHasNoParenthesis(fields: seq<string>)
    requires forall i :: 0 <= i < |fields| ==> Word(fields[i])
    ensures ')' !in Spaced(fields)
  {
    if fields != [] {
      SpacedHasNoParenthesis(fields[1..]);
    }
  }

  lemma DropMore(s: string, i: nat, j: nat)
    requires i + j <= |s|
    ensures s[i..][j..] == s[i + j..]
  {
  }

  /** A line is split at its first left and its last right parenthesis, wherever
      else there are any. */
  lemma Between(head: string, comm: string, tail: string)
    requires '(' !in head && ')' !in tail
    ensures FullStat(head + "(" + comm + ")" + tail) ==
            if tail == "" then Stray else Shown(ScanNumber(head), comm, Tokens(tail[1..], 50))
    ensures Extract(head + "(" + comm + ")" + tail) == if |tail| < 2 then None else TwoNumbers(tail[2..], 19, 4)
  {
    hide ScanNumber, Tokens, TwoNumbers;
    var s := head + "(" + comm + ")" + tail;
    var lp, rp := |head|, |head| + 1 + |comm|;
    assert s[..lp] == head && s[lp + 1..rp] == comm && s[rp + 1..] == tail;
    FirstOfIs(s, '(', lp);
    LastOfIs(s, ')', rp);
    hide FirstOf, LastOf;
    if tail != "" {
      DropMore(s, rp + 1, 1);
    }
    if |tail| >= 2 {
      DropMore(s, rp + 1, 2);
    }
  }

  /** A line whose last right parenthesis comes before its first left one: the pid
      ends at the right one and comm starts behind the left one, where the fields
      between them end. */
  lemma Crossed(head: string, middle: string, tail: string)
    requires '(' !in head + ")" + middle && ')' !in middle + "(" + tail
    ensures FullStat(head + ")" + middle + "(" + tail) ==
            Shown(ScanNumber(head), tail, Tokens(if middle == "" then tail else middle[1..], 50))
  {
    hide ScanNumber, Tokens;
    var s := head + ")" + middle + "(" + tail;
    var rp, lp := |head|, |head| + 1 + |middle|;
    assert s[..lp] == head + ")" + middle && s[rp + 1..] == middle + "(" + tail;
    assert s[..rp] == head && s[lp + 1..] == tail && s[rp + 1..lp] == middle;
    FirstOfIs(s, '(', lp);
    LastOfIs(s, ')', rp);
    hide FirstOf, LastOf;
    if middle != "" {
      assert s[rp + 2..lp] == middle[1..];
    }
  }

  /** The two cases without a table, for any line. */
  lemma NoTable(buf: string)
    ensures FullStat(buf).NoParentheses? <==> '(' !in buf || ')' !in buf
    ensures FullStat(buf).Stray? <==> '(' in buf && buf[|buf| - 1] == ')'
  {
    hide ScanNumber, Tokens;
    assert buf != "" && buf[|buf| - 1] == ')' ==> LastOf(buf, ')') == |buf| - 1;
    hide FirstOf, LastOf;
    FirstOfNone(buf, '(');
    LastOfNone(buf, ')');
  }

  /** Any line with a pid and words as its fields parses back to what it was
      printed from, whatever comm holds; of more than 50 fields the first 50. */
  lemma RoundTrip(pid: string, comm: string, fields: seq<string>)
    requires Digits(pid) && forall i :: 0 <= i < |fields| ==> Word(fields[i])
    ensures FullStat(Line(pid, comm, fields))
         == Shown(Some((pid, " ")), comm, if |fields| <= 50 then fields else fields[..50])
  {
    var head, tail := pid + " ", Spaced(fields) + "\n";
    SpacedHasNoParenthesis(fields);
    SpacedStart(fields);
    hide ScanNumber, Tokens, FullStat, Spaced;
    assert Line(pid, comm, fields) == head + "(" + comm + ")" + tail;
    Between(head, comm, tail);
    AfterDelimiter(tail, FIELDS - 2);
    TokensOfSpaced(fields, FIELDS - 2);
    ScanOf(pid, " ");
  }

  lemma NumberAfterSpaced(fields: seq<string>, n: nat)
    requires n < |fields| && forall i :: 0 <= i < |fields| ==> Number(fields[i])
    ensures NumberAfter(Spaced(fields) + "\n", n) == Some((fields[n], Spaced(fields[n + 1..]) + "\n"))
  {
    SkipSpaced(fields, n);
    ScanSpaced(fields[n..]);
    assert fields[n..][1..] == fields[n + 1..];
  }

  lemma TwoNumbersSpaced(fields: seq<string>, before: nat, between: nat)
    requires before + 1 + between < |fields| && forall i :: 0 <= i < |fields| ==> Number(fields[i])
    ensures TwoNumbers(Spaced(fields) + "\n", before, between) == Some((fields[before], fields[before + 1 + between]))
  {
    NumberAfterSpaced(fields, before);
    NumberAfterSpaced(fields[before + 1..], between);
  }

  /** What the `sscanf` is left with after the state letter. */
  lemma AfterState(fields: seq<string>)
    requires fields != [] && |fields[0]| == 1
    ensures |Spaced(fields) + "\n"| > 2
    ensures (Spaced(fields) + "\n")[2..] == Spaced(fields[1..]) + "\n"
  {
    SpacedStart(fields);
    assert (Spaced(fields) + "\n")[1..][1..] == (Spaced(fields) + "\n")[2..];
  }

  /** The two parsers agree: the skipping `sscanf` converts exactly the texts that
      the table shows as fields 23 and 28. */
  lemma ParsersAgree(pid: string, comm: string, fields: seq<string>)
    requires Proper(pid, fields)
    ensures var shown := FullStat(Line(pid, comm, fields));
            shown.Shown? && |shown.fields| == 50
            && Extract(Line(pid, comm, fields)) == Some((shown.fields[23 - 3], shown.fields[28 - 3]))
  {
    var head, tail := pid + " ", Spaced(fields) + "\n";
    ProperWords(pid, fields);
    SpacedHasNoParenthesis(fields);
    hide Spaced, FullStat, Extract, TwoNumbers, FirstOf, LastOf, Number;
    assert Line(pid, comm, fields) == head + "(" + comm + ")" + tail;
    RoundTrip(pid, comm, fields);
    AfterState(fields);
    Between(head, comm, tail);
    TwoNumbersSpaced(fields[1..], 19, 4);
  }
}
