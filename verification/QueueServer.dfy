/** The epoll server of lab_01: one thread answers the requests 'p' and 'c' one
    after the other, with the same ring buffer under two counting semaphores and
    timed waits.  A timed decrement fails with EAGAIN exactly when the value is 0;
    increments succeed.  The ring size n is a parameter; the letters always run
    through 'a'..'z'. */
module QueueServer {

  // ------------------------------------------------------------ a bounded queue

  /** The letters waiting to be consumed, and how many were produced so far. */
  datatype Fifo = Fifo(waiting: seq<char>, produced: nat)

  const OK: seq<char> := "OK\0"
  const ER: seq<char> := "ER\0"

  function Cyclic(i: nat): (c: char)
    ensures 'a' <= c <= 'z'
  {
    'a' + (i % 26) as char
  }

  /** The three bytes a consumer sends with a letter. */
  function Letter(c: char): seq<char> { [c, '\0', '\0'] }

  /** What a queue of capacity n fed by the cyclic alphabet does on a request; a
      request of another kind gets no reply at all. */
  function Answer(q: Fifo, n: nat, request: char): (Fifo, seq<char>) {
    if request == 'p' then
      if |q.waiting| < n then (Fifo(q.waiting + [Cyclic(q.produced)], q.produced + 1), OK) else (q, ER)
    else if request == 'c' then
      if q.waiting != [] then (q.(waiting := q.waiting[1..]), Letter(q.waiting[0])) else (q, ER)
    else
      (q, [])
  }

  function After(n: nat, requests: seq<char>): Fifo {
    if requests == [] then Fifo([], 0)
    else Answer(After(n, requests[..|requests| - 1]), n, requests[|requests| - 1]).0
  }

  function Reply(n: nat, requests: seq<char>, i: nat): seq<char>
    requires i < |requests|
  {
    Answer(After(n, requests[..i]), n, requests[i]).1
  }

  // ------------------------------------------------- counters instead of letters

  /** A saturating counter of the free and filled places: the requests that
      succeed, without any letter, buffer or index. */
  datatype Score = Score(made: nat, taken: nat)

  function Tally(n: nat, requests: seq<char>): (r: Score)
    ensures r.taken <= r.made <= r.taken + n
  {
    if requests == [] then Score(0, 0)
    else
      var r, last := Tally(n, requests[..|requests| - 1]), requests[|requests| - 1];
      if last == 'p' && r.made < r.taken + n then r.(made := r.made + 1)
      else if last == 'c' && r.taken < r.made then r.(taken := r.taken + 1)
      else r
  }

  lemma {:induction false} QueueHoldsInterval(n: nat, requests: seq<char>)
    ensures var q, r := After(n, requests), Tally(n, requests);
            && q.produced == r.made && |q.waiting| == r.made - r.taken
            && forall j :: 0 <= j < |q.waiting| ==> q.waiting[j] == Cyclic(r.taken + j)
  {
    if requests != [] {
      QueueHoldsInterval(n, requests[..|requests| - 1]);
    }
  }

  /** The produces accepted among the first i requests, and the consumes that got a
      letter, told from the bytes of their replies alone. */
  function Made(n: nat, requests: seq<char>, i: nat): set<nat>
    requires i <= |requests|
  {
    set j: nat | j < i && requests[j] == 'p' && Reply(n, requests, j) == ['O', 'K', '\0']
  }

  function Taken(n: nat, requests: seq<char>, i: nat): set<nat>
    requires i <= |requests|
  {
    set j: nat | j < i && requests[j] == 'c' && Reply(n, requests, j) != ['E', 'R', '\0']
  }

  lemma AnswerBytes(n: nat, requests: seq<char>, i: nat)
    requires i < |requests|
    ensures var r := Tally(n, requests[..i]);
            Reply(n, requests, i) ==
            if requests[i] == 'p' then (if r.made - r.taken < n then ['O', 'K', '\0'] else ['E', 'R', '\0'])
            else if requests[i] == 'c' then
              (if r.taken < r.made then ['a' + (r.taken % 26) as char, '\0', '\0'] else ['E', 'R', '\0'])
            else []
  {
    QueueHoldsInterval(n, requests[..i]);
  }

  lemma MadeMore(n: nat, requests: seq<char>, j: nat)
    requires j < |requests|
    ensures var made := requests[j] == 'p' && Reply(n, requests, j) == ['O', 'K', '\0'];
            |Made(n, requests, j + 1)| == |Made(n, requests, j)| + if made then 1 else 0
  {
    hide Reply;
    var made := requests[j] == 'p' && Reply(n, requests, j) == ['O', 'K', '\0'];
    assert Made(n, requests, j + 1) == Made(n, requests, j) + if made then {j} else {};
  }

  lemma TakenMore(n: nat, requests: seq<char>, j: nat)
    requires j < |requests|
    ensures var taken := requests[j] == 'c' && Reply(n, requests, j) != ['E', 'R', '\0'];
            |Taken(n, requests, j + 1)| == |Taken(n, requests, j)| + if taken then 1 else 0
  {
    hide Reply;
    var taken := requests[j] == 'c' && Reply(n, requests, j) != ['E', 'R', '\0'];
    assert Taken(n, requests, j + 1) == Taken(n, requests, j) + if taken then {j} else {};
  }

  lemma {:induction false} TallyCountsReplies(n: nat, requests: seq<char>, i: nat)
    requires i <= |requests|
    ensures |Made(n, requests, i)| == Tally(n, requests[..i]).made
    ensures |Taken(n, requests, i)| == Tally(n, requests[..i]).taken
  {
    hide Reply;
    if i == 0 {
      assert Made(n, requests, 0) == {} && Taken(n, requests, 0) == {};
    } else {
      var j: nat := i - 1;
      hide Made, Taken;
      TallyCountsReplies(n, requests, j);
      assert requests[..i][..j] == requests[..j];
      AnswerBytes(n, requests, j);
      MadeMore(n, requests, j);
      TakenMore(n, requests, j);
    }
  }

  /** The bytes of every reply of every request sequence: a produce is accepted
      exactly when fewer than n letters are waiting, and the i-th consume that
      succeeds (from 0) gets the letter `'a' + i mod 26`, whether or not n divides
      26. */
  lemma RepliesAreFifo(n: nat, requests: seq<char>, i: nat)
    requires i < |requests|
    ensures var made, taken := |Made(n, requests, i)|, |Taken(n, requests, i)|;
            && taken <= made <= taken + n
            && Reply(n, requests, i) ==
               if requests[i] == 'p' then (if made - taken < n then ['O', 'K', '\0'] else ['E', 'R', '\0'])
               else if requests[i] == 'c' then
                 (if taken < made then ['a' + (taken % 26) as char, '\0', '\0'] else ['E', 'R', '\0'])
               else []
  {
    TallyCountsReplies(n, requests, i);
    AnswerBytes(n, requests, i);
  }

  // ---------------------------------------------------------------- the server

  class Server {
    const n: nat
    const buf: array<char>
    var letter: char
    var producerIndex: nat
    var consumerIndex: nat
    var semEmpty: nat
    var semFull: nat
    ghost var produced: nat

    /** The j-th letter waiting, counted from the consumer index. */
    ghost function Waiting(j: nat): char
      requires buf.Length == n && consumerIndex < n && j < n
      reads this, buf
    {
      if consumerIndex + j < n then buf[consumerIndex + j] else buf[consumerIndex + j - n]
    }

    ghost predicate Valid()
      reads this
    {
      && 0 < n == buf.Length
      && producerIndex < n && consumerIndex < n
      && semEmpty + semFull == n
      && (producerIndex == consumerIndex + semFull || producerIndex + n == consumerIndex + semFull)
      && letter == Cyclic(produced)
    }

    ghost function Queue(): (q: Fifo)
      requires Valid()
      reads this, buf
      ensures |q.waiting| == semFull
    {
      Fifo(seq(semFull, j requires 0 <= j < semFull reads this, buf requires Valid() => Waiting(j)), produced)
    }

    constructor (n: nat)
      requires n > 0
      ensures Valid() && this.n == n && Queue() == Fifo([], 0) && fresh(buf)
    {
      this.n := n;
      buf := new char[n](_ => '\0');
      letter := 'a';
      producerIndex, consumerIndex := 0, 0;
      semEmpty, semFull := n, 0;
      produced := 0;
    }

    method Producer() returns (message: seq<char>)
      requires Valid()
      modifies this, buf
      ensures Valid()
      ensures (Queue(), message) == Answer(old(Queue()), n, 'p')
    {
      hide Cyclic;
      message := ['E', 'R', '\0'];
      if semEmpty > 0 {
        semEmpty := semEmpty - 1;
        buf[producerIndex] := letter;
        NextLetter(produced);
        if letter >= 'z' {
          letter := 'a';
        } else {
          letter := letter + 1 as char;
        }
        produced := produced + 1;
        producerIndex := producerIndex + 1;
        if producerIndex >= n {
          producerIndex := 0;
        }
        semFull := semFull + 1;
        message := ['O', 'K', '\0'];
        assert forall j :: 0 <= j < old(semFull) ==> Waiting(j) == old(Waiting(j));
        assert Waiting(old(semFull)) == old(letter);
        assert Queue().waiting == old(Queue().waiting) + [old(letter)];
      }
    }

    method Consumer() returns (message: seq<char>)
      requires Valid()
      modifies this
      ensures Valid()
      ensures (Queue(), message) == Answer(old(Queue()), n, 'c')
    {
      if semFull == 0 {
        message := ['E', 'R', '\0'];
      } else {
        semFull := semFull - 1;
        message := [buf[consumerIndex], '\0', '\0'];
        consumerIndex := consumerIndex + 1;
        if consumerIndex >= n {
          consumerIndex := 0;
        }
        semEmpty := semEmpty + 1;
        assert Queue().waiting == old(Queue().waiting)[1..];
      }
    }

    method Worker(request: char) returns (message: seq<char>)
      requires Valid()
      modifies this, buf
      ensures Valid()
      ensures (Queue(), message) == Answer(old(Queue()), n, request)
    {
      if request == 'p' {
        message := Producer();
      } else if request == 'c' {
        message := Consumer();
      } else {
        message := [];
      }
    }

    /** The event loop of a freshly started server: it answers every request as
        the bounded queue does, and EMPTY + FULL = n holds between requests. */
    method Serve(requests: seq<char>) returns (messages: seq<seq<char>>)
      requires Valid() && Queue() == Fifo([], 0)
      modifies this, buf
      ensures Valid() && Queue() == After(n, requests)
      ensures |messages| == |requests| && forall i :: 0 <= i < |requests| ==> messages[i] == Reply(n, requests, i)
    {
      messages := [];
      for k := 0 to |requests|
        invariant Valid() && Queue() == After(n, requests[..k])
        invariant |messages| == k && forall i :: 0 <= i < k ==> messages[i] == Reply(n, requests, i)
      {
        var message := Worker(requests[k]);
        messages := messages + [message];
        assert requests[..k + 1][..k] == requests[..k];
      }
      assert requests[..|requests|] == requests;
    }
  }

  lemma NextLetter(i: nat)
    ensures Cyclic(i + 1) == if Cyclic(i) >= 'z' then 'a' else Cyclic(i) + 1 as char
  {
  }
}
