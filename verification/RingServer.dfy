/** The thread-per-request server of lab_01: any number of producer and consumer
    threads over one ring buffer, guarded by the System V semaphores SE (free
    slots), SF (filled slots) and SB (the buffer itself).

    One `Next` step is one atomic action of one thread: a `semop` that takes or
    gives two semaphores at once, or a single access to shared memory.  The ring
    size `n` and the initial value `k` of SE are parameters: the server uses 26
    and 4096. */
module RingServer {
  import opened Cycles

  /** The next action of a thread of `produce` or `consume`, in program order. */
  type Point = p: nat | p <= 5
  const START: Point := 0    // take two semaphores
  const ACCESS: Point := 1   // store to or load from the slot
  const ADVANCE: Point := 2  // increment the index
  const WRAP: Point := 3     // reset an index that ran past the ring
  const STOP: Point := 4     // give two semaphores
  const END: Point := 5

  /** `got` is the consumer's `buffer[1]`. */
  datatype Thread = Producer(at: Point) | Consumer(at: Point, got: nat)

  /** `stores` and `loads` are the letters stored and loaded so far, in order, and
      `loaders` the threads that did the loads; `unread[j]` says that the letter
      last stored in slot j was not loaded yet, and `overwrites` counts the stores
      that hit such a slot. */
  datatype State = State(
    ring: seq<nat>, producerIndex: nat, consumerIndex: nat,
    se: nat, sf: nat, sb: nat, threads: seq<Thread>,
    stores: seq<nat>, loads: seq<nat>, loaders: seq<nat>, unread: seq<bool>, overwrites: nat)

  datatype Event = SpawnProducer | SpawnConsumer | Step(t: nat)

  /** The byte `'a' + i`, as a C `char` keeps it. */
  function Letter(i: nat): nat { (97 + i) % 256 }

  function Init(n: nat, k: nat): State {
    State(seq(n, _ => 0), 0, 0, k, 0, 1, [], [], [], [], seq(n, _ => false), 0)
  }

  /** A `semop` blocks while one of the semaphores it takes is 0. */
  predicate Enabled(s: State, t: nat) {
    && t < |s.threads|
    && s.threads[t].at != END
    && (s.threads[t].at == START ==> s.sb > 0 && (if s.threads[t].Producer? then s.se else s.sf) > 0)
  }

  /** The buffer access of thread t stays inside the ring. */
  predicate InBounds(s: State, n: nat, t: nat) {
    && |s.ring| == |s.unread| == n
    && (t < |s.threads| && s.threads[t].at == ACCESS ==>
          if s.threads[t].Producer? then s.producerIndex < n else s.consumerIndex < n)
  }

  /** The state after the next action of thread t. */
  function Next(s: State, n: nat, t: nat): State
    requires Enabled(s, t) && InBounds(s, n, t)
  {
    var th := s.threads[t];
    if th.Producer? then
      NextProducer(s, n, th.at).(threads := s.threads[t := Producer(th.at + 1)])
    else
      var got := if th.at == ACCESS then s.ring[s.consumerIndex] else th.got;
      NextConsumer(s, n, th.at).(threads := s.threads[t := Consumer(th.at + 1, got)],
      loaders := if th.at == ACCESS then s.loaders + [t] else s.loaders)
  }

  function NextProducer(s: State, n: nat, at: Point): State
    requires at == START ==> s.se > 0 && s.sb > 0
    requires at == ACCESS ==> s.producerIndex < |s.ring| == |s.unread|
  {
    var i := s.producerIndex;
    if at == START then
      s.(se := s.se - 1, sb := s.sb - 1)
    else if at == ACCESS then
      s.(ring := s.ring[i := Letter(i)], stores := s.stores + [Letter(i)],
      unread := s.unread[i := true], overwrites := s.overwrites + if s.unread[i] then 1 else 0)
    else if at == ADVANCE then
      s.(producerIndex := i + 1)
    else if at == WRAP then
      s.(producerIndex := if i >= n then 0 else i)
    else
      s.(sb := s.sb + 1, sf := s.sf + 1)
  }

  function NextConsumer(s: State, n: nat, at: Point): State
    requires at == START ==> s.sf > 0 && s.sb > 0
    requires at == ACCESS ==> s.consumerIndex < |s.ring| == |s.unread|
  {
    var i := s.consumerIndex;
    if at == START then
      s.(sf := s.sf - 1, sb := s.sb - 1)
    else if at == ACCESS then
      s.(loads := s.loads + [s.ring[i]], unread := s.unread[i := false])
    else if at == ADVANCE then
      s.(consumerIndex := i + 1)
    else if at == WRAP then
      s.(consumerIndex := if i >= n then 0 else i)
    else
      s.(sb := s.sb + 1, se := s.se + 1)
  }

  // ---------------------------------------------------------------- counting

  /** The threads of one role that have done their first `q` actions. */
  function Past(ts: seq<Thread>, producer: bool, q: nat): set<nat> {
    set t: nat | t < |ts| && ts[t].Producer? == producer && ts[t].at >= q
  }

  function Count(ts: seq<Thread>, producer: bool, q: nat): nat { |Past(ts, producer, q)| }

  lemma SmallerSet(a: set<nat>, b: set<nat>)
    requires a <= b
    ensures |a| <= |b|
  {
    assert b == a + (b - a);
  }

  lemma CountFalls(ts: seq<Thread>, producer: bool, q: nat)
    ensures Count(ts, producer, q + 1) <= Count(ts, producer, q)
  {
    SmallerSet(Past(ts, producer, q + 1), Past(ts, producer, q));
  }

  lemma CountsFall(ts: seq<Thread>, producer: bool)
    ensures Count(ts, producer, 5) <= Count(ts, producer, 4) <= Count(ts, producer, 3)
         <= Count(ts, producer, 2) <= Count(ts, producer, 1) <= Count(ts, producer, 0)
  {
    CountFalls(ts, producer, 0);
    CountFalls(ts, producer, 1);
    CountFalls(ts, producer, 2);
    CountFalls(ts, producer, 3);
    CountFalls(ts, producer, 4);
  }

  /** A thread that stands at point q is counted up to q and no further. */
  lemma CountThread(ts: seq<Thread>, t: nat)
    requires t < |ts|
    ensures Count(ts, ts[t].Producer?, ts[t].at + 1) < Count(ts, ts[t].Producer?, ts[t].at)
  {
    var a, b := Past(ts, ts[t].Producer?, ts[t].at + 1), Past(ts, ts[t].Producer?, ts[t].at);
    SmallerSet(a + {t}, b);
  }

  /** A thread that does one more action changes exactly one count. */
  lemma CountMove(ts: seq<Thread>, t: nat, th: Thread, producer: bool, q: nat)
    requires t < |ts| && th.Producer? == ts[t].Producer? && th.at == ts[t].at + 1
    ensures Count(ts[t := th], producer, q)
         == Count(ts, producer, q) + if producer == th.Producer? && q == th.at then 1 else 0
  {
    var a, b := Past(ts, producer, q), Past(ts[t := th], producer, q);
    if producer == th.Producer? && q == th.at {
      assert b == a + {t};
    } else {
      assert b == a;
    }
  }

  lemma CountAppend(ts: seq<Thread>, th: Thread, producer: bool, q: nat)
    requires th.at == START
    ensures Count(ts + [th], producer, q)
         == Count(ts, producer, q) + if producer == th.Producer? && q == 0 then 1 else 0
  {
    var a, b := Past(ts, producer, q), Past(ts + [th], producer, q);
    if producer == th.Producer? && q == 0 {
      assert b == a + {|ts|};
    } else {
      assert b == a;
    }
  }

  // --------------------------------------------------------------- invariant

  /** The semaphores count what they are for; the histories count the accesses. */
  predicate Conserved(s: State, k: nat) {
    var ts := s.threads;
    && s.sb + Count(ts, true, 1) + Count(ts, false, 1) == 1 + Count(ts, true, 5) + Count(ts, false, 5)
    && s.se + Count(ts, true, 1) == k + Count(ts, false, 5)
    && s.sf + Count(ts, false, 1) == Count(ts, true, 5)
    && |s.stores| == Count(ts, true, 2)
    && |s.loads| == Count(ts, false, 2)
  }

  /** An index is the slot of its completed rounds, plus the advance not yet
      followed by its wrap. */
  predicate Follows(index: nat, advances: nat, wraps: nat, n: nat)
    requires n > 0
  {
    index + wraps == Slot(wraps, n) + advances
  }

  predicate Indexed(s: State, n: nat)
    requires n > 0
  {
    && Follows(s.producerIndex, Count(s.threads, true, 3), Count(s.threads, true, 4), n)
    && Follows(s.consumerIndex, Count(s.threads, false, 3), Count(s.threads, false, 4), n)
  }

  /** A slot that was ever stored to holds its own letter, and what was loaded
      is a prefix of what was stored. */
  predicate Letters(s: State, n: nat)
    requires n > 0
  {
    && |s.ring| == |s.unread| == n
    && (forall j :: 0 <= j < n && j < |s.stores| ==> s.ring[j] == Letter(j))
    && (forall i :: 0 <= i < |s.stores| ==> s.stores[i] == Letter(Slot(i, n)))
    && s.loads <= s.stores
  }

  predicate IsLoader(s: State, i: nat)
    requires i < |s.loaders| == |s.loads|
  {
    var t := s.loaders[i];
    t < |s.threads| && s.threads[t].Consumer? && s.threads[t].at > ACCESS && s.threads[t].got == s.loads[i]
  }

  /** Every load was done by a consumer of its own, which keeps the letter. */
  predicate Delivered(s: State) {
    && |s.loaders| == |s.loads|
    && (forall i :: 0 <= i < |s.loads| ==> IsLoader(s, i))
    && (forall i, j :: 0 <= i < j < |s.loaders| ==> s.loaders[i] != s.loaders[j])
  }

  predicate Inv(s: State, n: nat, k: nat)
    requires n > 0
  {
    Conserved(s, k) && Indexed(s, n) && Letters(s, n) && Delivered(s)
  }

  /** At its buffer access, a thread finds its index at the slot of the next
      letter, and a consumer finds that letter already stored. */
  lemma AtAccess(s: State, n: nat, k: nat, t: nat)
    requires n > 0 && Conserved(s, k) && Indexed(s, n)
    requires t < |s.threads| && s.threads[t].at == ACCESS
    ensures s.threads[t].Producer? ==> s.producerIndex == Slot(|s.stores|, n)
    ensures s.threads[t].Consumer? ==> s.consumerIndex == Slot(|s.loads|, n) && |s.loads| < |s.stores|
  {
    CountThread(s.threads, t);
    CountsFall(s.threads, true);
    CountsFall(s.threads, false);
  }

  lemma InvInBounds(s: State, n: nat, k: nat, t: nat)
    requires n > 0 && Inv(s, n, k)
    ensures InBounds(s, n, t)
  {
    if t < |s.threads| && s.threads[t].at == ACCESS {
      AtAccess(s, n, k, t);
    }
  }

  lemma NextCounts(s: State, n: nat, t: nat, producer: bool, q: nat)
    requires Enabled(s, t) && InBounds(s, n, t)
    ensures Count(Next(s, n, t).threads, producer, q)
         == Count(s.threads, producer, q)
            + if producer == s.threads[t].Producer? && q == s.threads[t].at + 1 then 1 else 0
  {
    CountMove(s.threads, t, Next(s, n, t).threads[t], producer, q);
  }

  lemma NextKeepsConserved(s: State, n: nat, k: nat, t: nat)
    requires Enabled(s, t) && InBounds(s, n, t) && Conserved(s, k)
    ensures Conserved(Next(s, n, t), k)
  {
    forall producer, q {
      NextCounts(s, n, t, producer, q);
    }
  }

  lemma WrapFollows(index: nat, advances: nat, wraps: nat, n: nat)
    requires n > 0 && Follows(index, advances, wraps, n) && advances == wraps + 1
    ensures Follows(if index >= n then 0 else index, advances, wraps + 1, n)
  {
  }

  lemma NextKeepsIndexed(s: State, n: nat, k: nat, t: nat)
    requires n > 0 && Enabled(s, t) && InBounds(s, n, t) && Conserved(s, k) && Indexed(s, n)
    ensures Indexed(Next(s, n, t), n)
  {
    NextCounts(s, n, t, true, 3);
    NextCounts(s, n, t, true, 4);
    NextCounts(s, n, t, false, 3);
    NextCounts(s, n, t, false, 4);
    if s.threads[t].at == WRAP {
      AtWrap(s, k, t);
      if s.threads[t].Producer? {
        WrapFollows(s.producerIndex, Count(s.threads, true, 3), Count(s.threads, true, 4), n);
      } else {
        WrapFollows(s.consumerIndex, Count(s.threads, false, 3), Count(s.threads, false, 4), n);
      }
    }
  }

  lemma AtWrap(s: State, k: nat, t: nat)
    requires Conserved(s, k) && t < |s.threads| && s.threads[t].at == WRAP
    ensures var producer := s.threads[t].Producer?; Count(s.threads, producer, 3) == Count(s.threads, producer, 4) + 1
  {
    CountThread(s.threads, t);
    CountsFall(s.threads, true);
    CountsFall(s.threads, false);
  }

  lemma StoreKeepsLetters(s: State, n: nat)
    requires n > 0 && Letters(s, n) && s.producerIndex == Slot(|s.stores|, n)
    ensures Letters(NextProducer(s, n, ACCESS), n)
  {
  }

  lemma LoadKeepsLetters(s: State, n: nat)
    requires n > 0 && Letters(s, n) && s.consumerIndex == Slot(|s.loads|, n) && |s.loads| < |s.stores|
    ensures Letters(NextConsumer(s, n, ACCESS), n)
  {
    var i := |s.loads|;
    assert s.ring[s.consumerIndex] == s.stores[i];
    assert s.stores[..i + 1] == s.stores[..i] + [s.stores[i]];
  }

  lemma NextKeepsLetters(s: State, n: nat, k: nat, t: nat)
    requires n > 0 && Enabled(s, t) && InBounds(s, n, t) && Inv(s, n, k)
    ensures Letters(Next(s, n, t), n)
  {
    if s.threads[t].at == ACCESS {
      AtAccess(s, n, k, t);
      if s.threads[t].Producer? {
        StoreKeepsLetters(s, n);
      } else {
        LoadKeepsLetters(s, n);
      }
    }
  }

  lemma NextKeepsDelivered(s: State, n: nat, t: nat)
    requires Enabled(s, t) && InBounds(s, n, t) && Delivered(s)
    ensures Delivered(Next(s, n, t))
  {
    var s' := Next(s, n, t);
    forall i | 0 <= i < |s.loads|
      ensures IsLoader(s', i) && (s.threads[t].at == ACCESS ==> s.loaders[i] != t)
    {
      assert IsLoader(s, i);
    }
  }

  /** Every atomic step of every thread keeps the invariant. */
  lemma NextKeepsInv(s: State, n: nat, k: nat, t: nat)
    requires n > 0 && Enabled(s, t) && InBounds(s, n, t) && Inv(s, n, k)
    ensures Inv(Next(s, n, t), n, k)
  {
    NextKeepsConserved(s, n, k, t);
    NextKeepsIndexed(s, n, k, t);
    NextKeepsLetters(s, n, k, t);
    NextKeepsDelivered(s, n, t);
  }

  // -------------------------------------------------------------------- runs

  function Apply(s: State, n: nat, e: Event): State
    requires e.Step? ==> InBounds(s, n, e.t)
  {
    match e
    case SpawnProducer => s.(threads := s.threads + [Producer(START)])
    case SpawnConsumer => s.(threads := s.threads + [Consumer(START, 0)])
    case Step(t) => if Enabled(s, t) then Next(s, n, t) else s
  }

  lemma ApplyKeepsInv(s: State, n: nat, k: nat, e: Event)
    requires n > 0 && Inv(s, n, k)
    ensures e.Step? ==> InBounds(s, n, e.t)
    ensures Inv(Apply(s, n, e), n, k)
  {
    if e.Step? {
      InvInBounds(s, n, k, e.t);
      if Enabled(s, e.t) {
        NextKeepsInv(s, n, k, e.t);
      }
    } else {
      var th := if e.SpawnProducer? then Producer(START) else Consumer(START, 0);
      forall producer, q {
        CountAppend(s.threads, th, producer, q);
      }
      forall i | 0 <= i < |s.loads|
        ensures IsLoader(Apply(s, n, e), i)
      {
        assert IsLoader(s, i);
      }
    }
  }

  /** A run: threads appear at any time, and the scheduler may pick any thread at
      any time; picking a blocked or finished thread changes nothing. */
  function Run(n: nat, k: nat, events: seq<Event>): (s: State)
    requires n > 0
    ensures Inv(s, n, k)
  {
    if events == [] then
      Init(n, k)
    else
      var before := Run(n, k, events[..|events| - 1]);
      ApplyKeepsInv(before, n, k, events[|events| - 1]);
      Apply(before, n, events[|events| - 1])
  }

  // ---------------------------------------------------------------- theorems

  lemma LetterBytes(s: State, n: nat, i: nat)
    requires n > 0 && Letters(s, n)
    ensures s.loads <= s.stores
    ensures i < |s.stores| ==> s.stores[i] == (97 + i % n) % 256
    ensures i < |s.loads| ==> s.loads[i] == (97 + i % n) % 256
  {
    SlotIsMod(i, n);
    assert i < |s.loads| ==> s.loads[i] == s.stores[i];
  }

  lemma SmallLetter(r: nat)
    requires r < 26
    ensures 97 <= (97 + r) % 256 <= 122
  {
  }

  /** In every run, the letters loaded are the letters stored, first in first
      out: the i-th produce stores the byte `'a' + i mod n`, and the i-th load
      returns it, also when unread slots were overwritten; in a ring of 26 slots
      these bytes are the letters 'a' to 'z'. */
  lemma LoadsAreStores(n: nat, k: nat, events: seq<Event>, i: nat)
    requires n > 0
    ensures var s := Run(n, k, events);
            && s.loads <= s.stores
            && (i < |s.stores| ==> s.stores[i] == (97 + i % n) % 256)
            && (i < |s.loads| ==> s.loads[i] == (97 + i % n) % 256)
    ensures var s := Run(n, k, events);
            n == 26 ==> (i < |s.stores| ==> 97 <= s.stores[i] <= 122) && (i < |s.loads| ==> 97 <= s.loads[i] <= 122)
  {
    LetterBytes(Run(n, k, events), n, i);
    hide Run, Inv;
    if n == 26 {
      SmallLetter(i % 26);
    }
  }

  // ------------------------------------------------------- the shared memory

  /** The globals of the server.  `Advance` is the next statement of one thread;
      the scheduler may call it for the threads in any order. */
  class Server {
    const n: nat
    const ring: array<nat>
    var producerIndex: nat
    var consumerIndex: nat
    var se: nat
    var sf: nat
    var sb: nat
    var threads: seq<Thread>
    ghost var stores: seq<nat>
    ghost var loads: seq<nat>
    ghost var loaders: seq<nat>
    ghost var unread: seq<bool>
    ghost var overwrites: nat

    ghost function View(): State
      reads this, ring
    {
      State(ring[..], producerIndex, consumerIndex, se, sf, sb, threads, stores, loads, loaders, unread, overwrites)
    }

    constructor (n: nat, k: nat)
      ensures View() == Init(n, k) && this.n == n && fresh(ring)
    {
      this.n := n;
      ring := new nat[n](_ => 0);
      producerIndex, consumerIndex := 0, 0;
      se, sf, sb := k, 0, 1;
      threads := [];
      stores, loads, loaders, unread, overwrites := [], [], [], seq(n, _ => false), 0;
    }

    /** `pthread_create` with `produce` or `consume`. */
    method Create(producer: bool)
      modifies this
      ensures View() == Apply(old(View()), n, if producer then SpawnProducer else SpawnConsumer)
    {
      threads := threads + [if producer then Producer(START) else Consumer(START, 0)];
    }

    method Advance(t: nat) returns (moved: bool)
      requires InBounds(View(), n, t)
      modifies this, ring
      ensures moved == Enabled(old(View()), t)
      ensures View() == Apply(old(View()), n, Step(t))
    {
      if t >= |threads| || threads[t].at == END {
        return false;
      }
      if threads[t].Producer? {
        moved := AdvanceProduce(t);
      } else {
        moved := AdvanceConsume(t);
      }
    }

    method AdvanceProduce(t: nat) returns (moved: bool)
      requires InBounds(View(), n, t) && t < |threads| && threads[t].Producer? && threads[t].at != END
      modifies this, ring
      ensures moved == Enabled(old(View()), t)
      ensures View() == Apply(old(View()), n, Step(t))
    {
      var at := threads[t].at;
      if at == START {
        if se == 0 || sb == 0 {
          return false;
        }
        se, sb := se - 1, sb - 1;
      } else if at == ACCESS {
        overwrites := overwrites + if unread[producerIndex] then 1 else 0;
        ring[producerIndex] := (97 + producerIndex) % 256;
        stores, unread := stores + [ring[producerIndex]], unread[producerIndex := true];
      } else if at == ADVANCE {
        producerIndex := producerIndex + 1;
      } else if at == WRAP {
        if producerIndex >= n {
          producerIndex := 0;
        }
      } else {
        sb, sf := sb + 1, sf + 1;
      }
      threads := threads[t := Producer(at + 1)];
      moved := true;
    }

    method AdvanceConsume(t: nat) returns (moved: bool)
      requires InBounds(View(), n, t) && t < |threads| && threads[t].Consumer? && threads[t].at != END
      modifies this
      ensures moved == Enabled(old(View()), t)
      ensures View() == Apply(old(View()), n, Step(t))
    {
      var at, got := threads[t].at, threads[t].got;
      if at == START {
        if sf == 0 || sb == 0 {
          return false;
        }
        sf, sb := sf - 1, sb - 1;
      } else if at == ACCESS {
        got := ring[consumerIndex];
        loads, loaders, unread := loads + [got], loaders + [t], unread[consumerIndex := false];
      } else if at == ADVANCE {
        consumerIndex := consumerIndex + 1;
      } else if at == WRAP {
        if consumerIndex >= n {
          consumerIndex := 0;
        }
      } else {
        sb, se := sb + 1, se + 1;
      }
      threads := threads[t := Consumer(at + 1, got)];
      moved := true;
    }

    /** A whole run, from the start of the server. */
    method Serve(k: nat, events: seq<Event>)
      requires n > 0 && View() == Init(n, k)
      modifies this, ring
      ensures View() == Run(n, k, events)
    {
      for i := 0 to |events|
        invariant View() == Run(n, k, events[..i])
      {
        assert events[..i + 1][..i] == events[..i];
        match events[i] {
          case SpawnProducer => Create(true);
          case SpawnConsumer => Create(false);
          case Step(t) =>
            InvInBounds(View(), n, k, t);
            var moved := Advance(t);
        }
      }
      assert events[..|events|] == events;
    }
  }
}
