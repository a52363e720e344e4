/** What holds of every run of the thread-per-request server, whatever the
    scheduler does: exclusion and conservation, delivery, the final outcome, when
    unread letters can be overwritten, and that every run comes to rest. */
module RingOutcomes {
  import opened Cycles
  import opened RingServer

  /** The threads between their two `semop` calls. */
  function Inside(ts: seq<Thread>): set<nat> {
    set t: nat | t < |ts| && START < ts[t].at < END
  }

  lemma InsideCounts(ts: seq<Thread>)
    ensures |Inside(ts)| + Count(ts, true, 5) + Count(ts, false, 5) == Count(ts, true, 1) + Count(ts, false, 1)
  {
    var p1, c1 := Past(ts, true, 1), Past(ts, false, 1);
    var p5, c5 := Past(ts, true, 5), Past(ts, false, 5);
    assert p1 + c1 == Inside(ts) + (p5 + c5);
    assert p1 !! c1 && p5 !! c5 && Inside(ts) !! p5 + c5;
  }

  /** In every run at most one thread is at the buffer, and every unit of SE is
      free, filled, or held by the thread at the buffer. */
  lemma SemaphoresConserved(n: nat, k: nat, events: seq<Event>)
    requires n > 0
    ensures var s := Run(n, k, events);
            s.sb + |Inside(s.threads)| == 1 && s.se + s.sf + |Inside(s.threads)| == k
  {
    InsideCounts(Run(n, k, events).threads);
  }

  function Members(s: seq<nat>): set<nat> { set t | t in s }

  predicate Distinct(s: seq<nat>) {
    forall i, j :: 0 <= i < j < |s| ==> s[i] != s[j]
  }

  lemma {:induction false} DistinctSize(s: seq<nat>)
    requires Distinct(s)
    ensures |Members(s)| == |s|
  {
    if s != [] {
      var n := |s| - 1;
      DistinctSize(s[..n]);
      assert s[n] !in Members(s[..n]);
      assert s == s[..n] + [s[n]];
      assert Members(s) == Members(s[..n]) + {s[n]};
    }
  }

  lemma SameSizeSubset(a: set<nat>, b: set<nat>)
    requires a <= b && |a| == |b|
    ensures a == b
  {
    assert b == a + (b - a);
  }

  /** Thread t did one of the loads, and holds the letter of the produce with the
      same number. */
  predicate HoldsItsLetter(s: State, n: nat, t: nat)
    requires n > 0 && t < |s.threads|
  {
    s.threads[t].Consumer?
    && exists i :: 0 <= i < |s.loaders| && s.loaders[i] == t && s.threads[t].got == (97 + i % n) % 256
  }

  /** In every run every consumer that is past its load holds a letter, no two of
      them that of the same produce, and no letter read is held by nobody: the loads
      are a bijection from the first produces to these consumers. */
  lemma EachLetterDeliveredOnce(n: nat, k: nat, events: seq<Event>)
    requires n > 0
    ensures var s := Run(n, k, events);
            && Distinct(s.loaders) && |s.loaders| == |s.loads| <= |s.stores|
            && Members(s.loaders) == Past(s.threads, false, ACCESS + 1)
            && forall t :: t in Members(s.loaders) ==> HoldsItsLetter(s, n, t)
  {
    var s := Run(n, k, events);
    DistinctSize(s.loaders);
    forall i | 0 <= i < |s.loaders|
      ensures s.loaders[i] in Past(s.threads, false, ACCESS + 1) && HoldsItsLetter(s, n, s.loaders[i])
    {
      assert IsLoader(s, i);
      LoadsAreStores(n, k, events, i);
    }
    SameSizeSubset(Members(s.loaders), Past(s.threads, false, ACCESS + 1));
  }

  /** No thread can move. */
  predicate Quiescent(s: State) {
    forall t: nat :: t < |s.threads| ==> !Enabled(s, t)
  }

  lemma QuiescentCounts(s: State, n: nat, k: nat)
    requires n > 0 && Inv(s, n, k) && Quiescent(s)
    ensures s.sb == 1
    ensures Count(s.threads, true, 1) == Count(s.threads, true, 5)
    ensures Count(s.threads, false, 1) == Count(s.threads, false, 5)
    ensures Count(s.threads, true, 5) < Count(s.threads, true, 0) ==> s.se == 0
    ensures Count(s.threads, false, 5) < Count(s.threads, false, 0) ==> s.sf == 0
  {
    CountsFall(s.threads, true);
    CountsFall(s.threads, false);
    InsideCounts(s.threads);
    assert forall t :: t in Inside(s.threads) ==> Enabled(s, t);
    assert Inside(s.threads) == {};
    Waiting(s, true);
    Waiting(s, false);
  }

  /** A thread that has not started waits for its own semaphore once SB is free. */
  lemma Waiting(s: State, producer: bool)
    requires Quiescent(s) && s.sb > 0
    ensures Count(s.threads, producer, 1) < Count(s.threads, producer, 0) ==> (if producer then s.se else s.sf) == 0
  {
    var waiting := Past(s.threads, producer, 0) - Past(s.threads, producer, 1);
    if t :| t in waiting {
      assert !Enabled(s, t);
    } else {
      assert forall t :: t in Past(s.threads, producer, 0) ==> t !in waiting;
      SmallerSet(Past(s.threads, producer, 0), Past(s.threads, producer, 1));
    }
  }

  /** With SE at 0 no thread ever starts. */
  lemma {:induction false} NothingStarts(n: nat, events: seq<Event>)
    requires n > 0
    ensures Count(Run(n, 0, events).threads, true, 1) == 0
  {
    if events != [] {
      var before, e := Run(n, 0, events[..|events| - 1]), events[|events| - 1];
      NothingStarts(n, events[..|events| - 1]);
      CountsFall(before.threads, true);
      CountsFall(before.threads, false);
      if e.Step? {
        InvInBounds(before, n, 0, e.t);
        if Enabled(before, e.t) {
          NextCounts(before, n, e.t, true, 1);
        }
      } else {
        CountAppend(before.threads, if e.SpawnProducer? then Producer(START) else Consumer(START, 0), true, 1);
      }
    }
  }

  function Min(a: int, b: int): int { if a <= b then a else b }

  /** However the threads are scheduled, a run of p producers and c consumers in
      which no thread can move any more has completed min(p, k + c) producers and
      min(c, p) consumers, exactly when SE starts above 0 or one role is absent. */
  lemma FinalOutcome(n: nat, k: nat, events: seq<Event>)
    requires n > 0 && Quiescent(Run(n, k, events))
    ensures var ts := Run(n, k, events).threads;
            var p, c := Count(ts, true, START), Count(ts, false, START);
            Outcome(k, p, c, Count(ts, true, END), Count(ts, false, END))
  {
    var s := Run(n, k, events);
    if k == 0 {
      NothingStarts(n, events);
    }
    CountFalls(s.threads, true, 0);
    CountFalls(s.threads, false, 0);
    QuiescentOutcome(s, n, k);
  }

  lemma QuiescentOutcome(s: State, n: nat, k: nat)
    requires n > 0 && Inv(s, n, k) && Quiescent(s)
    requires k == 0 ==> Count(s.threads, true, 1) == 0
    ensures Outcome(k, Count(s.threads, true, 0), Count(s.threads, false, 0),
                    Count(s.threads, true, 5), Count(s.threads, false, 5))
  {
    QuiescentCounts(s, n, k);
    CountFalls(s.threads, true, 0);
    CountFalls(s.threads, false, 0);
    SettledOutcome(k, Count(s.threads, true, 0), Count(s.threads, false, 0),
                   Count(s.threads, true, 5), Count(s.threads, false, 5), s.se, s.sf);
  }

  /** p and c threads were created, dp and dc of them have ended. */
  predicate Outcome(k: nat, p: nat, c: nat, dp: nat, dc: nat) {
    && (dp == Min(p, k + c) && dc == Min(c, p) <==> k > 0 || p == 0 || c == 0)
    && (k == 0 ==> dp == 0 && dc == 0)
  }

  lemma SettledOutcome(k: nat, p: nat, c: nat, dp: nat, dc: nat, se: nat, sf: nat)
    requires se + dp == k + dc && sf + dc == dp && dp <= p && dc <= c
    requires dp < p ==> se == 0
    requires dc < c ==> sf == 0
    requires k == 0 ==> dp == 0
    ensures Outcome(k, p, c, dp, dc)
  {
  }

  /** The producer t and the consumer u have not started. */
  predicate BothWait(s: State, t: nat, u: nat) {
    && t < |s.threads| && s.threads[t] == Producer(START)
    && u < |s.threads| && s.threads[u].Consumer? && s.threads[u].at == START
  }

  /** A waiting producer and a waiting consumer are never both stuck. */
  lemma SomeoneCanMove(n: nat, k: nat, events: seq<Event>, t: nat, u: nat)
    requires n > 0 && k > 0
    requires BothWait(Run(n, k, events), t, u)
    ensures exists v: nat :: Enabled(Run(n, k, events), v)
  {
    QuiescentNotStuck(Run(n, k, events), n, k, t, u);
  }

  lemma QuiescentNotStuck(s: State, n: nat, k: nat, t: nat, u: nat)
    requires n > 0 && k > 0 && Inv(s, n, k)
    requires BothWait(s, t, u)
    ensures exists v: nat :: Enabled(s, v)
  {
    if Quiescent(s) {
      QuiescentCounts(s, n, k);
      CountThread(s.threads, t);
      CountThread(s.threads, u);
    } else {
      var v: nat :| v < |s.threads| && Enabled(s, v);
    }
  }

  // --------------------------------------------------------- overwritten slots

  /** Every unread slot belongs to a letter stored and not yet loaded. */
  predicate UnreadPending(s: State, n: nat)
    requires n > 0
  {
    && |s.unread| == n
    && s.overwrites == 0
    && forall j :: 0 <= j < n && s.unread[j] ==> Pending(s, n, j)
  }

  predicate Pending(s: State, n: nat, j: nat)
    requires n > 0
  {
    exists i :: |s.loads| <= i < |s.stores| && Slot(i, n) == j
  }

  lemma PendingKept(s: State, s': State, n: nat, j: nat)
    requires n > 0 && Pending(s, n, j) && |s.loads| <= |s'.loads| <= |s.loads| + 1 && |s.stores| <= |s'.stores|
    requires |s'.loads| > |s.loads| ==> Slot(|s.loads|, n) != j
    ensures Pending(s', n, j)
  {
    var i :| |s.loads| <= i < |s.stores| && Slot(i, n) == j;
    assert |s'.loads| <= i < |s'.stores|;
  }

  lemma NotPendingNext(s: State, n: nat)
    requires n > 0 && |s.loads| <= |s.stores| < |s.loads| + n
    ensures !Pending(s, n, Slot(|s.stores|, n))
  {
    if i :| |s.loads| <= i < |s.stores| && Slot(i, n) == Slot(|s.stores|, n) {
      SlotPlus(i, |s.stores| - i, n);
    }
  }

  /** With k <= n a producer at its store finds a slot that was read. */
  lemma RoomAtStore(s: State, n: nat, k: nat, t: nat)
    requires n > 0 && k <= n && Inv(s, n, k) && t < |s.threads| && s.threads[t] == Producer(ACCESS)
    ensures |s.stores| < |s.loads| + n
  {
    CountThread(s.threads, t);
    CountsFall(s.threads, true);
    CountsFall(s.threads, false);
  }

  lemma NextKeepsUnread(s: State, n: nat, k: nat, t: nat)
    requires n > 0 && k <= n && Inv(s, n, k) && Enabled(s, t) && InBounds(s, n, t) && UnreadPending(s, n)
    ensures UnreadPending(Next(s, n, t), n)
  {
    hide Conserved, Delivered;
    var s' := Next(s, n, t);
    var atAccess := s.threads[t].at == ACCESS;
    if atAccess {
      AtAccess(s, n, k, t);
      if s.threads[t].Producer? {
        RoomAtStore(s, n, k, t);
        NotPendingNext(s, n);
        assert |s.loads| <= |s.stores| < |s'.stores|;
        assert Pending(s', n, s.producerIndex);
      }
    }
    forall j | 0 <= j < n && s'.unread[j]
      ensures Pending(s', n, j)
    {
      if !(atAccess && s.threads[t].Producer? && j == s.producerIndex) {
        PendingKept(s, s', n, j);
      }
    }
  }

  lemma {:induction false} NoOverwrite(n: nat, k: nat, events: seq<Event>)
    requires n > 0 && k <= n
    ensures UnreadPending(Run(n, k, events), n)
  {
    if events != [] {
      var before, e := Run(n, k, events[..|events| - 1]), events[|events| - 1];
      NoOverwrite(n, k, events[..|events| - 1]);
      if e.Step? {
        InvInBounds(before, n, k, e.t);
        if Enabled(before, e.t) {
          NextKeepsUnread(before, n, k, e.t);
        }
      } else {
        forall j | 0 <= j < n && before.unread[j]
          ensures Pending(Run(n, k, events), n, j)
        {
          PendingKept(before, Run(n, k, events), n, j);
        }
      }
    }
  }

  lemma RunAppend(n: nat, k: nat, events: seq<Event>, e: Event)
    requires n > 0
    ensures e.Step? ==> InBounds(Run(n, k, events), n, e.t)
    ensures Run(n, k, events + [e]) == Apply(Run(n, k, events), n, e)
  {
    ApplyKeepsInv(Run(n, k, events), n, k, e);
    assert (events + [e])[..|events|] == events;
  }

  /** A move of the producer t that stands at `at`. */
  function Moved(s: State, n: nat, t: nat, at: Point): State
    requires at < END && t < |s.threads|
    requires at == START ==> s.se > 0 && s.sb > 0
    requires at == ACCESS ==> s.producerIndex < |s.ring| == |s.unread|
  {
    NextProducer(s, n, at).(threads := s.threads[t := Producer(at + 1)])
  }

  lemma ProducerMoves(n: nat, k: nat, events: seq<Event>, s: State, t: nat, at: Point)
    requires n > 0 && at < END && s == Run(n, k, events)
    requires Enabled(s, t) && s.threads[t] == Producer(at)
    ensures at == ACCESS ==> s.producerIndex < |s.ring| == |s.unread|
    ensures Run(n, k, events + [Step(t)]) == Moved(s, n, t, at)
  {
    RunAppend(n, k, events, Step(t));
  }

  /** One producer that runs alone from its creation to its end. */
  function Alone(t: nat): seq<Event> { [SpawnProducer, Step(t), Step(t), Step(t), Step(t), Step(t)] }

  function Entered(s: State): State
    requires s.se > 0 && s.sb > 0
  {
    s.(se := s.se - 1, sb := s.sb - 1, threads := s.threads + [Producer(ACCESS)])
  }

  lemma AloneEnters(n: nat, k: nat, events: seq<Event>, s: State)
    requires n > 0 && s == Run(n, k, events) && s.sb > 0 && s.se > 0
    ensures Run(n, k, events + [SpawnProducer] + [Step(|s.threads|)]) == Entered(s)
  {
    hide Run, Inv;
    var t := |s.threads|;
    RunAppend(n, k, events, SpawnProducer);
    var s' := Apply(s, n, SpawnProducer);
    ProducerMoves(n, k, events + [SpawnProducer], s', t, START);
    assert s'.threads[t := Producer(ACCESS)] == s.threads + [Producer(ACCESS)];
  }

  function Left(s: State, n: nat, t: nat): State
    requires t < |s.threads| && s.producerIndex < |s.ring| == |s.unread|
  {
    Moved(Moved(Moved(Moved(s, n, t, ACCESS), n, t, ADVANCE), n, t, WRAP), n, t, STOP)
  }

  lemma AloneLeaves(n: nat, k: nat, events: seq<Event>, s: State, t: nat)
    requires n > 0 && s == Run(n, k, events) && t < |s.threads| && s.threads[t] == Producer(ACCESS)
    ensures s.producerIndex < |s.ring| == |s.unread|
    ensures Run(n, k, events + [Step(t)] + [Step(t)] + [Step(t)] + [Step(t)])
         == Left(s, n, t)
  {
    ProducerMoves(n, k, events, s, t, ACCESS);
    var s2 := Moved(s, n, t, ACCESS);
    ProducerMoves(n, k, events + [Step(t)], s2, t, ADVANCE);
    var s3 := Moved(s2, n, t, ADVANCE);
    ProducerMoves(n, k, events + [Step(t)] + [Step(t)], s3, t, WRAP);
    var s4 := Moved(s3, n, t, WRAP);
    ProducerMoves(n, k, events + [Step(t)] + [Step(t)] + [Step(t)], s4, t, STOP);
  }

  /** What one producer that runs alone does to the shared memory. */
  predicate Produced(s: State, s': State, n: nat) {
    && s.producerIndex < |s.unread|
    && |s'.threads| == |s.threads| + 1 && s'.sb == s.sb && s'.se + 1 == s.se
    && s'.producerIndex == (if s.producerIndex + 1 >= n then 0 else s.producerIndex + 1)
    && s'.unread == s.unread[s.producerIndex := true]
    && s'.overwrites == s.overwrites + if s.unread[s.producerIndex] then 1 else 0
  }

  lemma LeftProduced(s: State, n: nat)
    requires s.sb > 0 && s.se > 0 && s.producerIndex < |s.ring| == |s.unread|
    ensures Produced(s, Left(Entered(s), n, |s.threads|), n)
  {
  }

  lemma AloneProduces(n: nat, k: nat, events: seq<Event>, s: State)
    requires n > 0 && s == Run(n, k, events) && s.sb > 0 && s.se > 0
    ensures Produced(s, Run(n, k, events + Alone(|s.threads|)), n)
  {
    var t := |s.threads|;
    var entered := events + [SpawnProducer] + [Step(t)];
    AloneEnters(n, k, events, s);
    AloneLeaves(n, k, entered, Entered(s), t);
    AloneParts(events, t);
    LeftProduced(s, n);
  }

  lemma AloneParts(events: seq<Event>, t: nat)
    ensures events + Alone(t) == events + [SpawnProducer] + [Step(t)] + [Step(t)] + [Step(t)] + [Step(t)] + [Step(t)]
  {
  }

  /** m producers, one after the other. */
  function Fill(m: nat): seq<Event> {
    if m == 0 then [] else Fill(m - 1) + Alone(m - 1)
  }

  predicate Filled(s: State, n: nat, k: nat, m: nat)
    requires n > 0
  {
    && |s.unread| == n && |s.threads| == m && s.sb == 1 && s.se + m == k && s.producerIndex == Slot(m, n)
    && (forall j :: 0 <= j < n && j < m ==> s.unread[j])
    && (m > n ==> s.overwrites > 0)
  }

  lemma ProducedFills(s: State, s': State, n: nat, k: nat, m: nat)
    requires n > 0 && Filled(s, n, k, m) && Produced(s, s', n)
    ensures Filled(s', n, k, m + 1)
  {
  }

  predicate RunFills(n: nat, k: nat, m: nat)
    requires n > 0
  {
    Filled(Run(n, k, Fill(m)), n, k, m)
  }

  lemma FillMore(n: nat, k: nat, m: nat)
    requires n > 0 && m < k && RunFills(n, k, m)
    ensures RunFills(n, k, m + 1)
  {
    hide Run, Inv, Produced, Next;
    var s := Run(n, k, Fill(m));
    AloneProduces(n, k, Fill(m), s);
    ProducedFills(s, Run(n, k, Fill(m) + Alone(m)), n, k, m);
    assert Fill(m + 1) == Fill(m) + Alone(m);
  }

  lemma NothingFilled(n: nat, k: nat)
    requires n > 0
    ensures RunFills(n, k, 0)
  {
    hide Inv;
    assert Fill(0) == [];
    assert Run(n, k, []) == Init(n, k);
  }

  lemma {:induction false} FillFills(n: nat, k: nat, m: nat)
    requires n > 0 && m <= k
    ensures RunFills(n, k, m)
  {
    hide RunFills;
    if m == 0 {
      NothingFilled(n, k);
    } else {
      FillFills(n, k, m - 1);
      FillMore(n, k, m - 1);
    }
  }

  /** Unread letters are never overwritten, in any run, exactly when SE starts no
      higher than the ring size: the server's 4096 for 26 slots does not qualify. */
  lemma OverwriteFreeIff(n: nat, k: nat)
    requires n > 0
    ensures k <= n <==> forall events :: Run(n, k, events).overwrites == 0
  {
    if k <= n {
      forall events {
        NoOverwrite(n, k, events);
      }
    } else {
      FillFills(n, k, n + 1);
      assert Run(n, k, Fill(n + 1)).overwrites > 0;
    }
  }

  // -------------------------------------------------------------- termination

  function Moves(n: nat, k: nat, events: seq<Event>): nat
    requires n > 0
  {
    if events == [] then 0
    else
      var e := events[|events| - 1];
      Moves(n, k, events[..|events| - 1])
      + if e.Step? && Enabled(Run(n, k, events[..|events| - 1]), e.t) then 1 else 0
  }

  function Work(ts: seq<Thread>, producer: bool): nat {
    Count(ts, producer, 1) + Count(ts, producer, 2) + Count(ts, producer, 3) + Count(ts, producer, 4)
    + Count(ts, producer, 5)
  }

  lemma NextWorks(s: State, n: nat, t: nat)
    requires Enabled(s, t) && InBounds(s, n, t)
    ensures var ts := Next(s, n, t).threads;
            Work(ts, true) + Work(ts, false) == Work(s.threads, true) + Work(s.threads, false) + 1
  {
    forall producer, q {
      NextCounts(s, n, t, producer, q);
    }
  }

  lemma SpawnWorksNot(ts: seq<Thread>, th: Thread)
    requires th.at == START
    ensures Work(ts + [th], true) + Work(ts + [th], false) == Work(ts, true) + Work(ts, false)
  {
    forall producer, q {
      CountAppend(ts, th, producer, q);
    }
  }

  lemma {:induction false} MovesAreWork(n: nat, k: nat, events: seq<Event>)
    requires n > 0
    ensures var ts := Run(n, k, events).threads; Moves(n, k, events) == Work(ts, true) + Work(ts, false)
  {
    if events != [] {
      var before, e := Run(n, k, events[..|events| - 1]), events[|events| - 1];
      MovesAreWork(n, k, events[..|events| - 1]);
      if e.Step? {
        InvInBounds(before, n, k, e.t);
        if Enabled(before, e.t) {
          NextWorks(before, n, e.t);
        }
      } else {
        SpawnWorksNot(before.threads, if e.SpawnProducer? then Producer(START) else Consumer(START, 0));
      }
    }
  }

  function Below(n: nat): (r: set<nat>)
    ensures |r| == n && forall t: nat :: t in r <==> t < n
  {
    if n == 0 then {} else Below(n - 1) + {n - 1}
  }

  /** No schedule goes on forever: the moves of a run are at most five for each
      thread, so every run comes to rest once threads stop arriving. */
  lemma MovesAreBounded(n: nat, k: nat, events: seq<Event>)
    requires n > 0
    ensures Moves(n, k, events) <= 5 * |Run(n, k, events).threads|
  {
    var ts := Run(n, k, events).threads;
    MovesAreWork(n, k, events);
    WorkBound(ts, true);
    WorkBound(ts, false);
    EveryThreadCounted(ts);
  }

  lemma EveryThreadCounted(ts: seq<Thread>)
    ensures Count(ts, true, 0) + Count(ts, false, 0) == |ts|
  {
    assert Past(ts, true, 0) + Past(ts, false, 0) == Below(|ts|);
    assert Past(ts, true, 0) !! Past(ts, false, 0);
  }

  lemma WorkBound(ts: seq<Thread>, producer: bool)
    ensures Work(ts, producer) <= 5 * Count(ts, producer, 0)
  {
    CountsFall(ts, producer);
  }
}
