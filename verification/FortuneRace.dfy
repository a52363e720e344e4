/** `fortune_write` of lab_04/lkm-3 called by any number of writers at once: the
    module has no lock, so the check of the room, the copy, the two halves of
    `write_index += len + 1` and the store of the terminator are separate steps, and
    any other writer may run between them.  The question is whether every store
    stays inside the pot. */
module FortuneRace {

  /** `write_index` is 32 bits wide, and so is the difference to the pot's size. */
  const WORD: int := 0x1_0000_0000

  /** The next statement of a writer, in program order. */
  datatype Phase = Check | Copy | Load | Store(loaded: nat) | Terminate | Done

  datatype Writer = Writer(len: nat, phase: Phase)

  /** `inside` says that every store so far was to a place of the pot. */
  datatype State = State(writeIndex: nat, writers: seq<Writer>, inside: bool)

  /** The writer to move; its copy from user space may fail. */
  datatype Event = Move(t: nat, faulted: bool)

  function Init(used: nat, lens: seq<nat>): State {
    State(used, seq(|lens|, i requires 0 <= i < |lens| => Writer(lens[i], Check)), true)
  }

  function Next(s: State, size: nat, e: Event): State {
    if e.t >= |s.writers| then s
    else
      var w := s.writers[e.t];
      match w.phase
      case Check =>
        To(s, e.t, if w.len + 1 > (size - s.writeIndex) % WORD then Done else Copy)
      case Copy =>
        To(s, e.t, if e.faulted && w.len > 0 then Done else Load)
        .(inside := s.inside && (w.len == 0 || s.writeIndex + w.len <= size))
      case Load =>
        To(s, e.t, Store(s.writeIndex))
      case Store(loaded) =>
        To(s, e.t, Terminate).(writeIndex := (loaded + w.len + 1) % WORD)
      case Terminate =>
        To(s, e.t, Done).(inside := s.inside && (s.writeIndex - 1) % WORD < size)
      case Done => s
  }

  function To(s: State, t: nat, phase: Phase): State
    requires t < |s.writers|
  {
    s.(writers := s.writers[t := Writer(s.writers[t].len, phase)])
  }

  /** The writers of the given lengths, on a pot with `used` bytes in it, after they
      have run in the given order. */
  function Run(size: nat, used: nat, lens: seq<nat>, schedule: seq<Event>): State {
    if schedule == [] then Init(used, lens)
    else Next(Run(size, used, lens, schedule[..|schedule| - 1]), size, schedule[|schedule| - 1])
  }

  /** The bytes that a writer would add which fits the given room by itself. */
  function Need(len: nat, room: nat): nat { if len + 1 <= room then len + 1 else 0 }

  function Needs(lens: seq<nat>, room: nat): nat {
    if lens == [] then 0 else Needs(lens[..|lens| - 1], room) + Need(lens[|lens| - 1], room)
  }

  // -------------------------------------------------------- enough room for all

  /** What the writer may still add to the pot. */
  function Pending(w: Writer, room: nat): nat {
    if w.phase.Terminate? || w.phase.Done? then 0 else Need(w.len, room)
  }

  function AllPending(ws: seq<Writer>, room: nat): nat {
    if ws == [] then 0 else AllPending(ws[..|ws| - 1], room) + Pending(ws[|ws| - 1], room)
  }

  lemma {:induction false} PendingMoves(ws: seq<Writer>, t: nat, w: Writer, room: nat)
    requires t < |ws|
    ensures AllPending(ws[t := w], room) + Pending(ws[t], room) == AllPending(ws, room) + Pending(w, room)
    ensures Pending(ws[t], room) <= AllPending(ws, room)
  {
    var n := |ws| - 1;
    if t == n {
      assert ws[t := w][..n] == ws[..n];
    } else {
      assert ws[t := w][..n] == ws[..n][t := w];
      PendingMoves(ws[..n], t, w, room);
    }
  }

  /** A writer past its check fits the room there was at first, and what it has
      loaded leaves room for all that is still pending. */
  predicate Fine(w: Writer, s: State, used: nat, room: nat, bound: nat) {
    && (!w.phase.Check? && !w.phase.Done? ==> w.len + 1 <= room)
    && (w.phase.Store? ==> used <= w.phase.loaded && w.phase.loaded + AllPending(s.writers, room) <= bound)
    && (w.phase.Terminate? ==> s.writeIndex > 0)
  }

  predicate Bounded(s: State, used: nat, size: nat, bound: nat) {
    && used <= s.writeIndex && used <= size && bound <= size < WORD && s.inside
    && s.writeIndex + AllPending(s.writers, size - used) <= bound
  }

  predicate Inv(s: State, used: nat, size: nat, bound: nat) {
    && Bounded(s, used, size, bound)
    && forall t :: 0 <= t < |s.writers| ==> Fine(s.writers[t], s, used, size - used, bound)
  }

  lemma FineKept(w: Writer, s: State, s': State, used: nat, room: nat, bound: nat)
    requires Fine(w, s, used, room, bound) && AllPending(s'.writers, room) <= AllPending(s.writers, room)
    requires s.writeIndex > 0 ==> s'.writeIndex > 0
    ensures Fine(w, s', used, room, bound)
  {
  }

  lemma MoveKeepsBounded(s: State, used: nat, size: nat, bound: nat, e: Event)
    requires Bounded(s, used, size, bound) && e.t < |s.writers|
    requires Fine(s.writers[e.t], s, used, size - used, bound)
    ensures var s' := Next(s, size, e);
            && Bounded(s', used, size, bound) && |s'.writers| == |s.writers|
            && Fine(s'.writers[e.t], s', used, size - used, bound)
            && AllPending(s'.writers, size - used) <= AllPending(s.writers, size - used)
            && (s.writeIndex > 0 ==> s'.writeIndex > 0)
  {
    var s' := Next(s, size, e);
    PendingMoves(s.writers, e.t, s'.writers[e.t], size - used);
    hide AllPending;
  }

  lemma MoveKeepsOthers(s: State, size: nat, e: Event, t: nat)
    requires t < |s.writers| && t != e.t
    ensures var s' := Next(s, size, e); |s'.writers| == |s.writers| && s'.writers[t] == s.writers[t]
  {
  }

  lemma NextKeepsInv(s: State, used: nat, size: nat, bound: nat, e: Event)
    requires Inv(s, used, size, bound)
    ensures Inv(Next(s, size, e), used, size, bound)
  {
    if e.t < |s.writers| {
      MoveKeepsBounded(s, used, size, bound, e);
      var s' := Next(s, size, e);
      hide Next, Bounded, AllPending, Fine;
      forall t | 0 <= t < |s'.writers| && t != e.t
        ensures Fine(s'.writers[t], s', used, size - used, bound)
      {
        MoveKeepsOthers(s, size, e, t);
        FineKept(s.writers[t], s, s', used, size - used, bound);
      }
    }
  }

  lemma {:induction false} InitPending(used: nat, lens: seq<nat>, room: nat)
    ensures AllPending(Init(used, lens).writers, room) == Needs(lens, room)
  {
    if lens != [] {
      var n := |lens| - 1;
      InitPending(used, lens[..n], room);
      assert Init(used, lens).writers[..n] == Init(used, lens[..n]).writers;
    }
  }

  lemma {:induction false} RunKeepsInv(size: nat, used: nat, lens: seq<nat>, schedule: seq<Event>)
    requires used <= size < WORD && used + Needs(lens, size - used) <= size
    ensures Inv(Run(size, used, lens, schedule), used, size, used + Needs(lens, size - used))
  {
    if schedule == [] {
      InitPending(used, lens, size - used);
    } else {
      RunKeepsInv(size, used, lens, schedule[..|schedule| - 1]);
      NextKeepsInv(Run(size, used, lens, schedule[..|schedule| - 1]), used, size,
                   used + Needs(lens, size - used), schedule[|schedule| - 1]);
    }
  }

  // ------------------------------------------------------------ too many writers

  lemma RunAppend(size: nat, used: nat, lens: seq<nat>, schedule: seq<Event>, e: Event)
    ensures Run(size, used, lens, schedule + [e]) == Next(Run(size, used, lens, schedule), size, e)
  {
    assert (schedule + [e])[..|schedule|] == schedule;
  }

  /** The checks of the first m writers. */
  function Checks(m: nat): seq<Event> {
    if m == 0 then [] else Checks(m - 1) + [Move(m - 1, false)]
  }

  function Four(t: nat): seq<Event> { [Move(t, false), Move(t, false), Move(t, false), Move(t, false)] }

  /** Then the rest of each writer, one after the other. */
  function Attack(n: nat, m: nat): seq<Event> {
    if m == 0 then Checks(n) else Attack(n, m - 1) + Four(m - 1)
  }

  predicate Checked(s: State, used: nat, lens: seq<nat>, room: nat, m: nat) {
    && s.writeIndex == used && s.inside && |s.writers| == |lens|
    && forall i :: 0 <= i < |lens| ==>
         s.writers[i] == Writer(lens[i], if i >= m then Check else if lens[i] + 1 <= room then Copy else Done)
  }

  lemma {:induction false} ChecksPass(size: nat, used: nat, lens: seq<nat>, m: nat)
    requires used <= size < WORD && m <= |lens|
    ensures Checked(Run(size, used, lens, Checks(m)), used, lens, size - used, m)
  {
    if m > 0 {
      hide Checked, Next;
      ChecksPass(size, used, lens, m - 1);
      RunAppend(size, used, lens, Checks(m - 1), Move(m - 1, false));
      CheckStep(Run(size, used, lens, Checks(m - 1)), size, used, lens, m - 1);
    }
  }

  lemma CheckStep(s: State, size: nat, used: nat, lens: seq<nat>, m: nat)
    requires used <= size < WORD && m < |lens| && Checked(s, used, lens, size - used, m)
    ensures Checked(Next(s, size, Move(m, false)), used, lens, size - used, m + 1)
  {
  }

  function NextFour(s: State, size: nat, t: nat): State {
    var e := Move(t, false);
    Next(Next(Next(Next(s, size, e), size, e), size, e), size, e)
  }

  lemma RunFour(size: nat, used: nat, lens: seq<nat>, schedule: seq<Event>, t: nat)
    ensures Run(size, used, lens, schedule + Four(t)) == NextFour(Run(size, used, lens, schedule), size, t)
  {
    var e := Move(t, false);
    hide Run, Next;
    RunAppend(size, used, lens, schedule, e);
    RunAppend(size, used, lens, schedule + [e], e);
    RunAppend(size, used, lens, schedule + [e] + [e], e);
    RunAppend(size, used, lens, schedule + [e] + [e] + [e], e);
    assert schedule + Four(t) == schedule + [e] + [e] + [e] + [e];
  }

  /** A writer that passed its check stays inside the pot exactly when there still is
      room for it. */
  lemma WriterGoesOn(s: State, size: nat, t: nat)
    requires 2 * size < WORD && t < |s.writers| && s.writers[t].phase == Copy
    requires s.writeIndex <= size && s.writers[t].len + 1 <= size && s.inside
    ensures var end := s.writeIndex + s.writers[t].len + 1;
            NextFour(s, size, t) == State(end, s.writers[t := Writer(s.writers[t].len, Done)], end <= size)
  {
    var len, e := s.writers[t].len, Move(t, false);
    var s1 := Next(s, size, e);
    assert s1.writers[t] == Writer(len, Load) && s1.writeIndex == s.writeIndex;
    var s2 := Next(s1, size, e);
    assert s2.writers[t] == Writer(len, Store(s.writeIndex));
    var s3 := Next(s2, size, e);
    assert s3.writers[t] == Writer(len, Terminate) && s3.writeIndex == s.writeIndex + len + 1;
  }

  lemma FourKeepOutside(s: State, size: nat, t: nat)
    requires !s.inside
    ensures !NextFour(s, size, t).inside
  {
  }

  lemma FourDone(s: State, size: nat, t: nat)
    requires t < |s.writers| && s.writers[t].phase == Done
    ensures NextFour(s, size, t) == s
  {
  }

  predicate Attacked(s: State, size: nat, used: nat, lens: seq<nat>, m: nat)
    requires used <= size && m <= |lens|
  {
    s.inside ==>
      && s.writeIndex == used + Needs(lens[..m], size - used) <= size && |s.writers| == |lens|
      && forall i :: m <= i < |lens| ==>
           s.writers[i] == Writer(lens[i], if lens[i] + 1 <= size - used then Copy else Done)
  }

  lemma AttackStep(s: State, size: nat, used: nat, lens: seq<nat>, m: nat)
    requires used <= size && 2 * size < WORD && m < |lens| && Attacked(s, size, used, lens, m)
    ensures Attacked(NextFour(s, size, m), size, used, lens, m + 1)
  {
    assert lens[..m + 1][..m] == lens[..m];
    assert Needs(lens[..m + 1], size - used) == Needs(lens[..m], size - used) + Need(lens[m], size - used);
    if !s.inside {
      FourKeepOutside(s, size, m);
    } else if s.writers[m].phase == Done {
      FourDone(s, size, m);
      hide NextFour;
    } else {
      WriterGoesOn(s, size, m);
      hide NextFour;
    }
  }

  lemma AttackStarts(s: State, size: nat, used: nat, lens: seq<nat>)
    requires used <= size && Checked(s, used, lens, size - used, |lens|)
    ensures Attacked(s, size, used, lens, 0)
  {
    assert lens[..0] == [];
  }

  lemma {:induction false} AttackRuns(size: nat, used: nat, lens: seq<nat>, m: nat)
    requires used <= size && 2 * size < WORD && m <= |lens|
    ensures Attacked(Run(size, used, lens, Attack(|lens|, m)), size, used, lens, m)
  {
    hide NextFour, Attacked, Checked, Run, Checks;
    if m == 0 {
      ChecksPass(size, used, lens, |lens|);
      AttackStarts(Run(size, used, lens, Checks(|lens|)), size, used, lens);
    } else {
      AttackRuns(size, used, lens, m - 1);
      RunFour(size, used, lens, Attack(|lens|, m - 1), m - 1);
      AttackStep(Run(size, used, lens, Attack(|lens|, m - 1)), size, used, lens, m - 1);
    }
  }

  // ------------------------------------------------------------------- theorems

  /** The next step of writer t stores to this place: a copy, failing or not, to the
      len places from the write index, and the terminator just before it. */
  predicate StoresAt(s: State, t: nat, place: int) {
    && t < |s.writers|
    && var w := s.writers[t];
       || (w.phase == Copy && s.writeIndex <= place < s.writeIndex + w.len)
       || (w.phase == Terminate && place == if s.writeIndex == 0 then 0xFFFF_FFFF else s.writeIndex - 1)
  }

  ghost predicate StaysInside(s: State, size: nat, t: nat) {
    forall place :: StoresAt(s, t, place) ==> place < size
  }

  lemma NextInside(s: State, size: nat, e: Event)
    requires s.writeIndex < 0x1_0000_0000
    ensures Next(s, size, e).inside <==> s.inside && StaysInside(s, size, e.t)
    ensures Next(s, size, e).writeIndex < 0x1_0000_0000
  {
    if e.t < |s.writers| && s.writers[e.t].phase == Copy && s.writers[e.t].len > 0 {
      assert StoresAt(s, e.t, s.writeIndex + s.writers[e.t].len - 1);
    } else if e.t < |s.writers| && s.writers[e.t].phase == Terminate {
      assert StoresAt(s, e.t, if s.writeIndex == 0 then 0xFFFF_FFFF else s.writeIndex - 1);
    }
  }

  /** A schedule is inside exactly when none of its steps stores at or past the end of
      the pot. */
  lemma {:induction false} InsideMeansNoStoreOutside(size: nat, used: nat, lens: seq<nat>, schedule: seq<Event>)
    requires used < 0x1_0000_0000
    ensures Run(size, used, lens, schedule).writeIndex < 0x1_0000_0000
    ensures Run(size, used, lens, schedule).inside <==>
            forall k :: 0 <= k < |schedule| ==>
              StaysInside(Run(size, used, lens, schedule[..k]), size, schedule[k].t)
  {
    hide StaysInside, Next;
    if schedule != [] {
      var n := |schedule| - 1;
      InsideMeansNoStoreOutside(size, used, lens, schedule[..n]);
      NextInside(Run(size, used, lens, schedule[..n]), size, schedule[n]);
      assert forall k :: 0 <= k < n ==> schedule[..n][..k] == schedule[..k];
      assert Run(size, used, lens, schedule) == Next(Run(size, used, lens, schedule[..n]), size, schedule[n]);
      hide Run;
    }
  }

  /** However the writers interleave, every store stays inside the pot, exactly when
      there is room for all those together that would fit alone. */
  lemma InsideIff(size: nat, used: nat, lens: seq<nat>)
    requires used <= size && 2 * size < 0x1_0000_0000
    ensures (forall schedule :: Run(size, used, lens, schedule).inside)
            <==> used + Needs(lens, size - used) <= size
  {
    if used + Needs(lens, size - used) <= size {
      forall schedule {
        RunKeepsInv(size, used, lens, schedule);
      }
    } else {
      AttackRuns(size, used, lens, |lens|);
      assert lens[..|lens|] == lens;
      assert !Run(size, used, lens, Attack(|lens|, |lens|)).inside;
    }
  }

  /** A writer alone never leaves the pot. */
  lemma OneWriterStaysInside(size: nat, used: nat, len: nat, schedule: seq<Event>)
    requires used <= size && 2 * size < 0x1_0000_0000
    ensures Run(size, used, [len], schedule).inside
  {
    assert [len][..0] == [];
    assert Needs([len], size - used) == Needs([], size - used) + Need(len, size - used);
    InsideIff(size, used, [len]);
  }

  /** Two writers that each fill an empty pot can both pass the check, and the second
      one then stores behind its end. */
  lemma TwoWritersLeave(size: nat, lens: seq<nat>)
    requires 0 < size && 2 * size < 0x1_0000_0000 && lens == [size - 1, size - 1]
    ensures exists schedule :: !Run(size, 0, lens, schedule).inside
  {
    assert lens[..1][..0] == [] && lens[..1] == [size - 1];
    assert Needs([size - 1], size) == Needs([], size) + Need(size - 1, size);
    assert Needs(lens, size) == Needs([size - 1], size) + Need(size - 1, size);
    InsideIff(size, 0, lens);
  }
}
