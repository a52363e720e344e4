/** The reader threads of lab_05/src/2-2t.c, 2-3t.c and 2-2t-det.c: n threads, each
    with its own descriptor of the same file, copy it to the common output one
    character at a time.  `read` and `write` are separate steps, so another thread
    may run between them; any schedule of any file and any n is covered. */
module ReaderThreads {

  datatype Phase = Reading | Writing(c: char) | Done

  /** The offset of a thread's own struct file, and its next step. */
  datatype Reader = Reader(offset: nat, phase: Phase)

  /** A character of the output and the thread that wrote it. */
  datatype Out = Out(t: nat, c: char)

  datatype State = State(readers: seq<Reader>, out: seq<Out>)

  function Init(n: nat): State { State(seq(n, _ => Reader(0, Reading)), []) }

  function Next(s: State, file: seq<char>, t: nat): State {
    if t >= |s.readers| then s
    else
      var r := s.readers[t];
      match r.phase
      case Reading =>
        s.(readers := s.readers[t := if r.offset < |file| then Reader(r.offset + 1, Writing(file[r.offset]))
                                     else r.(phase := Done)])
      case Writing(c) =>
        State(s.readers[t := r.(phase := Reading)], s.out + [Out(t, c)])
      case Done => s
  }

  /** The state after the threads have run in the given order. */
  function Run(n: nat, file: seq<char>, schedule: seq<nat>): State {
    if schedule == [] then Init(n)
    else Next(Run(n, file, schedule[..|schedule| - 1]), file, schedule[|schedule| - 1])
  }

  /** What thread t wrote, in order. */
  function Of(out: seq<Out>, t: nat): (r: seq<char>)
    ensures |r| <= |out|
  {
    if out == [] then []
    else
      var last := out[|out| - 1];
      Of(out[..|out| - 1], t) + if last.t == t then [last.c] else []
  }

  lemma OfAppend(out: seq<Out>, o: Out, t: nat)
    ensures Of(out + [o], t) == Of(out, t) + if o.t == t then [o.c] else []
  {
    assert (out + [o])[..|out|] == out;
  }

  /** A thread has written what it has read, except for the character in hand. */
  predicate Good(r: Reader, file: seq<char>, written: seq<char>) {
    && r.offset <= |file|
    && match r.phase
       case Reading => written == file[..r.offset]
       case Writing(c) => 0 < r.offset && c == file[r.offset - 1] && written == file[..r.offset - 1]
       case Done => written == file
  }

  ghost predicate Inv(s: State, n: nat, file: seq<char>) {
    && |s.readers| == n
    && (forall i :: 0 <= i < |s.out| ==> s.out[i].t < n)
    && forall t :: 0 <= t < n ==> Good(s.readers[t], file, Of(s.out, t))
  }

  lemma NextKeepsInv(s: State, n: nat, file: seq<char>, t: nat)
    requires Inv(s, n, file)
    ensures Inv(Next(s, file, t), n, file)
  {
    if t < n {
      var s', r := Next(s, file, t), s.readers[t];
      assert Good(r, file, Of(s.out, t));
      forall u | 0 <= u < n
        ensures Good(s'.readers[u], file, Of(s'.out, u))
      {
        if r.phase.Writing? {
          OfAppend(s.out, Out(t, r.phase.c), u);
        }
      }
    }
  }

  lemma {:induction false} RunKeepsInv(n: nat, file: seq<char>, schedule: seq<nat>)
    ensures Inv(Run(n, file, schedule), n, file)
  {
    if schedule != [] {
      RunKeepsInv(n, file, schedule[..|schedule| - 1]);
      NextKeepsInv(Run(n, file, schedule[..|schedule| - 1]), n, file, schedule[|schedule| - 1]);
    }
  }

  // ------------------------------------------------------------- all outputs

  /** Every character comes from one of the n threads, and what each thread wrote is
      a beginning of the file. */
  predicate Beginnings(w: seq<Out>, n: nat, file: seq<char>) {
    && (forall i :: 0 <= i < |w| ==> w[i].t < n)
    && forall t :: 0 <= t < n ==> Of(w, t) <= file
  }

  /** n copies of the file, shuffled. */
  predicate Shuffle(w: seq<Out>, n: nat, file: seq<char>) {
    && (forall i :: 0 <= i < |w| ==> w[i].t < n)
    && forall t :: 0 <= t < n ==> Of(w, t) == file
  }

  lemma RunIsBeginnings(n: nat, file: seq<char>, schedule: seq<nat>)
    ensures var s := Run(n, file, schedule);
            && |s.readers| == n
            && Beginnings(s.out, n, file)
            && forall t :: 0 <= t < n && s.readers[t].phase == Done ==> Of(s.out, t) == file
  {
    RunKeepsInv(n, file, schedule);
    var s := Run(n, file, schedule);
    forall t | 0 <= t < n
      ensures Of(s.out, t) <= file && (s.readers[t].phase == Done ==> Of(s.out, t) == file)
    {
      assert Good(s.readers[t], file, Of(s.out, t));
    }
  }

  /** A schedule under which the threads write w. */
  function Replay(w: seq<Out>): seq<nat> {
    if w == [] then []
    else
      var t := w[|w| - 1].t;
      Replay(w[..|w| - 1]) + [t] + [t]
  }

  lemma RunAppend(n: nat, file: seq<char>, schedule: seq<nat>, t: nat)
    ensures Run(n, file, schedule + [t]) == Next(Run(n, file, schedule), file, t)
  {
    assert (schedule + [t])[..|schedule|] == schedule;
  }

  predicate Replayed(s: State, w: seq<Out>, n: nat) {
    && |s.readers| == n
    && s.out == w
    && forall t :: 0 <= t < n ==> s.readers[t] == Reader(|Of(w, t)|, Reading)
  }

  lemma ReplayStep(s: State, w: seq<Out>, n: nat, file: seq<char>, o: Out)
    requires Replayed(s, w, n) && o.t < n && |Of(w, o.t)| < |file| && o.c == file[|Of(w, o.t)|]
    ensures Replayed(Next(Next(s, file, o.t), file, o.t), w + [o], n)
  {
    forall t | 0 <= t < n {
      OfAppend(w, o, t);
    }
  }

  lemma {:induction false} ReplayRuns(n: nat, file: seq<char>, w: seq<Out>)
    requires Beginnings(w, n, file)
    ensures Replayed(Run(n, file, Replay(w)), w, n)
  {
    if w != [] {
      var w', o := w[..|w| - 1], w[|w| - 1];
      assert w == w' + [o];
      forall t | 0 <= t < n
        ensures Of(w', t) <= file
      {
        OfAppend(w', o, t);
        assert Of(w, t) <= file;
      }
      ReplayRuns(n, file, w');
      OfAppend(w', o, o.t);
      assert Of(w, o.t) <= file;
      ReplayStep(Run(n, file, Replay(w')), w', n, file, o);
      RunAppend(n, file, Replay(w'), o.t);
      RunAppend(n, file, Replay(w') + [o.t], o.t);
    }
  }

  /** The final read of threads 0..m. */
  function Finish(m: nat): seq<nat> {
    if m == 0 then [] else Finish(m - 1) + [m - 1]
  }

  predicate Finished(s: State, w: seq<Out>, n: nat, size: nat, m: nat) {
    && |s.readers| == n && s.out == w
    && forall t :: 0 <= t < n ==> s.readers[t] == Reader(size, if t < m then Done else Reading)
  }

  lemma {:induction false} FinishRuns(n: nat, file: seq<char>, w: seq<Out>, m: nat)
    requires Shuffle(w, n, file) && m <= n
    ensures Finished(Run(n, file, Replay(w) + Finish(m)), w, n, |file|, m)
  {
    if m == 0 {
      assert Replay(w) + Finish(0) == Replay(w);
      ReplayRuns(n, file, w);
    } else {
      FinishRuns(n, file, w, m - 1);
      assert Replay(w) + Finish(m) == Replay(w) + Finish(m - 1) + [m - 1];
      RunAppend(n, file, Replay(w) + Finish(m - 1), m - 1);
    }
  }

  predicate AllDone(s: State) {
    forall t :: 0 <= t < |s.readers| ==> s.readers[t].phase == Done
  }

  /** With all threads joined, the possible outputs are exactly the shuffles of n
      copies of the file. */
  lemma JoinedOutputs(n: nat, file: seq<char>, w: seq<Out>)
    ensures (exists schedule :: Run(n, file, schedule).out == w && AllDone(Run(n, file, schedule)))
            <==> Shuffle(w, n, file)
  {
    if Shuffle(w, n, file) {
      FinishRuns(n, file, w, n);
      assert AllDone(Run(n, file, Replay(w) + Finish(n)));
    }
    if schedule :| Run(n, file, schedule).out == w && AllDone(Run(n, file, schedule)) {
      RunIsBeginnings(n, file, schedule);
    }
  }

  /** With a process that may exit as soon as thread `main` is done, and takes the
      detached threads with it, the possible outputs are exactly those where `main`
      wrote the whole file and every other thread a beginning of it. */
  lemma DetachedOutputs(n: nat, file: seq<char>, w: seq<Out>, main: nat)
    requires main < n
    ensures (exists schedule :: Ends(n, file, schedule, main, w))
            <==> Beginnings(w, n, file) && Of(w, main) == file
  {
    if Beginnings(w, n, file) && Of(w, main) == file {
      ReplayRuns(n, file, w);
      RunAppend(n, file, Replay(w), main);
      assert Ends(n, file, Replay(w) + [main], main, w);
    }
    if schedule :| Ends(n, file, schedule, main, w) {
      RunIsBeginnings(n, file, schedule);
    }
  }

  predicate Ends(n: nat, file: seq<char>, schedule: seq<nat>, main: nat, w: seq<Out>) {
    var s := Run(n, file, schedule);
    s.out == w && main < |s.readers| && s.readers[main].phase == Done
  }

  function Letters(w: seq<Out>): seq<char> {
    if w == [] then [] else Letters(w[..|w| - 1]) + [w[|w| - 1].c]
  }

  /** With two joined threads every character of the file is printed twice. */
  lemma EachCharacterTwice(file: seq<char>, w: seq<Out>)
    requires Shuffle(w, 2, file)
    ensures multiset(Letters(w)) == multiset(file) + multiset(file)
  {
    TwoThreads(w);
    assert Of(w, 0) == file && Of(w, 1) == file;
  }

  lemma {:induction false} TwoThreads(w: seq<Out>)
    requires forall i :: 0 <= i < |w| ==> w[i].t < 2
    ensures multiset(Letters(w)) == multiset(Of(w, 0)) + multiset(Of(w, 1))
  {
    if w != [] {
      TwoThreads(w[..|w| - 1]);
      assert w[|w| - 1].t < 2;
    }
  }

  // -------------------------------------------------------------- the process

  /** The descriptors and the output of the process; `Step` is one system call of
      one thread, with the loop condition that follows it. */
  class Process {
    const file: seq<char>
    var readers: seq<Reader>
    var out: seq<Out>

    ghost function View(): State
      reads this
    {
      State(readers, out)
    }

    constructor (file: seq<char>, n: nat)
      ensures View() == Init(n) && this.file == file
    {
      this.file, readers, out := file, seq(n, _ => Reader(0, Reading)), [];
    }

    method Step(t: nat)
      requires t < |readers|
      modifies this
      ensures View() == Next(old(View()), file, t)
    {
      var r := readers[t];
      if r.phase == Reading {
        if r.offset < |file| {
          readers := readers[t := Reader(r.offset + 1, Writing(file[r.offset]))];
        } else {
          readers := readers[t := Reader(r.offset, Done)];
        }
      } else if r.phase.Writing? {
        out := out + [Out(t, r.phase.c)];
        readers := readers[t := Reader(r.offset, Reading)];
      }
    }

    /** The loop of one thread that nobody interrupts. */
    method Loop(t: nat)
      requires t < |readers| && readers[t] == Reader(0, Reading)
      modifies this
      ensures |readers| == |old(readers)| && readers[t] == Reader(|file|, Done)
      ensures forall u :: 0 <= u < |readers| && u != t ==> readers[u] == old(readers[u])
      ensures Of(out, t) == Of(old(out), t) + file
    {
      hide Of;
      while readers[t].phase != Done
        invariant |readers| == |old(readers)|
        invariant forall u :: 0 <= u < |readers| && u != t ==> readers[u] == old(readers[u])
        invariant readers[t].offset <= |file|
        invariant readers[t].phase == Reading || readers[t] == Reader(|file|, Done)
        invariant Of(out, t) == Of(old(out), t) + file[..readers[t].offset]
        decreases |file| - readers[t].offset, readers[t].phase == Reading
      {
        Step(t);
        if readers[t].phase.Writing? {
          OfAppend(out, Out(t, readers[t].phase.c), t);
          Step(t);
        }
      }
    }
  }
}
