/** The keyboard interrupt of lab_07/my-workqueue: the handler stores the scancode
    in two work items and queues both; a worker runs a work item later, reading
    the scancode the item holds by then.

    Of the kernel queue this takes only that queueing a pending item does nothing,
    that pending is cleared before the function runs, and that one item never runs
    twice at once.  Handlers of the one interrupt line do not nest. */
module KeyWork {

  /** What `inb` reads from the keyboard port: bit 7 marks a release. */
  type Code = c: int | 0 <= c < 0x100

  /** `stamp` counts the interrupts up to the one whose scancode is in `code`
      (0: none yet), and `seen` is what the worker has read so far. */
  datatype Item = Item(code: Code, stamp: nat, pending: bool, phase: Phase, seen: seq<Sight>)

  datatype Sight = Sight(code: Code, stamp: nat)

  datatype Phase = Resting | Begun | Ending

  /** The next statement of the handler, in program order. */
  datatype Handler = Idle | Store1 | Store2 | Queue1 | Queue2

  /** `codes` are the scancodes read from the port by the interrupts so far. */
  datatype State = State(codes: seq<Code>, handler: Handler, one: Item, two: Item)

  datatype Event = Interrupt(code: Code) | Handle | Worker(first: bool)

  function Fresh(code: Code): Item { Item(code, 0, false, Resting, []) }

  function Init(garbage1: Code, garbage2: Code): State { State([], Idle, Fresh(garbage1), Fresh(garbage2)) }

  function Store(i: Item, codes: seq<Code>): Item
    requires codes != []
  {
    i.(code := codes[|codes| - 1], stamp := |codes|)
  }

  function Queue(i: Item): Item { i.(pending := true) }

  /** A worker starts a pending item, reads its scancode, and ends. */
  function Work(i: Item): Item {
    match i.phase
    case Resting => if i.pending then i.(pending := false, phase := Begun) else i
    case Begun => i.(phase := Ending, seen := i.seen + [Sight(i.code, i.stamp)])
    case Ending => i.(phase := Resting)
  }

  /** An event that cannot happen now changes nothing: an interrupt stays masked
      while the handler runs, and a worker waits for its item to be queued. */
  function Next(s: State, e: Event): State
    requires s.handler != Idle ==> s.codes != []
  {
    match e
    case Interrupt(code) => if s.handler == Idle then s.(codes := s.codes + [code], handler := Store1) else s
    case Handle => (
      match s.handler
      case Idle => s
      case Store1 => s.(one := Store(s.one, s.codes), handler := Store2)
      case Store2 => s.(two := Store(s.two, s.codes), handler := Queue1)
      case Queue1 => s.(one := Queue(s.one), handler := Queue2)
      case Queue2 => s.(two := Queue(s.two), handler := Idle)
      )
    case Worker(first) => if first then s.(one := Work(s.one)) else s.(two := Work(s.two))
  }

  // --------------------------------------------------------------- invariant

  /** `stored` is the last interrupt that stored into the item; `queueing` says
      that the handler has stored its scancode and will queue the item. */
  predicate Good(i: Item, codes: seq<Code>, stored: int, queueing: bool) {
    && stored == i.stamp <= |codes|
    && (i.stamp > 0 ==> i.code == codes[i.stamp - 1])
    && (i.pending || i.phase == Begun || queueing || Latest(i) == i.stamp)
    && (i.pending || i.phase == Begun ==> i.stamp > 0)
    && (forall k :: 0 <= k < |i.seen| ==>
          0 < i.seen[k].stamp <= i.stamp && i.seen[k].code == codes[i.seen[k].stamp - 1])
    && (forall k, m :: 0 <= k < m < |i.seen| ==> i.seen[k].stamp <= i.seen[m].stamp)
    && |i.seen| + (if i.pending then 1 else 0) + (if i.phase == Begun then 1 else 0) + (if queueing then 1 else 0)
       <= stored
  }

  /** The stamp the worker has read last, 0 when it has read nothing. */
  function Latest(i: Item): nat { if i.seen == [] then 0 else i.seen[|i.seen| - 1].stamp }

  /** The last interrupt whose scancode is in the item, and whether the handler
      will still queue the item for it. */
  function Stored(s: State, first: bool): int {
    |s.codes| - if s.handler == Store1 || (!first && s.handler == Store2) then 1 else 0
  }

  predicate Queueing(s: State, first: bool) {
    s.handler == Queue1 || (if first then s.handler == Store2 else s.handler == Queue2)
  }

  predicate Inv(s: State) {
    && (s.handler != Idle ==> s.codes != [])
    && Good(s.one, s.codes, Stored(s, true), Queueing(s, true))
    && Good(s.two, s.codes, Stored(s, false), Queueing(s, false))
  }

  lemma WorkKeepsGood(i: Item, codes: seq<Code>, stored: int, queueing: bool)
    requires Good(i, codes, stored, queueing)
    ensures Good(Work(i), codes, stored, queueing)
  {
  }

  lemma InterruptKeepsGood(i: Item, codes: seq<Code>, code: Code)
    requires Good(i, codes, |codes|, false)
    ensures Good(i, codes + [code], |codes|, false)
  {
  }

  lemma StoreKeepsGood(i: Item, codes: seq<Code>)
    requires codes != [] && Good(i, codes, |codes| - 1, false)
    ensures Good(Store(i, codes), codes, |codes|, true)
  {
  }

  lemma QueueKeepsGood(i: Item, codes: seq<Code>)
    requires Good(i, codes, |codes|, true)
    ensures Good(Queue(i), codes, |codes|, false)
  {
  }

  lemma HandleKeepsInv(s: State)
    requires Inv(s)
    ensures Inv(Next(s, Handle))
  {
    match s.handler
    case Idle =>
    case Store1 => StoreKeepsGood(s.one, s.codes);
    case Store2 => StoreKeepsGood(s.two, s.codes);
    case Queue1 => QueueKeepsGood(s.one, s.codes);
    case Queue2 => QueueKeepsGood(s.two, s.codes);
  }

  lemma InterruptKeepsInv(s: State, code: Code)
    requires Inv(s)
    ensures Inv(Next(s, Interrupt(code)))
  {
    if s.handler == Idle {
      InterruptKeepsGood(s.one, s.codes, code);
      InterruptKeepsGood(s.two, s.codes, code);
    }
  }

  lemma WorkerKeepsInv(s: State, first: bool)
    requires Inv(s)
    ensures Inv(Next(s, Worker(first)))
  {
    if first {
      WorkKeepsGood(s.one, s.codes, Stored(s, true), Queueing(s, true));
    } else {
      WorkKeepsGood(s.two, s.codes, Stored(s, false), Queueing(s, false));
    }
  }

  /** Every step of the handler and of the workers keeps the invariant. */
  lemma NextKeepsInv(s: State, e: Event)
    requires Inv(s)
    ensures Inv(Next(s, e))
  {
    match e
    case Interrupt(code) => InterruptKeepsInv(s, code);
    case Handle => HandleKeepsInv(s);
    case Worker(first) => WorkerKeepsInv(s, first);
  }

  function Run(garbage1: Code, garbage2: Code, events: seq<Event>): (s: State)
    ensures s.handler != Idle ==> s.codes != []
  {
    if events == [] then Init(garbage1, garbage2)
    else Next(Run(garbage1, garbage2, events[..|events| - 1]), events[|events| - 1])
  }

  lemma {:induction false} RunKeepsInv(garbage1: Code, garbage2: Code, events: seq<Event>)
    ensures Inv(Run(garbage1, garbage2, events))
  {
    if events != [] {
      var before := Run(garbage1, garbage2, events[..|events| - 1]);
      RunKeepsInv(garbage1, garbage2, events[..|events| - 1]);
      NextKeepsInv(before, events[|events| - 1]);
    }
  }

  /** The handler has returned, nothing is queued, nobody is running. */
  predicate Quiescent(s: State) {
    && s.handler == Idle
    && !s.one.pending && s.one.phase == Resting
    && !s.two.pending && s.two.phase == Resting
  }

  predicate HasLatest(i: Item, codes: seq<Code>)
    requires codes != []
  {
    i.seen != [] && i.seen[|i.seen| - 1] == Sight(codes[|codes| - 1], |codes|)
  }

  lemma RestHasLatest(i: Item, codes: seq<Code>)
    requires codes != [] && Good(i, codes, |codes|, false) && !i.pending && i.phase == Resting
    ensures HasLatest(i, codes)
  {
  }

  /** However interrupts and workers interleave, coalescing never loses the last
      scancode: once everything is at rest, both workers have read it. */
  lemma LastCodeIsRead(garbage1: Code, garbage2: Code, events: seq<Event>)
    requires var s := Run(garbage1, garbage2, events); Quiescent(s) && s.codes != []
    ensures var s := Run(garbage1, garbage2, events); HasLatest(s.one, s.codes) && HasLatest(s.two, s.codes)
  {
    var s := Run(garbage1, garbage2, events);
    RunKeepsInv(garbage1, garbage2, events);
    RestHasLatest(s.one, s.codes);
    RestHasLatest(s.two, s.codes);
  }

  predicate InOrder(i: Item, codes: seq<Code>) {
    && |i.seen| <= |codes|
    && (forall k :: 0 <= k < |i.seen| ==>
          0 < i.seen[k].stamp <= |codes| && i.seen[k].code == codes[i.seen[k].stamp - 1])
    && (forall k, m :: 0 <= k < m < |i.seen| ==> i.seen[k].stamp <= i.seen[m].stamp)
  }

  /** At any time, each worker has read scancodes of interrupts that happened,
      never an older one after a newer one, and at most one for each interrupt;
      in particular it never reads the bytes the item was allocated with. */
  lemma ReadsAreDelivered(garbage1: Code, garbage2: Code, events: seq<Event>)
    ensures var s := Run(garbage1, garbage2, events); InOrder(s.one, s.codes) && InOrder(s.two, s.codes)
  {
    RunKeepsInv(garbage1, garbage2, events);
  }

  // ------------------------------------------------------------- the message

  /** What a worker logs: nothing for a key press, else the key number, with a name
      when the layout table has one. */
  datatype Message = Silent | Named(key: Code) | Unknown(key: Code)

  /** The codes below 0x80 are presses, the others are releases of the key with
      0x80 taken off. */
  function Log(code: Code, layoutSize: nat): Message {
    if code < 0x80 then Silent
    else if code - 0x80 < layoutSize then Named(code - 0x80)
    else Unknown(code - 0x80)
  }

  function LogAll(seen: seq<Sight>, layoutSize: nat): (r: seq<Message>)
    ensures |r| == |seen|
  {
    seq(|seen|, k requires 0 <= k < |seen| => Log(seen[k].code, layoutSize))
  }

  /** The two work functions after their read: bit 7 is tested and then cleared. */
  method WorkFunction(scancode: Code, layoutSize: nat) returns (message: Message)
    ensures message == Silent <==> scancode < 0x80
    ensures message != Silent ==> message.key + 0x80 == scancode && (message.Named? <==> message.key < layoutSize)
    ensures message == Log(scancode, layoutSize)
  {
    var code: Code := scancode;
    if code / 0x80 % 2 == 0 {
      return Silent;
    }
    code := code % 0x80;
    if code < layoutSize {
      message := Named(code);
    } else {
      message := Unknown(code);
    }
  }

  /** What is read in a log: the messages that are not silent. */
  function Spoken(log: seq<Message>): seq<Message> {
    if log == [] then []
    else
      var last := log[|log| - 1];
      Spoken(log[..|log| - 1]) + if last == Silent then [] else [last]
  }

  /** The releases among the scancodes that a worker has read. */
  function Releases(seen: seq<Sight>): seq<Code> {
    if seen == [] then []
    else
      var last := seen[|seen| - 1].code;
      Releases(seen[..|seen| - 1]) + if last >= 0x80 then [last] else []
  }

  /** A log shows the releases that its worker has read, in order, each under the
      number of the press of its key, and with a name when the table has one. */
  lemma {:induction false} LogShowsReleases(seen: seq<Sight>, layoutSize: nat, k: nat)
    ensures var log, releases := Spoken(LogAll(seen, layoutSize)), Releases(seen);
            && |log| == |releases|
            && (k < |log| ==> log[k] != Silent && log[k].key + 0x80 == releases[k])
            && (k < |log| ==> (log[k].Named? <==> log[k].key < layoutSize))
  {
    if seen != [] {
      var front := seen[..|seen| - 1];
      LogShowsReleases(front, layoutSize, k);
      assert LogAll(seen, layoutSize)[..|seen| - 1] == LogAll(front, layoutSize);
    }
  }

  // -------------------------------------------------------------- the module

  /** The statics of the module; each method is one atomic statement of the
      handler or of a worker, and they may be called in any order. */
  class Driver {
    const layoutSize: nat
    var codes: seq<Code>
    var handler: Handler
    var work1: Item
    var work2: Item
    var log1: seq<Message>
    var log2: seq<Message>

    /** Each log holds a message for every read of its worker. */
    ghost predicate Valid()
      reads this
    {
      && (handler != Idle ==> codes != [])
      && log1 == LogAll(work1.seen, layoutSize) && log2 == LogAll(work2.seen, layoutSize)
    }

    ghost function View(): State
      reads this
    {
      State(codes, handler, work1, work2)
    }

    constructor (garbage1: Code, garbage2: Code, layoutSize: nat)
      ensures Valid() && View() == Init(garbage1, garbage2) && this.layoutSize == layoutSize
    {
      this.layoutSize := layoutSize;
      codes, handler, log1, log2 := [], Idle, [], [];
      work1, work2 := Fresh(garbage1), Fresh(garbage2);
    }

    /** The handler is entered and reads the port. */
    method Enter(code: Code)
      requires Valid()
      modifies this
      ensures Valid() && View() == Next(old(View()), Interrupt(code))
    {
      if handler == Idle {
        codes, handler := codes + [code], Store1;
      }
    }

    method Continue()
      requires Valid()
      modifies this
      ensures Valid() && View() == Next(old(View()), Handle)
    {
      match handler {
        case Idle =>
        case Store1 =>
          work1, handler := work1.(code := codes[|codes| - 1], stamp := |codes|), Store2;
        case Store2 =>
          work2, handler := work2.(code := codes[|codes| - 1], stamp := |codes|), Queue1;
        case Queue1 =>
          if !work1.pending {
            work1 := work1.(pending := true);
          }
          handler := Queue2;
        case Queue2 =>
          if !work2.pending {
            work2 := work2.(pending := true);
          }
          handler := Idle;
      }
    }

    /** One statement of the worker; the message about its read is logged with it. */
    method Worker(first: bool)
      requires Valid()
      modifies this
      ensures Valid() && View() == Next(old(View()), Event.Worker(first))
    {
      var i := if first then work1 else work2;
      var messages := [];
      if i.phase == Begun {
        var message := WorkFunction(i.code, layoutSize);
        messages := [message];
        i := i.(phase := Ending, seen := i.seen + [Sight(i.code, i.stamp)]);
      } else if i.phase == Ending {
        i := i.(phase := Resting);
      } else if i.pending {
        i := i.(pending := false, phase := Begun);
      }
      if first {
        work1, log1 := i, log1 + messages;
      } else {
        work2, log2 := i, log2 + messages;
      }
    }
  }
}
