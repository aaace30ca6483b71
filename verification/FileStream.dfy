/** The per-file log stream of engine/pkg/cli/debug_merge_logs.go: a clock that never runs
    backwards, a window [from, to], a binary-search seek, and a file that is opened, peeked,
    closed and opened again. */
module FileStream {
  import opened Common
  import opened LogMerge

  /** A bound of the window; None is the zero time. */
  type Bound = Option<int>

  predicate AfterTo(t: int, to: Bound) { to.Some? && t > to.value }

  predicate BeforeFrom(t: int, from: Bound) { from.Some? && t < from.value }

  function Later(a: int, b: int): int { if a < b then b else a }

  // ---------- what a file stream should yield ----------

  /** Running-maximum times, starting from prev. */
  function Ratchet(raw: seq<Entry>, prev: int): (r: seq<Entry>)
    ensures |r| == |raw|
  {
    if raw == [] then []
    else
      var t := Later(prev, raw[0].time);
      [raw[0].(time := t)] + Ratchet(raw[1..], t)
  }

  function InWindow(s: seq<Entry>, from: Bound, to: Bound): seq<Entry> {
    if s == [] then []
    else (if BeforeFrom(s[0].time, from) || AfterTo(s[0].time, to) then [] else [s[0]]) + InWindow(s[1..], from, to)
  }

  /** The entries of a decoder as peek goes through them: skip before from, stop after to. */
  function Emitted(raw: seq<Entry>, prev: int, from: Bound, to: Bound): seq<Entry> {
    if raw == [] then []
    else
      var t := Later(prev, raw[0].time);
      if AfterTo(t, to) then []
      else if BeforeFrom(t, from) then Emitted(raw[1..], t, from, to)
      else [raw[0].(time := t)] + Emitted(raw[1..], t, from, to)
  }

  lemma {:induction false} RatchetSorted(raw: seq<Entry>, prev: int)
    ensures Sorted(Ratchet(raw, prev)) && forall e :: e in Ratchet(raw, prev) ==> prev <= e.time
  {
    if raw != [] {
      var t := Later(prev, raw[0].time);
      RatchetSorted(raw[1..], t);
      var tail := Ratchet(raw[1..], t);
      assert forall i :: 0 <= i < |tail| ==> tail[i] in tail;
    }
  }

  lemma {:induction false} WindowEmpty(s: seq<Entry>, from: Bound, to: Bound)
    requires forall e :: e in s ==> AfterTo(e.time, to)
    ensures InWindow(s, from, to) == []
  {
    if s != [] {
      assert s[0] in s && forall e :: e in s[1..] ==> e in s;
      WindowEmpty(s[1..], from, to);
    }
  }

  /** Stopping at the first time past to is the same as filtering. */
  lemma {:induction false} EmittedIsWindow(raw: seq<Entry>, prev: int, from: Bound, to: Bound)
    ensures Emitted(raw, prev, from, to) == InWindow(Ratchet(raw, prev), from, to)
  {
    if raw != [] {
      var t := Later(prev, raw[0].time);
      if AfterTo(t, to) {
        RatchetSorted(raw[1..], t);
        WindowEmpty(Ratchet(raw, prev), from, to);
      } else {
        EmittedIsWindow(raw[1..], t, from, to);
      }
    }
  }

  lemma {:induction false} EmittedSorted(raw: seq<Entry>, prev: int, from: Bound, to: Bound)
    ensures Sorted(Emitted(raw, prev, from, to))
    ensures forall e :: e in Emitted(raw, prev, from, to) ==> prev <= e.time && !BeforeFrom(e.time, from) && !AfterTo(e.time, to)
  {
    if raw != [] {
      var t := Later(prev, raw[0].time);
      EmittedSorted(raw[1..], t, from, to);
      var tail := Emitted(raw[1..], t, from, to);
      assert forall i :: 0 <= i < |tail| ==> tail[i] in tail;
    }
  }

  // ---------- the seek ----------

  /** A file: its entries and the offset at which each of them starts. */
  datatype LogFile = LogFile(entries: seq<Entry>, starts: seq<nat>, size: nat)

  ghost predicate FileOk(f: LogFile) {
    && |f.starts| == |f.entries|
    && (forall i :: 0 <= i < |f.starts| ==> f.starts[i] < f.size)
    && (forall i, j :: 0 <= i < j < |f.starts| ==> f.starts[i] < f.starts[j])
  }

  /** The decoder opened at an offset first yields the first entry that starts there or later. */
  function FirstAt(starts: seq<nat>, offset: nat): (k: nat)
    ensures k <= |starts|
    ensures k < |starts| ==> starts[k] >= offset
    ensures forall i :: 0 <= i < k ==> starts[i] < offset
  {
    if starts == [] || starts[0] >= offset then 0 else 1 + FirstAt(starts[1..], offset)
  }

  /** The predicate handed to sort.Search. */
  predicate AtOrAfter(f: LogFile, from: int, offset: nat)
    requires |f.starts| == |f.entries|
  {
    var k := FirstAt(f.starts, offset);
    k == |f.entries| || f.entries[k].time >= from
  }

  /** A linear scan for the first entry at or after from. */
  function Scan(entries: seq<Entry>, from: int): (k: nat)
    ensures k <= |entries|
    ensures k < |entries| ==> entries[k].time >= from
    ensures forall i :: 0 <= i < k ==> entries[i].time < from
  {
    if entries == [] || entries[0].time >= from then 0 else 1 + Scan(entries[1..], from)
  }

  /** What the binary search needs: once an entry is at or after from, all later ones are. Times may
      still run backwards on either side. */
  predicate Divided(entries: seq<Entry>, from: int) {
    forall i, j :: 0 <= i < j < |entries| && entries[i].time >= from ==> entries[j].time >= from
  }

  /** seekToFirstAfterFrom: the entry the decoder starts with afterwards; |entries| stands
      for the io.EOF of a file with nothing at or after from. */
  method Seek(f: LogFile, from: Bound) returns (k: nat)
    requires FileOk(f)
    ensures k <= |f.entries|
    ensures from.None? ==> k == 0
    ensures from.Some? && k < |f.entries| ==> f.entries[k].time >= from.value
    ensures from.Some? && Divided(f.entries, from.value) ==> k == Scan(f.entries, from.value)
  {
    if from.None? {
      AllFromStart(f);
      return 0;
    }
    var i, j := 0, f.size;
    while i < j
      invariant 0 <= i <= j <= f.size
      invariant i > 0 ==> !AtOrAfter(f, from.value, i - 1)
      invariant j < f.size ==> AtOrAfter(f, from.value, j)
    {
      var h := (i + j) / 2;
      if !AtOrAfter(f, from.value, h) {
        i := h + 1;
      } else {
        j := h;
      }
    }
    k := FirstAt(f.starts, i);
    if i == f.size {
      assert k == |f.entries|;
    }
    if Divided(f.entries, from.value) {
      SeekIsScan(f, from.value, i);
    }
  }

  /** On a file that from divides the boundary that the search finds is the one a scan finds. */
  lemma SeekIsScan(f: LogFile, from: int, i: nat)
    requires FileOk(f) && Divided(f.entries, from) && i <= f.size
    requires i > 0 ==> !AtOrAfter(f, from, i - 1)
    requires i < f.size ==> AtOrAfter(f, from, i)
    ensures FirstAt(f.starts, i) == Scan(f.entries, from)
  {
    var k, s := FirstAt(f.starts, i), Scan(f.entries, from);
    assert k < |f.entries| ==> f.entries[k].time >= from;
    assert s <= k;
    if i > 0 {
      var before := FirstAt(f.starts, i - 1);
      assert before < s;
      assert k <= before + 1 by {
        if before + 1 < |f.starts| {
          assert f.starts[before + 1] > f.starts[before];
        }
      }
    }
  }

  lemma AllFromStart(f: LogFile)
    requires FileOk(f)
    ensures FirstAt(f.starts, 0) == 0
  {}

  // ---------- the stream ----------

  const ZERO: Entry := Entry(0, "")   // logpb.Entry{}

  /** What is left of tail after the check against a remembered entry. */
  function WithoutRepeat(tail: seq<Entry>, e: Entry): seq<Entry> {
    if tail != [] && tail[0] == e then tail[1..] else tail
  }

  /** fileLogStream.  start is where the seek ends up; the file does not change between the
      two times it is opened. */
  class FileLogStream {
    const entries: seq<Entry>
    const start: nat
    const from: Bound
    const to: Bound
    var isOpen: bool
    var pos: nat
    var prevTime: int
    var read: bool
    var e: Entry
    var err: bool      // io.EOF

    ghost predicate Valid()
      reads this
    {
      start <= |entries| && pos <= |entries| && (err ==> !read)
    }

    /** What the stream is still going to yield. */
    ghost function Upcoming(): seq<Entry>
      requires Valid()
      reads this
    {
      if err then []
      else (if read then [e] else []) + Rest()
    }

    ghost function Rest(): seq<Entry>
      requires Valid()
      reads this
    {
      Emitted(if isOpen then entries[pos..] else WithoutRepeat(entries[start..], e), prevTime, from, to)
    }

    constructor (entries: seq<Entry>, start: nat, from: Bound, to: Bound)
      requires start <= |entries|
      ensures Valid() && !isOpen && !read && !err
      ensures this.entries == entries && this.start == start && this.from == from && this.to == to
      ensures Upcoming() == Emitted(WithoutRepeat(entries[start..], ZERO), 0, from, to)
    {
      this.entries, this.start, this.from, this.to := entries, start, from, to;
      isOpen, pos, prevTime, read, e, err := false, 0, 0, false, ZERO, false;
    }

    /** The rest of peek's loop body once an entry has been decoded. */
    method Consume(raw: Entry)
      requires Valid() && !read && !err && isOpen
      modifies this
      ensures Valid() && pos == old(pos) && (isOpen || err)
      ensures Upcoming() == Emitted([raw] + entries[pos..], old(prevTime), from, to)
      ensures read ==> prevTime == e.time
    {
      assert ([raw] + entries[pos..])[1..] == entries[pos..];
      e := raw;
      if e.time < prevTime {
        e := e.(time := prevTime);
      } else {
        prevTime := e.time;
      }
      if AfterTo(e.time, to) {
        isOpen, e, err := false, ZERO, true;
      } else {
        read := !BeforeFrom(e.time, from);
      }
    }

    /** One turn of peek's loop. */
    method ReadNext()
      requires Valid() && !read && !err
      modifies this
      ensures Valid() && Upcoming() == old(Upcoming())
      ensures read ==> prevTime == e.time
      ensures Ahead() < old(Ahead())
    {
      var justOpened := false;
      if !isOpen {
        isOpen, pos, justOpened := true, start, true;
      }
      if pos == |entries| {
        isOpen, e, err := false, ZERO, true;
        return;
      }
      var raw := entries[pos];
      assert entries[pos..] == [raw] + entries[pos + 1..];
      pos := pos + 1;
      if justOpened && raw == e {
        return;
      }
      Consume(raw);
    }

    ghost function Ahead(): nat
      requires Valid()
      reads this
    {
      if err then 0 else if isOpen then 1 + |entries| - pos else 2 + |entries|
    }

    method Peek() returns (head: Entry, ok: bool)
      requires Valid()
      modifies this
      ensures Valid() && Upcoming() == old(Upcoming())
      ensures ok <==> Upcoming() != []
      ensures ok ==> head == e == Upcoming()[0] && read && !err
      ensures ok && !old(read) ==> prevTime == head.time
    {
      while !read && !err
        invariant Valid() && Upcoming() == old(Upcoming())
        invariant read && !old(read) ==> prevTime == e.time
        decreases Ahead()
      {
        ReadNext();
      }
      return e, !err;
    }

    method Pop() returns (head: Entry, ok: bool)
      requires Valid()
      modifies this
      ensures Valid() && (ok <==> old(Upcoming()) != [])
      ensures ok ==> head == old(Upcoming())[0] && Upcoming() == old(Upcoming())[1..]
      ensures !ok ==> Upcoming() == []
    {
      head, ok := Peek();
      if ok {
        read := false;
      }
    }

    /** close(): the decoder and its position are gone. */
    method Close()
      requires Valid()
      modifies this`isOpen
      ensures Valid() && !isOpen
    {
      isOpen := false;
    }
  }

  /** What the stream yields when it is peeked, closed and opened again, starting from the
      entries behind the seek. */
  function Yield(tail: seq<Entry>, from: Bound, to: Bound): seq<Entry> {
    var first := Emitted(WithoutRepeat(tail, ZERO), 0, from, to);
    if first == [] then []
    else [first[0]] + Emitted(WithoutRepeat(tail, first[0]), first[0].time, from, to)
  }

  /** newFileLogStream: no stream for a file with nothing to offer, otherwise a stream that
      has been peeked and closed. */
  method NewFileLogStream(f: LogFile, from: Bound, to: Bound) returns (s: FileLogStream?, ghost k: nat)
    requires FileOk(f)
    ensures k <= |f.entries| && (from.None? ==> k == 0)
    ensures from.Some? && Divided(f.entries, from.value) ==> k == Scan(f.entries, from.value)
    ensures s == null <==> Yield(f.entries[k..], from, to) == []
    ensures s != null ==> fresh(s) && s.Valid() && !s.isOpen && s.Upcoming() == Yield(f.entries[k..], from, to)
    // Exactly the window, whatever the clock does, on the files the seek and the reopening suit.
    ensures Expected(f.entries, from) ==>
      (Yield(f.entries[k..], from, to) == InWindow(Ratchet(f.entries, 0), from, to)
       <==> Reopens(f.entries[k..], from, to))
  {
    var start := Seek(f, from);
    k := start;
    if Expected(f.entries, from) {
      FileStreamExact(f.entries, from, to, k);
    }
    var stream := new FileLogStream(f.entries, start, from, to);
    var head, ok := stream.Peek();
    if !ok {
      return null, k;
    }
    stream.Close();
    s := stream;
  }

  // ---------- when the stream yields what it should ----------

  /** Skipping the entries before from by a seek instead of one by one changes nothing. */
  lemma {:induction false} SeekKeeps(entries: seq<Entry>, prev: int, from: int, to: Bound)
    requires prev < from
    ensures Emitted(entries, prev, Some(from), to)
            == Emitted(entries[Scan(entries, from)..], prev, Some(from), to)
    ensures forall p :: prev <= p < from ==>
              Emitted(entries[Scan(entries, from)..], p, Some(from), to)
              == Emitted(entries[Scan(entries, from)..], prev, Some(from), to)
  {
    if entries != [] {
      var tail := entries[Scan(entries, from)..];
      if entries[0].time >= from {
        assert tail == entries;
      } else {
        var t := Later(prev, entries[0].time);
        assert tail == entries[1..][Scan(entries[1..], from)..];
        SeekKeeps(entries[1..], t, from, to);
        SeekKeeps(entries[1..], prev, from, to);
        if AfterTo(t, to) && tail != [] {
          assert tail[0].time >= from;
        }
      }
    }
  }

  /** Going through the same entries again from the first time that was emitted yields at
      least as much. */
  lemma {:induction false} AgainIsMore(raw: seq<Entry>, prev: int, from: Bound, to: Bound)
    requires Emitted(raw, prev, from, to) != []
    ensures var first := Emitted(raw, prev, from, to);
            |Emitted(raw, first[0].time, from, to)| >= |first|
            && !BeforeFrom(first[0].time, from) && !AfterTo(first[0].time, to) && first[0].time >= prev
  {
    var t := Later(prev, raw[0].time);
    if BeforeFrom(t, from) {
      AgainIsMore(raw[1..], t, from, to);
    }
  }

  /** The first entry behind the seek comes back unchanged when the file is opened again. */
  predicate FirstKept(tail: seq<Entry>, from: Bound) {
    tail != [] && tail[0].time >= 0 && !BeforeFrom(tail[0].time, from) && tail[0] != ZERO
  }

  /** Two blank entries at the front cancel: one is dropped at each opening. */
  predicate BlankPair(tail: seq<Entry>, from: Bound) {
    |tail| >= 2 && tail[0] == ZERO && tail[1].text == "" && tail[1].time <= 0 && !BeforeFrom(0, from)
  }

  /** No running maximum of the times lies in the window. */
  ghost predicate OutsideWindow(raw: seq<Entry>, prev: int, from: Bound, to: Bound) {
    forall e :: e in Ratchet(raw, prev) ==> BeforeFrom(e.time, from) || AfterTo(e.time, to)
  }

  lemma {:induction false} NothingInWindow(s: seq<Entry>, from: Bound, to: Bound)
    ensures InWindow(s, from, to) == [] <==> forall e :: e in s ==> BeforeFrom(e.time, from) || AfterTo(e.time, to)
  {
    if s != [] {
      assert s == [s[0]] + s[1..];
      NothingInWindow(s[1..], from, to);
      assert s[0] in s;
    }
  }

  /** When peek, close and reopen give the right entries. */
  ghost predicate Reopens(tail: seq<Entry>, from: Bound, to: Bound) {
    OutsideWindow(tail, 0, from, to) || FirstKept(tail, from) || BlankPair(tail, from)
  }

  /** The peek, close and reopen of a file stream neither loses nor repeats an entry exactly
      when no running maximum lies in the window, or the first entry behind the seek is in the
      window, not before the epoch and not blank, or two blank entries cancel. */
  lemma ReopenExact(tail: seq<Entry>, from: Bound, to: Bound)
    ensures Yield(tail, from, to) == Emitted(tail, 0, from, to) <==> Reopens(tail, from, to)
  {
    EmittedIsWindow(tail, 0, from, to);
    NothingInWindow(Ratchet(tail, 0), from, to);
    ReopenOrNothing(tail, from, to);
  }

  lemma ReopenOrNothing(tail: seq<Entry>, from: Bound, to: Bound)
    ensures Yield(tail, from, to) == Emitted(tail, 0, from, to)
      <==> Emitted(tail, 0, from, to) == [] || FirstKept(tail, from) || BlankPair(tail, from)
  {
    if tail != [] {
      var want := Emitted(tail, 0, from, to);
      var first := Emitted(WithoutRepeat(tail, ZERO), 0, from, to);
      if first != [] {
        AgainIsMore(WithoutRepeat(tail, ZERO), 0, from, to);
        var t := first[0].time;
        if tail[0] != ZERO && BeforeFrom(Later(0, tail[0].time), from) {
          AgainIsMore(tail[1..], Later(0, tail[0].time), from, to);
        }
      }
    }
  }

  /** The files the seek is made for: without a lower bound every file, with one every file it
      divides, however the clock runs on either side. A bound at or before the epoch must not have
      entries before it. */
  ghost predicate Expected(entries: seq<Entry>, from: Bound) {
    match from
    case None => true
    case Some(t) => Divided(entries, t) && (t > 0 || Scan(entries, t) == 0)
  }

  /** The stream over any such file yields the file's entries with running-maximum times
      restricted to the window if and only if the reopening is harmless. */
  lemma FileStreamExact(entries: seq<Entry>, from: Bound, to: Bound, k: nat)
    requires Expected(entries, from) && k == if from.None? then 0 else Scan(entries, from.value)
    ensures Yield(entries[k..], from, to) == InWindow(Ratchet(entries, 0), from, to)
      <==> Reopens(entries[k..], from, to)
    ensures from.Some? && from.value > 0 ==> Reopens(entries[k..], from, to)
  {
    EmittedIsWindow(entries, 0, from, to);
    ReopenExact(entries[k..], from, to);
    if from.Some? && from.value > 0 {
      SeekKeeps(entries, 0, from.value, to);
      assert entries[k..] == [] ==> OutsideWindow(entries[k..], 0, from, to);
    } else {
      assert entries[k..] == entries;
    }
  }

  /** A clock that runs backwards is what the running maximum is for: the middle entry comes out
      at the time of the one before it. */
  lemma ClockHeldBack(a: Entry, b: Entry, c: Entry, to: Bound)
    requires 0 < a.time && b.time < a.time <= c.time && !AfterTo(c.time, to)
    ensures Yield([a, b, c], None, to) == [a, b.(time := a.time), c]
    ensures !Sorted([a, b, c])
  {
    var raw := [a, b, c];
    assert raw[1..] == [b, c] && [b, c][1..] == [c] && [c][1..] == [];
    assert raw[0].time > raw[1].time;
    assert Emitted([c], a.time, None, to) == [c];
    assert Emitted([b, c], a.time, None, to) == [b.(time := a.time)] + [c];
    assert Emitted(raw, 0, None, to) == [a] + ([b.(time := a.time)] + [c]);
    ReopenExact(raw, None, to);
  }

  /** Without a lower bound the two exceptions are real: an entry from before the epoch comes
      out twice, a blank entry at the front is lost. */
  lemma ReopenRepeats()
    ensures Yield([Entry(-1, "a")], None, None) == [Entry(0, "a"), Entry(0, "a")]
    ensures Yield([ZERO, Entry(1, "a")], None, None) != Emitted([ZERO, Entry(1, "a")], 0, None, None)
  {
    var tail := [ZERO, Entry(1, "a")];
    ReopenExact(tail, None, None);
    assert Ratchet(tail, 0)[0] in Ratchet(tail, 0);
    assert [Entry(-1, "a")][1..] == [];
  }

  /** Whatever the file holds, the merge gets a source in time order. */
  lemma YieldSorted(tail: seq<Entry>, from: Bound, to: Bound)
    ensures Sorted(Yield(tail, from, to))
  {
    var first := Emitted(WithoutRepeat(tail, ZERO), 0, from, to);
    if first != [] {
      var again := Emitted(WithoutRepeat(tail, first[0]), first[0].time, from, to);
      EmittedSorted(WithoutRepeat(tail, first[0]), first[0].time, from, to);
      assert forall i :: 0 <= i < |again| ==> again[i] in again;
    }
  }

  // ---------- the lookahead buffer ----------

  /** bufferedLogStream: a goroutine pops the wrapped stream into a bounded channel. Once the
      context is cancelled it may stop at any send. */
  class BufferedLogStream {
    const inner: FileLogStream
    const cancelled: bool
    var started: bool
    var hand: Option<Entry>    // popped and waiting to be sent
    var channel: seq<Entry>
    var closed: bool
    var e: Entry
    var ok: bool
    var read: bool

    ghost predicate Valid()
      reads this, inner
    {
      && inner.Valid() && |channel| <= 512
      && (closed ==> started && hand.None?) && (!started ==> channel == [] && hand.None?)
    }

    /** What is still to come, wherever it is held. */
    ghost function Upcoming(): seq<Entry>
      requires Valid()
      reads this, inner
    {
      if !ok then [] else (if read then [e] else []) + Held()
    }

    ghost function Held(): seq<Entry>
      requires Valid()
      reads this, inner
    {
      InFlight(channel, hand, if closed then [] else inner.Upcoming())
    }

    /** newBufferedLogStream takes the first entry itself, so no goroutine runs yet. */
    constructor (inner: FileLogStream, cancelled: bool)
      requires inner.Valid()
      modifies inner
      ensures Valid() && !started && this.inner == inner && this.cancelled == cancelled
      ensures Upcoming() == old(inner.Upcoming())
    {
      this.inner, this.cancelled := inner, cancelled;
      started, hand, channel, closed := false, None, [], false;
      ghost var was := inner.Upcoming();
      var head, got := inner.Pop();
      e, ok, read := head, got, true;
      new;
      Popped([], was, head, got, inner.Upcoming());
    }

    /** e, ok := bs.logStream.pop() */
    method Fetch()
      requires Valid() && started && !closed && hand.None?
      modifies this`hand, this`closed, inner
      ensures Valid() && Held() == old(Held()) && (closed || hand.Some?)
    {
      ghost var was := inner.Upcoming();
      var head, got := inner.Pop();
      Popped(channel, was, head, got, inner.Upcoming());
      if got {
        hand := Some(head);
      } else {
        closed := true;
      }
    }

    /** The select: the send waits while the channel is full, and a cancelled context may end the
        goroutine. */
    method Send()
      requires Valid() && started && !closed && hand.Some?
      modifies this`hand, this`channel, this`closed
      ensures Valid() && Kept(cancelled, old(Held()), Held())
      ensures old(channel) <= channel && (old(channel) == [] ==> channel != [] || closed)
    {
      ghost var rest := inner.Upcoming();
      Sent(channel, hand.value, rest);
      var stop: bool := *;
      if cancelled && stop {
        hand, closed := None, true;
      } else if |channel| < 512 {
        channel, hand := channel + [hand.value], None;
      }
    }

    /** One step of the goroutine. */
    method Produce()
      requires Valid() && started && !closed
      modifies this`hand, this`channel, this`closed, inner
      ensures Valid() && Kept(cancelled, old(Held()), Held())
      ensures old(channel) <= channel
      ensures old(channel) == [] ==> channel != [] || closed || (old(hand).None? && hand.Some?)
    {
      if hand.None? {
        Fetch();
      } else {
        Send();
      }
    }

    /** The consumer waits until the channel has something or is closed; meanwhile the
        goroutine may run ahead by any number of steps. */
    method Await()
      requires Valid() && started
      modifies this`hand, this`channel, this`closed, inner
      ensures Valid() && (channel != [] || closed)
      ensures Kept(cancelled, old(Held()), Held())
    {
      var ahead: nat := *;
      var i := 0;
      while !closed && (channel == [] || i < ahead)
        invariant Valid() && Kept(cancelled, old(Held()), Held())
        decreases !closed, channel == [], channel == [] && hand.None?, if i < ahead then ahead - i else 0
      {
        Produce();
        i := i + 1;
      }
    }

    /** bs.e, bs.ok = <-bs.c */
    method Receive()
      requires Valid() && ok && !read
      modifies this, inner
      ensures Valid() && read
      ensures Kept(cancelled, old(Held()), if ok then [e] + Held() else [])
    {
      started := true;
      Await();
      if channel != [] {
        FirstOff(channel, Held()[|channel|..]);
        e, channel := channel[0], channel[1..];
      } else {
        ok := false;
      }
      read := true;
    }

    method Peek() returns (head: Entry, got: bool)
      requires Valid()
      modifies this, inner
      ensures Valid() && Kept(cancelled, old(Upcoming()), Upcoming())
      ensures got <==> Upcoming() != []
      ensures got == ok && (got ==> read && head == e)
    {
      if ok && !read {
        Receive();
      }
      return if ok then e else ZERO, ok;
    }

    method Pop() returns (head: Entry, got: bool)
      requires Valid()
      modifies this, inner
      ensures Valid()
      ensures got ==> old(Upcoming()) != [] && head == old(Upcoming())[0] && Kept(cancelled, old(Upcoming())[1..], Upcoming())
      ensures !got ==> Upcoming() == [] && (!cancelled ==> old(Upcoming()) == [])
    {
      ghost var was := Upcoming();
      head, got := Peek();
      if got {
        SecondOn(cancelled, was, e, Held());
      }
      read := false;
    }
  }

  ghost function InFlight(channel: seq<Entry>, hand: Option<Entry>, rest: seq<Entry>): seq<Entry> {
    channel + ((if hand.Some? then [hand.value] else []) + rest)
  }

  lemma Popped(channel: seq<Entry>, was: seq<Entry>, head: Entry, got: bool, rest: seq<Entry>)
    requires got ==> was != [] && head == was[0] && rest == was[1..]
    requires !got ==> was == []
    ensures got ==> [head] + InFlight([], None, rest) == was && InFlight(channel, Some(head), rest) == InFlight(channel, None, was)
  {}

  lemma Sent(channel: seq<Entry>, e: Entry, rest: seq<Entry>)
    ensures InFlight(channel + [e], None, rest) == InFlight(channel, Some(e), rest)
    ensures InFlight(channel, None, []) <= InFlight(channel, Some(e), rest)
  {}

  /** Nothing is lost, or the end is cut off by a cancellation. */
  ghost predicate Kept(cancelled: bool, was: seq<Entry>, now: seq<Entry>) {
    now <= was && (!cancelled ==> now == was)
  }

  lemma FirstOff(channel: seq<Entry>, rest: seq<Entry>)
    requires channel != []
    ensures [channel[0]] + (channel[1..] + rest) == channel + rest
  {}

  lemma SecondOn(cancelled: bool, was: seq<Entry>, e: Entry, held: seq<Entry>)
    requires Kept(cancelled, was, [e] + held)
    ensures was != [] && was[0] == e && Kept(cancelled, was[1..], held)
  {
    assert ([e] + held)[1..] == held;
    assert was[1..][..|held|] == was[..|held| + 1][1..];
  }

  lemma OneMore(cancelled: bool, all: seq<Entry>, out: seq<Entry>, before: seq<Entry>, now: seq<Entry>)
    requires Kept(cancelled, all, out + before) && before != [] && Kept(cancelled, before[1..], now)
    ensures Kept(cancelled, all, (out + [before[0]]) + now)
  {
    assert out + before == (out + [before[0]]) + before[1..];
    assert (out + [before[0]]) + now <= (out + [before[0]]) + before[1..];
  }

  /** Popping a buffered stream to its end. */
  method Exhaust(b: BufferedLogStream) returns (out: seq<Entry>)
    requires b.Valid()
    modifies b, b.inner
    ensures Kept(b.cancelled, old(b.Upcoming()), out)
  {
    out := [];
    ghost var all := b.Upcoming();
    var more := true;
    while more
      invariant b.Valid() && Kept(b.cancelled, all, out + b.Upcoming())
      invariant !more ==> b.Upcoming() == []
      decreases more, |b.Upcoming()|
    {
      var head;
      ghost var before := b.Upcoming();
      head, more := b.Pop();
      if more {
        OneMore(b.cancelled, all, out, before, b.Upcoming());
        out := out + [head];
      } else {
        assert out + [] <= out + before && (!b.cancelled ==> out + [] == out + before);
      }
    }
    assert out + [] == out;
  }

  /** newMergedStream and the drained merge: whatever the files hold, one sequence in time order;
      each file the seek suits contributes exactly its window, if and only if its reopening is
      harmless, and an initial piece of that when the context is cancelled. */
  method MergeFiles(files: seq<LogFile>, from: Bound, to: Bound, cancelled: bool) returns (out: seq<Line>)
    requires forall i :: 0 <= i < |files| ==> FileOk(files[i])
    ensures SortedLines(out) && FilesInRange(out, |files|)
    ensures forall i :: 0 <= i < |files| && Expected(files[i].entries, from) ==>
      Contributes(files[i].entries, from, to, cancelled, Projection(out, i))
  {
    var sources: seq<seq<Entry>> := [];
    for i := 0 to |files|
      invariant |sources| == i && AllSorted(sources)
      invariant forall j :: 0 <= j < i && Expected(files[j].entries, from) ==>
                  Contributes(files[j].entries, from, to, cancelled, sources[j])
    {
      var source := FileSource(files[i], from, to, cancelled);
      sources := sources + [source];
    }
    var err;
    out, err := Merge(sources, seq(|sources|, _ => Eof));
  }

  /** Where the scan for from ends. */
  function Start(entries: seq<Entry>, from: Bound): nat { if from.None? then 0 else Scan(entries, from.value) }

  /** What a file in the merge gives. */
  ghost predicate Contributes(entries: seq<Entry>, from: Bound, to: Bound, cancelled: bool, part: seq<Entry>) {
    var k := Start(entries, from);
    && k <= |entries| && part <= Yield(entries[k..], from, to)
    && (!cancelled ==>
         (part == InWindow(Ratchet(entries, 0), from, to) <==> Reopens(entries[k..], from, to)))
  }

  /** One file, opened, peeked, closed, buffered and read to its end. */
  method FileSource(f: LogFile, from: Bound, to: Bound, cancelled: bool) returns (source: seq<Entry>)
    requires FileOk(f)
    ensures Sorted(source)
    ensures Expected(f.entries, from) ==> Contributes(f.entries, from, to, cancelled, source)
  {
    var s, k := NewFileLogStream(f, from, to);
    YieldSorted(f.entries[k..], from, to);
    source := [];
    if s != null {
      var b := new BufferedLogStream(s, cancelled);
      source := Exhaust(b);
    }
  }
}
