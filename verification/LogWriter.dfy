/** writeLogStream of engine/pkg/cli/debug_merge_logs.go: three goroutines, read, bufferWrites
    and write, joined by a bounded channel of entries and an unbuffered channel of buffers,
    with two buffers that change hands.  A schedule is a list of actions; whatever the
    schedule, the writer's buffer is left alone and the output is what was read, in order. */
module LogWriter {
  import opened LogMerge

  type Text = string

  /** render gives the text an entry contributes after the tenant and pattern filters: empty
      when it is filtered out.  The two sizes are 64k entries and 256 kB in the source. */
  datatype Config = Config(render: Entry -> Text, chanSize: nat, maxWriteBufSize: nat)

  /** bufferWrites waits in its select, or has just handed a buffer over and not yet reset
      the other one, or has returned. */
  datatype Phase = Selecting | Swapping | Returned

  datatype Writer = Waiting | Writing(buffer: nat) | Finished(failed: bool)

  datatype State = State(
    source: seq<Entry>,        // not yet read from the stream
    reading: bool,
    channel: seq<Entry>,       // entryChan; closed once reading is over
    drained: bool,             // bufferWrites has seen entryChan closed
    buffers: seq<Text>,
    pending: nat,
    phase: Phase,
    writer: Writer,
    out: Text,
    cancelled: bool)

  function Start(source: seq<Entry>): State {
    State(source, true, [], false, ["", ""], 0, Selecting, Waiting, "", false)
  }

  /** The buffer that is not pending. */
  function Other(s: State): nat { if s.pending == 0 then 1 else 0 }

  datatype Action =
    | Send            // read: entryChan <- e, then pop
    | ReadEnd(failed: bool)
    | Receive         // bufferWrites: take an entry and append its text to pending
    | SeeClosed
    | RenderError
    | HandOver        // writeChan <- pending, taken by write
    | Swap            // writing.Reset(); pending, writing = writing, pending
    | BufferEnd       // nothing pending and entryChan drained
    | Write           // out.Write succeeds
    | WriteError(partial: nat)
    | WriteEnd
    | ReadAbort       // ctx.Done() branches
    | BufferAbort

  predicate Enabled(c: Config, s: State, a: Action) {
    match a
    case Send => s.reading && s.source != [] && |s.channel| < c.chanSize
    case ReadEnd(_) => s.reading && s.source == []
    case Receive => s.phase.Selecting? && !s.drained && MayReceive(c, s) && s.channel != []
    case SeeClosed => s.phase.Selecting? && !s.drained && MayReceive(c, s) && s.channel == [] && !s.reading
    case RenderError => s.phase.Selecting? && !s.drained && MayReceive(c, s) && s.channel != []
    case HandOver => s.phase.Selecting? && Pending(s) != "" && s.writer.Waiting?
    case Swap => s.phase.Swapping?
    case BufferEnd => s.phase.Selecting? && Pending(s) == "" && s.drained
    case Write => s.writer.Writing?
    case WriteError(n) => s.writer.Writing? && n <= |Held(s)|
    case WriteEnd => s.writer.Waiting? && s.phase.Returned?
    case ReadAbort => s.reading && s.cancelled
    case BufferAbort => s.phase.Selecting? && s.cancelled
  }

  function Buffer(s: State, i: nat): Text { if i < |s.buffers| then s.buffers[i] else "" }

  function Pending(s: State): Text { Buffer(s, s.pending) }

  function Held(s: State): Text { if s.writer.Writing? then Buffer(s, s.writer.buffer) else "" }

  /** recv is nil while the pending buffer is over the limit. */
  predicate MayReceive(c: Config, s: State) { |Pending(s)| <= c.maxWriteBufSize }

  function SetBuffer(s: State, i: nat, t: Text): State
    requires i < |s.buffers|
  {
    s.(buffers := s.buffers[i := t])
  }

  function Next(c: Config, s: State, a: Action): State
    requires Enabled(c, s, a) && s.pending < 2 == |s.buffers|
  {
    match a
    case Send => s.(channel := s.channel + [s.source[0]], source := s.source[1..])
    case ReadEnd(failed) => s.(reading := false, cancelled := s.cancelled || failed)
    case Receive =>
      SetBuffer(s, s.pending, Pending(s) + c.render(s.channel[0])).(channel := s.channel[1..])
    case SeeClosed => s.(drained := true)
    case RenderError => s.(phase := Returned, cancelled := true)
    case HandOver => s.(writer := Writing(s.pending), phase := Swapping)
    case Swap => SetBuffer(s, Other(s), "").(pending := Other(s), phase := Selecting)
    case BufferEnd => s.(phase := Returned)
    case Write => s.(out := s.out + Held(s), writer := Waiting)
    case WriteError(n) => s.(out := s.out + Held(s)[..n], writer := Finished(true), cancelled := true)
    case WriteEnd => s.(writer := Finished(false))
    case ReadAbort => s.(reading := false)
    case BufferAbort => s.(phase := Returned)
  }

  // ---------- invariant ----------

  function Rendered(c: Config, es: seq<Entry>): Text {
    if es == [] then "" else c.render(es[0]) + Rendered(c, es[1..])
  }

  /** Text that has been rendered and not yet handed to the writer. */
  function Unsent(s: State): Text { if s.phase.Swapping? then "" else Pending(s) }

  /** The writer holds the buffer that is not pending, or, until the swap, the pending one. */
  ghost predicate Owned(s: State) {
    && s.pending < 2 == |s.buffers|
    && (s.writer.Writing? ==> s.writer.buffer == if s.phase.Swapping? then s.pending else Other(s))
  }

  /** Nothing is lost, repeated or reordered on the way from the stream to the output. */
  ghost predicate Conserved(c: Config, all: seq<Entry>, s: State) {
    if s.writer == Finished(true) then s.out <= Rendered(c, all)
    else s.out + Held(s) + Unsent(s) + Rendered(c, s.channel + s.source) == Rendered(c, all)
  }

  /** Ends only happen for a reason. */
  ghost predicate EndsJustified(s: State) {
    && (!s.cancelled && !s.reading ==> s.source == [])
    && (!s.cancelled && s.drained ==> s.channel == [] && !s.reading)
    && (!s.cancelled && s.phase.Returned? ==> s.drained && Pending(s) == "")
    && (s.writer.Finished? ==> s.phase.Returned? || s.cancelled)
    && (!s.cancelled && s.writer.Finished? ==> !s.writer.failed && s.phase.Returned?)
  }

  ghost predicate Inv(c: Config, all: seq<Entry>, s: State) {
    Owned(s) && Conserved(c, all, s) && EndsJustified(s) && |s.channel| <= c.chanSize
  }

  /** No buffer exceeds the limit by more than one rendered entry. */
  ghost predicate Bounded(c: Config, longest: nat, s: State) {
    forall i :: 0 <= i < |s.buffers| ==> |s.buffers[i]| <= c.maxWriteBufSize + longest
  }

  lemma OwnedStep(c: Config, s: State, a: Action)
    requires Owned(s) && Enabled(c, s, a)
    ensures Owned(Next(c, s, a))
  {}

  lemma ReceiveConserves(c: Config, all: seq<Entry>, s: State)
    requires Owned(s) && Conserved(c, all, s) && Enabled(c, s, Receive)
    ensures Conserved(c, all, Next(c, s, Receive))
  {
    var n := Next(c, s, Receive);
    var text, rest := c.render(s.channel[0]), Rendered(c, n.channel + n.source);
    assert (s.channel + s.source)[1..] == n.channel + n.source;
    assert Rendered(c, s.channel + s.source) == text + rest;
    assert Held(n) == Held(s) && Unsent(n) == Unsent(s) + text;
    assert s.out + Held(s) + Unsent(s) + (text + rest) == s.out + Held(s) + (Unsent(s) + text) + rest;
  }

  /** The actions that move text between the buffers and the output. */
  lemma BufferConserves(c: Config, all: seq<Entry>, s: State, a: Action)
    requires Owned(s) && Conserved(c, all, s) && Enabled(c, s, a)
    requires a.HandOver? || a.Swap? || a.Write?
    ensures Conserved(c, all, Next(c, s, a))
  {
    var n := Next(c, s, a);
    var rest := Rendered(c, s.channel + s.source);
    match a
    case HandOver =>
      assert s.out + "" + Pending(s) + rest == s.out + Pending(s) + "" + rest;
    case Swap =>
      assert Held(n) == Held(s) && Unsent(n) == "" == Unsent(s);
    case Write =>
      assert s.out + Held(s) + Unsent(s) + rest == (s.out + Held(s)) + "" + Unsent(s) + rest;
  }

  lemma WriteErrorConserves(c: Config, all: seq<Entry>, s: State, n: nat)
    requires Conserved(c, all, s) && Enabled(c, s, WriteError(n))
    ensures s.out + Held(s)[..n] <= Rendered(c, all)
  {
    var rest := Unsent(s) + Rendered(c, s.channel + s.source);
    assert Rendered(c, all) == s.out + Held(s) + rest;
    assert Held(s) == Held(s)[..n] + Held(s)[n..];
    assert Rendered(c, all) == s.out + Held(s)[..n] + (Held(s)[n..] + rest);
  }

  lemma ConservedStep(c: Config, all: seq<Entry>, s: State, a: Action)
    requires Owned(s) && Conserved(c, all, s) && Enabled(c, s, a)
    ensures Conserved(c, all, Next(c, s, a))
  {
    match a
    case Send =>
      var n := Next(c, s, a);
      assert n.channel + n.source == s.channel + s.source;
    case Receive => ReceiveConserves(c, all, s);
    case HandOver => BufferConserves(c, all, s, a);
    case Swap => BufferConserves(c, all, s, a);
    case Write => BufferConserves(c, all, s, a);
    case WriteError(n) => WriteErrorConserves(c, all, s, n);
    case _ =>
  }

  lemma EndsStep(c: Config, s: State, a: Action)
    requires Owned(s) && EndsJustified(s) && Enabled(c, s, a)
    ensures EndsJustified(Next(c, s, a))
  {}

  lemma BoundedStep(c: Config, longest: nat, s: State, a: Action)
    requires Owned(s) && Bounded(c, longest, s) && Enabled(c, s, a)
    requires a.Receive? ==> |c.render(s.channel[0])| <= longest
    ensures Bounded(c, longest, Next(c, s, a))
  {}

  /** No action of any goroutine changes the buffer the writer holds. */
  lemma HeldUntouched(c: Config, s: State, a: Action)
    requires Owned(s) && Enabled(c, s, a) && s.writer.Writing?
    ensures !a.Write? && !a.WriteError? ==>
              Next(c, s, a).writer == s.writer && Held(Next(c, s, a)) == Held(s)
  {}

  // ---------- whole schedules ----------

  /** The state after a schedule, if every action was possible when it came. */
  function Run(c: Config, s: State, schedule: seq<Action>): (r: seq<State>)
    ensures |r| <= 1
  {
    if schedule == [] then [s]
    else
      var n := |schedule| - 1;
      var before := Run(c, s, schedule[..n]);
      if before == [] || before[0].pending >= 2 || |before[0].buffers| != 2 || !Enabled(c, before[0], schedule[n]) then []
      else [Next(c, before[0], schedule[n])]
  }

  ghost predicate Reaches(c: Config, all: seq<Entry>, schedule: seq<Action>, s: State) {
    Run(c, Start(all), schedule) == [s]
  }

  lemma {:induction false} EverySchedule(c: Config, all: seq<Entry>, schedule: seq<Action>, s: State)
    requires Reaches(c, all, schedule, s)
    ensures Inv(c, all, s)
  {
    if schedule == [] {
      assert [] + all == all;
    } else {
      var n := |schedule| - 1;
      var before := Run(c, Start(all), schedule[..n])[0];
      EverySchedule(c, all, schedule[..n], before);
      OwnedStep(c, before, schedule[n]);
      ConservedStep(c, all, before, schedule[n]);
      EndsStep(c, before, schedule[n]);
    }
  }

  lemma NothingNew(c: Config, s: State, a: Action)
    requires s.pending < 2 == |s.buffers| && Enabled(c, s, a)
    ensures var n := Next(c, s, a); forall e :: e in n.channel + n.source ==> e in s.channel + s.source
  {
    var n := Next(c, s, a);
    if a.Send? {
      assert n.channel + n.source == s.channel + s.source;
    } else if a.Receive? {
      assert n.channel + n.source == (s.channel + s.source)[1..];
    }
  }

  /** The entries on the way are entries of the stream. */
  lemma {:induction false} OnlyFrom(c: Config, all: seq<Entry>, schedule: seq<Action>, s: State)
    requires Reaches(c, all, schedule, s)
    ensures forall e :: e in s.channel + s.source ==> e in all
  {
    if schedule == [] {
      assert [] + all == all;
    } else {
      var n := |schedule| - 1;
      var before := Run(c, Start(all), schedule[..n])[0];
      OnlyFrom(c, all, schedule[..n], before);
      NothingNew(c, before, schedule[n]);
    }
  }

  lemma {:induction false} BuffersBounded(c: Config, all: seq<Entry>, longest: nat, schedule: seq<Action>, s: State)
    requires Reaches(c, all, schedule, s) && forall e :: e in all ==> |c.render(e)| <= longest
    ensures Bounded(c, longest, s)
  {
    if schedule != [] {
      var n := |schedule| - 1;
      var before := Run(c, Start(all), schedule[..n])[0];
      BuffersBounded(c, all, longest, schedule[..n], before);
      EverySchedule(c, all, schedule[..n], before);
      OnlyFrom(c, all, schedule[..n], before);
      assert before.channel != [] ==> before.channel[0] in before.channel + before.source;
      BoundedStep(c, longest, before, schedule[n]);
    }
  }

  predicate AllReturned(s: State) { !s.reading && s.phase.Returned? && s.writer.Finished? }

  lemma Leading(a: Text, b: Text, d: Text, e: Text)
    ensures a <= a + b + d + e
    ensures b == "" && d == "" && e == "" ==> a + b + d + e == a
  {
    assert a + b + d + e == a + (b + d + e);
  }

  lemma NothingUnderway(s: State)
    requires Owned(s) && EndsJustified(s) && AllReturned(s) && !s.cancelled
    ensures Held(s) == "" && Unsent(s) == "" && s.channel + s.source == []
  {}

  /** What reaches the output is always an initial piece of the rendered entries, and all of
      them once the goroutines have returned without an error. */
  lemma OutputCorrect(c: Config, all: seq<Entry>, schedule: seq<Action>, s: State)
    requires Reaches(c, all, schedule, s)
    ensures s.out <= Rendered(c, all)
    ensures AllReturned(s) && !s.cancelled ==> s.out == Rendered(c, all)
  {
    EverySchedule(c, all, schedule, s);
    if s.writer != Finished(true) {
      Leading(s.out, Held(s), Unsent(s), Rendered(c, s.channel + s.source));
      if AllReturned(s) && !s.cancelled {
        NothingUnderway(s);
        assert Rendered(c, []) == "";
      }
    }
  }

  /** Entries on the way weigh more than texts, texts more than the buffer being written. */
  function Measure(s: State): nat {
    8 * |s.source| + 6 * |s.channel|
    + (if s.phase.Selecting? && Pending(s) != "" then 4 else if s.phase.Swapping? then 1 else 0)
    + (if s.writer.Writing? then 2 else 0)
    + (if s.reading then 1 else 0) + (if s.drained then 0 else 1)
    + (if s.phase.Returned? then 0 else 1) + (if s.writer.Finished? then 0 else 1)
  }

  lemma EveryActionCounts(c: Config, s: State, a: Action)
    requires Owned(s) && Enabled(c, s, a)
    ensures Measure(Next(c, s, a)) < Measure(s)
  {}

  /** No schedule is longer than the entries allow. */
  lemma {:induction false} SchedulesEnd(c: Config, all: seq<Entry>, schedule: seq<Action>, s: State)
    requires Reaches(c, all, schedule, s)
    ensures |schedule| + Measure(s) <= 8 * |all| + 4
  {
    if schedule != [] {
      var n := |schedule| - 1;
      var before := Run(c, Start(all), schedule[..n])[0];
      SchedulesEnd(c, all, schedule[..n], before);
      EverySchedule(c, all, schedule[..n], before);
      EveryActionCounts(c, before, schedule[n]);
    }
  }

  /** The goroutines never wait for each other in a circle: until all have returned, one of
      them can act, and without an error having occurred it can do so without failing. */
  lemma NeverStuck(c: Config, all: seq<Entry>, schedule: seq<Action>, s: State) returns (a: Action)
    requires Reaches(c, all, schedule, s)
    requires c.chanSize > 0 && !AllReturned(s)
    ensures Enabled(c, s, a) && !a.RenderError? && !a.WriteError? && a != ReadEnd(true)
    ensures !s.cancelled ==> !a.ReadAbort? && !a.BufferAbort?
  {
    EverySchedule(c, all, schedule, s);
    a :=
      if s.writer.Writing? then Write
      else if s.phase.Swapping? then Swap
      else if s.phase.Returned? then
        if s.writer.Waiting? then WriteEnd
        else ReadAbort
      else if s.cancelled then BufferAbort
      else if Pending(s) != "" then HandOver
      else if s.drained then BufferEnd
      else if s.channel != [] then Receive
      else if !s.reading then SeeClosed
      else if s.source != [] then Send
      else ReadEnd(false);
  }

  /** From every state that is reached without an error a normal end can be reached, and there
      everything has been written. */
  lemma {:induction false} CanFinish(c: Config, all: seq<Entry>, schedule: seq<Action>, s: State)
    returns (whole: seq<Action>, end: State)
    requires Reaches(c, all, schedule, s) && !s.cancelled && c.chanSize > 0
    ensures schedule <= whole && Reaches(c, all, whole, end)
    ensures AllReturned(end) && !end.cancelled && end.out == Rendered(c, all)
    decreases Measure(s)
  {
    if AllReturned(s) {
      OutputCorrect(c, all, schedule, s);
      whole, end := schedule, s;
    } else {
      var a := NeverStuck(c, all, schedule, s);
      EverySchedule(c, all, schedule, s);
      EveryActionCounts(c, s, a);
      assert (schedule + [a])[..|schedule|] == schedule;
      whole, end := CanFinish(c, all, schedule + [a], Next(c, s, a));
    }
  }
}
