/** The threaded file logger (lib/src/common/logger_file.cc) as a system of interleaved steps.

    Any number of producers push messages, one consumer thread writes them to a file that is replaced
    when it is full, and the destructor stops the consumer and flushes what is left.  A section under
    the mutex is one step where it runs through, and several where the consumer sleeps inside it.
    Whether a file opens is up to the step; `history` and `pushed` record what happened. */
module LoggerFile {
  type Message = string

  /** What became of a message that left the queue. */
  datatype Outcome = Written(file: nat, msg: Message) | Dropped(msg: Message)

  datatype Consumer =
    | Testing               // about to read `is_running`, without the mutex
    | Locking               // about to take the mutex
    | Inside                // holds the mutex, about to look at the queue
    | Wrote(n: nat)         // holds the mutex, has printed the front message
    | Counting(n: nat)      // has released the mutex, about to count `n` characters
    | Waiting(signalled: bool)
    | Done                  // has returned

  datatype Destructor =
    | Idle
    | Stopping              // has pushed the closing message
    | Joining               // has cleared `is_running`
    | Flushing(next: nat)
    | Finished

  datatype State = State(
    buffer: seq<Message>, isRunning: bool, locked: bool, consumer: Consumer, destructor: Destructor,
    open: bool, nameIdx: nat, curLength: nat, maxLength: int,
    pushed: seq<Message>, history: seq<Outcome>)

  const CLOSING := "Closing log\n"

  datatype Step =
    | Push(msg: Message)
    | Test
    | Lock
    | Look
    | Pop
    | Count(opens: bool)
    | Wake(spurious: bool)
    | Close
    | Stop
    | Join
    | Flush
    | Finish

  // ---------- the steps ----------

  function Init(maxLength: int, opens: bool): (s: State) {
    State([], true, false, Testing, Idle, opens, 0, 0, maxLength, [], [])
  }

  predicate Enabled(s: State, t: Step) {
    match t
    case Push(_) => !s.locked && (s.destructor.Idle? || s.destructor.Stopping? || s.destructor.Joining?)
    case Test => s.consumer.Testing?
    case Lock => s.consumer.Locking? && !s.locked
    case Look => s.consumer.Inside?
    case Pop => s.consumer.Wrote? && s.buffer != []
    case Count(_) => s.consumer.Counting?
    case Wake(spurious) => s.consumer.Waiting? && !s.locked && (s.consumer.signalled || spurious)
    case Close => s.destructor.Idle? && !s.locked
    case Stop => s.destructor.Stopping? && !s.locked
    case Join => s.destructor.Joining? && s.consumer.Done?
    case Flush => s.destructor.Flushing? && s.destructor.next < |s.buffer|
    case Finish => s.destructor.Flushing? && s.destructor.next == |s.buffer|
  }

  /** A signal reaches the consumer only while it waits. */
  function Signalled(c: Consumer): Consumer { if c.Waiting? then Waiting(true) else c }

  function Pushed(s: State, m: Message): State {
    s.(buffer := s.buffer + [m], pushed := s.pushed + [m], consumer := Signalled(s.consumer))
  }

  /** `fprintf` to the current file, if there is one. */
  function Printed(s: State, m: Message): State {
    s.(history := s.history + [if s.open then Written(s.nameIdx, m) else Dropped(m)])
  }

  function Counted(s: State, n: nat, opens: bool): State {
    if n == 0 then s
    else if s.curLength + n >= s.maxLength && s.maxLength > 0 then
      s.(nameIdx := s.nameIdx + 1, open := opens, curLength := 0)
    else s.(curLength := s.curLength + n)
  }

  function Apply(s: State, t: Step): (s': State)
    requires Enabled(s, t)
  {
    match t
    case Push(m) => Pushed(s, m)
    case Test => s.(consumer := if s.isRunning then Locking else Done)
    case Lock => s.(consumer := Inside, locked := true)
    case Look =>
      if s.buffer == [] then s.(consumer := Waiting(false), locked := false)
      else Printed(s, s.buffer[0]).(consumer := Wrote(if s.open then |s.buffer[0]| else 0))
    case Pop => s.(buffer := s.buffer[1..], consumer := Counting(s.consumer.n), locked := false)
    case Count(opens) => Counted(s, s.consumer.n, opens).(consumer := Testing)
    case Wake(_) => s.(consumer := if s.isRunning then Inside else Done, locked := true)
    case Close => Pushed(s, CLOSING).(destructor := Stopping)
    case Stop => s.(isRunning := false, consumer := Signalled(s.consumer), destructor := Joining)
    case Join => s.(destructor := Flushing(0))
    case Flush => Printed(s, s.buffer[s.destructor.next]).(destructor := Flushing(s.destructor.next + 1))
    case Finish => s.(destructor := Finished)
  }

  /** The steps `ts` can be taken one after the other from `s`. */
  predicate Possible(s: State, ts: seq<Step>)
    decreases |ts|
  {
    ts == [] || (Enabled(s, ts[0]) && Possible(Apply(s, ts[0]), ts[1..]))
  }

  function After(s: State, ts: seq<Step>): (s': State)
    requires Possible(s, ts)
    decreases |ts|
  {
    if ts == [] then s else After(Apply(s, ts[0]), ts[1..])
  }

  // ---------- every message, in order ----------

  function Last(h: seq<Outcome>): Outcome
    requires h != []
  {
    h[|h| - 1]
  }

  function Messages(h: seq<Outcome>): (ms: seq<Message>)
    ensures |ms| == |h|
  {
    if h == [] then [] else Messages(h[..|h| - 1]) + [Last(h).msg]
  }

  /** The messages that have not left the queue. */
  function Pending(s: State): (ms: seq<Message>) {
    if s.destructor.Finished? then []
    else if s.destructor.Flushing? then (if s.destructor.next <= |s.buffer| then s.buffer[s.destructor.next..] else [])
    else if s.consumer.Wrote? && s.buffer != [] then s.buffer[1..]
    else s.buffer
  }

  ghost predicate Conserved(s: State) { s.pushed == Messages(s.history) + Pending(s) }

  /** Who runs and who holds the mutex. */
  ghost predicate Disciplined(s: State) {
    && (s.isRunning <==> s.destructor.Idle? || s.destructor.Stopping?)
    && (s.consumer.Done? ==> !s.isRunning)
    && (s.destructor.Flushing? || s.destructor.Finished? ==> s.consumer.Done?)
    && (s.destructor.Flushing? ==> s.destructor.next <= |s.buffer|)
    && (s.consumer.Inside? || s.consumer.Wrote? ==> s.locked)
    && (s.locked ==> s.consumer.Inside? || s.consumer.Wrote? || s.consumer.Done?)
    && (s.consumer.Wrote? ==> s.buffer != [])
    && (s.consumer == Waiting(false) ==> s.buffer == [])
  }

  lemma MessagesAppend(h: seq<Outcome>, o: Outcome)
    ensures Messages(h + [o]) == Messages(h) + [o.msg]
  {
    assert (h + [o])[..|h|] == h;
  }

  lemma PrintConserves(s: State, m: Message, rest: seq<Message>)
    requires s.pushed == Messages(s.history) + ([m] + rest)
    ensures s.pushed == Messages(Printed(s, m).history) + rest
  {
    MessagesAppend(s.history, if s.open then Written(s.nameIdx, m) else Dropped(m));
  }

  lemma StepKeepsDiscipline(s: State, t: Step)
    requires Enabled(s, t) && Disciplined(s)
    ensures Disciplined(Apply(s, t))
  {
  }

  lemma StepConserves(s: State, t: Step)
    requires Enabled(s, t) && Disciplined(s) && Conserved(s)
    ensures Conserved(Apply(s, t))
  {
    hide Messages;
    if t.Look? {
      LookConserves(s);
    } else if t.Flush? {
      FlushConserves(s);
    } else if t.Push? || t.Close? {
      PushConserves(s, if t.Push? then t.msg else CLOSING);
    }
  }

  lemma LookConserves(s: State)
    requires Enabled(s, Look) && Disciplined(s) && Conserved(s)
    ensures Conserved(Apply(s, Look))
  {
    hide Messages;
    if s.buffer != [] {
      assert s.buffer == [s.buffer[0]] + s.buffer[1..];
      PrintConserves(s, s.buffer[0], s.buffer[1..]);
    }
  }

  lemma FlushConserves(s: State)
    requires Enabled(s, Flush) && Conserved(s)
    ensures Conserved(Apply(s, Flush))
  {
    hide Messages;
    var i := s.destructor.next;
    assert s.buffer[i..] == [s.buffer[i]] + s.buffer[i + 1..];
    PrintConserves(s, s.buffer[i], s.buffer[i + 1..]);
  }

  lemma PushConserves(s: State, m: Message)
    requires Disciplined(s) && Conserved(s) && !s.locked && !s.destructor.Flushing? && !s.destructor.Finished?
    ensures Conserved(Pushed(s, m))
  {
    hide Messages;
    assert Messages(s.history) + (s.buffer + [m]) == Messages(s.history) + s.buffer + [m];
  }

  // ---------- the files ----------

  /** What was written to file `f`, in order. */
  function Contents(h: seq<Outcome>, f: nat): (ms: seq<Message>) {
    if h == [] then []
    else Contents(h[..|h| - 1], f) + if Last(h).Written? && Last(h).file == f then [Last(h).msg] else []
  }

  /** The files up to number `n`, one after the other. */
  function AllFiles(h: seq<Outcome>, n: nat): (ms: seq<Message>) {
    (if n == 0 then [] else AllFiles(h, n - 1)) + Contents(h, n)
  }

  function Total(ms: seq<Message>): (n: nat) {
    if ms == [] then 0 else Total(ms[..|ms| - 1]) + |ms[|ms| - 1]|
  }

  /** The numbers of the files written to never fall and are at most `n`. */
  ghost predicate InOrder(h: seq<Outcome>, n: nat) {
    h != [] ==>
      if Last(h).Written? then Last(h).file <= n && InOrder(h[..|h| - 1], Last(h).file)
      else InOrder(h[..|h| - 1], n)
  }

  ghost predicate AllWritten(h: seq<Outcome>) { forall i :: 0 <= i < |h| ==> h[i].Written? }

  /** Once a message is dropped, so is every later one. */
  ghost predicate DropsLast(h: seq<Outcome>) {
    h != [] ==> AllWritten(h) || (Last(h).Dropped? && DropsLast(h[..|h| - 1]))
  }

  lemma ContentsAppend(h: seq<Outcome>, o: Outcome, f: nat)
    ensures Contents(h + [o], f) == Contents(h, f) + if o.Written? && o.file == f then [o.msg] else []
  {
    assert (h + [o])[..|h|] == h;
  }

  lemma TotalAppend(ms: seq<Message>, m: Message)
    ensures Total(ms + [m]) == Total(ms) + |m|
  {
    assert (ms + [m])[..|ms|] == ms;
  }

  lemma {:induction false} InOrderGrows(h: seq<Outcome>, n: nat)
    requires InOrder(h, n)
    ensures InOrder(h, n + 1)
  {
    if h != [] && Last(h).Dropped? {
      InOrderGrows(h[..|h| - 1], n);
    }
  }

  lemma {:induction false} NothingBeyond(h: seq<Outcome>, n: nat, f: nat)
    requires InOrder(h, n) && n < f
    ensures Contents(h, f) == []
  {
    if h != [] {
      NothingBeyond(h[..|h| - 1], if Last(h).Written? then Last(h).file else n, f);
    }
  }

  /** The files one after the other after one more outcome. */
  lemma {:induction false} AllFilesAppend(h: seq<Outcome>, o: Outcome, n: nat)
    requires o.Written? ==> o.file <= n && InOrder(h, o.file)
    ensures AllFiles(h + [o], n) == AllFiles(h, n) + if o.Written? then [o.msg] else []
    decreases n
  {
    hide Contents, InOrder, AllFiles;
    if o.Dropped? {
      AllFilesWithout(h, o, n);
      assert AllFiles(h, n) + [] == AllFiles(h, n);
    } else if o.file == n {
      CurrentFileGrows(h, o, n);
    } else {
      NothingBeyond(h, o.file, n);
      ContentsAppend(h, o, n);
      LastFileEmpty(h, n);
      LastFileEmpty(h + [o], n);
      AllFilesAppend(h, o, n - 1);
    }
  }

  lemma LastFileEmpty(h: seq<Outcome>, n: nat)
    requires n > 0 && Contents(h, n) == []
    ensures AllFiles(h, n) == AllFiles(h, n - 1)
  {
    hide Contents;
    assert AllFiles(h, n - 1) + [] == AllFiles(h, n - 1);
  }

  lemma CurrentFileGrows(h: seq<Outcome>, o: Outcome, n: nat)
    requires o.Written? && o.file == n
    ensures AllFiles(h + [o], n) == AllFiles(h, n) + [o.msg]
  {
    hide Contents;
    ContentsAppend(h, o, n);
    if n > 0 {
      AllFilesWithout(h, o, n - 1);
    }
    var before := if n == 0 then [] else AllFiles(h, n - 1);
    assert before + (Contents(h, n) + [o.msg]) == before + Contents(h, n) + [o.msg];
  }

  lemma {:induction false} AllFilesWithout(h: seq<Outcome>, o: Outcome, n: nat)
    requires o.Dropped? || n < o.file
    ensures AllFiles(h + [o], n) == AllFiles(h, n)
  {
    hide Contents;
    ContentsAppend(h, o, n);
    assert Contents(h, n) + [] == Contents(h, n);
    if n > 0 {
      AllFilesWithout(h, o, n - 1);
    }
  }

  /** The files hold the messages that left the queue up to the first that was dropped. */
  lemma {:induction false} FilesHoldThePrefix(h: seq<Outcome>, n: nat)
    requires InOrder(h, n) && DropsLast(h)
    ensures AllFiles(h, n) <= Messages(h)
    ensures AllWritten(h) ==> AllFiles(h, n) == Messages(h)
    decreases |h|
  {
    if h == [] {
      NoFiles(n);
    } else {
      var front, o := h[..|h| - 1], Last(h);
      assert h == front + [o];
      assert AllWritten(h) ==> AllWritten(front);
      AllWrittenDropsLast(front);
      InOrderFront(h, n);
      FilesHoldThePrefix(front, n);
      AllFilesAppend(front, o, n);
    }
  }

  lemma {:induction false} NoFiles(n: nat)
    ensures AllFiles([], n) == []
  {
    if n > 0 {
      NoFiles(n - 1);
    }
  }

  lemma AllWrittenDropsLast(h: seq<Outcome>)
    ensures AllWritten(h) ==> DropsLast(h)
  {
  }

  lemma InOrderFront(h: seq<Outcome>, n: nat)
    requires InOrder(h, n) && h != []
    ensures InOrder(h[..|h| - 1], n)
  {
    if Last(h).Written? {
      InOrderUpTo(h[..|h| - 1], Last(h).file, n);
    }
  }

  lemma {:induction false} InOrderUpTo(h: seq<Outcome>, k: nat, n: nat)
    requires InOrder(h, k) && k <= n
    ensures InOrder(h, n)
    decreases n - k
  {
    if k < n {
      InOrderGrows(h, k);
      InOrderUpTo(h, k + 1, n);
    }
  }

  /** Exactly full: the last message took the file to the limit. */
  ghost predicate Full(c: seq<Message>, limit: int) {
    c != [] && Total(c[..|c| - 1]) < limit <= Total(c)
  }

  /** The counter is the size of the current file, but for the message that is being counted. */
  ghost predicate CountsUp(c: seq<Message>, length: nat, consumer: Consumer) {
    if consumer.Wrote? || consumer.Counting? then
      c != [] && Total(c[..|c| - 1]) == length && |c[|c| - 1]| == consumer.n
    else Total(c) == length
  }

  /** The part of the state that the files depend on. */
  ghost predicate Ordered(s: State) {
    && InOrder(s.history, s.nameIdx)
    && DropsLast(s.history) && (s.open ==> AllWritten(s.history))
    && (!s.open && (s.consumer.Wrote? || s.consumer.Counting?) ==> s.consumer.n == 0)
  }

  ghost predicate Sized(s: State) {
    && (forall f: nat :: f < s.nameIdx ==> Full(Contents(s.history, f), s.maxLength))
    && (s.maxLength > 0 ==> s.curLength < s.maxLength)
    && (s.maxLength <= 0 ==> s.nameIdx == 0)
    && (s.open && !s.consumer.Done? ==> CountsUp(Contents(s.history, s.nameIdx), s.curLength, s.consumer))
  }

  lemma PrintKeepsOrder(s: State, m: Message)
    requires Ordered(s)
    ensures var h := Printed(s, m).history;
            InOrder(h, s.nameIdx) && DropsLast(h) && (s.open ==> AllWritten(h))
  {
    hide InOrder, DropsLast, AllWritten;
    if s.open {
      InOrderAppend(s.history, Written(s.nameIdx, m), s.nameIdx);
      AllWrittenAppend(s.history, Written(s.nameIdx, m));
    } else {
      InOrderAppend(s.history, Dropped(m), s.nameIdx);
      DropsLastAppend(s.history, Dropped(m));
    }
  }

  lemma InOrderAppend(h: seq<Outcome>, o: Outcome, n: nat)
    requires InOrder(h, n) && (o.Written? ==> o.file == n)
    ensures InOrder(h + [o], n)
  {
    assert (h + [o])[..|h|] == h && Last(h + [o]) == o;
  }

  lemma AllWrittenAppend(h: seq<Outcome>, o: Outcome)
    requires AllWritten(h) && o.Written?
    ensures AllWritten(h + [o]) && DropsLast(h + [o])
  {
  }

  lemma DropsLastAppend(h: seq<Outcome>, o: Outcome)
    requires DropsLast(h) && o.Dropped?
    ensures DropsLast(h + [o])
  {
    assert (h + [o])[..|h|] == h && Last(h + [o]) == o;
  }

  lemma StepKeepsOrder(s: State, t: Step)
    requires Enabled(s, t) && Ordered(s)
    ensures Ordered(Apply(s, t))
  {
    if t.Look? && s.buffer != [] {
      hide InOrder, DropsLast, AllWritten;
      PrintKeepsOrder(s, s.buffer[0]);
    } else if t.Flush? {
      hide InOrder, DropsLast, AllWritten;
      PrintKeepsOrder(s, s.buffer[s.destructor.next]);
    } else if t.Count? {
      InOrderGrows(s.history, s.nameIdx);
      hide InOrder, DropsLast, AllWritten;
    }
  }

  /** Printing adds to the current file and to no other. */
  lemma PrintedContents(s: State, m: Message, f: nat)
    ensures Contents(Printed(s, m).history, f)
            == if s.open && f == s.nameIdx then Contents(s.history, f) + [m] else Contents(s.history, f)
  {
    ContentsAppend(s.history, if s.open then Written(s.nameIdx, m) else Dropped(m), f);
  }

  lemma LookKeepsSizes(s: State)
    requires s.consumer.Inside? && s.buffer != [] && Sized(s)
    ensures Sized(Apply(s, Look))
  {
    hide Contents, Full;
    var m := s.buffer[0];
    forall f: nat | f <= s.nameIdx
      ensures Contents(Printed(s, m).history, f)
              == if s.open && f == s.nameIdx then Contents(s.history, f) + [m] else Contents(s.history, f)
    {
      PrintedContents(s, m, f);
    }
    var c := Contents(s.history, s.nameIdx);
    assert (c + [m])[..|c|] == c;
  }

  lemma FlushKeepsSizes(s: State)
    requires Enabled(s, Flush) && s.consumer.Done? && Sized(s)
    ensures Sized(Apply(s, Flush))
  {
    hide Contents, Full;
    var m := s.buffer[s.destructor.next];
    forall f: nat | f < s.nameIdx
      ensures Contents(Printed(s, m).history, f) == Contents(s.history, f)
    {
      PrintedContents(s, m, f);
    }
  }

  lemma CountKeepsSizes(s: State, opens: bool)
    requires s.consumer.Counting? && Sized(s) && Ordered(s)
    ensures Sized(Apply(s, Count(opens)))
  {
    hide Contents, InOrder, DropsLast, AllWritten;
    var c, n := Contents(s.history, s.nameIdx), s.consumer.n;
    if s.open {
      assert c == c[..|c| - 1] + [c[|c| - 1]];
      TotalAppend(c[..|c| - 1], c[|c| - 1]);
    }
    NothingBeyond(s.history, s.nameIdx, s.nameIdx + 1);
  }

  lemma StepKeepsSizes(s: State, t: Step)
    requires Enabled(s, t) && Disciplined(s) && Ordered(s) && Sized(s)
    ensures Sized(Apply(s, t))
  {
    if t.Look? && s.buffer != [] {
      LookKeepsSizes(s);
    } else if t.Flush? {
      FlushKeepsSizes(s);
    } else if t.Count? {
      CountKeepsSizes(s, t.opens);
    } else {
      hide Contents, Full, Total, InOrder, DropsLast, AllWritten;
    }
  }

  // ---------- all runs ----------

  ghost predicate Inv(s: State) { Disciplined(s) && Conserved(s) && Ordered(s) && Sized(s) }

  lemma {:induction false} RunKeepsInv(s: State, ts: seq<Step>)
    requires Possible(s, ts) && Inv(s)
    ensures Inv(After(s, ts))
    decreases |ts|
  {
    hide Apply, Enabled, Disciplined, Conserved, Ordered, Sized;
    if ts != [] {
      StepKeepsDiscipline(s, ts[0]);
      StepConserves(s, ts[0]);
      StepKeepsOrder(s, ts[0]);
      StepKeepsSizes(s, ts[0]);
      RunKeepsInv(Apply(s, ts[0]), ts[1..]);
    }
  }

  lemma InitHasInv(maxLength: int, opens: bool)
    ensures Inv(Init(maxLength, opens))
  {
  }

  /** In every state of every run the files, one after the other, hold a prefix of what was pushed; as
      long as every file has opened, files and queue together hold exactly what was pushed, in order. */
  lemma NothingIsLost(maxLength: int, opens: bool, ts: seq<Step>)
    requires Possible(Init(maxLength, opens), ts)
    ensures var s := After(Init(maxLength, opens), ts);
            && AllFiles(s.history, s.nameIdx) <= s.pushed
            && s.pushed == Messages(s.history) + Pending(s)
            && (s.open ==> AllFiles(s.history, s.nameIdx) + Pending(s) == s.pushed)
  {
    InitHasInv(maxLength, opens);
    RunKeepsInv(Init(maxLength, opens), ts);
    var s := After(Init(maxLength, opens), ts);
    FilesHoldThePrefix(s.history, s.nameIdx);
  }

  /** When the destructor has finished, every message pushed was written exactly once, in order, if
      every file has opened. */
  lemma DestructorWritesEverything(maxLength: int, opens: bool, ts: seq<Step>)
    requires Possible(Init(maxLength, opens), ts)
    requires After(Init(maxLength, opens), ts).destructor.Finished?
    ensures var s := After(Init(maxLength, opens), ts);
            Messages(s.history) == s.pushed && (s.open ==> AllFiles(s.history, s.nameIdx) == s.pushed)
  {
    hide Possible, After, AllFiles, Messages;
    NothingIsLost(maxLength, opens, ts);
    var s := After(Init(maxLength, opens), ts);
    assert Messages(s.history) + [] == Messages(s.history);
    assert AllFiles(s.history, s.nameIdx) + [] == AllFiles(s.history, s.nameIdx);
  }

  /** A file is given up exactly when a message takes it to the limit, and never without a limit. */
  lemma FilesAreExactlyFull(maxLength: int, opens: bool, ts: seq<Step>)
    requires Possible(Init(maxLength, opens), ts)
    ensures var s := After(Init(maxLength, opens), ts);
            && (maxLength <= 0 ==> s.nameIdx == 0)
            && forall f: nat :: f < s.nameIdx ==> Full(Contents(s.history, f), maxLength)
  {
    InitHasInv(maxLength, opens);
    RunKeepsInv(Init(maxLength, opens), ts);
    LimitStays(Init(maxLength, opens), ts);
  }

  lemma {:induction false} LimitStays(s: State, ts: seq<Step>)
    requires Possible(s, ts)
    ensures After(s, ts).maxLength == s.maxLength
    decreases |ts|
  {
    if ts != [] {
      LimitStays(Apply(s, ts[0]), ts[1..]);
    }
  }

  // ---------- shutting down ----------

  /** Steps that need neither another producer nor a spurious wakeup. */
  ghost predicate Unaided(ts: seq<Step>) {
    forall i :: 0 <= i < |ts| ==> !ts[i].Push? && ts[i] != Wake(true)
  }

  /** The consumer sleeps, or is about to sleep, and the signal of the destructor is already gone. */
  predicate Stuck(s: State) {
    && s.destructor.Joining? && s.buffer == []
    && (s.consumer.Locking? || s.consumer.Inside? || s.consumer == Waiting(false))
  }

  ghost predicate CanFinish(s: State) {
    exists ts :: Unaided(ts) && Possible(s, ts) && After(s, ts).destructor.Finished?
  }

  lemma {:induction false} StuckStays(s: State, ts: seq<Step>)
    requires Stuck(s) && Unaided(ts) && Possible(s, ts)
    ensures Stuck(After(s, ts))
    decreases |ts|
  {
    if ts != [] {
      assert !ts[0].Push? && ts[0] != Wake(true);
      StuckStays(Apply(s, ts[0]), ts[1..]);
    }
  }

  function Rank(c: Consumer): nat {
    match c
    case Locking => 5
    case Inside => 4
    case Wrote(_) => 3
    case Counting(_) => 2
    case Testing => 1
    case Waiting(_) => 1
    case Done => 0
  }

  function NextStep(c: Consumer): Step {
    match c
    case Locking => Lock
    case Inside => Look
    case Wrote(_) => Pop
    case Counting(_) => Count(true)
    case Testing => Test
    case Waiting(_) => Wake(false)
    case Done => Join
  }

  lemma ConsumerAdvances(s: State)
    requires Disciplined(s) && s.destructor.Joining? && !Stuck(s) && !s.consumer.Done?
    ensures Enabled(s, NextStep(s.consumer))
    ensures var s' := Apply(s, NextStep(s.consumer));
            s'.destructor.Joining? && !Stuck(s') && Rank(s'.consumer) < Rank(s.consumer)
  {
  }

  lemma {:induction false} FlushFinishes(s: State) returns (ts: seq<Step>)
    requires s.destructor.Flushing? && s.destructor.next <= |s.buffer|
    ensures Unaided(ts) && Possible(s, ts) && After(s, ts).destructor.Finished?
    decreases |s.buffer| - s.destructor.next
  {
    if s.destructor.next == |s.buffer| {
      ts := [Finish];
    } else {
      var rest := FlushFinishes(Apply(s, Flush));
      ts := [Flush] + rest;
    }
  }

  lemma {:induction false} ShutdownFinishes(s: State) returns (ts: seq<Step>)
    requires Disciplined(s) && s.destructor.Joining? && !Stuck(s)
    ensures Unaided(ts) && Possible(s, ts) && After(s, ts).destructor.Finished?
    decreases Rank(s.consumer)
  {
    hide Apply, Enabled, Disciplined;
    var t := NextStep(s.consumer);
    var rest;
    if s.consumer.Done? {
      JoinStarts(s);
      rest := FlushFinishes(Apply(s, t));
    } else {
      ConsumerAdvances(s);
      StepKeepsDiscipline(s, t);
      rest := ShutdownFinishes(Apply(s, t));
    }
    ts := [t] + rest;
  }

  lemma JoinStarts(s: State)
    requires s.destructor.Joining? && s.consumer.Done?
    ensures Enabled(s, Join) && Apply(s, Join).destructor == Flushing(0)
  {
  }

  /** Once `is_running` is cleared, the destructor can finish on its own exactly when the consumer has
      not already passed its test of the flag with an empty queue before it. */
  lemma ShutdownExactly(maxLength: int, opens: bool, ts: seq<Step>)
    requires Possible(Init(maxLength, opens), ts)
    requires After(Init(maxLength, opens), ts).destructor.Joining?
    ensures var s := After(Init(maxLength, opens), ts); CanFinish(s) <==> !Stuck(s)
  {
    hide Apply, Enabled, Disciplined;
    InitHasInv(maxLength, opens);
    RunKeepsInv(Init(maxLength, opens), ts);
    FinishesExactly(After(Init(maxLength, opens), ts));
  }

  lemma FinishesExactly(s: State)
    requires Disciplined(s) && s.destructor.Joining?
    ensures CanFinish(s) <==> !Stuck(s)
  {
    hide Apply, Enabled, Disciplined;
    if Stuck(s) {
      forall us | Unaided(us) && Possible(s, us)
        ensures !After(s, us).destructor.Finished?
      {
        StuckStays(s, us);
      }
    } else {
      var us := ShutdownFinishes(s);
    }
  }

  // ---------- the closing message ----------

  ghost predicate SaysGoodbye(s: State) {
    !s.destructor.Idle? ==> exists i :: 0 <= i < |s.pushed| && s.pushed[i] == "Closing log\n"
  }

  lemma StepSaysGoodbye(s: State, t: Step)
    requires Enabled(s, t) && SaysGoodbye(s)
    ensures SaysGoodbye(Apply(s, t))
  {
    var s' := Apply(s, t);
    if t.Close? {
      assert s'.pushed[|s.pushed|] == "Closing log\n";
    } else if !s.destructor.Idle? {
      var i :| 0 <= i < |s.pushed| && s.pushed[i] == "Closing log\n";
      assert s'.pushed[i] == s.pushed[i];
    }
  }

  /** Once the destructor has begun, its closing message is among those pushed; `DestructorWritesEverything`
      then finds it in the files. */
  lemma {:induction false} ClosingMessageIsPushed(s: State, ts: seq<Step>)
    requires SaysGoodbye(s) && Possible(s, ts)
    ensures SaysGoodbye(After(s, ts))
    decreases |ts|
  {
    hide SaysGoodbye, Apply, Enabled;
    if ts != [] {
      StepSaysGoodbye(s, ts[0]);
      ClosingMessageIsPushed(Apply(s, ts[0]), ts[1..]);
    }
  }

  // ---------- every shutdown, from the step that clears the flag ----------

  /** The destructor is past its signal and nothing sleeps through it. */
  ghost predicate Closing(s: State) {
    Disciplined(s) && (s.destructor.Joining? ==> !Stuck(s)) && !s.destructor.Idle? && !s.destructor.Stopping?
  }

  /** The steps that are left, at most. */
  ghost function Left(s: State): nat
    requires Closing(s)
  {
    if s.destructor.Finished? then 0
    else if s.destructor.Flushing? then |s.buffer| - s.destructor.next + 1
    else Rank(s.consumer) + |s.buffer| + 2
  }

  lemma StepCloses(s: State, t: Step)
    requires Closing(s) && Enabled(s, t) && !t.Push? && t != Wake(true)
    ensures Closing(Apply(s, t)) && Left(Apply(s, t)) < Left(s)
  {
    StepKeepsDiscipline(s, t);
  }

  ghost predicate CanGoOn(s: State) { exists t :: Enabled(s, t) && !t.Push? && t != Wake(true) }

  lemma ClosingGoesOn(s: State)
    requires Closing(s) && !s.destructor.Finished?
    ensures CanGoOn(s)
  {
    var t := if s.destructor.Joining? then NextStep(s.consumer)
             else if s.destructor.next < |s.buffer| then Flush else Finish;
    if s.destructor.Joining? && !s.consumer.Done? {
      ConsumerAdvances(s);
    }
    assert Enabled(s, t);
  }

  /** Whatever the scheduler chooses, the shutdown takes at most `Left` steps and stops only at the end. */
  lemma {:induction false} EveryRunCloses(s: State, us: seq<Step>)
    requires Closing(s) && Unaided(us) && Possible(s, us)
    ensures |us| <= Left(s) && (After(s, us).destructor.Finished? || CanGoOn(After(s, us)))
    decreases |us|
  {
    hide Apply, Enabled, Closing, Left, CanGoOn;
    if us == [] {
      if !s.destructor.Finished? {
        ClosingGoesOn(s);
      }
    } else {
      assert !us[0].Push? && us[0] != Wake(true);
      StepCloses(s, us[0]);
      EveryRunCloses(Apply(s, us[0]), us[1..]);
    }
  }

  lemma StopCloses(s: State)
    requires Disciplined(s) && Enabled(s, Stop)
    ensures var s' := Apply(s, Stop);
            && Disciplined(s') && s'.destructor.Joining?
            && (Stuck(s') <==> s.consumer.Locking? && s.buffer == [])
            && (!Stuck(s') ==> Closing(s') && Left(s') <= |s.buffer| + 7)
  {
    StepKeepsDiscipline(s, Stop);
  }

  /** From the state in which the destructor clears the flag: it can finish on its own exactly unless the
      consumer has read the flag and not yet taken the mutex, with the queue empty; and when it can, every
      run does. */
  lemma ShutdownFromStop(maxLength: int, opens: bool, ts: seq<Step>)
    requires Possible(Init(maxLength, opens), ts) && Enabled(After(Init(maxLength, opens), ts), Stop)
    ensures var s := After(Init(maxLength, opens), ts);
            && (CanFinish(Apply(s, Stop)) <==> !(s.consumer.Locking? && s.buffer == []))
            && (CanFinish(Apply(s, Stop)) ==>
                  forall us :: Unaided(us) && Possible(Apply(s, Stop), us) ==>
                    var e := After(Apply(s, Stop), us);
                    |us| <= |s.buffer| + 7 && (e.destructor.Finished? || CanGoOn(e)))
  {
    InitHasInv(maxLength, opens);
    RunKeepsInv(Init(maxLength, opens), ts);
    var s := After(Init(maxLength, opens), ts);
    StopCloses(s);
    FinishesExactly(Apply(s, Stop));
    hide *;
    if CanFinish(Apply(s, Stop)) {
      forall us | Unaided(us) && Possible(Apply(s, Stop), us)
        ensures var e := After(Apply(s, Stop), us);
                |us| <= |s.buffer| + 7 && (e.destructor.Finished? || CanGoOn(e))
      {
        EveryRunCloses(Apply(s, Stop), us);
      }
    }
  }

  lemma {:induction false} RunsJoin(s: State, ts: seq<Step>, us: seq<Step>)
    requires Possible(s, ts) && Possible(After(s, ts), us)
    ensures Possible(s, ts + us) && After(s, ts + us) == After(After(s, ts), us)
    decreases |ts|
  {
    hide Apply, Enabled;
    if ts == [] {
      assert ts + us == us;
    } else {
      RunsJoin(Apply(s, ts[0]), ts[1..], us);
      assert (ts + us)[1..] == ts[1..] + us;
    }
  }

  lemma TwoSteps(s: State, t: Step, u: Step)
    requires Enabled(s, t) && Enabled(Apply(s, t), u)
    ensures Possible(s, [t, u]) && After(s, [t, u]) == Apply(Apply(s, t), u)
  {
    hide Apply, Enabled;
    var s' := Apply(s, t);
    assert [t, u][1..] == [u] && [u][1..] == [];
    assert Possible(Apply(s', u), []);
    assert Possible(s', [u]) && After(s', [u]) == Apply(s', u);
  }

  /** The consumer passes its test of the flag, and only then the destructor clears it. */
  lemma FlagReadTooEarly(s: State)
    requires s.consumer.Testing? && s.destructor.Stopping? && s.isRunning && !s.locked && s.buffer == []
    ensures Possible(s, [Test, Stop]) && Stuck(After(s, [Test, Stop]))
  {
    TwoSteps(s, Test, Stop);
  }

  /** The consumer writes the closing message before the destructor goes on. */
  lemma ClosingIsWritten() returns (ts: seq<Step>)
    ensures Possible(Init(0, true), ts)
    ensures var s := After(Init(0, true), ts);
            s.consumer.Testing? && s.destructor.Stopping? && s.isRunning && !s.locked && s.buffer == []
  {
    var s := Init(0, true);
    TwoSteps(s, Test, Close);
    var s2 := After(s, [Test, Close]);
    assert s2.consumer.Locking? && s2.destructor.Stopping? && s2.isRunning && !s2.locked && |s2.buffer| == 1;
    var us := OneIsWritten(s2);
    RunsJoin(s, [Test, Close], us);
    ts := [Test, Close] + us;
  }

  lemma OneIsWritten(s: State) returns (ts: seq<Step>)
    requires s.consumer.Locking? && s.destructor.Stopping? && s.isRunning && !s.locked && |s.buffer| == 1
    ensures Possible(s, ts)
    ensures var s' := After(s, ts);
            s'.consumer.Testing? && s'.destructor.Stopping? && s'.isRunning && !s'.locked && s'.buffer == []
  {
    TwoSteps(s, Lock, Look);
    var s2 := After(s, [Lock, Look]);
    TwoSteps(s2, Pop, Count(true));
    RunsJoin(s, [Lock, Look], [Pop, Count(true)]);
    ts := [Lock, Look] + [Pop, Count(true)];
  }

  /** Such a state is reached: the closing message is already written when the flag is cleared. */
  lemma SignalCanBeMissed()
    ensures exists ts :: Possible(Init(0, true), ts) && Stuck(After(Init(0, true), ts))
  {
    hide Possible, After;
    var ts := ClosingIsWritten();
    FlagReadTooEarly(After(Init(0, true), ts));
    RunsJoin(Init(0, true), ts, [Test, Stop]);
  }
}
