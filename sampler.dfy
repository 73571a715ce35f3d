/** The sampling loop of `main`: one hundred iterations, each writing the whole
    message to the child and then reading one response line into the buffer `b`.
    The kernel's answers are scripts chosen by the environment: `writes` lists what
    successive write() calls report, `replies` what successive one-byte read() calls
    deliver. A script that runs out stands for a call that blocks forever. */
module Sampler {
  import opened Invocation

  /** The fixed number of requests of a run. */
  const Iterations: nat := 100

  // ---------------------------------------------------------------------------
  // Sending: `for(;;) { r = write(1, msg+n, msglen-n); ... }`
  // ---------------------------------------------------------------------------

  /** What write(fd, buf, count) returns when the environment offers `offer`: a
      non-positive offer is an error or no progress, and the kernel never reports
      more bytes than it was asked to write. */
  function WriteResult(offer: int, count: nat): (r: int)
    ensures r <= count
    ensures r > 0 <==> offer > 0 && count > 0
    ensures 0 < r < count ==> r == offer
  {
    if offer > count then count else offer
  }

  datatype SendStatus = AllSent | WriteFailed | WriteStalled

  /** How a send loop ended, how many write() calls it made, how many bytes went out. */
  datatype Transmission = Transmission(status: SendStatus, calls: nat, sent: nat)

  /** The send loop of a message of `len` bytes, resumed with `n` bytes already sent. */
  function Transmit(len: nat, n: nat, writes: seq<int>): (t: Transmission)
    requires n <= len
    decreases |writes|
    ensures t.calls <= |writes|
    ensures n <= t.sent <= len
    ensures t.status == AllSent ==> 0 < t.calls && t.sent == len
    ensures t.status != AllSent ==> t.sent < len || n == len
    ensures t.status == WriteFailed ==> 0 < t.calls
    ensures t.status == WriteStalled ==> t.calls == |writes|
  {
    if writes == [] then Transmission(WriteStalled, 0, n)
    else
      var r := WriteResult(writes[0], len - n);
      if r <= 0 then Transmission(WriteFailed, 1, n)
      else if n + r >= len then Transmission(AllSent, 1, len)
      else
        var rest := Transmit(len, n + r, writes[1..]);
        Transmission(rest.status, rest.calls + 1, rest.sent)
  }

  /** Only positive write() results advance the send loop: every call before the last
      one made progress, and so did the last one unless the loop failed. So a call
      that reports an error or no progress always ends the loop with a failure. */
  lemma {:induction false} TransmitProgress(len: nat, n: nat, writes: seq<int>)
    requires n <= len
    ensures var t := Transmit(len, n, writes);
      forall j :: 0 <= j < t.calls - 1 || (t.status != WriteFailed && 0 <= j < t.calls) ==> writes[j] > 0
    // the failing call reports an error, or was asked to write nothing at all
    ensures var t := Transmit(len, n, writes);
      t.status == WriteFailed ==> writes[t.calls - 1] <= 0 || (t.calls == 1 && n == len)
    decreases |writes|
  {
    if writes != [] {
      var r := WriteResult(writes[0], len - n);
      if r > 0 && n + r < len {
        TransmitProgress(len, n + r, writes[1..]);
        var t := Transmit(len, n, writes);
        forall j | 0 < j < t.calls - 1 || (t.status != WriteFailed && 0 < j < t.calls)
          ensures writes[j] > 0
        {
          assert writes[j] == writes[1..][j - 1];
        }
      }
    }
  }

  /** The send loop: it hands msg[n..] to write() until every byte has gone out, and
      gives up at the first write() that reports an error or no progress. `ws` is what
      is left of the script. `wire` is what the child receives: always the first bytes
      of the message, in order. */
  method SendAll(msg: string, writes: seq<int>) returns (t: Transmission, wire: string)
    ensures t == Transmit(|msg|, 0, writes)
    ensures wire == msg[..t.sent]
    ensures t.status == AllSent ==> wire == msg
  {
    var n, calls, ws := 0, 0, writes;
    wire := [];
    while true
      invariant 0 <= n <= |msg| && calls + |ws| == |writes|
      invariant calls > 0 ==> n < |msg|
      invariant wire == msg[..n]
      invariant Transmit(|msg|, 0, writes) == Resumed(Transmit(|msg|, n, ws), calls)
      decreases |ws|
    {
      if ws == [] {
        return Transmission(WriteStalled, calls, n), wire;
      }
      var r := WriteResult(ws[0], |msg| - n);
      ws, calls := ws[1..], calls + 1;
      if r <= 0 {
        return Transmission(WriteFailed, calls, n), wire;
      }
      wire := wire + msg[n..n + r];
      n := n + r;
      if n >= |msg| {
        return Transmission(AllSent, calls, n), wire;
      }
    }
  }

  /** `t` with `calls` earlier write() calls counted in. */
  function Resumed(t: Transmission, calls: nat): Transmission
  {
    t.(calls := t.calls + calls)
  }

  /** When every write() makes progress and the script is long enough, the whole
      message goes out, in at most one call per byte. */
  lemma {:induction false} ProgressDeliversAll(len: nat, n: nat, writes: seq<int>)
    requires n < len
    requires len - n <= |writes|
    requires forall j :: 0 <= j < |writes| ==> writes[j] > 0
    ensures Transmit(len, n, writes).status == AllSent
    ensures Transmit(len, n, writes).calls <= len - n
    decreases |writes|
  {
    var r := WriteResult(writes[0], len - n);
    if n + r < len {
      ProgressDeliversAll(len, n + r, writes[1..]);
    }
  }

  // ---------------------------------------------------------------------------
  // Receiving: `for(n=0; n<blen; n++) { r = read(0, &cc, 1); ... }`
  // ---------------------------------------------------------------------------

  /** What one read() of one byte delivers: a byte (r == 1), end of stream (r == 0)
      or an error (r < 0). */
  datatype ReadEvent = Byte(c: char) | EndOfStream | ReadError

  /** A byte that does not end the line. */
  predicate IsData(e: ReadEvent)
  {
    e.Byte? && e.c != '\n'
  }

  /** How the line reader ended; `n` is the buffer index at that point. */
  datatype Reception =
    | Line(n: nat)          // a newline was read into b[n]
    | Closed(n: nat)        // end of stream after n bytes
    | ReadFailed(n: nat)    // read() reported an error
    | TooLarge              // blen bytes arrived without a newline
    | ReadStalled(n: nat)   // read() never returns

  /** The characters of a run of byte events. */
  function Chars(events: seq<ReadEvent>): (s: string)
    ensures |s| == |events|
    ensures forall j {:trigger s[j]} :: 0 <= j < |s| ==> s[j] == CharOf(events[j])
  {
    if events == [] then [] else [CharOf(events[0])] + Chars(events[1..])
  }

  /** The character a byte event delivers; any other event stands for none. */
  function CharOf(e: ReadEvent): char
  {
    if e.Byte? then e.c else '\0'
  }

  /** The reader's outcome on `events` with capacity `cap`, resumed at index `n`. */
  function Scan(events: seq<ReadEvent>, cap: nat, n: nat): (r: Reception)
    requires n <= cap && n <= |events|
    decreases cap - n
    ensures r.TooLarge? ==> cap <= |events|
    // the index at which the terminator is written is inside the buffer
    ensures !r.TooLarge? ==> n <= r.n < cap && r.n <= |events|
    ensures r.Line? || r.Closed? || r.ReadFailed? ==> r.n < |events|
    ensures r.ReadStalled? ==> r.n == |events|
  {
    if n == cap then TooLarge
    else if n == |events| then ReadStalled(n)
    else match events[n]
      case ReadError => ReadFailed(n)
      case EndOfStream => Closed(n)
      case Byte(c) => if c == '\n' then Line(n) else Scan(events, cap, n + 1)
  }

  /** `k` is the first index from `n` on, inside the capacity, whose event is not a
      plain data byte. */
  predicate FirstStop(events: seq<ReadEvent>, cap: nat, n: nat, k: nat)
  {
    && n <= k < cap
    && k < |events|
    && !IsData(events[k])
    && forall j :: n <= j < k ==> IsData(events[j])
  }

  /** The reader returns a line exactly when a newline arrives before any other
      stopping event and before the buffer is full. */
  lemma {:induction false} ScanLine(events: seq<ReadEvent>, cap: nat, n: nat, k: nat)
    requires n <= cap && n <= |events|
    ensures Scan(events, cap, n) == Line(k) <==> FirstStop(events, cap, n, k) && events[k] == Byte('\n')
    decreases cap - n
  {
    if n < cap && n < |events| && IsData(events[n]) {
      ScanLine(events, cap, n + 1, k);
      if FirstStop(events, cap, n, k) && k != n {
        assert FirstStop(events, cap, n + 1, k);
      }
    }
  }

  /** The reader stops at end of stream exactly when the stream ends before any
      newline, error or full buffer. */
  lemma {:induction false} ScanClosed(events: seq<ReadEvent>, cap: nat, n: nat, k: nat)
    requires n <= cap && n <= |events|
    ensures Scan(events, cap, n) == Closed(k) <==> FirstStop(events, cap, n, k) && events[k] == EndOfStream
    decreases cap - n
  {
    if n < cap && n < |events| && IsData(events[n]) {
      ScanClosed(events, cap, n + 1, k);
      if FirstStop(events, cap, n, k) && k != n {
        assert FirstStop(events, cap, n + 1, k);
      }
    }
  }

  /** The reader reports an error exactly when read() fails before any newline, end
      of stream or full buffer. */
  lemma {:induction false} ScanFailed(events: seq<ReadEvent>, cap: nat, n: nat, k: nat)
    requires n <= cap && n <= |events|
    ensures Scan(events, cap, n) == ReadFailed(k) <==> FirstStop(events, cap, n, k) && events[k] == ReadError
    decreases cap - n
  {
    if n < cap && n < |events| && IsData(events[n]) {
      ScanFailed(events, cap, n + 1, k);
      if FirstStop(events, cap, n, k) && k != n {
        assert FirstStop(events, cap, n + 1, k);
      }
    }
  }

  /** The reader blocks exactly when the script runs out while the buffer still has
      room and every byte so far was data. */
  lemma {:induction false} ScanStalled(events: seq<ReadEvent>, cap: nat, n: nat)
    requires n <= cap && n <= |events|
    ensures Scan(events, cap, n).ReadStalled? <==> |events| < cap && forall j :: n <= j < |events| ==> IsData(events[j])
    decreases cap - n
  {
    if n < cap && n < |events| && IsData(events[n]) {
      ScanStalled(events, cap, n + 1);
    }
  }

  /** The reader overflows exactly when the whole buffer fills with data bytes. */
  lemma {:induction false} ScanTooLarge(events: seq<ReadEvent>, cap: nat, n: nat)
    requires n <= cap && n <= |events|
    ensures Scan(events, cap, n) == TooLarge <==> cap <= |events| && forall j :: n <= j < cap ==> IsData(events[j])
    decreases cap - n
  {
    if n < cap && n < |events| && IsData(events[n]) {
      ScanTooLarge(events, cap, n + 1);
    }
  }

  /** The line reader: it stores the bytes read at b[0..n) in order and stops at the
      first newline (which the terminating NUL then overwrites) or at end of stream;
      on an error or a full buffer the run is aborted. */
  method ReceiveLine(b: array<char>, events: seq<ReadEvent>) returns (r: Reception)
    modifies b
    ensures r == Scan(events, b.Length, 0)
    ensures (r.Line? || r.Closed?) ==> r.n < b.Length && b[r.n] == '\0' && b[..r.n] == Chars(events[..r.n])
    ensures (r.Line? || r.Closed?) ==> b[r.n + 1..] == old(b[r.n + 1..])
    ensures r.TooLarge? ==> b[..] == Chars(events[..b.Length])
  {
    var n := 0;
    while n < b.Length
      invariant 0 <= n <= b.Length && n <= |events|
      invariant Scan(events, b.Length, 0) == Scan(events, b.Length, n)
      invariant forall j :: 0 <= j < n ==> IsData(events[j]) && b[j] == events[j].c
      invariant b[n..] == old(b[n..])
    {
      if n == |events| {
        return ReadStalled(n);
      }
      match events[n] {
        case ReadError => {
          return ReadFailed(n);
        }
        case EndOfStream => {
          break;
        }
        case Byte(c) => {
          b[n] := c;
          if c == '\n' {
            break;
          }
        }
      }
      n := n + 1;
    }
    if n >= b.Length {
      r := TooLarge;
      assert b[..] == Chars(events[..b.Length]);
      return;
    }
    assert b[n + 1..] == old(b[n + 1..]) by {
      assert b[n..][1..] == b[n + 1..];
    }
    r := if events[n] == EndOfStream then Closed(n) else Line(n);
    b[n] := '\0';
    assert b[..n] == Chars(events[..n]);
  }

  // ---------------------------------------------------------------------------
  // The driver: `for(i=0; i<100; i++) { send; receive; report }`
  // ---------------------------------------------------------------------------

  datatype Cause = WriteFailure | ReadFailure | ResponseTooLarge

  /** How one iteration ends: with a response line (after `calls` write() calls and
      `consumed` read() calls), with exit(-1), or blocked forever. */
  datatype Step = Next(calls: nat, consumed: nat, response: string) | Halt(cause: Cause) | Hang

  /** One iteration against the remaining scripts: the whole message is sent, then
      one line (or what came before end of stream) is read back. */
  function Round(msg: string, cap: nat, writes: seq<int>, replies: seq<ReadEvent>): (s: Step)
    ensures s.Next? ==> 0 < s.calls <= |writes| && s.consumed == |s.response| + 1 && s.consumed <= |replies|
    // the terminating NUL goes inside the buffer
    ensures s.Next? ==> |s.response| < cap
  {
    var sent := Transmit(|msg|, 0, writes);
    if sent.status == WriteFailed then Halt(WriteFailure)
    else if sent.status == WriteStalled then Hang
    else match Scan(replies, cap, 0)
      case ReadFailed(_) => Halt(ReadFailure)
      case TooLarge => Halt(ResponseTooLarge)
      case ReadStalled(_) => Hang
      case Line(n) => Next(sent.calls, n + 1, Chars(replies[..n]))
      case Closed(n) => Next(sent.calls, n + 1, Chars(replies[..n]))
  }

  /** An iteration produces a response exactly when the send loop sent the whole
      message and the reader then stopped at a newline or at end of stream; the
      request is written in full, in `calls` write() calls, before the response is
      read, and the response is the characters of the bytes read before that stop. */
  lemma RoundResponds(msg: string, cap: nat, writes: seq<int>, replies: seq<ReadEvent>)
    ensures Round(msg, cap, writes, replies).Next? <==>
      Transmit(|msg|, 0, writes).status == AllSent && (Scan(replies, cap, 0).Line? || Scan(replies, cap, 0).Closed?)
    ensures var s := Round(msg, cap, writes, replies);
      s.Next? ==> Transmit(|msg|, 0, writes) == Transmission(AllSent, s.calls, |msg|)
                  && s.response == Chars(replies[..|s.response|])
  {
  }

  /** One iteration of the loop of `main`: the send loop, then the line reader into
      `b`; the response is what `%s` prints of b, the bytes before the NUL at b[n]. */
  method Exchange(msg: string, b: array<char>, writes: seq<int>, replies: seq<ReadEvent>) returns (step: Step)
    modifies b
    ensures step == Round(msg, b.Length, writes, replies)
    ensures step.Next? ==> b[|step.response|] == '\0' && b[..|step.response|] == step.response
  {
    var sent, wire := SendAll(msg, writes);
    if sent.status == WriteFailed {
      return Halt(WriteFailure);
    } else if sent.status == WriteStalled {
      return Hang;
    }
    var got := ReceiveLine(b, replies);
    match got
    case ReadFailed(_) => step := Halt(ReadFailure);
    case TooLarge => step := Halt(ResponseTooLarge);
    case ReadStalled(_) => step := Hang;
    case Line(n) => step := Next(sent.calls, n + 1, b[..n]);
    case Closed(n) => step := Next(sent.calls, n + 1, b[..n]);
  }

  datatype Ending =
    | Completed
    | Aborted(iteration: nat, cause: Cause)   // exit(-1) in that iteration
    | Stalled(iteration: nat)                  // blocked forever in that iteration

  /** One report line: the iteration, the message without its newline, the response. */
  datatype Sample = Sample(index: nat, request: string, response: string)

  datatype Trace = Trace(ending: Ending, samples: seq<Sample>)

  /** The run from iteration `i` on, against the remaining scripts. Every completed
      iteration consumes at least one write() result, which bounds the recursion. */
  function Session(msg: string, cap: nat, writes: seq<int>, replies: seq<ReadEvent>, i: nat): Trace
    requires i <= Iterations
    decreases |writes|
  {
    if i == Iterations then Trace(Completed, [])
    else match Round(msg, cap, writes, replies)
      case Halt(cause) => Trace(Aborted(i, cause), [])
      case Hang => Trace(Stalled(i), [])
      case Next(calls, consumed, response) =>
        var rest := Session(msg, cap, writes[calls..], replies[consumed..], i + 1);
        Trace(rest.ending, [Sample(i, Text(msg), response)] + rest.samples)
  }

  /** One report per completed iteration: all one hundred when the run completes,
      and those before the failing iteration when it is aborted or blocked. */
  lemma {:induction false} SessionReports(msg: string, cap: nat, writes: seq<int>, replies: seq<ReadEvent>, i: nat)
    requires i <= Iterations
    ensures Session(msg, cap, writes, replies, i).ending.Completed? ==>
      |Session(msg, cap, writes, replies, i).samples| == Iterations - i
    ensures !Session(msg, cap, writes, replies, i).ending.Completed? ==>
      var t := Session(msg, cap, writes, replies, i);
      i <= t.ending.iteration < Iterations && |t.samples| == t.ending.iteration - i
    decreases Iterations - i
  {
    if i < Iterations {
      var step := Round(msg, cap, writes, replies);
      if step.Next? {
        SessionReports(msg, cap, writes[step.calls..], replies[step.consumed..], i + 1);
      }
    }
  }

  /** The reports are numbered in order from `i`, and each shows the message text. */
  lemma {:induction false} SessionNumbering(msg: string, cap: nat, writes: seq<int>, replies: seq<ReadEvent>, i: nat)
    requires i <= Iterations
    ensures var t := Session(msg, cap, writes, replies, i);
      forall j :: 0 <= j < |t.samples| ==> t.samples[j].index == i + j && t.samples[j].request == Text(msg)
    decreases Iterations - i
  {
    if i < Iterations {
      var step := Round(msg, cap, writes, replies);
      if step.Next? {
        var rest := Session(msg, cap, writes[step.calls..], replies[step.consumed..], i + 1);
        SessionNumbering(msg, cap, writes[step.calls..], replies[step.consumed..], i + 1);
        assert var t := Session(msg, cap, writes[step.calls..], replies[step.consumed..], i + 1);
          forall j :: 0 <= j < |t.samples| ==> t.samples[j].index == (i + 1) + j && t.samples[j].request == Text(msg);
        var first := Sample(i, Text(msg), step.response);
        assert Session(msg, cap, writes, replies, i).samples == [first] + rest.samples;
        ContinuedSamples(first, rest, i, Text(msg));
      }
    }
  }

  /** Numbering is kept when a report is put in front of those of the next iterations. */
  lemma ContinuedSamples(first: Sample, rest: Trace, i: nat, request: string)
    requires first.index == i && first.request == request
    requires forall j :: 0 <= j < |rest.samples| ==> rest.samples[j].index == i + 1 + j && rest.samples[j].request == request
    ensures var s := [first] + rest.samples;
      forall j :: 0 <= j < |s| ==> s[j].index == i + j && s[j].request == request
  {
  }

  /** One iteration, seen from the loop: a failing iteration ends the run with the
      reports already made; a completed one adds its report and the run goes on from
      the next iteration with the rest of both scripts. */
  lemma SessionStep(msg: string, cap: nat, writes: seq<int>, replies: seq<ReadEvent>, i: nat,
                    samples: seq<Sample>, step: Step)
    requires i < Iterations
    requires step == Round(msg, cap, writes, replies)
    ensures step.Halt? ==> After(samples, Session(msg, cap, writes, replies, i)) == Trace(Aborted(i, step.cause), samples)
    ensures step.Hang? ==> After(samples, Session(msg, cap, writes, replies, i)) == Trace(Stalled(i), samples)
    ensures step.Next? ==>
      After(samples, Session(msg, cap, writes, replies, i))
        == After(samples + [Sample(i, Text(msg), step.response)],
                 Session(msg, cap, writes[step.calls..], replies[step.consumed..], i + 1))
  {
  }

  /** `t` preceded by the reports already made. */
  function After(samples: seq<Sample>, t: Trace): Trace
  {
    Trace(t.ending, samples + t.samples)
  }

  /** The loop of `main`, `for(i=0; i<100; i++)`, over the response buffer `b`: one
      request at a time, each fully sent before its response is read, and the first
      failing iteration ends the run. `ws` and `rs` are what is left of the scripts. */
  method Run(msg: string, b: array<char>, writes: seq<int>, replies: seq<ReadEvent>) returns (t: Trace)
    modifies b
    ensures t == Session(msg, b.Length, writes, replies, 0)
  {
    var cap := b.Length;
    ghost var whole := Session(msg, cap, writes, replies, 0);
    var i: nat, ws, rs := 0, writes, replies;
    var samples: seq<Sample> := [];
    Unprefixed(whole);
    while i < Iterations
      invariant i <= Iterations
      invariant whole == After(samples, Session(msg, cap, ws, rs, i))
    {
      var step := Exchange(msg, b, ws, rs);
      SessionStep(msg, cap, ws, rs, i, samples, step);
      if step.Halt? {
        return Trace(Aborted(i, step.cause), samples);
      } else if step.Hang? {
        return Trace(Stalled(i), samples);
      }
      samples := samples + [Sample(i, Text(msg), step.response)];
      ws, rs, i := ws[step.calls..], rs[step.consumed..], i + 1;
    }
    SessionEnd(msg, cap, ws, rs, samples);
    t := Trace(Completed, samples);
  }

  /** No reports made yet: the run is what remains of it. */
  lemma Unprefixed(t: Trace)
    ensures After([], t) == t
  {
  }

  /** After the last iteration the run completes with the reports already made. */
  lemma SessionEnd(msg: string, cap: nat, writes: seq<int>, replies: seq<ReadEvent>, samples: seq<Sample>)
    ensures After(samples, Session(msg, cap, writes, replies, Iterations)) == Trace(Completed, samples)
  {
  }

  // ---------------------------------------------------------------------------
  // Properties of whole runs
  // ---------------------------------------------------------------------------

  /** The bytes of `msg` echoed `k` times, one byte per read(). */
  function Echo(msg: string, k: nat): (e: seq<ReadEvent>)
    ensures |e| == k * |msg|
  {
    if k == 0 then [] else seq(|msg|, j requires 0 <= j < |msg| => Byte(msg[j])) + Echo(msg, k - 1)
  }

  /** One round against an echoing peer: the whole message goes out in at most one
      write() per byte, and the line read back is the message text. */
  lemma EchoRound(msg: string, cap: nat, writes: seq<int>, k: nat)
    requires SingleLine(msg) && |msg| <= cap && 0 < k
    requires |msg| <= |writes| && forall j :: 0 <= j < |writes| ==> writes[j] > 0
    ensures var s := Round(msg, cap, writes, Echo(msg, k));
      && s.Next? && s.calls <= |msg| && s.consumed == |msg| && s.response == Text(msg)
      && Echo(msg, k)[s.consumed..] == Echo(msg, k - 1)
  {
    var replies := Echo(msg, k);
    var line := seq(|msg|, j requires 0 <= j < |msg| => Byte(msg[j]));
    assert replies == line + Echo(msg, k - 1);
    ProgressDeliversAll(|msg|, 0, writes);
    assert FirstStop(replies, cap, 0, |msg| - 1) && replies[|msg| - 1] == Byte('\n');
    ScanLine(replies, cap, 0, |msg| - 1);
    assert replies[|msg|..] == Echo(msg, k - 1);
    assert Chars(replies[..|msg| - 1]) == Text(msg);
  }

  /** Against a peer that echoes every line and write() calls that always make
      progress, the run completes, and every report shows the message text both as
      the request and as the response. */
  lemma {:induction false} EchoPeerCompletes(msg: string, cap: nat, writes: seq<int>, i: nat)
    requires SingleLine(msg) && |msg| <= cap
    requires i <= Iterations
    requires (Iterations - i) * |msg| <= |writes|
    requires forall j :: 0 <= j < |writes| ==> writes[j] > 0
    ensures Session(msg, cap, writes, Echo(msg, Iterations - i), i).ending == Completed
    ensures forall s :: s in Session(msg, cap, writes, Echo(msg, Iterations - i), i).samples ==> s.response == Text(msg)
    decreases Iterations - i
  {
    if i < Iterations {
      var k := Iterations - i;
      OneLineLess(k, |msg|);
      EchoRound(msg, cap, writes, k);
      var step := Round(msg, cap, writes, Echo(msg, k));
      EchoPeerCompletes(msg, cap, writes[step.calls..], i + 1);
    }
  }

  /** k lines of m bytes hold one line, and one line more than k - 1 lines. */
  lemma OneLineLess(k: nat, m: nat)
    requires 0 < k
    ensures m <= k * m && (k - 1) * m == k * m - m
  {
  }

  /** A peer that sends `cap` bytes without a newline makes the iteration abort with
      ResponseTooLarge, after the reports of the earlier iterations only. */
  lemma OverflowAborts(msg: string, cap: nat, writes: seq<int>, replies: seq<ReadEvent>, i: nat)
    requires i < Iterations
    requires Transmit(|msg|, 0, writes).status == AllSent
    requires cap <= |replies| && forall j :: 0 <= j < cap ==> IsData(replies[j])
    ensures Session(msg, cap, writes, replies, i) == Trace(Aborted(i, ResponseTooLarge), [])
  {
    ScanTooLarge(replies, cap, 0);
  }
}
