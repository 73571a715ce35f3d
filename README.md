# latency-meter, modelled in Dafny

latency-meter launches a shell command with two pipes: one carries the child's
standard input, the other the child's standard output. It then sends the child the
same one-line message one hundred times. Each time it writes the whole message,
reads one line back into a buffer and reports the round trip.

This project models the deterministic core of that program. The operating system
is replaced by an abstract kernel (`os.dfy`, module `Os`):

- the kernel holds the parent's descriptor table, a map from descriptor to
  `Inherited`, `ReadEnd(pipe)` or `WriteEnd(pipe)`;
- `pipe()`, `close()`, `dup2()` and the parent's view of `fork()` update that table;
- whether `pipe()` or `fork()` fails is chosen by the environment and passed in.

The files are:

- `launcher.dfy` (module `Launcher`): the dual-pipe launcher. It covers
  `createPipesForPopens`, `closePopenPipes` and the parent side of `popen2`. The
  pointers `int *in_fd` and `int *out_fd` are arrays of length one, or `null`, and
  the C arrays `pin[2]` and `pout[2]` are arrays of length two.
- `invocation.dfy` (module `Invocation`): the command line, the message and the
  capacity of the response buffer.
- `sampler.dfy` (module `Sampler`): the send loop, the bounded line reader that
  fills the buffer `b` in place, and the 100-iteration driver.
  - What `write()` reports is a script of integers, and what each one-byte `read()`
    delivers is a script of events (a byte, end of stream or an error).
  - A script that runs out stands for a call that blocks forever.
  - Each method is proved equal to a specification function: `Transmit`, `Scan`,
    `Round` or `Session`.
  - The lemmas about those functions state what a run does.
- `meter.dfy` (module `Meter`): `main` as a whole, including the rebinding of
  descriptors 0 and 1 to the pipe ends.

## Model

| member | source | states |
|---|---|---|
| Os.Kernel.Pipe | latency-meter.c:51 | on failure -1 and nothing changes; otherwise two fresh, distinct descriptors: fds[0] the read end and fds[1] the write end of one new pipe |
| Os.Kernel.Close | latency-meter.c:62-63 | the descriptor is removed from the table; 0 if it was open, -1 otherwise |
| Os.Kernel.Dup2 | latency-meter.c:169 | on success the new descriptor refers to what the old one refers to and is returned, every other descriptor unchanged; -1 and nothing changes when the old descriptor is not open |
| Os.Kernel.Fork | latency-meter.c:92 | the parent sees -1 on failure and a positive child pid otherwise, and its table is untouched |
| Launcher.CreatePipesForPopens | latency-meter.c:48-71 | returns 0 exactly when every requested pipe was created; every failure returns -1 with the table as it was, so nothing leaks (when only the second pipe fails, *out_fd already holds pin[1], which is closed again); on success the table gains exactly the requested pipes, *out_fd == pin[1] and *in_fd == pout[0], all fresh and pairwise distinct |
| Launcher.ClosePopenPipes | latency-meter.c:74-83 | both ends of every requested pipe are closed and nothing else is |
| Launcher.Popen2 | latency-meter.c:85-134 | a positive pid exactly when the pipes were created and fork succeeded; every failure (pipe or fork) returns -1 with the table as it was; on success the parent keeps exactly its old descriptors plus *in_fd and *out_fd, *out_fd is the write end of the pipe to the child, *in_fd the read end of the pipe from the child, and no other descriptor of the parent refers to either pipe |
| Launcher.CloseChildEnds | latency-meter.c:126-131 | the parent closes the write end of the pipe from the child and the read end of the pipe to the child, each only when that pipe was requested, and nothing else |
| Invocation.ParseArguments | latency-meter.c:143-161 | a setup exactly when argc is 2 or 3; the command is the last argument; with argc 2 the message is "ping packet\n", with argc 3 it is argv[1] followed by exactly one newline; the message is never empty and ends in a newline |
| Invocation.ParsedMessageIsOneLine | latency-meter.c:154-159 | a user text without a newline (or the default) gives a message holding exactly one newline, as its last character, and the report prints the text back without it |
| Invocation.Capacity | latency-meter.c:163-166 | the buffer holds at least 1024 characters and more than twice the message, so a whole echoed line fits in front of the terminating NUL |
| Sampler.WriteResult | latency-meter.c:180 | write() never reports more than it was asked for; it reports progress exactly when the environment offers some and something was asked for |
| Sampler.Transmit | latency-meter.c:178-184 | the send loop's outcome: it never sends more than the message nor makes more calls than the script offers; when all is sent it made at least one call and sent every byte; otherwise some bytes are missing (unless the message was already sent); a failure made at least one call; a stall consumed the whole script |
| Sampler.TransmitProgress | latency-meter.c:181-183 | only positive write() results advance the loop: every call before the last made progress, and so did the last one unless the loop failed, in which case it reported an error or no progress (or nothing was asked); so a result <= 0 always ends the loop as a failure, and a failure always comes from one |
| Sampler.ProgressDeliversAll | latency-meter.c:179-184 | when every write() makes progress the whole message goes out, in at most one call per byte |
| Sampler.SendAll | latency-meter.c:178-184 | the send loop computes Transmit; the bytes the child receives are always a prefix of the message, in order, and the whole message when the loop ends normally |
| Sampler.Chars | latency-meter.c:190 | the characters stored for a run of byte events, one per event, in order |
| Sampler.Scan | latency-meter.c:186-193 | the reader's outcome: the index at which the terminator will be written is inside the buffer; a line, end of stream or error stops at an event of the script, a stall at its end; overflow needs at least blen events (which event stops the reader is stated by ScanLine, ScanClosed and ScanFailed) |
| Sampler.ScanLine | latency-meter.c:186-191 | a line is returned at index k exactly when k is the first non-data event within the buffer and it is a newline |
| Sampler.ScanClosed | latency-meter.c:186-189 | end of stream is reported at index k exactly when k is the first non-data event within the buffer and it is end of stream |
| Sampler.ScanFailed | latency-meter.c:186-188 | the read error is reported at index k exactly when k is the first non-data event within the buffer and it is an error |
| Sampler.ScanStalled | latency-meter.c:186-187 | the reader blocks exactly when the script ends, inside the buffer, after data bytes only |
| Sampler.ScanTooLarge | latency-meter.c:186-193 | the reader overflows exactly when blen data bytes arrive without a newline, end of stream or error |
| Sampler.ReceiveLine | latency-meter.c:186-194 | the line reader computes Scan; after a line or end of stream, b[0..n) holds the bytes read, in order, b[n] is the NUL with n < blen, and b beyond n is untouched; after overflow the whole buffer holds the bytes read |
| Sampler.Round | latency-meter.c:177-194 | one iteration: a response only after the send loop sent the whole message in at least one write(); the response is the characters of the byte events read before the terminating event, one read() each, and is shorter than the buffer |
| Sampler.RoundResponds | latency-meter.c:177-194 | an iteration yields a response exactly when the send loop sent the whole message and the reader then stopped at a newline or end of stream; the request is written in full, in the iteration's write() calls, before the response is read, and the response is the characters of the bytes read before the stop |
| Sampler.Exchange | latency-meter.c:177-196 | one iteration over the buffer computes Round, and on a response the buffer holds it followed by the NUL, which is what %s prints |
| Sampler.SessionReports | latency-meter.c:174-197 | a completed run reports exactly the 100 iterations; an aborted or blocked run reports exactly the iterations before the failing one, which lies in 0..99 |
| Sampler.SessionNumbering | latency-meter.c:196 | the reports are numbered 0, 1, 2, … in order, and each shows the message without its newline |
| Sampler.Run | latency-meter.c:174-197 | the 100-iteration loop over the buffer computes Session: one request at a time, and the first failing iteration ends the run |
| Sampler.EchoRound | latency-meter.c:178-194 | against a peer echoing the message, with write() making progress, one iteration sends the message, reads back its text and consumes exactly the echoed line |
| Sampler.EchoPeerCompletes | latency-meter.c:174-197 | against an echoing peer and write() calls that make progress, the run completes and every response is the message text |
| Sampler.OverflowAborts | latency-meter.c:193 | blen bytes without a newline in an iteration abort the run in that iteration with no further report |
| Meter.Redirected | latency-meter.c:168-169 | close(target) then dup2(fd, target): target refers to what fd referred to, or is closed when fd was not open or was target itself; every other descriptor is as it was |
| Meter.BindStandardStreams | latency-meter.c:168-172 | descriptor 0 is closed and made a copy of infd, then 1 closed and made a copy of outfd; nothing else changes |
| Meter.StandardStreams | latency-meter.c:168-172 | after a successful launch, 0 reads the pipe from the child and 1 writes the pipe to the child, two distinct pipes that no descriptor other than infd and outfd refers to |
| Meter.Measure | latency-meter.c:136-197 | a wrong argument count launches nothing and leaves the table as it was; otherwise, when both pipes and the fork succeed, the table gains exactly two fresh descriptors, 0 and 1 become the read end of the pipe from the child and the write end of the pipe to the child, every other descriptor the process had is untouched, and the run is Session over a buffer of Capacity(msglen) characters |

## Left out

- The child branch of `popen2` (latency-meter.c:100-124) is not modelled. It rewires
  descriptors with `dup2` and replaces the process image with `execlp`. Line 114 there
  closes `pin[1]` where `pout[1]` seems intended; that code is not modelled either.
- Timing is not modelled: `usleep`, `gettimeofday` and the millisecond conversion
  `TV2MSEC` are clocks and floating point. The `%0.3g` value in the report is left out
  too; a report is modelled as its iteration number, request text and response.
- The usage text (latency-meter.c:144-151) is not modelled; a wrong argument count
  becomes `None`.
- The loops' `read(0, ...)` and `write(1, ...)` are not tied to the descriptor table:
  what they report is given by the scripts.
- Meter.Measure: when `popen2` fails, `infd` and `outfd` are uninitialized in `main`;
  the model leaves them unspecified, and promises about 0 and 1 only after a
  successful launch in a process whose descriptors 0 and 1 were open.
- Invocation.ParseArguments: a `char` stands for one byte of `argv`, and an argument
  is taken to hold no NUL byte. Multi-byte characters and `strlen` stopping at an
  embedded NUL are not modelled.
- The allocation `malloc(strlen(argv[1]+2))` (latency-meter.c:158) reserves too little
  room. The message is modelled as a value, so that overflow is not reproduced.
- `main` ignores the result of `popen2` (latency-meter.c:156, 160). `Meter.Measure`
  does the same and runs the loop whatever the launcher returned. When the launch
  failed, the scripts stand for what the kernel reports for the unset descriptors.
- On end of stream the code leaves only the inner loop. It terminates the response,
  reports it and goes on with the next iteration, and the model does the same.
- Os.Kernel.Pipe: descriptors come from a counter, not from the POSIX lowest-free
  rule. Only their freshness is stated.
- Sampler.Transmit, Sampler.Scan: `int` is unbounded here. The C counters `n`, `r` and
  `msglen` cannot overflow at message sizes a command line allows.
- Sampler.Exchange: the response is the `n` bytes before the terminating NUL. A NUL
  byte received from the child would cut what `%s` prints shorter; that truncation is
  not modelled.
- A call that blocks forever is modelled as its script running out (the `Hang`,
  `ReadStalled`, `WriteStalled` and `Stalled` outcomes). Signals such as SIGPIPE are
  not modelled.
