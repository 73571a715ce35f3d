/** What `main` derives from its command line before anything is launched: the
    message sent on every iteration, the shell command to run, and the capacity of
    the response buffer. A `char` stands for one byte of a C string, and a string
    stands for the bytes before its NUL, so its length is what strlen returns. */
module Invocation {

  datatype Option<T> = None | Some(value: T)

  datatype Setup = Setup(message: string, command: string)

  /** The message used when only the command is given. */
  const DefaultMessage: string := "ping packet\n"

  /** The part of a message the report prints: all but its final character
      (`%.*s` with precision msglen - 1). */
  function Text(msg: string): string
  {
    if msg == [] then [] else msg[..|msg| - 1]
  }

  /** `argv` includes the program name, so `|argv|` is argc. Any argument count other
      than two or three is a usage error (None) and nothing is launched; with two the
      default message is sent to argv[1]; with three argv[1] plus one newline is sent
      to argv[2]. */
  function ParseArguments(argv: seq<string>): (r: Option<Setup>)
    ensures r.Some? <==> |argv| == 2 || |argv| == 3
    ensures r.Some? ==> |r.value.message| > 0 && r.value.message[|r.value.message| - 1] == '\n'
    ensures r.Some? ==> r.value.command == argv[|argv| - 1]
    ensures |argv| == 3 ==> Text(r.value.message) == argv[1] && |r.value.message| == |argv[1]| + 1
    ensures |argv| == 2 ==> r.value.message == DefaultMessage
  {
    if |argv| == 2 then Some(Setup(DefaultMessage, argv[1]))
    else if |argv| == 3 then Some(Setup(argv[1] + "\n", argv[2]))
    else None
  }

  /** The message holds exactly one newline, as its last character. */
  predicate SingleLine(msg: string)
  {
    && |msg| > 0
    && msg[|msg| - 1] == '\n'
    && forall j :: 0 <= j < |msg| - 1 ==> msg[j] != '\n'
  }

  /** The message is a single line whenever the user text holds no newline, and the
      report prints exactly the user text (or the default phrase) back. */
  lemma ParsedMessageIsOneLine(argv: seq<string>)
    requires |argv| == 2 || (|argv| == 3 && '\n' !in argv[1])
    ensures ParseArguments(argv).Some?
    ensures SingleLine(ParseArguments(argv).value.message)
    ensures Text(ParseArguments(argv).value.message) == if |argv| == 2 then "ping packet" else argv[1]
  {
  }

  /** blen: room for twice the message plus 1024 bytes. The whole message, and so an
      echoed line, fits in front of the terminating NUL, with as much room again
      for a longer answer; even an empty message leaves 1024 bytes. */
  function Capacity(msgLen: nat): (blen: nat)
    ensures blen >= 1024
    ensures msgLen < blen && 2 * msgLen < blen
  {
    msgLen * 2 + 1024
  }
}
