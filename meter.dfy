/** `main` as a whole: the command line is read, the child is launched with both
    pipes, the response buffer is allocated, the pipe ends are made the standard
    input and output of the process, and the one hundred iterations run. */
module Meter {
  import opened Os
  import opened Launcher
  import opened Invocation
  import opened Sampler

  /** The table `t` after close(target) and dup2(fd, target): `target` refers to what
      `fd` referred to, or is closed when `fd` was `target` itself or not open; every
      other descriptor is left as it was. */
  ghost function Redirected(t: map<int, Endpoint>, fd: int, target: int): (r: map<int, Endpoint>)
    ensures forall g :: g != target ==> (g in r <==> g in t)
    ensures forall g :: g in t && g != target ==> r[g] == t[g]
    ensures target in r <==> fd in t && fd != target
    ensures fd in t && fd != target ==> r[target] == t[fd]
  {
    var u := t - {target};
    if fd in u then u[target := u[fd]] else u
  }

  /** Lines 168-172 of `main`: the pipe ends become descriptors 0 and 1. */
  method BindStandardStreams(k: Kernel, infd: int, outfd: int)
    requires k.Valid()
    modifies k
    ensures k.Valid() && k.nextPipe == old(k.nextPipe)
    ensures k.table == Redirected(Redirected(old(k.table), infd, 0), outfd, 1)
  {
    var ignored := k.Close(0);
    ignored := k.Dup2(infd, 0);
    ignored := k.Close(1);
    ignored := k.Dup2(outfd, 1);
  }

  /** After a launch that added the read end `infd` and the write end `outfd`, each the
      only descriptor of its pipe, to a table `t0` in which 0 and 1 are open,
      redirecting 0 and 1 leaves 0 reading the pipe from the child and 1 writing the
      pipe to the child, shared only with `infd` and `outfd`. */
  lemma StandardStreams(t0: map<int, Endpoint>, t1: map<int, Endpoint>, infd: int, outfd: int)
    requires 0 in t0 && 1 in t0
    requires infd !in t0 && outfd !in t0 && infd != outfd
    requires t1.Keys == t0.Keys + {infd, outfd}
    requires forall fd :: fd in t0 ==> t1[fd] == t0[fd]
    requires t1[infd].ReadEnd? && SoleEnd(t1, infd)
    requires t1[outfd].WriteEnd? && SoleEnd(t1, outfd)
    ensures var t := Redirected(Redirected(t1, infd, 0), outfd, 1);
      && t.Keys == t0.Keys + {infd, outfd}
      && t[0] == t[infd] && t[0].ReadEnd?
      && t[1] == t[outfd] && t[1].WriteEnd?
      && t[0].pipe != t[1].pipe
      && (forall fd :: fd in t && fd != 0 && fd != infd ==> !t[fd].OfPipe(t[0].pipe))
      && (forall fd :: fd in t && fd != 1 && fd != outfd ==> !t[fd].OfPipe(t[1].pipe))
  {
  }

  /** A wrong argument count is a usage error: nothing is launched and the table is
      as it was. Otherwise popen2 is called and its result is not checked; `infd` and
      `outfd` are what it stored. Descriptor 0 is then closed and made a copy of
      `infd`, descriptor 1 closed and made a copy of `outfd`, the buffer holds
      Capacity(msglen) characters and the run is Session from iteration 0. When the
      launch succeeds in a process whose standard input and output are open, 0 reads
      the pipe from the child and 1 writes the pipe to the child, two distinct pipes
      that no other descriptor than `infd` and `outfd` refers to. Every descriptor
      other than 0 and 1 the process already had is left as it was. */
  method Measure(k: Kernel, argv: seq<string>, pinFails: bool, poutFails: bool, forkFails: bool, child: nat,
                 writes: seq<int>, replies: seq<ReadEvent>) returns (t: Option<Trace>, infd: int, outfd: int)
    requires k.Valid()
    modifies k
    ensures k.Valid()
    ensures t.None? <==> |argv| != 2 && |argv| != 3
    ensures t.None? ==> k.table == old(k.table)
    ensures forall fd :: fd in old(k.table) && fd != 0 && fd != 1 ==> fd in k.table && k.table[fd] == old(k.table)[fd]
    ensures t.Some? && !pinFails && !poutFails && !forkFails && 0 in old(k.table) && 1 in old(k.table) ==>
      && infd !in old(k.table) && outfd !in old(k.table) && infd != outfd
      && k.table.Keys == old(k.table.Keys) + {infd, outfd}
      && k.table[0] == k.table[infd] && k.table[0].ReadEnd?
      && k.table[1] == k.table[outfd] && k.table[1].WriteEnd?
      && k.table[0].pipe != k.table[1].pipe
      && (forall fd :: fd in k.table && fd != 0 && fd != infd ==> !k.table[fd].OfPipe(k.table[0].pipe))
      && (forall fd :: fd in k.table && fd != 1 && fd != outfd ==> !k.table[fd].OfPipe(k.table[1].pipe))
    ensures t.Some? ==>
      var msg := ParseArguments(argv).value.message;
      t.value == Session(msg, Capacity(|msg|), writes, replies, 0)
  {
    var setup := ParseArguments(argv);
    if setup.None? {
      return None, 0, 0;
    }
    var inPtr := new int[1];
    var outPtr := new int[1];
    var ignored := Popen2(k, setup.value.command, inPtr, outPtr, pinFails, poutFails, forkFails, child);
    infd, outfd := inPtr[0], outPtr[0];
    var msg := setup.value.message;
    var b := new char[Capacity(|msg|)];
    ghost var launched := k.table;
    BindStandardStreams(k, infd, outfd);
    if !pinFails && !poutFails && !forkFails && 0 in old(k.table) && 1 in old(k.table) {
      StandardStreams(old(k.table), launched, infd, outfd);
    }
    var trace := Run(msg, b, writes, replies);
    return Some(trace), infd, outfd;
  }
}
