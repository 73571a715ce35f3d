/** The parent side of the dual-pipe launcher: `pin` is the pipe that becomes the
    child's standard input, `pout` the pipe that carries the child's standard output.
    The C pointers `int *in_fd` and `int *out_fd` are arrays of length one, or null
    when the caller does not want that direction. */
module Launcher {
  import opened Os

  /** The table `t` after a pipe with read end `r`, write end `w` and identifier `id`
      has been opened, when `used` holds. */
  ghost function Opened(t: map<int, Endpoint>, used: bool, r: int, w: int, id: nat): map<int, Endpoint>
  {
    if used then t[r := ReadEnd(id)][w := WriteEnd(id)] else t
  }

  /** Both descriptors `r` and `w` of a pipe, when `used` holds. */
  ghost function Ends(used: bool, r: int, w: int): set<int>
  {
    if used then {r, w} else {}
  }

  /** The descriptor stored behind a non-null pointer. */
  ghost function Held(ptr: array?<int>): set<int>
    reads ptr
    requires ptr != null ==> ptr.Length == 1
  {
    if ptr != null then {ptr[0]} else {}
  }

  /** `fd` refers to a pipe, and no other descriptor in `t` refers to that pipe. */
  ghost predicate SoleEnd(t: map<int, Endpoint>, fd: int)
    requires fd in t
  {
    && !t[fd].Inherited?
    && forall g :: g in t && g != fd ==> !t[g].OfPipe(t[fd].pipe)
  }

  /** Both pipes the caller asked for can be created. */
  predicate PipesCreated(wantIn: bool, wantOut: bool, pinFails: bool, poutFails: bool)
  {
    !(wantOut && pinFails) && !(wantIn && poutFails)
  }

  /** createPipesForPopens: opens `pin` when the caller wants to write to the child and
      `pout` when it wants to read from it, and hands out pin[1] and pout[0]. When the
      second pipe cannot be created, the first one is closed again. */
  method CreatePipesForPopens(k: Kernel, inFd: array?<int>, outFd: array?<int>,
                              pin: array<int>, pout: array<int>,
                              pinFails: bool, poutFails: bool) returns (rc: int)
    requires k.Valid()
    requires pin.Length == 2 && pout.Length == 2 && pin != pout
    requires inFd != null ==> inFd.Length == 1
    requires outFd != null ==> outFd.Length == 1
    requires inFd != null && outFd != null ==> inFd != outFd
    modifies k, inFd, outFd, pin, pout
    ensures k.Valid()
    ensures rc == 0 <==> PipesCreated(inFd != null, outFd != null, pinFails, poutFails)
    // every failure path leaves the descriptor table as it was: nothing leaks
    ensures rc != 0 ==> rc == -1 && k.table == old(k.table)
    // when only the second pipe failed, *out_fd already holds pin[1], which is closed again
    ensures rc != 0 && outFd != null && !pinFails ==> outFd[0] == pin[1] && outFd[0] !in k.table
    ensures rc == 0 ==>
      k.table == Opened(Opened(old(k.table), outFd != null, pin[0], pin[1], old(k.nextPipe)),
                        inFd != null, pout[0], pout[1], old(k.nextPipe) + (if outFd != null then 1 else 0))
    ensures rc == 0 && outFd != null ==>
      outFd[0] == pin[1] && pin[0] != pin[1] && pin[0] !in old(k.table) && pin[1] !in old(k.table)
    ensures rc == 0 && inFd != null ==>
      inFd[0] == pout[0] && pout[0] != pout[1] && pout[0] !in old(k.table) && pout[1] !in old(k.table)
    ensures rc == 0 && inFd != null && outFd != null ==> {pout[0], pout[1]} !! {pin[0], pin[1]}
    ensures old(k.nextPipe) <= k.nextPipe
  {
    if outFd != null {
      var r := k.Pipe(pin, pinFails);
      if r != 0 {
        return -1;
      }
      outFd[0] := pin[1];
    }
    if inFd != null {
      var r := k.Pipe(pout, poutFails);
      if r != 0 {
        if outFd != null {
          var ignored := k.Close(pin[0]);
          ignored := k.Close(pin[1]);
        }
        return -1;
      }
      inFd[0] := pout[0];
    }
    return 0;
  }

  /** closePopenPipes: closes both ends of every pipe the caller asked for. */
  method ClosePopenPipes(k: Kernel, inFd: array?<int>, outFd: array?<int>, pin: array<int>, pout: array<int>)
    requires k.Valid()
    requires pin.Length == 2 && pout.Length == 2
    modifies k
    ensures k.Valid() && k.nextPipe == old(k.nextPipe)
    ensures k.table == old(k.table) - Ends(outFd != null, pin[0], pin[1]) - Ends(inFd != null, pout[0], pout[1])
  {
    if outFd != null {
      var ignored := k.Close(pin[0]);
      ignored := k.Close(pin[1]);
    }
    if inFd != null {
      var ignored := k.Close(pout[0]);
      ignored := k.Close(pout[1]);
    }
  }

  /** The parent's table after a successful launch: pipe `a` (ends a0, a1) opened when
      `wantOut`, pipe `b` (ends b0, b1) opened after it when `wantIn`, then the ends
      that belong to the child, b1 and a0, closed again. */
  ghost function ParentTable(t0: map<int, Endpoint>, next: nat, wantIn: bool, wantOut: bool,
                             a0: int, a1: int, b0: int, b1: int): map<int, Endpoint>
  {
    var t := Opened(Opened(t0, wantOut, a0, a1, next), wantIn, b0, b1, next + if wantOut then 1 else 0);
    (if wantIn then t - {b1} else t) - (if wantOut then {a0} else {})
  }

  /** Fresh pipes opened and their child ends closed leave the parent with its old
      descriptors unchanged plus the write end a1 and the read end b0, each the only
      descriptor of its pipe. */
  lemma ParentKeeps(t0: map<int, Endpoint>, next: nat, wantIn: bool, wantOut: bool,
                    a0: int, a1: int, b0: int, b1: int)
    requires forall fd :: fd in t0 && !t0[fd].Inherited? ==> t0[fd].pipe < next
    requires wantOut ==> a0 != a1 && a0 !in t0 && a1 !in t0
    requires wantIn ==> b0 != b1 && b0 !in t0 && b1 !in t0
    requires wantIn && wantOut ==> {b0, b1} !! {a0, a1}
    ensures var t := ParentTable(t0, next, wantIn, wantOut, a0, a1, b0, b1);
      && t.Keys == t0.Keys + (if wantIn then {b0} else {}) + (if wantOut then {a1} else {})
      && (forall fd :: fd in t0 ==> t[fd] == t0[fd])
      && (wantOut ==> t[a1] == WriteEnd(next) && SoleEnd(t, a1))
      && (wantIn ==> t[b0].ReadEnd? && SoleEnd(t, b0))
  {
  }

  /** Closing both ends of every pipe just opened restores the table. */
  lemma ClosedAgain(t0: map<int, Endpoint>, next: nat, wantIn: bool, wantOut: bool,
                    a0: int, a1: int, b0: int, b1: int)
    requires wantOut ==> a0 !in t0 && a1 !in t0
    requires wantIn ==> b0 !in t0 && b1 !in t0
    ensures Opened(Opened(t0, wantOut, a0, a1, next), wantIn, b0, b1, next + if wantOut then 1 else 0)
              - Ends(wantOut, a0, a1) - Ends(wantIn, b0, b1) == t0
  {
  }

  /** The parent's last step in popen2: the read end of the pipe to the child and the
      write end of the pipe from the child belong to the child and are closed. */
  method CloseChildEnds(k: Kernel, inFd: array?<int>, outFd: array?<int>, pin: array<int>, pout: array<int>)
    requires k.Valid()
    requires pin.Length == 2 && pout.Length == 2
    modifies k
    ensures k.Valid() && k.nextPipe == old(k.nextPipe)
    ensures k.table == (if inFd != null then old(k.table) - {pout[1]} else old(k.table))
                       - (if outFd != null then {pin[0]} else {})
  {
    if inFd != null {
      var ignored := k.Close(pout[1]);
    }
    if outFd != null {
      var ignored := k.Close(pin[0]);
    }
  }

  /** popen2, as the parent process runs it. On success the parent keeps exactly the
      write end of the pipe to the child (*out_fd) and the read end of the pipe from
      the child (*in_fd), and is the only holder of either pipe; the ends that belong
      to the child are closed. Every failure returns -1 with the table as it was. */
  method Popen2(k: Kernel, command: string, inFd: array?<int>, outFd: array?<int>,
                pinFails: bool, poutFails: bool, forkFails: bool, child: nat) returns (pid: int)
    requires k.Valid()
    requires inFd != null ==> inFd.Length == 1
    requires outFd != null ==> outFd.Length == 1
    requires inFd != null && outFd != null ==> inFd != outFd
    modifies k, inFd, outFd
    ensures k.Valid()
    ensures pid > 0 <==> PipesCreated(inFd != null, outFd != null, pinFails, poutFails) && !forkFails
    ensures pid <= 0 ==> pid == -1 && k.table == old(k.table)
    // a descriptor already stored in *out_fd or *in_fd before a failure is closed again
    ensures pid < 0 && outFd != null && !pinFails ==> outFd[0] !in k.table
    ensures pid < 0 && inFd != null && PipesCreated(true, outFd != null, pinFails, poutFails) ==> inFd[0] !in k.table
    ensures pid > 0 ==> k.table.Keys == old(k.table.Keys) + Held(inFd) + Held(outFd)
    ensures pid > 0 ==> forall fd :: fd in old(k.table) ==> k.table[fd] == old(k.table)[fd]
    ensures pid > 0 && outFd != null ==>
      outFd[0] !in old(k.table) && k.table[outFd[0]].WriteEnd? && SoleEnd(k.table, outFd[0])
    ensures pid > 0 && inFd != null ==>
      inFd[0] !in old(k.table) && k.table[inFd[0]].ReadEnd? && SoleEnd(k.table, inFd[0])
    ensures pid > 0 && inFd != null && outFd != null ==> inFd[0] != outFd[0]
  {
    var pin := new int[2];
    var pout := new int[2];
    ghost var t0, next := k.table, k.nextPipe;
    var rc := CreatePipesForPopens(k, inFd, outFd, pin, pout, pinFails, poutFails);
    if rc == -1 {
      return -1;
    }
    pid := k.Fork(forkFails, child);
    if pid < 0 {
      ClosePopenPipes(k, inFd, outFd, pin, pout);
      ClosedAgain(t0, next, inFd != null, outFd != null, pin[0], pin[1], pout[0], pout[1]);
      return pid;
    }
    // the child's branch (pid == 0) runs in the other process and is not modelled here
    CloseChildEnds(k, inFd, outFd, pin, pout);
    ParentKeeps(t0, next, inFd != null, outFd != null, pin[0], pin[1], pout[0], pout[1]);
  }
}
