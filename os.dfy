/** An abstract model of the few kernel services the launcher uses: the calling
    process's descriptor table, pipe(2), close(2) and the parent's view of fork(2).
    Whether a call fails is decided by the environment and passed in as a flag. */
module Os {

  /** What a descriptor of the parent process refers to. */
  datatype Endpoint = Inherited | ReadEnd(pipe: nat) | WriteEnd(pipe: nat)
  {
    predicate OfPipe(p: nat) {
      (ReadEnd? || WriteEnd?) && pipe == p
    }
  }

  class Kernel {
    /** The open descriptors of the process and what each refers to. */
    var table: map<int, Endpoint>
    /** Every descriptor handed out so far is below nextFd. */
    var nextFd: int
    /** Every pipe created so far has an identifier below nextPipe. */
    var nextPipe: nat

    ghost predicate Valid()
      reads this
    {
      && 0 <= nextFd
      && (forall fd :: fd in table ==> 0 <= fd < nextFd)
      && (forall fd :: fd in table && !table[fd].Inherited? ==> table[fd].pipe < nextPipe)
    }

    /** A process that starts with its three standard streams open. */
    constructor ()
      ensures Valid()
      ensures table == map[0 := Inherited, 1 := Inherited, 2 := Inherited]
    {
      table := map[0 := Inherited, 1 := Inherited, 2 := Inherited];
      nextFd := 3;
      nextPipe := 0;
    }

    /** pipe(fds): on success fds[0] is the read end and fds[1] the write end of a new
        pipe, both fresh descriptors; on failure nothing changes and -1 is returned. */
    method Pipe(fds: array<int>, fail: bool) returns (rc: int)
      requires Valid() && fds.Length == 2
      modifies this, fds
      ensures Valid()
      ensures fail ==> rc == -1 && table == old(table) && fds[..] == old(fds[..]) && nextPipe == old(nextPipe)
      ensures !fail ==> && rc == 0
                        && fds[0] !in old(table) && fds[1] !in old(table) && fds[0] != fds[1]
                        && nextPipe == old(nextPipe) + 1
                        && table == old(table)[fds[0] := ReadEnd(old(nextPipe))][fds[1] := WriteEnd(old(nextPipe))]
    {
      if fail {
        return -1;
      }
      fds[0], fds[1] := nextFd, nextFd + 1;
      table := table[nextFd := ReadEnd(nextPipe)][nextFd + 1 := WriteEnd(nextPipe)];
      nextFd, nextPipe := nextFd + 2, nextPipe + 1;
      rc := 0;
    }

    /** close(fd): the descriptor is no longer open; closing one that is not open fails. */
    method Close(fd: int) returns (rc: int)
      requires Valid()
      modifies this
      ensures Valid() && nextPipe == old(nextPipe)
      ensures table == old(table) - {fd}
      ensures rc == if fd in old(table) then 0 else -1
    {
      rc := if fd in table then 0 else -1;
      table := table - {fd};
    }

    /** dup2(oldFd, newFd): newFd comes to refer to what oldFd refers to, after newFd
        is closed if it was open, and newFd is returned; when oldFd is not open or newFd
        is negative the call fails with -1 and nothing changes. */
    method Dup2(oldFd: int, newFd: int) returns (rc: int)
      requires Valid()
      modifies this
      ensures Valid() && nextPipe == old(nextPipe)
      ensures oldFd !in old(table) || newFd < 0 ==> rc == -1 && table == old(table)
      ensures oldFd in old(table) && 0 <= newFd ==> rc == newFd && table == old(table)[newFd := old(table)[oldFd]]
    {
      if oldFd !in table || newFd < 0 {
        return -1;
      }
      table := table[newFd := table[oldFd]];
      if nextFd <= newFd {
        nextFd := newFd + 1;
      }
      rc := newFd;
    }

    /** fork() as the parent sees it: -1 on failure, otherwise the child's positive
        process id. The descriptor table of the parent is untouched. */
    method Fork(fail: bool, child: nat) returns (pid: int)
      requires Valid()
      ensures fail ==> pid == -1
      ensures !fail ==> pid > 0
    {
      pid := if fail then -1 else child + 1;
    }
  }
}
