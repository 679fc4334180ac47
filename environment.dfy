/** What the core touches outside its own state: the connection it sends
    requests on, the application whose handler methods it calls, and the
    process's descriptor table. All three are recorded, in order, in one
    trace. */
module Environment {
  import opened Protocol

  class Env {
    /** Everything observable so far, oldest first. */
    var trace: seq<Effect>
    /** The descriptors this process currently has open. */
    var open: set<Fd>
    /** Every open descriptor is below this; new ones are taken from here. */
    var nextFd: Fd
    /** Next client-side protocol object id. */
    var nextId: ObjectId
    /** The process's descriptor limit. */
    const fdLimit: nat

    ghost predicate Valid()
      reads this
    {
      forall f :: f in open ==> f < nextFd
    }

    constructor (fdLimit: nat)
      ensures Valid()
      ensures trace == [] && open == {} && this.fdLimit == fdLimit
    {
      trace := [];
      open := {};
      nextFd := 0;
      nextId := 0;
      this.fdLimit := fdLimit;
    }

    /** Send a request or invoke a callback. */
    method Emit(e: Effect)
      modifies this`trace
      ensures trace == old(trace) + [e]
    {
      trace := trace + [e];
    }

    /** Allocate a new client-side object id. */
    method NewId() returns (id: ObjectId)
      modifies this`nextId
      ensures id == old(nextId) && nextId == id + 1
    {
      id := nextId;
      nextId := nextId + 1;
    }

    /** pipe2(2): two new descriptors, the read end first; fails with
        EMFILE when the process has no room for two more. */
    method Pipe2() returns (r: Result<(Fd, Fd), Errno>)
      requires Valid()
      modifies this`trace, this`open, this`nextFd
      ensures Valid()
      ensures r.Err? <==> |old(open)| + 2 > fdLimit
      ensures r.Err? ==> r.error == EMFILE && open == old(open)
                         && trace == old(trace) + [Sys(Pipe2Err(EMFILE))]
      ensures r.Ok? ==> r.value.0 != r.value.1
                        && r.value.0 !in old(open) && r.value.1 !in old(open)
                        && open == old(open) + {r.value.0, r.value.1}
                        && trace == old(trace) + [Sys(Pipe2Ok(r.value.0, r.value.1))]
    {
      if |open| + 2 > fdLimit {
        r := Err(EMFILE);
        trace := trace + [Sys(Pipe2Err(EMFILE))];
      } else {
        var readFd, writeFd := nextFd, nextFd + 1;
        open := open + {readFd, writeFd};
        nextFd := nextFd + 2;
        r := Ok((readFd, writeFd));
        trace := trace + [Sys(Pipe2Ok(readFd, writeFd))];
      }
    }

    /** close(2): fails with EBADF when the descriptor is not open. */
    method Close(fd: Fd) returns (r: Result<(), Errno>)
      requires Valid()
      modifies this`trace, this`open
      ensures Valid()
      ensures r.Ok? <==> fd in old(open)
      ensures r.Err? ==> r.error == EBADF
      ensures open == old(open) - {fd}
      ensures trace == old(trace) + [Sys(CloseFd(fd))]
    {
      r := if fd in open then Ok(()) else Err(EBADF);
      open := open - {fd};
      trace := trace + [Sys(CloseFd(fd))];
    }
  }
}
