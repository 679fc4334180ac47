/** wl_data_offer event routing and the descriptor hand-off of a receive
    (src/data_device/data_offer.rs). */
module DataOffer {
  import opened Protocol
  import opened Environment

  /** The events of wl_data_offer. */
  datatype OfferEvent =
    | Offer(mimeType: string)
    | SourceActions(sourceActions: WEnum<DndAction>)
    | Action(dndAction: WEnum<DndAction>)

  /** Dispatch<WlDataOffer>::event: every event reaches exactly one handler
      method of this offer with the event's value unchanged, unknown action
      values included, and nothing is sent. */
  function HandleOfferEvent(offer: OfferId, ev: OfferEvent): (effs: seq<Effect>)
    ensures |effs| == 1 && effs[0].Cb?
    ensures ev.Offer? ==> effs[0].callback == OfferMime(offer, ev.mimeType)
    ensures ev.SourceActions? ==> effs[0].callback == OfferSourceActions(offer, ev.sourceActions)
    ensures ev.Action? ==> effs[0].callback == OfferActions(offer, ev.dndAction)
  {
    match ev
    case Offer(mime) => [Cb(OfferMime(offer, mime))]
    case SourceActions(actions) => [Cb(OfferSourceActions(offer, actions))]
    case Action(action) => [Cb(OfferActions(offer, action))]
  }

  /** The owned read end of a pipe (ReadPipe), opaque here. */
  datatype ReadPipe = ReadPipe(fd: Fd)

  /** The three effects of a successful receive: a pipe whose read end is
      `readFd`, one receive request carrying its write end, and one close of
      that write end. */
  predicate HandedOff(effs: seq<Effect>, readFd: Fd, offer: OfferId, mimeType: string)
  {
    && |effs| == 3
    && effs[0].Sys? && effs[0].syscall.Pipe2Ok? && effs[0].syscall.readFd == readFd
    && effs[0].syscall.writeFd != readFd
    && effs[1] == Req(OfferReceive(offer, mimeType, effs[0].syscall.writeFd))
    && effs[2] == Sys(CloseFd(effs[0].syscall.writeFd))
  }

  /** receive: without room for a pipe the error is returned and nothing is
      sent; otherwise the write end travels in exactly one receive request
      and is closed exactly once, and the returned read end is new and still
      open. */
  method Receive(offer: OfferId, mimeType: string, env: Env) returns (r: Result<ReadPipe, Errno>)
    requires env.Valid()
    modifies env`trace, env`open, env`nextFd
    ensures env.Valid()
    ensures r.Err? <==> |old(env.open)| + 2 > env.fdLimit
    ensures r.Err? ==> r.error == EMFILE && env.open == old(env.open)
                       && env.trace == old(env.trace) + [Sys(Pipe2Err(EMFILE))]
    ensures r.Ok? ==> && |env.trace| == |old(env.trace)| + 3
                      && env.trace[..|old(env.trace)|] == old(env.trace)
                      && HandedOff(env.trace[|old(env.trace)|..], r.value.fd, offer, mimeType)
                      && r.value.fd !in old(env.open)
                      && env.trace[|old(env.trace)|].syscall.writeFd !in old(env.open)
                      && env.trace[|old(env.trace)|].syscall.writeFd !in env.open
                      && env.open == old(env.open) + {r.value.fd}
  {
    var t0 := env.trace;
    var pipe := env.Pipe2();
    if pipe.Err? {
      return Err(pipe.error);
    }
    var (readFd, writeFd) := pipe.value;
    env.Emit(Req(OfferReceive(offer, mimeType, writeFd)));
    // A failed close is only logged; the result does not depend on it.
    var _ := env.Close(writeFd);
    r := Ok(ReadPipe(readFd));
    assert env.trace == t0 + [Sys(Pipe2Ok(readFd, writeFd)), Req(OfferReceive(offer, mimeType, writeFd)), Sys(CloseFd(writeFd))];
  }

  /** receive_to_fd: one receive request with the caller's descriptor, then
      one close of it; closing a descriptor that is not open fails and is
      only logged. */
  method ReceiveToFd(offer: OfferId, mimeType: string, writeFd: Fd, env: Env)
    requires env.Valid()
    modifies env`trace, env`open
    ensures env.Valid()
    ensures env.trace == old(env.trace) + [Req(OfferReceive(offer, mimeType, writeFd)), Sys(CloseFd(writeFd))]
    ensures env.open == old(env.open) - {writeFd}
  {
    env.Emit(Req(OfferReceive(offer, mimeType, writeFd)));
    var _ := env.Close(writeFd);
  }

  /** Two receives in a row on one offer hand out distinct read ends, both
      still open afterwards. */
  method ReceiveTwice(offer: OfferId, first: string, second: string, env: Env)
    returns (r1: Result<ReadPipe, Errno>, r2: Result<ReadPipe, Errno>)
    requires env.Valid()
    modifies env`trace, env`open, env`nextFd
    ensures env.Valid()
    ensures r1.Ok? && r2.Ok? ==> r1.value.fd != r2.value.fd
                                 && r1.value.fd in env.open && r2.value.fd in env.open
  {
    r1 := Receive(offer, first, env);
    r2 := Receive(offer, second, env);
  }
}
