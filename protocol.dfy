/** Protocol vocabulary shared by the data-device session engine and the
    wl_shm state: opaque protocol object ids, the wrapper types the Rust
    code uses (Option, Result, WEnum), the not-yet-bound global, and the
    entries of the trace through which requests, handler callbacks and
    descriptor system calls become observable. */
module Protocol {

  // Protocol objects are opaque ids; the kinds are kept apart by name only.
  type ObjectId = nat
  type OfferId = ObjectId
  type SourceId = ObjectId
  type DeviceId = ObjectId
  type SurfaceId = ObjectId
  type SeatId = ObjectId
  type ManagerId = ObjectId
  type ShmId = ObjectId

  /** A file descriptor number of this process. */
  type Fd = nat

  /** A u32 serial or timestamp carried by an event (width not modelled). */
  type Serial = nat

  /** A surface-local coordinate: the raw wl_fixed value that the f64
      of the Rust code holds exactly; it is only stored and forwarded. */
  type Coord = int

  /** A wl_shm pixel-format code that the protocol bindings know. */
  type Format = nat

  datatype Option<+T> = None | Some(value: T)

  datatype Result<+T, +E> = Ok(value: T) | Err(error: E)

  /** A protocol enum as decoded from the wire: a known value, or the raw
      number of one the bindings do not know. */
  datatype WEnum<+T> = Value(value: T) | Unknown(raw: nat)

  /** The wl_data_device_manager dnd_action bit set. */
  datatype DndAction = DndAction(copy: bool, move: bool, ask: bool)

  /** The error a global accessor returns while the global is not bound. */
  datatype GlobalError = NotBound

  /** A global that the registry may or may not have bound yet. */
  datatype GlobalProxy<+H> = NotReady | Bound(handle: H)
  {
    /** The bound proxy, or an error while not ready. */
    function Get(): (r: Result<H, GlobalError>)
      ensures r.Ok? <==> Bound?
      ensures r.Ok? ==> r.value == handle
      ensures r.Err? ==> r.error == NotBound
    {
      match this
      case NotReady => Err(NotBound)
      case Bound(h) => Ok(h)
    }
  }

  /** The interfaces whose globals the core binds through the registry. */
  datatype Interface = WlDataDeviceManager | WlShm

  /** Conversion of the registry's bind outcome into a global proxy: a
      successful bind is Bound, a failed one leaves the proxy not ready. */
  function FromBind<H>(bound: Option<H>): (g: GlobalProxy<H>)
    ensures g.Bound? <==> bound.Some?
    ensures g.Bound? ==> g.handle == bound.value
  {
    match bound
    case None => NotReady
    case Some(h) => Bound(h)
  }

  /** Requests the core sends to the compositor. */
  datatype Request =
    | OfferDestroy(offer: OfferId)
    | OfferReceive(offer: OfferId, mimeType: string, fd: Fd)
    | SourceOffer(source: SourceId, mimeType: string)
    | SourceSetActions(source: SourceId, actions: DndAction)
    | SourceDestroy(source: SourceId)
    | DeviceSetSelection(device: DeviceId, selectionSource: Option<SourceId>, serial: Serial)
    | DeviceStartDrag(device: DeviceId, dragSource: Option<SourceId>, origin: SurfaceId,
                      icon: Option<SurfaceId>, serial: Serial)
    | ManagerCreateDataSource(manager: ManagerId, newSource: SourceId)
    | ManagerGetDataDevice(manager: ManagerId, newDevice: DeviceId, seat: SeatId)

  /** Calls into the application's handler traits. */
  datatype Callback =
    // DataDeviceHandler
    | DeviceDataOffer(device: DeviceId, offer: OfferId, serial: Serial)
    | DeviceEnter(device: DeviceId, serial: Serial, surface: SurfaceId, x: Coord, y: Coord,
                  enterOffer: Option<OfferId>)
    | DeviceLeave(device: DeviceId)
    | DeviceMotion(device: DeviceId, time: Serial, x: Coord, y: Coord, offer: OfferId)
    | DeviceSelection(device: DeviceId, selection: Option<OfferId>)
    | DeviceDropPerformed(device: DeviceId, offer: OfferId, serial: Serial, surface: SurfaceId,
                          x: Coord, y: Coord, dropTime: Option<Serial>)
    // DataSourceHandler
    | SourceAcceptMime(source: SourceId, acceptedMime: Option<string>)
    | SourceSend(source: SourceId, mime: string, fd: Fd)
    | SourceCancelled(source: SourceId)
    | SourceDropPerformed(source: SourceId)
    | SourceDndFinished(source: SourceId)
    | SourceAction(source: SourceId, action: DndAction)
    // DataOfferHandler
    | OfferMime(offer: OfferId, mime: string)
    | OfferSourceActions(offer: OfferId, actions: WEnum<DndAction>)
    | OfferActions(offer: OfferId, actions: WEnum<DndAction>)

  datatype Errno = EMFILE | EBADF

  /** Descriptor system calls of the process. */
  datatype Syscall =
    | Pipe2Ok(readFd: Fd, writeFd: Fd)
    | Pipe2Err(errno: Errno)
    | CloseFd(closed: Fd)

  /** One observable step: a request sent, a callback invoked, a system call made. */
  datatype Effect = Req(request: Request) | Cb(callback: Callback) | Sys(syscall: Syscall)
}
