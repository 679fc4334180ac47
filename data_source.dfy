/** wl_data_source event routing and the two source wrappers
    (src/data_device/data_source.rs). */
module DataSource {
  import opened Protocol
  import opened Environment

  /** The events of wl_data_source. */
  datatype SourceEvent =
    | Target(mimeType: Option<string>)
    | Send(sendMime: string, fd: Fd)
    | Cancelled
    | DndDropPerformed
    | DndFinished
    | Action(dndAction: WEnum<DndAction>)

  /** The source a callback is about, when it is a DataSourceHandler callback. */
  function CallbackSource(c: Callback): Option<SourceId>
  {
    match c
    case SourceAcceptMime(src, _) => Some(src)
    case SourceSend(src, _, _) => Some(src)
    case SourceCancelled(src) => Some(src)
    case SourceDropPerformed(src) => Some(src)
    case SourceDndFinished(src) => Some(src)
    case SourceAction(src, _) => Some(src)
    case _ => None
  }

  /** Dispatch<WlDataSource>::event: every event reaches one handler method
      of this source with the event's own arguments, except an action the
      bindings do not know, which reaches none; the only request is the
      destroy of the cancel path, sent before the handler runs; descriptors
      are passed on, never closed. */
  function HandleSourceEvent(source: SourceId, ev: SourceEvent): (effs: seq<Effect>)
    ensures forall e :: e in effs && e.Cb? ==> CallbackSource(e.callback) == Some(source)
    ensures forall e :: e in effs ==> !e.Sys?
    ensures !ev.Cancelled? ==> forall e :: e in effs ==> e.Cb?
    ensures |effs| == if ev.Cancelled? then 2 else if ev.Action? && ev.dndAction.Unknown? then 0 else 1
    ensures ev.Target? ==> effs == [Cb(SourceAcceptMime(source, ev.mimeType))]
    ensures ev.Send? ==> effs == [Cb(SourceSend(source, ev.sendMime, ev.fd))]
    ensures ev.Cancelled? ==> effs == [Req(SourceDestroy(source)), Cb(SourceCancelled(source))]
    ensures ev.DndDropPerformed? ==> effs == [Cb(SourceDropPerformed(source))]
    ensures ev.DndFinished? ==> effs == [Cb(SourceDndFinished(source))]
    ensures ev.Action? && ev.dndAction.Value? ==> effs == [Cb(SourceAction(source, ev.dndAction.value))]
  {
    match ev
    case Target(mime) => [Cb(SourceAcceptMime(source, mime))]
    case Send(mime, fd) => [Cb(SourceSend(source, mime, fd))]
    case Cancelled => [Req(SourceDestroy(source)), Cb(SourceCancelled(source))]
    case DndDropPerformed => [Cb(SourceDropPerformed(source))]
    case DndFinished => [Cb(SourceDndFinished(source))]
    case Action(action) =>
      match action
      case Value(a) => [Cb(SourceAction(source, a))]
      case Unknown(_) => []
  }

  /** A source for the selection (struct CopyPasteSource). */
  datatype CopyPasteSource = CopyPasteSource(inner: SourceId, serial: Option<Serial>)

  /** CopyPasteSource::set_selection, as written: sends
      set_selection(inner, serial) and records nothing. */
  function SetSelection(src: CopyPasteSource, device: DeviceId, serial: Serial): (effs: seq<Effect>)
    ensures effs == [Req(DeviceSetSelection(device, Some(src.inner), serial))]
  {
    [Req(DeviceSetSelection(device, Some(src.inner), serial))]
  }

  /** CopyPasteSource::unset_selection: clears the selection with the stored
      serial, and does nothing when no serial is stored. */
  function UnsetSelection(src: CopyPasteSource, device: DeviceId): (effs: seq<Effect>)
    ensures src.serial.None? <==> effs == []
    ensures src.serial.Some? ==> effs == [Req(DeviceSetSelection(device, None, src.serial.value))]
  {
    match src.serial
    case Some(serial) => [Req(DeviceSetSelection(device, None, serial))]
    case None => []
  }

  /** As written, a source without a stored serial (every source that
      create_copy_paste_source returns) can set the selection but its
      unset_selection afterwards sends nothing, so it never clears it. */
  lemma SetThenUnsetIsSilent(src: CopyPasteSource, device: DeviceId, serial: Serial)
    requires src.serial.None?
    ensures SetSelection(src, device, serial) + UnsetSelection(src, device)
         == [Req(DeviceSetSelection(device, Some(src.inner), serial))]
  {
  }

  /** set_selection as its documentation describes it: it also records the
      serial so that a later unset_selection can use it. */
  function SetSelectionTracked(src: CopyPasteSource, device: DeviceId, serial: Serial): (r: (CopyPasteSource, seq<Effect>))
    ensures r.0.inner == src.inner && r.0.serial == Some(serial)
    ensures r.1 == SetSelection(src, device, serial)
  {
    (src.(serial := Some(serial)), SetSelection(src, device, serial))
  }

  /** With the serial recorded, set followed by unset sets and then clears
      the selection with the same serial. */
  lemma TrackedSetThenUnsetClears(src: CopyPasteSource, device: DeviceId, serial: Serial)
    ensures var (tracked, setEffs) := SetSelectionTracked(src, device, serial);
      setEffs + UnsetSelection(tracked, device)
        == [Req(DeviceSetSelection(device, Some(src.inner), serial)),
            Req(DeviceSetSelection(device, None, serial))]
  {
  }

  /** Drop for CopyPasteSource: one destroy of the inner source. */
  method DropCopyPasteSource(src: CopyPasteSource, env: Env)
    modifies env`trace
    ensures env.trace == old(env.trace) + [Req(SourceDestroy(src.inner))]
  {
    env.Emit(Req(SourceDestroy(src.inner)));
  }

  /** A source for drag and drop (struct DragSource). */
  datatype DragSource = DragSource(inner: SourceId)

  /** DragSource::start_drag: one start_drag with this source and the
      caller's origin, icon and serial. */
  function StartDrag(src: DragSource, device: DeviceId, origin: SurfaceId, icon: Option<SurfaceId>,
                     serial: Serial): (effs: seq<Effect>)
    ensures effs == [Req(DeviceStartDrag(device, Some(src.inner), origin, icon, serial))]
  {
    [Req(DeviceStartDrag(device, Some(src.inner), origin, icon, serial))]
  }

  /** DragSource::start_internal_drag: the same request with no source. */
  function StartInternalDrag(device: DeviceId, origin: SurfaceId, icon: Option<SurfaceId>,
                             serial: Serial): (effs: seq<Effect>)
    ensures effs == [Req(DeviceStartDrag(device, None, origin, icon, serial))]
  {
    [Req(DeviceStartDrag(device, None, origin, icon, serial))]
  }

  /** The two ways to start a drag send the same request except for the
      source: the drag source's own for start_drag, none for the internal one. */
  lemma StartDragVariantsDifferInSourceOnly(src: DragSource, device: DeviceId, origin: SurfaceId,
                                            icon: Option<SurfaceId>, serial: Serial)
    ensures |StartDrag(src, device, origin, icon, serial)| == 1
    ensures StartDrag(src, device, origin, icon, serial)[0].request.dragSource == Some(src.inner)
    ensures StartInternalDrag(device, origin, icon, serial)[0].request
         == StartDrag(src, device, origin, icon, serial)[0].request.(dragSource := None)
  {
  }

  /** Drop for DragSource: one destroy of the inner source. */
  method DropDragSource(src: DragSource, env: Env)
    modifies env`trace
    ensures env.trace == old(env.trace) + [Req(SourceDestroy(src.inner))]
  {
    env.Emit(Req(SourceDestroy(src.inner)));
  }
}
