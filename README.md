# wl_data_device client session engine — a Dafny model

This project models the clipboard and drag-and-drop client core of a Rust
Wayland client toolkit. It also covers the toolkit's small `wl_shm` format list.

- **Data device** (`src/data_device/data_device.rs`). There is one per seat. It holds:
  - a local offer counter;
  - an optional drag-and-drop record (offer, interaction serial, surface, x, y, optional time);
  - an optional selection offer.

  Each `wl_data_device` event (`data_offer`, `enter`, `leave`, `motion`, `drop`, `selection`) updates these fields in place. The handler destroys offers that are superseded or cleared, then calls the application's handler.
- **Source and offer routing** (`data_source.rs`, `data_offer.rs`).
  - Source and offer events are forwarded to handler methods.
  - The cancel path destroys the source before calling its handler.
  - The copy-paste and drag wrappers send `set_selection` / `start_drag`, and destroy their source when dropped.
  - `receive` hands the write end of a new pipe to the compositor, closes it, and returns the read end.
- **Manager facade** (`src/data_device/mod.rs`).
  - It wraps the not-yet-bound `wl_data_device_manager` global.
  - It creates sources: one `offer` request per mime type in order, then `set_actions` if actions were given.
  - It creates data devices.
- **wl_shm** (`src/shm/mod.rs`). The global grows its format list on `format` events.

Protocol objects are opaque ids (`Protocol`). One trace in the `Environment.Env` class records everything observable, in order:
- every request sent (`Req`);
- every handler callback invoked (`Cb`);
- every descriptor system call made (`Sys`: `pipe2` and `close`).

`Env` also holds the process's descriptor table: the set of open descriptors and a descriptor limit. That makes "destroyed exactly once", "nothing else changes" and ordering properties stateable.

The data device is modelled in two layers:
- `DataDevice.Handle` is a pure function. It gives the new field values and the appended effects of one event.
- `DataDevice.DataDeviceInner.Event` is the in-place implementation, a class method proved against `Handle`. `Run` folds `Handle` over an event sequence.

Behaviour of the code worth knowing:
- `motion` with a drag record but no concrete offer still overwrites x, y and time. Only the callback is skipped.
- `drop` does not change the state. There is no "awaiting action" state.
- `get_data_device` sends a new request on every call. There is no per-seat caching.
- Offers do not accumulate mime types, and no action intersection is computed.
- A copy-paste source is destroyed by the library on `cancelled`, and again when the wrapper is dropped. So the library does not guarantee that a source is destroyed exactly once, and the model claims no such thing.
- `enter` destroys the previous record's offer even when the new event names the same offer. `selection(Some(id))` likewise destroys the previous selection even when it is `id`.

## Model

| member | source | states |
|---|---|---|
| `DataDevice.DataDeviceInner.constructor` | src/data_device/data_device.rs:18-23 | A fresh device has no drag record, no selection and counter 0. |
| `DataDevice.DataDeviceInner.Event` | src/data_device/data_device.rs:137-233 | Updating the fields in place yields exactly `Handle`'s new state. The trace grows by exactly `Handle`'s effects. |
| `DataDevice.Dropped` | src/data_device/data_device.rs:35-39 | Dropping a drag record emits only destroy requests, at most one. It destroys an offer iff the record holds that offer. |
| `DataDevice.DroppedDestroysOnce` | src/data_device/data_device.rs:35-39 | The held offer is destroyed exactly once, and any other offer zero times. |
| `DataDevice.DropDnDDataOffer` | src/data_device/data_device.rs:35-39 | Emitting a record's drop appends exactly `Dropped(rec)` to the trace. |
| `DataDevice.OnDataOffer` | src/data_device/data_device.rs:149-153 | The callback gets the counter's current value. The counter then grows by exactly one, and nothing else changes. |
| `DataDevice.OnEnter` | src/data_device/data_device.rs:154-170 | The new record holds exactly the event's offer, serial, surface, x and y, with no time. The previous record's offer is destroyed before the `enter` callback. Selection and counter are unchanged. |
| `DataDevice.OnLeave` | src/data_device/data_device.rs:171-174 | Afterwards there is no record. The old record's offer, if any, is destroyed before the `leave` callback. With no record, only the callback happens. |
| `DataDevice.OnMotion` | src/data_device/data_device.rs:175-191 | With no record: no change and no effect. With a record: x, y and time are overwritten, and serial, surface and offer are kept. The callback fires iff the record holds a concrete offer. |
| `DataDevice.OnDrop` | src/data_device/data_device.rs:192-214 | The state never changes. `drop_performed` fires iff a record with a concrete offer exists. It gets the stored serial, surface, x, y and time. |
| `DataDevice.OnSelection` | src/data_device/data_device.rs:215-231 | The selection becomes the event's id. A previous selection offer is destroyed first. The `selection` callback then gets the event's id. The drag record and counter are unchanged. |
| `DataDevice.Handle` | src/data_device/data_device.rs:148-233 | Drag events never change selection or counter. `selection` never changes the record or counter. `data_offer` changes only the counter. Only `data_offer` announces a serial. |
| `DataDevice.HandleAnnounces` | src/data_device/data_device.rs:148-233 | One event announces `[counter]` if it is `data_offer`, and nothing otherwise. |
| `DataDevice.RunAnnouncesConsecutiveSerials` | src/data_device/data_device.rs:149-153 | Over any event sequence, the counter grows by the number of `data_offer` events. The announced serials are exactly the consecutive values from the starting counter. |
| `DataDevice.FreshDeviceSerialsDistinct` | src/data_device/data_device.rs:149-153 | From a fresh device, the announced serials are 0, 1, 2, … and pairwise distinct. |
| `DataDevice.LeaveSilencesDrag` | src/data_device/data_device.rs:171-214 | After `leave`, a `motion` or `drop` has no effect at all, and there is still no record. |
| `DataDevice.ClearSelectionTwice` | src/data_device/data_device.rs:224-230 | Two clears in a row destroy the old selection once. The second clear destroys nothing. |
| `DataDevice.DropReportsDragContext` | src/data_device/data_device.rs:161-214 | `drop` right after `enter` reports the enter's serial, surface, x and y, with no time. After a `motion`, it reports the motion's position and time. |
| `DataDevice.RunKeepsDrag` | src/data_device/data_device.rs:148-233 | Any run of `data_offer`, `drop` and `selection` events leaves the drag record exactly as it was. |
| `DataDevice.DropWithoutMotionReportsNoTime` | src/data_device/data_device.rs:161-214 | With no `motion` since the last `enter`, `drop` reports the enter's offer, serial, surface, x and y, with no time. This holds whatever `data_offer`, `drop` and `selection` events came in between. |
| `DataDevice.DropAfterMotionReportsItsTime` | src/data_device/data_device.rs:175-214 | After a `motion` over a concrete offer, `drop` reports the motion's position and time with the record's serial and surface. This holds through any `data_offer`, `drop` and `selection` events in between. |
| `DataSource.HandleSourceEvent` | src/data_device/data_source.rs:76-109 | Every event reaches one handler of this source with its own arguments (same mime, same fd). The exception is an unknown action, which reaches none. The only request is `cancelled`'s destroy, and it comes before the callback. No descriptor is closed. |
| `DataSource.SetSelection` | src/data_device/data_source.rs:119-123 | Sends `set_selection(Some(inner), serial)` and nothing else. The source is unchanged. |
| `DataSource.UnsetSelection` | src/data_device/data_source.rs:125-130 | Sends `set_selection(None, s)` when serial `s` is stored, and nothing otherwise. |
| `DataSource.SetThenUnsetIsSilent` | src/data_device/data_source.rs:119-130 | Take a source with no stored serial, such as any from `create_copy_paste_source`. `set_selection` followed by `unset_selection` never clears the selection. |
| `DataSource.SetSelectionTracked` | src/data_device/data_source.rs:119-123 | The documented behaviour: the same request, and the returned source records the serial. |
| `DataSource.TrackedSetThenUnsetClears` | src/data_device/data_source.rs:119-130 | With the serial recorded, set then unset sets and then clears the selection with the same serial. |
| `DataSource.DropCopyPasteSource` | src/data_device/data_source.rs:137-141 | Dropping a copy-paste source appends exactly one destroy of its inner source. |
| `DataSource.StartDrag` | src/data_device/data_source.rs:151-159 | Sends one `start_drag` with `Some(inner)` and the caller's origin, icon and serial. |
| `DataSource.StartInternalDrag` | src/data_device/data_source.rs:164-171 | Sends one `start_drag` with no source and the caller's origin, icon and serial. |
| `DataSource.StartDragVariantsDifferInSourceOnly` | src/data_device/data_source.rs:151-171 | The two start paths send the same request except for the source field. |
| `DataSource.DropDragSource` | src/data_device/data_source.rs:178-182 | Dropping a drag source appends exactly one destroy of its inner source. |
| `DataOffer.HandleOfferEvent` | src/data_device/data_offer.rs:70-79 | Every offer event reaches exactly one handler with its value unchanged, unknown action values included. Nothing is sent. |
| `DataOffer.Receive` | src/data_device/data_offer.rs:96-109 | Pipe failure: the error is returned, no request is sent, and no descriptor changes. Success: one pipe, then exactly one `receive` carrying the write end, then exactly one close of it. The returned read end is new and still open. The write end is new too, and is not open afterwards. The only change to the descriptor table is the added read end. |
| `DataOffer.ReceiveToFd` | src/data_device/data_offer.rs:126-134 | Exactly one `receive` with the caller's descriptor, then exactly one close of it. A failed close leaves everything else as it is. |
| `DataOffer.ReceiveTwice` | src/data_device/data_offer.rs:83-109 | Two successful receives on one offer hand out distinct read ends, and both stay open. |
| `DataDeviceManager.DataDeviceManagerState.constructor` | src/data_device/mod.rs:37-39 | A new manager state is not ready. |
| `DataDeviceManager.DataDeviceManagerState.DataDeviceManager` | src/data_device/mod.rs:41-43 | Succeeds iff the global is bound, and then returns the bound proxy. |
| `DataDeviceManager.DataDeviceManagerState.CreateDataSourceWithData` | src/data_device/mod.rs:92-106 | While not ready: `GlobalError`, with no request and the id counter unchanged. Otherwise: the next id is consumed (the counter grows by one), and one `create_data_source` is sent for it. |
| `DataDeviceManager.DataDeviceManagerState.CreateDataSourceTwice` | src/data_device/mod.rs:92-106 | Two calls in a row succeed iff the manager is bound, and then create sources with distinct ids. |
| `DataDeviceManager.OfferRequests` | src/data_device/mod.rs:82-84 | There is one offer request per mime type. |
| `DataDeviceManager.OfferRequestsInOrder` | src/data_device/mod.rs:82-84 | The i-th offer request names the i-th mime type. |
| `DataDeviceManager.OfferRequestsOncePerEntry` | src/data_device/mod.rs:82-84 | Each mime type is offered exactly as many times as it is listed. |
| `DataDeviceManager.SourceSetup` | src/data_device/mod.rs:81-89 | All offers come first. After them, exactly one `set_actions` comes iff actions were given. |
| `DataDeviceManager.DataDeviceManagerState.CreateDataSource` | src/data_device/mod.rs:72-90 | While not ready: `GlobalError`, no request, and the id counter unchanged. Otherwise: one new id is consumed, the create request is sent, then exactly `SourceSetup`. |
| `DataDeviceManager.DataDeviceManagerState.CreateCopyPasteSource` | src/data_device/mod.rs:45-55 | While not ready: `GlobalError`, with nothing sent or allocated. Otherwise: one new id, a source setup with no actions, and a result with no stored serial. |
| `DataDeviceManager.DataDeviceManagerState.CreateDragAndDropSource` | src/data_device/mod.rs:57-68 | While not ready: `GlobalError`, with nothing sent or allocated. Otherwise: one new id, a source setup with `Some(dnd_actions)`, and the source wrapped as a drag source. |
| `DataDeviceManager.DataDeviceManagerState.GetDataDeviceWithData` | src/data_device/mod.rs:119-134 | While not ready: `GlobalError`, with nothing sent and the id counter unchanged. Otherwise, every call consumes one new id and sends `get_data_device(seat)` for it, with the caller's data. |
| `DataDeviceManager.DataDeviceManagerState.GetDataDevice` | src/data_device/mod.rs:108-117 | While not ready: `GlobalError`, with nothing sent and the id counter unchanged. Otherwise: one new id, one `get_data_device(seat)`, and freshly allocated default device data. |
| `DataDeviceManager.DataDeviceManagerState.GetDataDeviceTwice` | src/data_device/mod.rs:108-134 | Two calls in a row succeed iff the manager is bound, and then create devices with distinct ids, even for the same seat. |
| `DataDeviceManager.DataDeviceManagerState.Ready` | src/data_device/mod.rs:148-152 | The manager becomes the registry's bind outcome for `wl_data_device_manager`, versions 1 to 3. |
| `Shm.ShmState.New` | src/shm/mod.rs:33-35 | Not ready, with an empty format list. |
| `Shm.ShmState.FromWlShm` | src/shm/mod.rs:26-30 | Bound to the given proxy, with an empty format list. |
| `Shm.ShmState.WlShm` | src/shm/mod.rs:37-39 | `GlobalError` while not ready. Otherwise the proxy the last `Ready` installed. |
| `Shm.ShmState.Formats` | src/shm/mod.rs:42-44 | Returns the known formats of all format events so far, in arrival order. |
| `Shm.ShmState.Event` | src/shm/mod.rs:117-130 | A known format is appended at the end, and earlier entries are unchanged. An unknown raw value leaves the list unchanged. |
| `Shm.KnownFormatsAppend` | src/shm/mod.rs:118-128 | The accumulated list of two event runs is the concatenation of their lists. |
| `Shm.KnownFormatsMembers` | src/shm/mod.rs:118-128 | A format is listed iff some event announced it as a known value. |
| `Shm.ShmState.Ready` | src/shm/mod.rs:141-143 | The proxy becomes the registry's bind outcome for `wl_shm`, version 1. The format list is left as it is, so `Valid()` is kept. |

## Left out

- `ReadPipe` and its `Read`, raw-fd and event-loop trait impls are I/O plumbing. The model treats a `ReadPipe` as an owned read descriptor.
- The bytes that travel through pipes are I/O and not modelled. So is the advice to flush before reading.
- The `Mutex` around the device data is a concurrency wrapper. The model gives one caller exclusive access to the fields.
- The `f64` coordinates are modelled as the raw wl_fixed integers they carry. The code only stores and forwards them.
- `DataDevice.OnDataOffer`: the counter is a `nat`, so the model does not capture the `u32` overflow of `serial += 1`. Other `u32` serials and times are unbounded too.
- The `dbg!` print in the `drop` arm and the `log` messages in `receive`, `receive_to_fd` and the shm format handler are diagnostics with no effect on state.
- Not modelled because they are macro plumbing or unreachable:
  - the `delegate_*` macros;
  - `event_created_child!`;
  - the `unimplemented!`/`unreachable!` arms, including the only arm of the manager's event handler (src/data_device/mod.rs:160-171).
- `GlobalProxy::get` and the registry's `bind_one` are not part of this model. `Ready` takes the bind outcome as a function of interface and version range. A failed bind is modelled as leaving the global not ready.
- `DataOffer.Receive`: descriptors are drawn from an increasing counter. POSIX reuse of the lowest free number is not modelled. The pipe fails with `EMFILE` exactly when fewer than two descriptors are free under the process limit.
- The wire library's own handling of a descriptor it transmits, such as duplicating it, is not part of this model.
- User data is not modelled:
  - `create_data_source_with_data` takes a generic user data `U`. The only part of it the library sees is the empty `DataSourceData`. It is attached to the new proxy and never read by the core.
  - The `get_data_device_with_data` data is modelled as the device data itself, without its wrapper.
- Not modelled because they are trivial accessors or outside the data-transfer core:
  - the `inner()` accessors;
  - `ProvidesBoundGlobal` for `ShmState`;
  - `CreatePoolError`;
  - the `multi`, `raw` and `slot` shm submodules;
  - `src/shell/plasma/blur.rs`;
  - the example programs.

## Findings

| source | as written | input that shows it | evidently intended | confidence | as-written member | corrected member |
|---|---|---|---|---|---|---|
| src/data_device/data_source.rs:119-130 | `set_selection` is documented as tracking the serial for a later `unset_selection`, but it takes `&self` and stores nothing. `create_copy_paste_source` stores `None`. | Create a copy-paste source, call `set_selection(device, 5)`, then `unset_selection(device)`: nothing is sent, so the selection stays set. | `set_selection` records `Some(serial)`, so `unset_selection` then sends `set_selection(None, serial)`. | not executed; medium-high (the doc comment states the intent) | `DataSource.SetThenUnsetIsSilent` | `DataSource.TrackedSetThenUnsetClears` |
