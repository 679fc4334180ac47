/** The manager facade (src/data_device/mod.rs): the wl_data_device_manager
    global, once bound, creates data sources and per-seat data devices. */
module DataDeviceManager {
  import opened Protocol
  import opened Environment
  import DataDevice
  import opened DataSource

  /** One offer(mime) request on `source` per entry of `mimeTypes`, in order. */
  function OfferRequests(source: SourceId, mimeTypes: seq<string>): (effs: seq<Effect>)
    ensures |effs| == |mimeTypes|
    decreases |mimeTypes|
  {
    if mimeTypes == [] then []
    else [Req(SourceOffer(source, mimeTypes[0]))] + OfferRequests(source, mimeTypes[1..])
  }

  /** The i-th offer request names the i-th mime type. */
  lemma {:induction false} OfferRequestsInOrder(source: SourceId, mimeTypes: seq<string>, i: nat)
    requires i < |mimeTypes|
    ensures OfferRequests(source, mimeTypes)[i] == Req(SourceOffer(source, mimeTypes[i]))
    decreases |mimeTypes|
  {
    if i > 0 {
      OfferRequestsInOrder(source, mimeTypes[1..], i - 1);
    }
  }

  /** Every mime type is offered exactly as many times as it is listed, and
      nothing else is offered. */
  lemma {:induction false} OfferRequestsOncePerEntry(source: SourceId, mimeTypes: seq<string>, m: string)
    ensures multiset(OfferRequests(source, mimeTypes))[Req(SourceOffer(source, m))] == multiset(mimeTypes)[m]
    decreases |mimeTypes|
  {
    if mimeTypes != [] {
      OfferRequestsOncePerEntry(source, mimeTypes[1..], m);
      assert mimeTypes == [mimeTypes[0]] + mimeTypes[1..];
    }
  }

  lemma {:induction false} OfferRequestsSnoc(source: SourceId, mimeTypes: seq<string>, m: string)
    ensures OfferRequests(source, mimeTypes + [m]) == OfferRequests(source, mimeTypes) + [Req(SourceOffer(source, m))]
    decreases |mimeTypes|
  {
    if mimeTypes == [] {
      assert [] + [m] == [m];
      assert [m][1..] == [];
    } else {
      assert (mimeTypes + [m])[0] == mimeTypes[0];
      assert (mimeTypes + [m])[1..] == mimeTypes[1..] + [m];
      OfferRequestsSnoc(source, mimeTypes[1..], m);
    }
  }

  /** What create_data_source sends after creating the source: the offers,
      then set_actions exactly when actions were given. */
  function SourceSetup(source: SourceId, mimeTypes: seq<string>, dndActions: Option<DndAction>): (effs: seq<Effect>)
    ensures |effs| == |mimeTypes| + (if dndActions.Some? then 1 else 0)
    ensures effs[..|mimeTypes|] == OfferRequests(source, mimeTypes)
    ensures dndActions.Some? ==> effs[|mimeTypes|] == Req(SourceSetActions(source, dndActions.value))
  {
    OfferRequests(source, mimeTypes)
      + (if dndActions.Some? then [Req(SourceSetActions(source, dndActions.value))] else [])
  }

  /** A data device proxy together with its user data. */
  datatype DataDeviceProxy = DataDeviceProxy(id: DeviceId, data: DataDevice.DataDeviceInner)

  class DataDeviceManagerState {
    var manager: GlobalProxy<ManagerId>

    /** DataDeviceManagerState::new: not bound yet. */
    constructor ()
      ensures manager == NotReady
    {
      manager := NotReady;
    }

    /** The bound manager, or GlobalError while not bound. */
    function DataDeviceManager(): (r: Result<ManagerId, GlobalError>)
      reads this
      ensures r.Ok? <==> manager.Bound?
      ensures r.Ok? ==> r.value == manager.handle
    {
      manager.Get()
    }

    /** create_data_source_with_data: one create_data_source request on the
        bound manager for a new source; nothing while not bound. */
    method CreateDataSourceWithData(env: Env) returns (r: Result<SourceId, GlobalError>)
      modifies env`trace, env`nextId
      ensures manager.NotReady? ==> r == Err(NotBound) && env.trace == old(env.trace) && env.nextId == old(env.nextId)
      ensures manager.Bound? ==> r == Ok(old(env.nextId)) && env.nextId == old(env.nextId) + 1
                                 && env.trace == old(env.trace) + [Req(ManagerCreateDataSource(manager.handle, r.value))]
    {
      var bound := manager.Get();
      if bound.Err? {
        return Err(bound.error);
      }
      var source := env.NewId();
      env.Emit(Req(ManagerCreateDataSource(bound.value, source)));
      r := Ok(source);
    }

    /** create_data_source: the new source, then its offers in list order,
        then set_actions when actions are given. */
    method CreateDataSource(mimeTypes: seq<string>, dndActions: Option<DndAction>, env: Env)
      returns (r: Result<SourceId, GlobalError>)
      modifies env`trace, env`nextId
      ensures manager.NotReady? ==> r == Err(NotBound) && env.trace == old(env.trace) && env.nextId == old(env.nextId)
      ensures manager.Bound? ==> r == Ok(old(env.nextId)) && env.nextId == old(env.nextId) + 1
                                 && env.trace == old(env.trace) + [Req(ManagerCreateDataSource(manager.handle, r.value))]
                                                + SourceSetup(r.value, mimeTypes, dndActions)
    {
      var created := CreateDataSourceWithData(env);
      if created.Err? {
        return Err(created.error);
      }
      var source := created.value;
      ghost var t1 := env.trace;
      for i := 0 to |mimeTypes|
        invariant env.trace == t1 + OfferRequests(source, mimeTypes[..i])
        invariant env.nextId == source + 1
      {
        OfferRequestsSnoc(source, mimeTypes[..i], mimeTypes[i]);
        assert mimeTypes[..i + 1] == mimeTypes[..i] + [mimeTypes[i]];
        env.Emit(Req(SourceOffer(source, mimeTypes[i])));
      }
      assert mimeTypes[..|mimeTypes|] == mimeTypes;
      if dndActions.Some? {
        env.Emit(Req(SourceSetActions(source, dndActions.value)));
      }
      r := Ok(source);
    }

    /** create_copy_paste_source: a source with the offers and no actions,
        and no serial stored. */
    method CreateCopyPasteSource(mimeTypes: seq<string>, env: Env) returns (r: Result<CopyPasteSource, GlobalError>)
      modifies env`trace, env`nextId
      ensures manager.NotReady? ==> r == Err(NotBound) && env.trace == old(env.trace) && env.nextId == old(env.nextId)
      ensures manager.Bound? ==> r == Ok(CopyPasteSource(old(env.nextId), None)) && env.nextId == old(env.nextId) + 1
                                 && env.trace == old(env.trace) + [Req(ManagerCreateDataSource(manager.handle, r.value.inner))]
                                                + SourceSetup(r.value.inner, mimeTypes, None)
    {
      var src := CreateDataSource(mimeTypes, None, env);
      if src.Err? {
        return Err(src.error);
      }
      r := Ok(CopyPasteSource(src.value, None));
    }

    /** create_drag_and_drop_source: a source with the offers and the given
        actions, wrapped as a drag source. */
    method CreateDragAndDropSource(mimeTypes: seq<string>, dndActions: DndAction, env: Env)
      returns (r: Result<DragSource, GlobalError>)
      modifies env`trace, env`nextId
      ensures manager.NotReady? ==> r == Err(NotBound) && env.trace == old(env.trace) && env.nextId == old(env.nextId)
      ensures manager.Bound? ==> r == Ok(DragSource(old(env.nextId))) && env.nextId == old(env.nextId) + 1
                                 && env.trace == old(env.trace) + [Req(ManagerCreateDataSource(manager.handle, r.value.inner))]
                                                + SourceSetup(r.value.inner, mimeTypes, Some(dndActions))
    {
      var src := CreateDataSource(mimeTypes, Some(dndActions), env);
      if src.Err? {
        return Err(src.error);
      }
      r := Ok(DragSource(src.value));
    }

    /** get_data_device_with_data: every call on the bound manager sends a
        new get_data_device for the seat (there is no per-seat caching);
        nothing while not bound. */
    method GetDataDeviceWithData(seat: SeatId, data: DataDevice.DataDeviceInner, env: Env)
      returns (r: Result<DataDeviceProxy, GlobalError>)
      modifies env`trace, env`nextId
      ensures manager.NotReady? ==> r == Err(NotBound) && env.trace == old(env.trace) && env.nextId == old(env.nextId)
      ensures manager.Bound? ==> r == Ok(DataDeviceProxy(old(env.nextId), data)) && env.nextId == old(env.nextId) + 1
                                 && env.trace == old(env.trace) + [Req(ManagerGetDataDevice(manager.handle, old(env.nextId), seat))]
    {
      var bound := manager.Get();
      if bound.Err? {
        return Err(bound.error);
      }
      var device := env.NewId();
      env.Emit(Req(ManagerGetDataDevice(bound.value, device, seat)));
      r := Ok(DataDeviceProxy(device, data));
    }

    /** get_data_device: the same with fresh default device data. */
    method GetDataDevice(seat: SeatId, env: Env) returns (r: Result<DataDeviceProxy, GlobalError>)
      modifies env`trace, env`nextId
      ensures manager.NotReady? ==> r == Err(NotBound) && env.trace == old(env.trace) && env.nextId == old(env.nextId)
      ensures manager.Bound? ==> && r.Ok? && r.value.id == old(env.nextId) && env.nextId == old(env.nextId) + 1
                                 && fresh(r.value.data) && r.value.data.State() == DataDevice.Initial
                                 && env.trace == old(env.trace) + [Req(ManagerGetDataDevice(manager.handle, r.value.id, seat))]
    {
      var data := new DataDevice.DataDeviceInner();
      r := GetDataDeviceWithData(seat, data, env);
    }

    /** Two get_data_device calls in a row, for one seat or two, create
        distinct devices. */
    method GetDataDeviceTwice(first: SeatId, second: SeatId, env: Env)
      returns (a: Result<DataDeviceProxy, GlobalError>, b: Result<DataDeviceProxy, GlobalError>)
      modifies env`trace, env`nextId
      ensures manager.Bound? <==> a.Ok? && b.Ok?
      ensures a.Ok? && b.Ok? ==> a.value.id != b.value.id
    {
      a := GetDataDevice(first, env);
      b := GetDataDevice(second, env);
    }

    /** Two create_data_source_with_data calls in a row create distinct
        sources. */
    method CreateDataSourceTwice(env: Env) returns (a: Result<SourceId, GlobalError>, b: Result<SourceId, GlobalError>)
      modifies env`trace, env`nextId
      ensures manager.Bound? <==> a.Ok? && b.Ok?
      ensures a.Ok? && b.Ok? ==> a.value != b.value
    {
      a := CreateDataSourceWithData(env);
      b := CreateDataSourceWithData(env);
    }

    /** RegistryHandler::ready: the manager becomes what the registry binds
        for wl_data_device_manager in versions 1 to 3. */
    method Ready(bindOne: (Interface, nat, nat) -> Option<ManagerId>)
      modifies this`manager
      ensures manager == FromBind(bindOne(WlDataDeviceManager, 1, 3))
    {
      manager := FromBind(bindOne(WlDataDeviceManager, 1, 3));
    }
  }
}
