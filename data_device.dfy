/** The per-seat wl_data_device session (src/data_device/data_device.rs):
    a local offer counter, an optional drag-and-drop record and an optional
    selection offer, updated in place by each wl_data_device event.

    `Handle` is the specification of one event: the new state and the
    effects (destroy requests and callbacks) it appends to the trace.
    `DataDeviceInner.Event` is the in-place implementation, proved against
    it; `Run` folds `Handle` over a sequence of events. */
module DataDevice {
  import opened Protocol
  import opened Environment

  /** The drag record an `enter` installs (struct DnDDataOffer). */
  datatype DnDDataOffer = DnDDataOffer(
    dataOffer: Option<OfferId>,
    serial: Serial,
    surface: SurfaceId,
    x: Coord,
    y: Coord,
    time: Option<Serial>)

  /** The events of wl_data_device. */
  datatype DeviceEvent =
    | DataOffer(newOffer: OfferId)
    | Enter(serial: Serial, surface: SurfaceId, x: Coord, y: Coord, id: Option<OfferId>)
    | Leave
    | Motion(time: Serial, x: Coord, y: Coord)
    | Drop
    | Selection(selectionId: Option<OfferId>)
  {
    predicate IsDrag() { Enter? || Leave? || Motion? || Drop? }
  }

  /** The value of the fields of DataDeviceInner. */
  datatype DeviceState = DeviceState(dnd: Option<DnDDataOffer>, selection: Option<OfferId>, serial: nat)

  /** DataDeviceInner::default(). */
  const Initial := DeviceState(None, None, 0)

  datatype Step = Step(state: DeviceState, effects: seq<Effect>)

  /** The offer a drag record holds, if there is a record and it holds one. */
  function HeldOffer(rec: Option<DnDDataOffer>): Option<OfferId>
  {
    if rec.Some? then rec.value.dataOffer else None
  }

  /** The effects of dropping an optional drag record (Drop for DnDDataOffer):
      the held offer, and only it, is destroyed, at most once. */
  function Dropped(rec: Option<DnDDataOffer>): (effs: seq<Effect>)
    ensures |effs| <= 1
    ensures forall e :: e in effs ==> e.Req? && e.request.OfferDestroy?
    ensures forall o: OfferId :: Req(OfferDestroy(o)) in effs <==> HeldOffer(rec) == Some(o)
  {
    match HeldOffer(rec)
    case Some(o) => [Req(OfferDestroy(o))]
    case None => []
  }

  /** Dropping a record destroys its offer exactly once and nothing else. */
  lemma DroppedDestroysOnce(rec: Option<DnDDataOffer>, o: OfferId)
    ensures multiset(Dropped(rec))[Req(OfferDestroy(o))] == if HeldOffer(rec) == Some(o) then 1 else 0
  {
    if HeldOffer(rec) == Some(o) {
      assert Dropped(rec) == [Req(OfferDestroy(o))];
    } else if Dropped(rec) != [] {
      assert Dropped(rec) == [Dropped(rec)[0]];
      assert Dropped(rec)[0] != Req(OfferDestroy(o));
    }
  }

  /** data_offer: the callback gets the current counter, which then grows by one. */
  function OnDataOffer(s: DeviceState, device: DeviceId, id: OfferId): (r: Step)
    ensures r.state.serial == s.serial + 1
    ensures r.state.dnd == s.dnd && r.state.selection == s.selection
    ensures r.effects == [Cb(DeviceDataOffer(device, id, s.serial))]
  {
    Step(s.(serial := s.serial + 1), [Cb(DeviceDataOffer(device, id, s.serial))])
  }

  /** enter: a record holding exactly the event's data and no time replaces
      any previous one, whose offer is destroyed before the callback. */
  function OnEnter(s: DeviceState, device: DeviceId, serial: Serial, surface: SurfaceId,
                   x: Coord, y: Coord, id: Option<OfferId>): (r: Step)
    ensures r.state.dnd == Some(DnDDataOffer(id, serial, surface, x, y, None))
    ensures r.state.selection == s.selection && r.state.serial == s.serial
    ensures r.effects == Dropped(s.dnd) + [Cb(DeviceEnter(device, serial, surface, x, y, id))]
  {
    var replaced := s.dnd;
    Step(s.(dnd := Some(DnDDataOffer(id, serial, surface, x, y, None))),
         Dropped(replaced) + [Cb(DeviceEnter(device, serial, surface, x, y, id))])
  }

  /** leave: the record is always gone afterwards; its offer, if any, is
      destroyed before the callback. */
  function OnLeave(s: DeviceState, device: DeviceId): (r: Step)
    ensures r.state.dnd == None
    ensures r.state.selection == s.selection && r.state.serial == s.serial
    ensures r.effects == Dropped(s.dnd) + [Cb(DeviceLeave(device))]
  {
    Step(s.(dnd := None), Dropped(s.dnd) + [Cb(DeviceLeave(device))])
  }

  /** motion: ignored without a record; otherwise position and time are
      overwritten, the rest of the record is kept, and the callback fires
      only when the record holds a concrete offer. */
  function OnMotion(s: DeviceState, device: DeviceId, time: Serial, x: Coord, y: Coord): (r: Step)
    ensures s.dnd.None? ==> r == Step(s, [])
    ensures s.dnd.Some? ==>
      var rec := s.dnd.value;
      && r.state.dnd.Some?
      && r.state.dnd.value.x == x && r.state.dnd.value.y == y
      && r.state.dnd.value.time == Some(time)
      && r.state.dnd.value.serial == rec.serial
      && r.state.dnd.value.surface == rec.surface
      && r.state.dnd.value.dataOffer == rec.dataOffer
    ensures r.state.selection == s.selection && r.state.serial == s.serial
    ensures r.effects != [] <==> HeldOffer(s.dnd).Some?
    ensures r.effects != [] ==> r.effects == [Cb(DeviceMotion(device, time, x, y, HeldOffer(s.dnd).value))]
  {
    match s.dnd
    case None => Step(s, [])
    case Some(rec) =>
      Step(s.(dnd := Some(rec.(x := x, y := y, time := Some(time)))),
           match rec.dataOffer
           case Some(o) => [Cb(DeviceMotion(device, time, x, y, o))]
           case None => [])
  }

  /** drop: never changes the state; drop_performed fires iff the record
      holds a concrete offer, with the record's stored context. */
  function OnDrop(s: DeviceState, device: DeviceId): (r: Step)
    ensures r.state == s
    ensures r.effects != [] <==> HeldOffer(s.dnd).Some?
    ensures r.effects != [] ==>
      var rec := s.dnd.value;
      r.effects == [Cb(DeviceDropPerformed(device, rec.dataOffer.value, rec.serial, rec.surface,
                                           rec.x, rec.y, rec.time))]
  {
    match s.dnd
    case None => Step(s, [])
    case Some(rec) =>
      match rec.dataOffer
      case None => Step(s, [])
      case Some(o) => Step(s, [Cb(DeviceDropPerformed(device, o, rec.serial, rec.surface, rec.x, rec.y, rec.time))])
  }

  /** selection: the selection becomes exactly the event's id; a previous
      selection offer is destroyed, then the callback gets the event's id. */
  function OnSelection(s: DeviceState, device: DeviceId, id: Option<OfferId>): (r: Step)
    ensures r.state.selection == id
    ensures r.state.dnd == s.dnd && r.state.serial == s.serial
    ensures s.selection.Some? ==> r.effects == [Req(OfferDestroy(s.selection.value)), Cb(DeviceSelection(device, id))]
    ensures s.selection.None? ==> r.effects == [Cb(DeviceSelection(device, id))]
  {
    var previous := s.selection;
    Step(s.(selection := id),
         (if previous.Some? then [Req(OfferDestroy(previous.value))] else []) + [Cb(DeviceSelection(device, id))])
  }

  /** Dispatch<WlDataDevice>::event as a function of the fields. */
  function Handle(s: DeviceState, device: DeviceId, ev: DeviceEvent): (r: Step)
    ensures ev.IsDrag() ==> r.state.selection == s.selection && r.state.serial == s.serial
    ensures ev.Selection? ==> r.state.dnd == s.dnd && r.state.serial == s.serial
    ensures ev.DataOffer? ==> r.state == s.(serial := s.serial + 1)
    ensures !ev.DataOffer? ==> forall e :: e in r.effects ==> !(e.Cb? && e.callback.DeviceDataOffer?)
  {
    match ev
    case DataOffer(id) => OnDataOffer(s, device, id)
    case Enter(serial, surface, x, y, id) => OnEnter(s, device, serial, surface, x, y, id)
    case Leave => OnLeave(s, device)
    case Motion(time, x, y) => OnMotion(s, device, time, x, y)
    case Drop => OnDrop(s, device)
    case Selection(id) => OnSelection(s, device, id)
  }

  /** The fields of one device after a sequence of events, and everything
      the events emitted. */
  function Run(s: DeviceState, device: DeviceId, evs: seq<DeviceEvent>): Step
    decreases |evs|
  {
    if evs == [] then Step(s, [])
    else
      var first := Handle(s, device, evs[0]);
      var rest := Run(first.state, device, evs[1..]);
      Step(rest.state, first.effects + rest.effects)
  }

  /** The local serials handed to the data_offer callback, in order. */
  function Announced(effs: seq<Effect>): seq<Serial>
  {
    if effs == [] then []
    else if effs[0].Cb? && effs[0].callback.DeviceDataOffer? then [effs[0].callback.serial] + Announced(effs[1..])
    else Announced(effs[1..])
  }

  /** The number of data_offer events in a sequence. */
  function OfferCount(evs: seq<DeviceEvent>): nat
  {
    if evs == [] then 0 else (if evs[0].DataOffer? then 1 else 0) + OfferCount(evs[1..])
  }

  /** from, from + 1, ..., from + n - 1. */
  function Consecutive(from: nat, n: nat): (r: seq<nat>)
    ensures |r| == n && forall i :: 0 <= i < n ==> r[i] == from + i
  {
    seq(n, i => from + i)
  }

  lemma {:induction false} AnnouncedAppend(a: seq<Effect>, b: seq<Effect>)
    ensures Announced(a + b) == Announced(a) + Announced(b)
    decreases |a|
  {
    if a != [] {
      assert (a + b)[0] == a[0];
      assert (a + b)[1..] == a[1..] + b;
      AnnouncedAppend(a[1..], b);
    } else {
      assert a + b == b;
    }
  }

  lemma {:induction false} AnnouncedNone(effs: seq<Effect>)
    requires forall e :: e in effs ==> !(e.Cb? && e.callback.DeviceDataOffer?)
    ensures Announced(effs) == []
    decreases |effs|
  {
    if effs != [] {
      assert effs[0] in effs;
      forall e | e in effs[1..] ensures !(e.Cb? && e.callback.DeviceDataOffer?) {
        assert e in effs;
      }
      AnnouncedNone(effs[1..]);
    }
  }

  /** One event announces the current counter if it is a data_offer, and
      nothing otherwise. */
  lemma HandleAnnounces(s: DeviceState, device: DeviceId, ev: DeviceEvent)
    ensures Announced(Handle(s, device, ev).effects) == if ev.DataOffer? then [s.serial] else []
  {
    var effs := Handle(s, device, ev).effects;
    if ev.DataOffer? {
      assert effs == [Cb(DeviceDataOffer(device, ev.newOffer, s.serial))];
      assert Announced(effs[1..]) == [];
    } else {
      AnnouncedNone(effs);
    }
  }

  /** Two adjacent runs of consecutive values form one. */
  lemma ConsecutiveSplit(from: nat, k: nat, n: nat)
    ensures Consecutive(from, k) + Consecutive(from + k, n) == Consecutive(from, k + n)
  {
  }

  /** Over any event sequence the counter grows by the number of
      data_offer events, and the announced serials are exactly the
      consecutive values starting at the initial counter. */
  lemma {:induction false} RunAnnouncesConsecutiveSerials(s: DeviceState, device: DeviceId, evs: seq<DeviceEvent>)
    ensures Run(s, device, evs).state.serial == s.serial + OfferCount(evs)
    ensures Announced(Run(s, device, evs).effects) == Consecutive(s.serial, OfferCount(evs))
    decreases |evs|
  {
    if evs != [] {
      var first := Handle(s, device, evs[0]);
      var rest := Run(first.state, device, evs[1..]);
      assert Run(s, device, evs) == Step(rest.state, first.effects + rest.effects);
      var k := if evs[0].DataOffer? then 1 else 0;
      assert OfferCount(evs) == k + OfferCount(evs[1..]);
      assert first.state.serial == s.serial + k;
      RunAnnouncesConsecutiveSerials(first.state, device, evs[1..]);
      HandleAnnounces(s, device, evs[0]);
      assert Announced(first.effects) == Consecutive(s.serial, k);
      AnnouncedAppend(first.effects, rest.effects);
      ConsecutiveSplit(s.serial, k, OfferCount(evs[1..]));
    }
  }

  /** From a fresh device the announced serials are 0, 1, 2, ... and
      pairwise distinct. */
  lemma FreshDeviceSerialsDistinct(device: DeviceId, evs: seq<DeviceEvent>)
    ensures var a := Announced(Run(Initial, device, evs).effects);
      && |a| == OfferCount(evs)
      && (forall i :: 0 <= i < |a| ==> a[i] == i)
      && (forall i, j :: 0 <= i < j < |a| ==> a[i] != a[j])
  {
    RunAnnouncesConsecutiveSerials(Initial, device, evs);
  }

  /** After leave, neither motion nor drop produces any effect. */
  lemma LeaveSilencesDrag(s: DeviceState, device: DeviceId, ev: DeviceEvent)
    requires ev.Motion? || ev.Drop?
    ensures Run(s, device, [Leave, ev]).effects == Dropped(s.dnd) + [Cb(DeviceLeave(device))]
    ensures Run(s, device, [Leave, ev]).state.dnd == None
  {
    var afterLeave := Handle(s, device, Leave);
    assert [Leave, ev][1..] == [ev];
    assert Run(afterLeave.state, device, [ev]) == Step(afterLeave.state, []) by {
      assert [ev][1..] == [];
    }
  }

  /** Clearing the selection twice destroys the old selection once, and
      the second clear destroys nothing. */
  lemma ClearSelectionTwice(s: DeviceState, device: DeviceId)
    requires s.selection.Some?
    ensures Run(s, device, [Selection(None), Selection(None)]).state.selection == None
    ensures Run(s, device, [Selection(None), Selection(None)]).effects
         == [Req(OfferDestroy(s.selection.value)), Cb(DeviceSelection(device, None)), Cb(DeviceSelection(device, None))]
  {
    var once := Handle(s, device, Selection(None));
    assert [Selection(None), Selection(None)][1..] == [Selection(None)];
    assert Run(once.state, device, [Selection(None)]) == Step(once.state.(selection := None), [Cb(DeviceSelection(device, None))]) by {
      assert [Selection(None)][1..] == [];
    }
  }

  /** drop right after enter reports the enter's context and no time; drop
      after a motion reports the motion's position and time. */
  lemma DropReportsDragContext(s: DeviceState, device: DeviceId, serial: Serial, surface: SurfaceId,
                               x: Coord, y: Coord, o: OfferId, time: Serial, x2: Coord, y2: Coord)
    ensures Run(s, device, [Enter(serial, surface, x, y, Some(o)), Drop]).effects
         == Dropped(s.dnd) + [Cb(DeviceEnter(device, serial, surface, x, y, Some(o))),
                              Cb(DeviceDropPerformed(device, o, serial, surface, x, y, None))]
    ensures Run(s, device, [Enter(serial, surface, x, y, Some(o)), Motion(time, x2, y2), Drop]).effects
         == Dropped(s.dnd) + [Cb(DeviceEnter(device, serial, surface, x, y, Some(o))),
                              Cb(DeviceMotion(device, time, x2, y2, o)),
                              Cb(DeviceDropPerformed(device, o, serial, surface, x2, y2, Some(time)))]
  {
    var entered := Handle(s, device, Enter(serial, surface, x, y, Some(o))).state;
    var moved := Handle(entered, device, Motion(time, x2, y2)).state;
    assert [Enter(serial, surface, x, y, Some(o)), Drop][1..] == [Drop];
    assert [Enter(serial, surface, x, y, Some(o)), Motion(time, x2, y2), Drop][1..] == [Motion(time, x2, y2), Drop];
    assert [Motion(time, x2, y2), Drop][1..] == [Drop];
    assert [Drop][1..] == [];
    assert Run(moved, device, [Drop]).effects == [Cb(DeviceDropPerformed(device, o, serial, surface, x2, y2, Some(time)))];
    assert Run(entered, device, [Drop]).effects == [Cb(DeviceDropPerformed(device, o, serial, surface, x, y, None))];
  }

  /** The events that leave the drag record alone: data_offer, drop and
      selection. */
  predicate KeepsDrag(ev: DeviceEvent)
  {
    ev.DataOffer? || ev.Drop? || ev.Selection?
  }

  /** A run of data_offer, drop and selection events never touches the drag
      record. */
  lemma {:induction false} RunKeepsDrag(s: DeviceState, device: DeviceId, evs: seq<DeviceEvent>)
    requires forall i :: 0 <= i < |evs| ==> KeepsDrag(evs[i])
    ensures Run(s, device, evs).state.dnd == s.dnd
    decreases |evs|
  {
    if evs != [] {
      var first := Handle(s, device, evs[0]);
      assert first.state.dnd == s.dnd;
      RunKeepsDrag(first.state, device, evs[1..]);
    }
  }

  /** Without a motion since the last enter, drop reports the enter's
      context and no time, whatever data_offer, drop and selection events
      came in between. */
  lemma DropWithoutMotionReportsNoTime(s: DeviceState, device: DeviceId, serial: Serial, surface: SurfaceId,
                                       x: Coord, y: Coord, o: OfferId, evs: seq<DeviceEvent>)
    requires forall i :: 0 <= i < |evs| ==> KeepsDrag(evs[i])
    ensures Handle(Run(s, device, [Enter(serial, surface, x, y, Some(o))] + evs).state, device, Drop).effects
         == [Cb(DeviceDropPerformed(device, o, serial, surface, x, y, None))]
  {
    var evs' := [Enter(serial, surface, x, y, Some(o))] + evs;
    assert evs'[1..] == evs;
    var entered := Handle(s, device, evs'[0]).state;
    RunKeepsDrag(entered, device, evs);
  }

  /** After a motion over a concrete offer, drop reports the motion's
      position and time, whatever data_offer, drop and selection events
      came in between. */
  lemma DropAfterMotionReportsItsTime(s: DeviceState, device: DeviceId, time: Serial, x: Coord, y: Coord,
                                      evs: seq<DeviceEvent>)
    requires s.dnd.Some? && s.dnd.value.dataOffer.Some?
    requires forall i :: 0 <= i < |evs| ==> KeepsDrag(evs[i])
    ensures Handle(Run(s, device, [Motion(time, x, y)] + evs).state, device, Drop).effects
         == [Cb(DeviceDropPerformed(device, s.dnd.value.dataOffer.value, s.dnd.value.serial,
                                    s.dnd.value.surface, x, y, Some(time)))]
  {
    var evs' := [Motion(time, x, y)] + evs;
    assert evs'[1..] == evs;
    var moved := Handle(s, device, evs'[0]).state;
    RunKeepsDrag(moved, device, evs);
  }

  /** The effects of dropping a drag record, emitted. */
  method DropDnDDataOffer(rec: Option<DnDDataOffer>, env: Env)
    modifies env`trace
    ensures env.trace == old(env.trace) + Dropped(rec)
  {
    if rec.Some? && rec.value.dataOffer.Some? {
      env.Emit(Req(OfferDestroy(rec.value.dataOffer.value)));
    }
  }

  /** The per-device user data, updated in place by each event. */
  class DataDeviceInner {
    var dndDataOffer: Option<DnDDataOffer>
    var selection: Option<OfferId>
    var serial: nat

    /** DataDeviceInner::default(). */
    constructor ()
      ensures State() == Initial
    {
      dndDataOffer := None;
      selection := None;
      serial := 0;
    }

    function State(): DeviceState
      reads this
    {
      DeviceState(dndDataOffer, selection, serial)
    }

    /** Dispatch<WlDataDevice>::event for this device's data. */
    method Event(device: DeviceId, ev: DeviceEvent, env: Env)
      modifies this, env`trace
      ensures State() == Handle(old(State()), device, ev).state
      ensures env.trace == old(env.trace) + Handle(old(State()), device, ev).effects
    {
      match ev
      case DataOffer(id) =>
        var announced := serial;
        serial := serial + 1;
        env.Emit(Cb(DeviceDataOffer(device, id, announced)));
      case Enter(enterSerial, surface, x, y, id) =>
        var replaced := dndDataOffer;
        dndDataOffer := Some(DnDDataOffer(id, enterSerial, surface, x, y, None));
        DropDnDDataOffer(replaced, env);
        env.Emit(Cb(DeviceEnter(device, enterSerial, surface, x, y, id)));
      case Leave =>
        var taken := dndDataOffer;
        dndDataOffer := None;
        DropDnDDataOffer(taken, env);
        env.Emit(Cb(DeviceLeave(device)));
      case Motion(time, x, y) =>
        match dndDataOffer {
          case Some(rec) =>
            dndDataOffer := Some(rec.(x := x, y := y, time := Some(time)));
            if rec.dataOffer.Some? {
              env.Emit(Cb(DeviceMotion(device, time, x, y, rec.dataOffer.value)));
            }
          case None =>
        }
      case Drop =>
        match dndDataOffer {
          case Some(rec) =>
            if rec.dataOffer.Some? {
              env.Emit(Cb(DeviceDropPerformed(device, rec.dataOffer.value, rec.serial, rec.surface,
                                              rec.x, rec.y, rec.time)));
            }
          case None =>
        }
      case Selection(id) =>
        var previous := selection;
        selection := id;
        if previous.Some? {
          env.Emit(Req(OfferDestroy(previous.value)));
        }
        env.Emit(Cb(DeviceSelection(device, id)));
    }
  }
}
