/** The wl_shm global and the pixel formats it advertises (src/shm/mod.rs). */
module Shm {
  import opened Protocol

  /** The formats a sequence of Format events adds: the known values, in
      arrival order. */
  function KnownFormats(events: seq<WEnum<Format>>): seq<Format>
    decreases |events|
  {
    if events == [] then []
    else (if events[0].Value? then [events[0].value] else []) + KnownFormats(events[1..])
  }

  lemma {:induction false} KnownFormatsAppend(a: seq<WEnum<Format>>, b: seq<WEnum<Format>>)
    ensures KnownFormats(a + b) == KnownFormats(a) + KnownFormats(b)
    decreases |a|
  {
    if a == [] {
      assert a + b == b;
    } else {
      assert (a + b)[0] == a[0];
      assert (a + b)[1..] == a[1..] + b;
      KnownFormatsAppend(a[1..], b);
    }
  }

  /** A format is listed iff some event announced it as a known value;
      unknown raw values never contribute. */
  lemma {:induction false} KnownFormatsMembers(events: seq<WEnum<Format>>, f: Format)
    ensures f in KnownFormats(events) <==> Value(f) in events
    decreases |events|
  {
    if events != [] {
      KnownFormatsMembers(events[1..], f);
      assert events == [events[0]] + events[1..];
    }
  }

  class ShmState {
    var wlShm: GlobalProxy<ShmId>
    var formats: seq<Format>
    /** The Format events received so far. */
    ghost var received: seq<WEnum<Format>>

    ghost predicate Valid()
      reads this
    {
      formats == KnownFormats(received)
    }

    /** ShmState::new: not bound, no formats. */
    constructor New()
      ensures Valid() && wlShm == NotReady && formats == [] && received == []
    {
      wlShm := NotReady;
      formats := [];
      received := [];
    }

    /** From<WlShm>: bound to the given proxy, no formats. */
    constructor FromWlShm(shm: ShmId)
      ensures Valid() && wlShm == Bound(shm) && formats == [] && received == []
    {
      wlShm := Bound(shm);
      formats := [];
      received := [];
    }

    /** ShmState::wl_shm: the bound proxy, or GlobalError while not bound. */
    function WlShm(): (r: Result<ShmId, GlobalError>)
      reads this
      ensures r.Ok? <==> wlShm.Bound?
      ensures r.Ok? ==> r.value == wlShm.handle
    {
      wlShm.Get()
    }

    /** ShmState::formats: the known formats of all Format events so far, in
        arrival order. */
    function Formats(): (r: seq<Format>)
      reads this
      requires Valid()
      ensures r == KnownFormats(received)
    {
      formats[..]
    }

    /** The Format arm of Dispatch<WlShm>::event: a known format is appended,
        an unknown one changes nothing. */
    method Event(format: WEnum<Format>)
      requires Valid()
      modifies this`formats, this`received
      ensures Valid() && received == old(received) + [format]
      ensures format.Value? ==> formats == old(formats) + [format.value]
      ensures format.Unknown? ==> formats == old(formats)
    {
      KnownFormatsAppend(received, [format]);
      assert KnownFormats([format]) == (if format.Value? then [format.value] else []) by {
        assert [format][1..] == [];
      }
      received := received + [format];
      match format {
        case Value(f) => formats := formats + [f];
        case Unknown(_) =>
      }
    }

    /** RegistryHandler::ready: the proxy becomes what the registry binds for
        wl_shm in version 1. */
    method Ready(bindOne: (Interface, nat, nat) -> Option<ShmId>)
      requires Valid()
      modifies this`wlShm
      ensures Valid()
      ensures wlShm == FromBind(bindOne(Interface.WlShm, 1, 1))
    {
      wlShm := FromBind(bindOne(Interface.WlShm, 1, 1));
    }
  }
}
