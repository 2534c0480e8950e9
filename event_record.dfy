/** The record behind `Event`, `SignalEvent` and `TimerEvent` objects
    (`struct eventdata` in ext/rbevent.c) and the methods that fill it,
    arm it, fire it and read it back. libevent itself is not modelled: the
    calls the bindings make into it are recorded, in order, in a ghost log. */
module EventRecords {
  import opened CTypes
  import opened SignalNames
  import SiglistFacts

  /** The block given to `new`; `NoBlock` is nil. Blocks are told apart
      by an identity. */
  datatype Block = NoBlock | Block(id: nat)

  /** `struct timeval`. */
  datatype Timeval = Timeval(sec: int32, usec: int32)

  /** The Ruby class an object belongs to. */
  datatype Kind = Event | SignalEvent | TimerEvent

  /** The calls into libevent, with the arguments the bindings pass. */
  datatype LibeventCall =
    | EventSet(fd: int32, events: int16)   // event_set(&ev, fd, events, fevent_callback, obj)
    | EvtimerSet                           // evtimer_set(&ev, fevent_callback, obj)
    | EventAdd(timeout: Option<Timeval>)   // event_add(&ev, tv); None is a NULL tv
    | EventDel                             // event_del(&ev)

  /** The length of an interval, in microseconds. */
  function Micros(tv: Timeval): int {
    tv.sec as int * 1_000_000 + tv.usec as int
  }

  /** The optional timeout of `add` and `TimerEvent.new`: nil asks for no
      timeout (a NULL pointer), an integer n for exactly n seconds. */
  function TimeoutOf(t: Option<int32>): (r: Option<Timeval>)
    ensures r.None? <==> t.None?
    ensures r.Some? ==> r.value.usec == 0 && Micros(r.value) == t.value as int * 1_000_000
  {
    match t
    case None => None
    case Some(n) => Some(Timeval(n, 0))
  }

  /** C's conversion of the `int` event mask to the `short` parameter of
      `event_set`: two's-complement wrap-around, as GCC defines it. */
  function ToShort(x: int32): (r: int16)
    ensures (r as int - x as int) % 0x1_0000 == 0
    ensures -0x8000 <= x as int < 0x8000 ==> r as int == x as int
  {
    var m := x as int % 0x1_0000;
    if m < 0x8000 then m as int16 else (m - 0x1_0000) as int16
  }

  /** `struct eventdata`, together with the Ruby class of its object. */
  class EventRecord {
    const kind: Kind
    /** `ev.ev_fd` and `ev.ev_events` as `event_set` stored them: the
        descriptor, or the signal number, and the event mask. The bindings
        never write these fields; `event_set` is assumed to store its
        arguments there, and every other libevent call to leave them
        unchanged. */
    var fd: int32
    var events: int16
    /** The block, or nil. */
    var proc: Block
    /** The bits of the last firing; nothing is promised before the first. */
    var evtype: int16
    /** The calls made into libevent for this record, in order. */
    ghost var calls: seq<LibeventCall>
    /** The `evtype` the block could read at each of its invocations. */
    ghost var invocations: seq<int16>

    /** The record was set up by its constructor, once, and was only armed
        and disarmed after that. A signal record holds a real signal. */
    ghost predicate Valid()
      reads this
    {
      && |calls| >= 1
      && (kind != TimerEvent ==> calls[0] == EventSet(fd, events))
      && (kind == SignalEvent ==> fd != 0)
      && (kind == TimerEvent ==> calls[0] == EvtimerSet && |calls| >= 2 && calls[1].EventAdd?)
      && (forall k | 1 <= k < |calls| :: calls[k].EventAdd? || calls[k].EventDel?)
    }

    /** `Event.new(fd, type) { ... }`: stores the block and hands the
        descriptor and the mask to `event_set`; the event is not armed. */
    constructor Io(fd: int32, mask: int32, proc: Block)
      ensures Valid()
      ensures kind == Event && this.fd == fd && events == ToShort(mask) && this.proc == proc
      ensures calls == [EventSet(fd, ToShort(mask))] && invocations == []
    {
      kind := Event;
      this.fd := fd;
      events := ToShort(mask);
      this.proc := proc;
      evtype := *;
      calls := [EventSet(fd, ToShort(mask))];
      invocations := [];
    }

    /** The allocation part of `SignalEvent.new`, reached only once the
        name has resolved to a non-zero `signo`. */
    constructor Signal(signo: int32, mask: int32, proc: Block)
      requires signo != 0
      ensures Valid()
      ensures kind == SignalEvent && fd == signo && events == ToShort(mask) && this.proc == proc
      ensures calls == [EventSet(signo, ToShort(mask))] && invocations == []
    {
      kind := SignalEvent;
      fd := signo;
      events := ToShort(mask);
      this.proc := proc;
      evtype := *;
      calls := [EventSet(signo, ToShort(mask))];
      invocations := [];
    }

    /** `TimerEvent.new(timeout) { ... }`: `evtimer_set`, then `event_add`
        with the converted timeout straight away. What `evtimer_set`
        leaves in the descriptor and mask is libevent's business. */
    constructor Timer(timeout: Option<int32>, proc: Block)
      ensures Valid()
      ensures kind == TimerEvent && this.proc == proc
      ensures calls == [EvtimerSet, EventAdd(TimeoutOf(timeout))] && invocations == []
    {
      kind := TimerEvent;
      fd := *;
      events := *;
      this.proc := proc;
      evtype := *;
      calls := [EvtimerSet, EventAdd(TimeoutOf(timeout))];
      invocations := [];
    }

    /** `add(timeout = nil)` of `Event` and `SignalEvent` (a `TimerEvent`
        has no `add`): one `event_add` with the converted timeout. */
    method Add(timeout: Option<int32>)
      requires Valid() && kind != TimerEvent
      modifies this`calls
      ensures Valid()
      ensures calls == old(calls) + [EventAdd(TimeoutOf(timeout))]
    {
      calls := calls + [EventAdd(TimeoutOf(timeout))];
    }

    /** `delete`: one `event_del`. */
    method Delete()
      requires Valid()
      modifies this`calls
      ensures Valid()
      ensures calls == old(calls) + [EventDel]
    {
      calls := calls + [EventDel];
    }

    /** `fileno` of `Event` and `signal` of `SignalEvent`: the descriptor
        field of the libevent event. */
    method Fileno() returns (n: int32)
      requires kind != TimerEvent
      ensures n == fd
    {
      n := fd;
    }

    /** `evtype`: the bits stored by the last firing. */
    method EvType() returns (t: int16)
      ensures t == evtype
    {
      t := evtype;
    }

    /** `fevent_callback`, as libevent calls it on a firing: first the
        fired bits are stored, then the block, if there is one, is called
        with the object (and so sees those bits). The descriptor libevent
        passes is not used. The object and its block are taken to be alive
        at the firing: garbage collection is not modelled. */
    method Fire(firedFd: int32, event: int16)
      requires Valid()
      modifies this`evtype, this`invocations
      ensures Valid()
      ensures evtype == event
      ensures invocations == old(invocations) + (if proc == NoBlock then [] else [event])
    {
      evtype := event;
      if proc != NoBlock {
        invocations := invocations + [evtype];
      }
    }
  }

  /** `SignalEvent.new(name, type) { ... }`: one leading "SIG" is
      stripped and the rest scanned for in `siglist`; a result of 0 raises
      ArgumentError before anything is allocated or passed to libevent,
      otherwise the record is set up with the signal number as its
      descriptor. */
  method NewSignalEvent(name: string, mask: int32, proc: Block) returns (r: Result<EventRecord, SignalError>)
    ensures r.Failure? <==> Resolve(name).Failure?
    ensures r.Failure? ==> r.error == Resolve(name).error
    ensures r.Success? ==>
      && fresh(r.value) && r.value.Valid()
      && r.value.kind == SignalEvent && Resolve(name) == Success(r.value.fd)
      && r.value.events == ToShort(mask) && r.value.proc == proc
      && r.value.calls == [EventSet(r.value.fd, ToShort(mask))] && r.value.invocations == []
  {
    var nm := StripSig(CStr(name));
    var signo := SignalNumber(nm);
    if signo == 0 {
      return Failure(UnsupportedName(nm));
    }
    var ev := new EventRecord.Signal(signo, mask, proc);
    return Success(ev);
  }

  /** The round of test/event_test.rb:51-72: an `Event` with a block is
      armed with a timeout and fires; after the firing, `fileno` and
      `evtype` read back the descriptor it was built with and the bits that
      fired. The block's own call is only logged; it would read the same
      values, since `Fire` leaves `fd` alone and stores `evtype` before
      calling the block. */
  method FireAndReadBack(fd: int32, mask: int32, timeout: int32, fired: int16)
    returns (seenFd: int32, seenType: int16)
    ensures seenFd == fd && seenType == fired
  {
    var ev := new EventRecord.Io(fd, mask, Block(0));
    ev.Add(Some(timeout));
    ev.Fire(fd, fired);
    seenFd := ev.Fileno();
    seenType := ev.EvType();
  }

  /** The signal round of test/event_test.rb:98-111: a `SignalEvent` is
      built from a name, armed without a timeout and fires; `signal` reads
      back the resolved number, a real signal, and `evtype` the fired bits.
      An unsupported name fails with the resolution error instead. */
  method SignalFireAndReadBack(name: string, mask: int32, fired: int16)
    returns (r: Result<(int32, int16), SignalError>)
    ensures r.Failure? <==> Resolve(name).Failure?
    ensures r.Failure? ==> r.error == Resolve(name).error
    ensures r.Success? ==> Resolve(name) == Success(r.value.0) && 1 <= r.value.0 <= 31
    ensures r.Success? ==> r.value.1 == fired
  {
    var made := NewSignalEvent(name, mask, Block(0));
    match made
    case Failure(e) =>
      r := Failure(e);
    case Success(ev) =>
      ev.Add(None);
      ev.Fire(ev.fd, fired);
      var signo := ev.Fileno();
      var bits := ev.EvType();
      SiglistFacts.ResolvedSignalInRange(name);
      r := Success((signo, bits));
  }
}
