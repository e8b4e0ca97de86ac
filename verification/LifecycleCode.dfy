/** The four lifecycle functions as the program runs them, and the order of the driver calls that
    io_init and io_deinit make. */
module LifecycleCode {
  import opened Chips
  import opened Config
  import opened ConfigRoundTrip
  import opened DriverCode
  import opened IoTable
  import opened Lifecycle
  import opened Options

  // ---- the trace of driver calls ---------------------------------------------------------------

  /** A driver call; open and close with the handle that the system gave or takes back. */
  datatype Event =
    | Opened(b: nat, fh: int)
    | Inited(b: nat, d: nat)
    | Deinited(b: nat, d: nat)
    | Closed(b: nat, fh: int)

  /** The handle of bus b in a list of handles. */
  function FhAt(fhs: seq<int>, b: nat): int {
    if b < |fhs| then fhs[b] else -1
  }

  /** The driver has an init and a deinit callback. */
  predicate HasCallbacks(dev: IoDev) {
    dev.driver == Some(Mcp23017) || dev.driver == Some(Piface)
  }

  function DevEvent(b: nat, d: nat, init: bool): Event {
    if init then Inited(b, d) else Deinited(b, d)
  }

  /** e is the call for one of the first n devices of bus b. */
  ghost predicate DevDue(c: Conf, b: nat, n: nat, init: bool, e: Event)
    requires b < |c.busses| && n <= |c.busses[b].devices|
  {
    && (e.Inited? || e.Deinited?) && e == DevEvent(b, e.d, init)
    && e.d < n && HasCallbacks(c.busses[b].devices[e.d])
  }

  function DevEvents(c: Conf, b: nat, n: nat, init: bool): seq<Event>
    requires b < |c.busses| && n <= |c.busses[b].devices|
  {
    if n == 0 then []
    else DevEvents(c, b, n - 1, init)
         + if HasCallbacks(c.busses[b].devices[n - 1]) then [DevEvent(b, n - 1, init)] else []
  }

  /** The calls that io_init makes for one bus. */
  function BusInit(c: Conf, fhs: seq<int>, b: nat): seq<Event>
    requires b < |c.busses| && c.busses[b].numDevices <= |c.busses[b].devices|
  {
    (if c.busses[b].i2c then [Opened(b, FhAt(fhs, b))] else []) + DevEvents(c, b, c.busses[b].numDevices, true)
  }

  /** The calls that io_deinit makes for one bus. */
  function BusDeinit(c: Conf, fhs: seq<int>, b: nat): seq<Event>
    requires b < |c.busses| && c.busses[b].numDevices <= |c.busses[b].devices|
  {
    DevEvents(c, b, c.busses[b].numDevices, false) + (if c.busses[b].i2c then [Closed(b, FhAt(fhs, b))] else [])
  }

  /** The calls that io_init makes for the first n busses. */
  function InitTrace(c: Conf, fhs: seq<int>, n: nat): seq<Event>
    requires Shaped(c) && n <= c.numBusses
  {
    if n == 0 then [] else InitTrace(c, fhs, n - 1) + BusInit(c, fhs, n - 1)
  }

  /** The calls that io_deinit makes. */
  function DeinitTrace(c: Conf, fhs: seq<int>, n: nat): seq<Event>
    requires Shaped(c) && n <= c.numBusses
  {
    if n == 0 then [] else DeinitTrace(c, fhs, n - 1) + BusDeinit(c, fhs, n - 1)
  }

  /** The calls that are due for the first n busses. */
  ghost predicate Due(c: Conf, fhs: seq<int>, n: nat, e: Event)
    requires Shaped(c) && n <= c.numBusses
  {
    e.b < n && match e
               case Opened(b, fh) => c.busses[b].i2c && fh == FhAt(fhs, b)
               case Closed(b, fh) => c.busses[b].i2c && fh == FhAt(fhs, b)
               case Inited(b, d) => d < c.busses[b].numDevices && HasCallbacks(c.busses[b].devices[d])
               case Deinited(b, d) => d < c.busses[b].numDevices && HasCallbacks(c.busses[b].devices[d])
  }

  predicate IsInit(e: Event) {
    e.Opened? || e.Inited?
  }

  lemma {:induction false} DevEventsOnce(c: Conf, b: nat, n: nat, init: bool, e: Event)
    requires b < |c.busses| && n <= |c.busses[b].devices|
    ensures multiset(DevEvents(c, b, n, init))[e] == if DevDue(c, b, n, init, e) then 1 else 0
    decreases n
  {
    hide DevDue, HasCallbacks, DevEvent, DevEvents;
    DevEventsStep(c, b, n, init);
    if n == 0 {
      DevDueStep(c, b, 0, init, e);
      CountOne(e, e);
    } else {
      DevEventsOnce(c, b, n - 1, init, e);
      var x := DevEvent(b, n - 1, init);
      var last := if HasCallbacks(c.busses[b].devices[n - 1]) then [x] else [];
      CountOne(x, e);
      CountJoin(DevEvents(c, b, n - 1, init), last, e);
      DevDueStep(c, b, n, init, e);
    }
  }

  lemma {:induction false} DevEventsStep(c: Conf, b: nat, n: nat, init: bool)
    requires b < |c.busses| && n <= |c.busses[b].devices|
    ensures n == 0 ==> DevEvents(c, b, n, init) == []
    ensures n > 0 ==>
      DevEvents(c, b, n, init) == DevEvents(c, b, n - 1, init)
        + if HasCallbacks(c.busses[b].devices[n - 1]) then [DevEvent(b, n - 1, init)] else []
  {
    hide HasCallbacks, DevEvent;
  }

  lemma {:induction false} DevDueStep(c: Conf, b: nat, n: nat, init: bool, e: Event)
    requires b < |c.busses| && n <= |c.busses[b].devices|
    ensures n == 0 ==> !DevDue(c, b, n, init, e)
    ensures n > 0 ==>
      var now := e == DevEvent(b, n - 1, init) && HasCallbacks(c.busses[b].devices[n - 1]);
      && (DevDue(c, b, n, init, e) <==> DevDue(c, b, n - 1, init, e) || now)
      && (now ==> !DevDue(c, b, n - 1, init, e))
  {
  }

  lemma {:induction false} CountJoin(s: seq<Event>, t: seq<Event>, e: Event)
    ensures multiset(s + t)[e] == multiset(s)[e] + multiset(t)[e]
  {
  }

  lemma {:induction false} CountOne(x: Event, e: Event)
    ensures multiset([x])[e] == if e == x then 1 else 0
    ensures var none: seq<Event> := []; multiset(none)[e] == 0
  {
  }

  /** The call is due for bus b. */
  ghost predicate DueAt(c: Conf, fhs: seq<int>, b: nat, e: Event)
    requires b < |c.busses| && c.busses[b].numDevices <= |c.busses[b].devices|
  {
    e.b == b && match e
                case Opened(_, fh) => c.busses[b].i2c && fh == FhAt(fhs, b)
                case Closed(_, fh) => c.busses[b].i2c && fh == FhAt(fhs, b)
                case Inited(_, d) => d < c.busses[b].numDevices && HasCallbacks(c.busses[b].devices[d])
                case Deinited(_, d) => d < c.busses[b].numDevices && HasCallbacks(c.busses[b].devices[d])
  }

  lemma {:induction false} BusOnce(c: Conf, fhs: seq<int>, b: nat, e: Event)
    requires b < |c.busses| && c.busses[b].numDevices <= |c.busses[b].devices|
    ensures multiset(BusInit(c, fhs, b))[e] == if DueAt(c, fhs, b, e) && IsInit(e) then 1 else 0
    ensures multiset(BusDeinit(c, fhs, b))[e] == if DueAt(c, fhs, b, e) && !IsInit(e) then 1 else 0
  {
    hide DevEvents;
    var n := c.busses[b].numDevices;
    CountOne(Opened(b, FhAt(fhs, b)), e);
    CountOne(Closed(b, FhAt(fhs, b)), e);
    DevEventsOnce(c, b, n, true, e);
    DevEventsOnce(c, b, n, false, e);
    CountJoin(if c.busses[b].i2c then [Opened(b, FhAt(fhs, b))] else [], DevEvents(c, b, n, true), e);
    CountJoin(DevEvents(c, b, n, false), if c.busses[b].i2c then [Closed(b, FhAt(fhs, b))] else [], e);
  }

  lemma {:induction false} DueStep(c: Conf, fhs: seq<int>, n: nat, e: Event)
    requires Shaped(c) && 0 < n <= c.numBusses
    ensures n - 1 < |c.busses| && c.busses[n - 1].numDevices <= |c.busses[n - 1].devices|
    ensures Due(c, fhs, n, e) <==> Due(c, fhs, n - 1, e) || DueAt(c, fhs, n - 1, e)
    ensures Due(c, fhs, n - 1, e) ==> !DueAt(c, fhs, n - 1, e)
  {
  }

  lemma {:induction false} TracesOnce(c: Conf, fhs: seq<int>, n: nat, e: Event)
    requires Shaped(c) && n <= c.numBusses
    ensures multiset(InitTrace(c, fhs, n))[e] == if Due(c, fhs, n, e) && IsInit(e) then 1 else 0
    ensures multiset(DeinitTrace(c, fhs, n))[e] == if Due(c, fhs, n, e) && !IsInit(e) then 1 else 0
    decreases n
  {
    hide Shaped, BusInit, BusDeinit, DueAt, IsInit;
    if n > 0 {
      DueStep(c, fhs, n, e);
      hide Due;
      TracesOnce(c, fhs, n - 1, e);
      BusOnce(c, fhs, n - 1, e);
      CountJoin(InitTrace(c, fhs, n - 1), BusInit(c, fhs, n - 1), e);
      CountJoin(DeinitTrace(c, fhs, n - 1), BusDeinit(c, fhs, n - 1), e);
    }
  }

  lemma {:induction false} ShapedAt(c: Conf, b: nat)
    requires Shaped(c) && b < c.numBusses
    ensures b < |c.busses| && c.busses[b].numDevices <= |c.busses[b].devices|
  {
  }

  /** x has to come before y. */
  predicate Precedes(x: Event, y: Event) {
    x.b == y.b && ((x.Opened? && !y.Opened?) || (!x.Closed? && y.Closed?) || (x.Inited? && y.Deinited?))
  }

  /** Events of one trace that must be in order are. */
  ghost predicate Ordered(t: seq<Event>) {
    forall i, j :: 0 <= i < |t| && 0 <= j < |t| && Precedes(t[i], t[j]) ==> i < j
  }

  lemma {:induction false} OrderedJoin(s: seq<Event>, t: seq<Event>)
    requires Ordered(s) && Ordered(t)
    requires forall x, y :: x in s && y in t ==> !Precedes(y, x)
    ensures Ordered(s + t)
  {
    forall i, j | 0 <= i < |s + t| && 0 <= j < |s + t| && Precedes((s + t)[i], (s + t)[j])
      ensures i < j
    {
      assert forall k :: 0 <= k < |s + t| ==> if k < |s| then (s + t)[k] in s else (s + t)[k] in t;
    }
  }

  lemma {:induction false} DevEventsOrdered(c: Conf, b: nat, n: nat, init: bool)
    requires b < |c.busses| && n <= |c.busses[b].devices|
    ensures var t := DevEvents(c, b, n, init);
      Ordered(t) && forall e :: e in t ==> e.b == b && if init then e.Inited? else e.Deinited?
    decreases n
  {
    if n > 0 {
      DevEventsOrdered(c, b, n - 1, init);
    }
  }

  lemma {:induction false} InitOrdered(c: Conf, fhs: seq<int>, n: nat)
    requires Shaped(c) && n <= c.numBusses
    ensures Ordered(InitTrace(c, fhs, n)) && forall e :: e in InitTrace(c, fhs, n) ==> e.b < n && IsInit(e)
    decreases n
  {
    hide Shaped, Ordered, DevEvents;
    OneOrdered(Opened(n, 0));
    if n > 0 {
      var b := n - 1;
      ShapedAt(c, b);
      InitOrdered(c, fhs, b);
      DevEventsOrdered(c, b, c.busses[b].numDevices, true);
      var open := if c.busses[b].i2c then [Opened(b, FhAt(fhs, b))] else [];
      OneOrdered(Opened(b, FhAt(fhs, b)));
      OrderedJoin(open, DevEvents(c, b, c.busses[b].numDevices, true));
      OrderedJoin(InitTrace(c, fhs, b), BusInit(c, fhs, b));
    }
  }

  lemma {:induction false} DeinitOrdered(c: Conf, fhs: seq<int>, n: nat)
    requires Shaped(c) && n <= c.numBusses
    ensures Ordered(DeinitTrace(c, fhs, n)) && forall e :: e in DeinitTrace(c, fhs, n) ==> e.b < n && !IsInit(e)
    decreases n
  {
    hide Shaped, Ordered, DevEvents;
    OneOrdered(Opened(n, 0));
    if n > 0 {
      var b := n - 1;
      ShapedAt(c, b);
      DeinitOrdered(c, fhs, b);
      DevEventsOrdered(c, b, c.busses[b].numDevices, false);
      var close := if c.busses[b].i2c then [Closed(b, FhAt(fhs, b))] else [];
      OneOrdered(Closed(b, FhAt(fhs, b)));
      OrderedJoin(DevEvents(c, b, c.busses[b].numDevices, false), close);
      OrderedJoin(DeinitTrace(c, fhs, b), BusDeinit(c, fhs, b));
    }
  }

  lemma {:induction false} OneOrdered(e: Event)
    ensures Ordered([e]) && Ordered([])
  {
  }

  /** io_init followed by io_deinit opens each bus once before all its device inits, closes it once
      after all its device deinits, and initialises and deinitialises each device in range that has
      the callbacks exactly once, in that order. Nothing else is called. */
  lemma {:induction false} Bracketed(c: Conf, fhs: seq<int>)
    requires Shaped(c)
    ensures var t := InitTrace(c, fhs, c.numBusses) + DeinitTrace(c, fhs, c.numBusses);
      Ordered(t) && forall e :: multiset(t)[e] == if Due(c, fhs, c.numBusses, e) then 1 else 0
  {
    hide Shaped, Ordered, Due, InitTrace, DeinitTrace;
    var n := c.numBusses;
    InitOrdered(c, fhs, n);
    DeinitOrdered(c, fhs, n);
    OrderedJoin(InitTrace(c, fhs, n), DeinitTrace(c, fhs, n));
    forall e
      ensures multiset(InitTrace(c, fhs, n) + DeinitTrace(c, fhs, n))[e] == if Due(c, fhs, n, e) then 1 else 0
    {
      TracesOnce(c, fhs, n, e);
      CountJoin(InitTrace(c, fhs, n), DeinitTrace(c, fhs, n), e);
    }
  }

  // ---- the code ------------------------------------------------------------------------------------

  /** The handles that opening the device files gives. */
  function HandlesOf(c: Conf, handles: string -> int): seq<int> {
    seq(|c.busses|, b requires 0 <= b < |c.busses| =>
      if c.busses[b].busData.Some? then handles(c.busses[b].busData.value.device) else -1)
  }

  /** The handles that the table holds. */
  function FhsOf(c: Conf): seq<int> {
    seq(|c.busses|, b requires 0 <= b < |c.busses| =>
      if c.busses[b].busData.Some? then c.busses[b].busData.value.fh else -1)
  }

  /** A PiFace as pfio_init leaves it: eight low outputs at port A, inputs with pull-ups at port B. */
  ghost predicate SetUp(s: Spi) {
    s.iodirA == 0x00 && s.olatA == 0x00 && s.iodirB == 0xFF && s.gppuB == 0xFF && s.iocon == 8
  }

  /** A PiFace device in range of the first n busses. */
  predicate AnyPiface(c: Conf, n: nat)
    requires Shaped(c) && n <= c.numBusses
  {
    exists b :: 0 <= b < n && HasPiface(c, b, c.busses[b].numDevices)
  }

  /** A PiFace device among the first n of bus b. */
  predicate HasPiface(c: Conf, b: nat, n: nat)
    requires b < |c.busses| && n <= |c.busses[b].devices|
  {
    exists d :: 0 <= d < n && c.busses[b].devices[d].driver == Some(Piface)
  }

  /** drv_handle->init */
  method InitDevCode(conf: IoConfig, hw: Hardware, b: nat, d: nat, ghost trace0: seq<Event>)
    returns (ghost trace: seq<Event>)
    requires InRange(conf.View(), b, d) && HasCallbacks(conf.busses[b].devices[d])
    modifies conf, conf.busses, hw`spi
    ensures conf.View() == InitDev(old(conf.View()), b, d) && trace == trace0 + [Inited(b, d)]
    ensures old(conf.busses[b].devices[d].driver) == Some(Piface) ==> SetUp(hw.spi)
    ensures old(conf.busses[b].devices[d].driver) != Some(Piface) ==> hw.spi == old(hw.spi)
  {
    trace := trace0 + [Inited(b, d)];
    var dev := conf.busses[b].devices[d];
    if dev.driver == Some(Mcp23017) {
      var block := Malloc(conf);
      dev := dev.(devData := Some(McpData(block, Unconfigured)));
      conf.busses[b] := conf.busses[b].(devices := conf.busses[b].devices[d := dev]);
    } else {
      PfioInit(hw);
    }
  }

  /** Lines 75 to 83 of src/io.c. */
  method InitDevsCode(conf: IoConfig, hw: Hardware, b: nat, ghost trace0: seq<Event>) returns (ghost trace: seq<Event>)
    requires Shaped(conf.View()) && b < conf.numBusses
    modifies conf, conf.busses, hw`spi
    ensures var c := old(conf.View());
      && conf.View() == InitDevs(c, b, c.busses[b].numDevices)
      && trace == trace0 + DevEvents(c, b, c.busses[b].numDevices, true)
      && (old(SetUp(hw.spi)) || HasPiface(c, b, c.busses[b].numDevices) ==> SetUp(hw.spi))
      && (!HasPiface(c, b, c.busses[b].numDevices) ==> hw.spi == old(hw.spi))
  {
    hide InitDev;
    ghost var c := conf.View();
    trace := trace0;
    var d := 0;
    while d < conf.busses[b].numDevices
      invariant 0 <= d <= c.busses[b].numDevices
      invariant conf.View() == InitDevs(c, b, d)
      invariant trace == trace0 + DevEvents(c, b, d, true)
      invariant old(SetUp(hw.spi)) || HasPiface(c, b, d) ==> SetUp(hw.spi)
      invariant !HasPiface(c, b, d) ==> hw.spi == old(hw.spi)
      decreases c.busses[b].numDevices - d
    {
      InitDevsKeep(c, b, d);
      if HasCallbacks(conf.busses[b].devices[d]) {
        trace := InitDevCode(conf, hw, b, d, trace);
      } else {
        InitDevNoCallback(conf.View(), b, d);
      }
      d := d + 1;
    }
  }

  lemma {:induction false} InitDevNoCallback(c: Conf, b: nat, d: nat)
    requires InRange(c, b, d) && !HasCallbacks(c.busses[b].devices[d])
    ensures InitDev(c, b, d) == c
  {
  }

  lemma {:induction false} InitDevsKeep(c: Conf, b: nat, n: nat)
    requires b < |c.busses| && n <= |c.busses[b].devices|
    ensures var e := InitDevs(c, b, n);
      forall d :: n <= d < |c.busses[b].devices| ==> e.busses[b].devices[d] == c.busses[b].devices[d]
    decreases n
  {
    if n > 0 {
      InitDevsKeep(c, b, n - 1);
    }
  }

  /** io_init */
  method IoInitCode(conf: IoConfig, hw: Hardware, handles: string -> int) returns (ghost trace: seq<Event>)
    requires Shaped(conf.View()) && Openable(conf.View())
    modifies conf, conf.busses, hw`spi
    ensures var c := old(conf.View());
      && conf.View() == IoInit(c, handles) && trace == InitTrace(c, HandlesOf(c, handles), c.numBusses)
      && (if AnyPiface(c, c.numBusses) then SetUp(hw.spi) else hw.spi == old(hw.spi))
  {
    hide InitBusses, InitTrace, HasPiface, BusInit, InitDevs, OpenBus, SetUp;
    ghost var c := conf.View();
    ghost var fhs := HandlesOf(c, handles);
    trace := [];
    var b := 0;
    InitStep(c, fhs, 0, handles);
    while b < conf.numBusses
      invariant 0 <= b <= c.numBusses
      invariant conf.View() == InitBusses(c, b, handles)
      invariant trace == InitTrace(c, fhs, b)
      invariant if AnyPiface(c, b) then SetUp(hw.spi) else hw.spi == old(hw.spi)
      decreases c.numBusses - b
    {
      InitBussesKeep(c, b, handles);
      BusInitSame(c, conf.View(), fhs, b);
      InitStep(c, fhs, b, handles);
      trace := InitBusCode(conf, hw, b, handles, fhs, trace);
      b := b + 1;
    }
  }

  lemma {:induction false} InitStep(c: Conf, fhs: seq<int>, b: nat, handles: string -> int)
    requires Shaped(c) && b <= c.numBusses
    ensures InitBusses(c, 0, handles) == c && InitTrace(c, fhs, 0) == []
    ensures b < c.numBusses ==>
      && InitBusses(c, b + 1, handles) ==
           InitDevs(OpenBus(InitBusses(c, b, handles), b, handles), b, c.busses[b].numDevices)
      && InitTrace(c, fhs, b + 1) == InitTrace(c, fhs, b) + BusInit(c, fhs, b)
  {
    hide InitDevs, OpenBus, BusInit;
  }

  /** One turn of the outer loop of io_init. */
  method InitBusCode(conf: IoConfig, hw: Hardware, b: nat, handles: string -> int, ghost fhs: seq<int>,
                     ghost trace0: seq<Event>)
    returns (ghost trace: seq<Event>)
    requires Shaped(conf.View()) && b < conf.numBusses
    requires conf.busses[b].i2c ==>
      conf.busses[b].busData.Some? && FhAt(fhs, b) == handles(conf.busses[b].busData.value.device)
    modifies conf, conf.busses, hw`spi
    ensures var c := old(conf.View());
      && conf.View() == InitDevs(OpenBus(c, b, handles), b, c.busses[b].numDevices)
      && trace == trace0 + BusInit(c, fhs, b)
      && (old(SetUp(hw.spi)) || HasPiface(c, b, c.busses[b].numDevices) ==> SetUp(hw.spi))
      && (!HasPiface(c, b, c.busses[b].numDevices) ==> hw.spi == old(hw.spi))
  {
    hide InitDevs, DevEvents, HasPiface;
    ghost var c := conf.View();
    trace := trace0;
    OpenKeeps(c, b, handles);
    if conf.busses[b].i2c {
      trace := OpenCode(conf, b, handles, trace);
    }
    DevEventsSame(c, conf.View(), b, c.busses[b].numDevices, true);
    trace := InitDevsCode(conf, hw, b, trace);
    assert trace == trace0 + BusInit(c, fhs, b);
  }

  lemma {:induction false} BusInitSame(c: Conf, e: Conf, fhs: seq<int>, b: nat)
    requires b < |c.busses| && b < |e.busses| && e.busses[b] == c.busses[b]
    requires c.busses[b].numDevices <= |c.busses[b].devices|
    ensures BusInit(e, fhs, b) == BusInit(c, fhs, b)
    ensures HasPiface(e, b, c.busses[b].numDevices) == HasPiface(c, b, c.busses[b].numDevices)
  {
    DevEventsSame(c, e, b, c.busses[b].numDevices, true);
  }

  /** i2c_linux_open; the parameter stands for what open(2) returns for a device file. */
  method OpenCode(conf: IoConfig, b: nat, handles: string -> int, ghost trace0: seq<Event>)
    returns (ghost trace: seq<Event>)
    requires b < conf.busses.Length && conf.busses[b].i2c && conf.busses[b].busData.Some?
    modifies conf.busses
    ensures conf.View() == OpenBus(old(conf.View()), b, handles)
    ensures trace == trace0 + [Opened(b, handles(conf.busses[b].busData.value.device))]
  {
    var data := conf.busses[b].busData.value;
    var fh := handles(data.device);
    trace := trace0 + [Opened(b, fh)];
    conf.busses[b] := conf.busses[b].(busData := Some(data.(fh := fh)));
  }

  lemma {:induction false} OpenKeeps(c: Conf, b: nat, handles: string -> int)
    requires b < |c.busses|
    ensures !c.busses[b].i2c ==> OpenBus(c, b, handles) == c
    ensures OpenBus(c, b, handles).busses[b].devices == c.busses[b].devices
    ensures Shaped(c) ==> Shaped(OpenBus(c, b, handles))
  {
  }

  /** Busses that io_init has not reached yet are as they were. */
  lemma {:induction false} InitBussesKeep(c: Conf, n: nat, handles: string -> int)
    requires Shaped(c) && n <= c.numBusses
    ensures Shaped(InitBusses(c, n, handles))
    ensures forall b :: n <= b < |c.busses| ==> InitBusses(c, n, handles).busses[b] == c.busses[b]
    decreases n
  {
    if n > 0 {
      InitBussesKeep(c, n - 1, handles);
      var e := OpenBus(InitBusses(c, n - 1, handles), n - 1, handles);
      InitDevsOther(e, n - 1, c.busses[n - 1].numDevices);
    }
  }

  lemma {:induction false} InitDevsOther(c: Conf, b: nat, n: nat)
    requires b < |c.busses| && n <= |c.busses[b].devices|
    ensures forall k :: 0 <= k < |c.busses| && k != b ==> InitDevs(c, b, n).busses[k] == c.busses[k]
    decreases n
  {
    if n > 0 {
      InitDevsOther(c, b, n - 1);
    }
  }

  lemma {:induction false} DevEventsSame(c: Conf, e: Conf, b: nat, n: nat, init: bool)
    requires b < |c.busses| && b < |e.busses| && n <= |c.busses[b].devices| == |e.busses[b].devices|
    requires forall d :: 0 <= d < n ==> e.busses[b].devices[d].driver == c.busses[b].devices[d].driver
    ensures DevEvents(e, b, n, init) == DevEvents(c, b, n, init)
    ensures HasPiface(e, b, n) == HasPiface(c, b, n)
    decreases n
  {
    if n > 0 {
      DevEventsSame(c, e, b, n - 1, init);
    }
  }

  // ---- io_deinit -----------------------------------------------------------------------------------

  /** free */
  method FreeBlock(conf: IoConfig, p: Option<nat>)
    modifies conf`heap
    ensures conf.heap == Free(old(conf.heap), p)
  {
    if p.Some? {
      conf.heap := conf.heap.(live := conf.heap.live - {p.value}, freed := conf.heap.freed + [p.value]);
    }
  }

  /** drv_handle->deinit */
  method DeinitDevCode(conf: IoConfig, b: nat, d: nat, ghost trace0: seq<Event>) returns (ghost trace: seq<Event>)
    requires InRange(conf.View(), b, d) && HasCallbacks(conf.busses[b].devices[d])
    modifies conf, conf.busses
    ensures conf.View() == DeinitDev(old(conf.View()), b, d) && trace == trace0 + [Deinited(b, d)]
  {
    trace := trace0 + [Deinited(b, d)];
    var dev := conf.busses[b].devices[d];
    if dev.driver == Some(Mcp23017) && dev.devData.Some? {
      FreeBlock(conf, DevDataBlock(dev));
      conf.busses[b] := conf.busses[b].(devices := conf.busses[b].devices[d := dev.(devData := None)]);
    }
  }

  /** i2c_linux_close: the handle is given back to the system; the table keeps its value. */
  method CloseCode(conf: IoConfig, b: nat, ghost trace0: seq<Event>) returns (ghost trace: seq<Event>)
    requires b < conf.busses.Length && conf.busses[b].i2c && conf.busses[b].busData.Some?
    ensures trace == trace0 + [Closed(b, conf.busses[b].busData.value.fh)]
  {
    trace := trace0 + [Closed(b, conf.busses[b].busData.value.fh)];
  }

  lemma {:induction false} DeinitDevsKeep(c: Conf, b: nat, n: nat)
    requires b < |c.busses| && n <= |c.busses[b].devices|
    ensures var e := DeinitDevs(c, b, n);
      && (forall d :: n <= d < |c.busses[b].devices| ==> e.busses[b].devices[d] == c.busses[b].devices[d])
      && (forall k :: 0 <= k < |c.busses| && k != b ==> e.busses[k] == c.busses[k])
      && e.busses[b].busData == c.busses[b].busData
    decreases n
  {
    if n > 0 {
      DeinitDevsKeep(c, b, n - 1);
    }
  }

  lemma {:induction false} DeinitDevNoCallback(c: Conf, b: nat, d: nat)
    requires InRange(c, b, d) && !HasCallbacks(c.busses[b].devices[d])
    ensures DeinitDev(c, b, d) == c
  {
  }

  /** Lines 97 to 105 of src/io.c. */
  method DeinitDevsCode(conf: IoConfig, b: nat, ghost trace0: seq<Event>) returns (ghost trace: seq<Event>)
    requires Shaped(conf.View()) && b < conf.numBusses
    modifies conf, conf.busses
    ensures var c := old(conf.View());
      && conf.View() == DeinitDevs(c, b, c.busses[b].numDevices)
      && trace == trace0 + DevEvents(c, b, c.busses[b].numDevices, false)
  {
    hide DeinitDev;
    ghost var c := conf.View();
    trace := trace0;
    var d := 0;
    while d < conf.busses[b].numDevices
      invariant 0 <= d <= c.busses[b].numDevices
      invariant conf.View() == DeinitDevs(c, b, d)
      invariant trace == trace0 + DevEvents(c, b, d, false)
      decreases c.busses[b].numDevices - d
    {
      DeinitDevsKeep(c, b, d);
      if HasCallbacks(conf.busses[b].devices[d]) {
        trace := DeinitDevCode(conf, b, d, trace);
      } else {
        DeinitDevNoCallback(conf.View(), b, d);
      }
      d := d + 1;
    }
  }

  /** One turn of the outer loop of io_deinit: the devices, then the bus. */
  method DeinitBusCode(conf: IoConfig, b: nat, ghost fhs: seq<int>, ghost trace0: seq<Event>)
    returns (ghost trace: seq<Event>)
    requires Shaped(conf.View()) && b < conf.numBusses
    requires conf.busses[b].i2c ==>
      conf.busses[b].busData.Some? && FhAt(fhs, b) == conf.busses[b].busData.value.fh
    modifies conf, conf.busses
    ensures var c := old(conf.View());
      && conf.View() == DeinitDevs(c, b, c.busses[b].numDevices)
      && trace == trace0 + BusDeinit(c, fhs, b)
  {
    hide DeinitDevs, DevEvents;
    ghost var c := conf.View();
    DeinitDevsKeep(c, b, c.busses[b].numDevices);
    trace := DeinitDevsCode(conf, b, trace0);
    if conf.busses[b].i2c {
      trace := CloseCode(conf, b, trace);
    }
    assert trace == trace0 + BusDeinit(c, fhs, b);
  }

  lemma {:induction false} DeinitBussesKeep(c: Conf, n: nat)
    requires Shaped(c) && n <= c.numBusses
    ensures Shaped(DeinitBusses(c, n))
    ensures forall b :: n <= b < |c.busses| ==> DeinitBusses(c, n).busses[b] == c.busses[b]
    decreases n
  {
    if n > 0 {
      DeinitBussesKeep(c, n - 1);
      DeinitDevsKeep(DeinitBusses(c, n - 1), n - 1, c.busses[n - 1].numDevices);
    }
  }

  lemma {:induction false} DeinitStep(c: Conf, fhs: seq<int>, b: nat)
    requires Shaped(c) && b <= c.numBusses
    ensures DeinitBusses(c, 0) == c && DeinitTrace(c, fhs, 0) == []
    ensures b < c.numBusses ==>
      && DeinitBusses(c, b + 1) == DeinitDevs(DeinitBusses(c, b), b, c.busses[b].numDevices)
      && DeinitTrace(c, fhs, b + 1) == DeinitTrace(c, fhs, b) + BusDeinit(c, fhs, b)
  {
    hide DeinitDevs, BusDeinit;
  }

  lemma {:induction false} BusDeinitSame(c: Conf, e: Conf, fhs: seq<int>, b: nat)
    requires b < |c.busses| && b < |e.busses| && e.busses[b] == c.busses[b]
    requires c.busses[b].numDevices <= |c.busses[b].devices|
    ensures BusDeinit(e, fhs, b) == BusDeinit(c, fhs, b)
  {
    DevEventsSame(c, e, b, c.busses[b].numDevices, false);
  }

  /** io_deinit */
  method IoDeinitCode(conf: IoConfig) returns (ghost trace: seq<Event>)
    requires Shaped(conf.View()) && Openable(conf.View())
    modifies conf, conf.busses
    ensures var c := old(conf.View());
      conf.View() == IoDeinit(c) && trace == DeinitTrace(c, FhsOf(c), c.numBusses)
  {
    hide DeinitBusses, DeinitTrace, BusDeinit, DeinitDevs;
    ghost var c := conf.View();
    ghost var fhs := FhsOf(c);
    trace := [];
    var b := 0;
    DeinitStep(c, fhs, 0);
    while b < conf.numBusses
      invariant 0 <= b <= c.numBusses
      invariant conf.View() == DeinitBusses(c, b)
      invariant trace == DeinitTrace(c, fhs, b)
      decreases c.numBusses - b
    {
      DeinitBussesKeep(c, b);
      BusDeinitSame(c, conf.View(), fhs, b);
      DeinitStep(c, fhs, b);
      trace := DeinitBusCode(conf, b, fhs, trace);
      b := b + 1;
    }
  }

  // ---- conf_init and conf_deinit -----------------------------------------------------------------------

  /** One turn of the outer loop of conf_deinit. */
  method DiscardBusCode(conf: IoConfig, b: nat)
    requires b < conf.busses.Length && |conf.busses[b].devices| == MAX_IO_DEVICES
    modifies conf, conf.busses
    ensures var c := old(conf.View());
      conf.View() == DiscardBus(DiscardDevs(c, b, MAX_IO_DEVICES), b)
  {
    ghost var c := conf.View();
    var d := 0;
    while d < MAX_IO_DEVICES
      invariant 0 <= d <= MAX_IO_DEVICES
      invariant conf.View() == DiscardDevs(c, b, d)
    {
      var dev := conf.busses[b].devices[d];
      if conf.busses[b].i2c {
        FreeBlock(conf, DevBusBlock(dev));
        conf.busses[b] := conf.busses[b].(devices := conf.busses[b].devices[d := dev.(busData := None)]);
      }
      d := d + 1;
    }
    if conf.busses[b].i2c {
      FreeBlock(conf, BusBlock(conf.busses[b]));
      conf.busses[b] := conf.busses[b].(busData := None);
    }
  }

  lemma {:induction false} DiscardStep(c: Conf, b: nat)
    requires b <= |c.busses|
    ensures DiscardBusses(c, 0) == c
    ensures b < |c.busses| ==>
      DiscardBusses(c, b + 1) == DiscardBus(DiscardDevs(DiscardBusses(c, b), b, |c.busses[b].devices|), b)
  {
    hide DiscardBus, DiscardDevs;
  }

  /** conf_deinit */
  method ConfDeinitCode(conf: IoConfig) returns (rc: int)
    requires conf.busses.Length == MAX_BUSSES
    requires forall b :: 0 <= b < MAX_BUSSES ==> |conf.busses[b].devices| == MAX_IO_DEVICES
    modifies conf, conf.busses
    ensures conf.View() == ConfDeinit(old(conf.View())) && rc == 0
  {
    hide DiscardBusses, DiscardBus, DiscardDevs;
    conf.numBusses := 0;
    ghost var c := conf.View();
    DiscardStep(c, 0);
    var b := 0;
    while b < MAX_BUSSES
      invariant 0 <= b <= MAX_BUSSES
      invariant conf.View() == DiscardBusses(c, b)
    {
      DiscardStep(c, b);
      DiscardBusCode(conf, b);
      b := b + 1;
    }
    rc := 0;
  }

  /** conf_init: an empty table, provided no bus has a driver before; the drivers of busses are not
      cleared, and neither is the heap. */
  method ConfInitCode(conf: IoConfig) returns (rc: int)
    requires conf.busses.Length == MAX_BUSSES
    requires forall b :: 0 <= b < MAX_BUSSES ==> |conf.busses[b].devices| == MAX_IO_DEVICES
    modifies conf, conf.busses
    ensures rc == 0 && conf.heap == old(conf.heap) && conf.numBusses == 0
    ensures forall b :: 0 <= b < MAX_BUSSES ==> conf.busses[b] == EmptyBus().(i2c := old(conf.busses[b].i2c))
    ensures FreshTable(conf.View()) <==> forall b :: 0 <= b < MAX_BUSSES ==> !old(conf.busses[b].i2c)
  {
    conf.numBusses := 0;
    var b := 0;
    while b < MAX_BUSSES
      invariant 0 <= b <= MAX_BUSSES && conf.numBusses == 0 && conf.heap == old(conf.heap)
      invariant forall k :: 0 <= k < MAX_BUSSES ==>
        |conf.busses[k].devices| == MAX_IO_DEVICES && conf.busses[k].i2c == old(conf.busses[k].i2c)
      invariant forall k :: 0 <= k < b ==> conf.busses[k].(i2c := false) == EmptyBus()
    {
      ClearBusCode(conf, b);
      b := b + 1;
    }
    EmptyBusIsEmpty();
    assert forall k :: 0 <= k < MAX_BUSSES ==> (IsEmptyBus(conf.busses[k]) <==> !old(conf.busses[k].i2c));
    rc := 0;
  }

  function EmptyBus(): IoBus {
    IoBus(0, seq(MAX_IO_DEVICES, _ => NoDev), false, None)
  }

  lemma {:induction false} EmptyBusIsEmpty()
    ensures forall bus: IoBus :: bus.(i2c := false) == EmptyBus() ==> (IsEmptyBus(bus) <==> !bus.i2c)
  {
    forall bus: IoBus | bus.(i2c := false) == EmptyBus()
      ensures IsEmptyBus(bus) <==> !bus.i2c
    {
      assert bus.devices == EmptyBus().devices;
    }
  }

  /** One turn of the outer loop of conf_init. */
  method ClearBusCode(conf: IoConfig, b: nat)
    requires b < conf.busses.Length && |conf.busses[b].devices| == MAX_IO_DEVICES
    modifies conf.busses
    ensures conf.busses[b] == EmptyBus().(i2c := old(conf.busses[b].i2c))
    ensures forall k :: 0 <= k < conf.busses.Length && k != b ==> conf.busses[k] == old(conf.busses[k])
  {
    conf.busses[b] := conf.busses[b].(numDevices := 0);
    var d := 0;
    while d < MAX_IO_DEVICES
      invariant 0 <= d <= MAX_IO_DEVICES && |conf.busses[b].devices| == MAX_IO_DEVICES
      invariant conf.busses[b].numDevices == 0 && conf.busses[b].i2c == old(conf.busses[b].i2c)
      invariant forall k :: 0 <= k < d ==> conf.busses[b].devices[k] == NoDev
      invariant forall k :: 0 <= k < conf.busses.Length && k != b ==> conf.busses[k] == old(conf.busses[k])
    {
      conf.busses[b] := conf.busses[b].(devices := conf.busses[b].devices[d := NoDev]);
      d := d + 1;
    }
    conf.busses[b] := conf.busses[b].(busData := None);
    assert conf.busses[b].devices == EmptyBus().devices;
  }
}
