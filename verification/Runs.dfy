/** Whole runs of requests: the table stays as it is, and devices do not disturb each other. */
module Runs {
  import opened Bits
  import opened Chips
  import opened Drivers
  import opened IoRequests
  import opened IoTable
  import opened Json
  import opened Uri

  datatype Request = Request(data: Data, cmd: Command)

  /** What perform_io leaves in the request and in the reply buffer, and its result. */
  datatype Answer = Answer(data: Data, reply: string, rc: int)

  // ---- the table does not change --------------------------------------------------------------

  ghost predicate SameDev(x: IoDev, y: IoDev) {
    && x.driver == y.driver && x.busData == y.busData
    && (x.devData.Some? <==> y.devData.Some?)
    && (x.devData.Some? ==> x.devData.value.block == y.devData.value.block)
  }

  ghost predicate SameBus(x: IoBus, y: IoBus) {
    && x.numDevices == y.numDevices && x.i2c == y.i2c && x.busData == y.busData
    && |x.devices| == |y.devices|
    && forall d :: 0 <= d < |x.devices| ==> SameDev(x.devices[d], y.devices[d])
  }

  /** Two worlds that differ in hardware registers and cached directions only. */
  ghost predicate SameTable(v: World, w: World) {
    && v.conf.numBusses == w.conf.numBusses && v.conf.heap == w.conf.heap
    && |v.conf.busses| == |w.conf.busses| && |v.lines| == |w.lines|
    && (forall b :: 0 <= b < |v.conf.busses| ==> SameBus(v.conf.busses[b], w.conf.busses[b]))
    && (forall b :: 0 <= b < |v.lines| ==> v.lines[b].chips.Keys == w.lines[b].chips.Keys)
  }

  lemma {:induction false} PutLocalKeepsTable(w: World, b: nat, d: nat, loc: Local)
    requires HasDevice(w, b, d) && Ready(DevAt(w, b, d))
    ensures SameTable(w, PutLocal(w, b, d, loc))
  {
  }

  lemma {:induction false} ServeTouches(driver: Driver, loc: Local, data: Data, cmd: Command, reply: string)
    requires cmd == CmdWrite ==> -1 <= data.sub < 31
    ensures Touches(driver, loc, Serve(driver, loc, data, cmd, reply).loc)
  {
    hide DevRead, DevWrite, Merge;
    DriverTouches(driver, loc, data.value);
    var r := DevRead(driver, loc, data.value);
    if cmd == CmdWrite && data.sub != IDX_INVALID && r.ok {
      DriverTouches(driver, r.loc, Merge(r.value, data.sub, data.value));
    }
  }

  lemma {:induction false} PerformKeepsTable(w: World, q: Request, reply: string)
    requires Servable(w, q.data, q.cmd)
    ensures SameTable(w, Perform(w, q.data, q.cmd, reply).world)
  {
    hide Serve, PutLocal, LocalOf;
    if InTable(w, q.data) && q.cmd != CmdNone {
      var b, d := q.data.bus, q.data.dev;
      PutLocalKeepsTable(w, b, d, Serve(DevAt(w, b, d).driver.value, LocalOf(w, b, d), q.data, q.cmd, reply).loc);
    }
  }

  lemma {:induction false} SameTableServable(v: World, w: World, q: Request)
    requires SameTable(v, w)
    ensures Servable(v, q.data, q.cmd) == Servable(w, q.data, q.cmd)
    ensures InTable(v, q.data) == InTable(w, q.data)
  {
    assert forall b :: 0 <= b < |v.conf.busses| ==> SameBus(v.conf.busses[b], w.conf.busses[b]);
  }

  lemma {:induction false} SameTableTransitive(u: World, v: World, w: World)
    requires SameTable(u, v) && SameTable(v, w)
    ensures SameTable(u, w)
  {
  }

  ghost predicate AllServable(w: World, reqs: seq<Request>) {
    forall k :: 0 <= k < |reqs| ==> Servable(w, reqs[k].data, reqs[k].cmd)
  }

  lemma {:induction false} AllServableKept(v: World, w: World, reqs: seq<Request>)
    requires SameTable(v, w)
    ensures AllServable(v, reqs) == AllServable(w, reqs)
  {
    hide Servable, SameTable, InTable;
    forall k | 0 <= k < |reqs|
      ensures Servable(v, reqs[k].data, reqs[k].cmd) == Servable(w, reqs[k].data, reqs[k].cmd)
    {
      SameTableServable(v, w, reqs[k]);
    }
  }

  /** The requests one after the other, each with an empty reply buffer. */
  ghost function Run(w: World, reqs: seq<Request>): (World, seq<Answer>)
    requires AllServable(w, reqs)
    decreases |reqs|
  {
    if reqs == [] then (w, [])
    else
      var p := Perform(w, reqs[0].data, reqs[0].cmd, "");
      PerformKeepsTable(w, reqs[0], "");
      AllServableKept(w, p.world, reqs[1..]);
      var (end, answers) := Run(p.world, reqs[1..]);
      (end, [Answer(p.data, p.reply, p.rc)] + answers)
  }

  lemma {:induction false} RunKeepsTable(w: World, reqs: seq<Request>)
    requires AllServable(w, reqs)
    ensures SameTable(w, Run(w, reqs).0)
    decreases |reqs|
  {
    hide Perform, Servable, SameTable;
    if reqs == [] {
      SameTableReflexive(w);
    } else {
      var w1 := Perform(w, reqs[0].data, reqs[0].cmd, "").world;
      PerformKeepsTable(w, reqs[0], "");
      AllServableKept(w, w1, reqs[1..]);
      RunKeepsTable(w1, reqs[1..]);
      SameTableTransitive(w, w1, Run(w1, reqs[1..]).0);
    }
  }

  lemma {:induction false} SameTableReflexive(w: World)
    ensures SameTable(w, w)
  {
  }

  // ---- one request leaves all other devices alone ----------------------------------------------------

  ghost predicate IsI2c(dev: IoDev) {
    dev.driver.Some? && dev.driver.value != Piface && dev.busData.Some?
  }

  /** A device that requests can name. */
  ghost predicate InService(w: World, b: nat, d: nat) {
    HasDevice(w, b, d) && b < w.conf.numBusses && d < w.conf.busses[b].numDevices
  }

  /** No other I2C device in service on the bus is configured at the same address. */
  ghost predicate Alone(w: World, b: nat, d: nat)
    requires HasDevice(w, b, d) && IsI2c(DevAt(w, b, d))
  {
    forall e: nat :: e != d && InService(w, b, e) && IsI2c(DevAt(w, b, e)) ==>
      DevAt(w, b, e).busData.value.address != DevAt(w, b, d).busData.value.address
  }

  lemma {:induction false} AloneKept(v: World, w: World, b: nat, d: nat)
    requires SameTable(v, w) && HasDevice(v, b, d) && IsI2c(DevAt(v, b, d)) && Alone(v, b, d)
    ensures HasDevice(w, b, d) && IsI2c(DevAt(w, b, d)) && Alone(w, b, d)
  {
    assert SameBus(v.conf.busses[b], w.conf.busses[b]);
    forall e: nat | e != d && InService(w, b, e) && IsI2c(DevAt(w, b, e))
      ensures DevAt(w, b, e).busData.value.address != DevAt(w, b, d).busData.value.address
    {
      assert SameDev(v.conf.busses[b].devices[e], w.conf.busses[b].devices[e]);
      assert InService(v, b, e);
    }
  }

  /** The chip and the cached direction of an I2C device. */
  ghost predicate SameI2c(x: Local, y: Local) {
    x.slot == y.slot && x.state == y.state
  }

  ghost predicate Addressed(w: World, q: Request, b: nat, d: nat) {
    InTable(w, q.data) && q.cmd != CmdNone && q.data.bus == b && q.data.dev == d
  }

  lemma {:induction false} PutLocalIsolates(w: World, b: nat, d: nat, loc: Local, b2: nat, d2: nat)
    requires HasDevice(w, b, d) && Ready(DevAt(w, b, d)) && HasDevice(w, b2, d2) && IsI2c(DevAt(w, b2, d2))
    requires (b, d) != (b2, d2)
    requires b == b2 && IsI2c(DevAt(w, b, d)) ==>
      DevAt(w, b, d).busData.value.address != DevAt(w, b2, d2).busData.value.address
    ensures var w' := PutLocal(w, b, d, loc);
      HasDevice(w', b2, d2) && SameI2c(LocalOf(w, b2, d2), LocalOf(w', b2, d2))
  {
  }

  /** A request changes neither the registers nor the driver state of any I2C device it does not
      address, if that device has its address for itself. */
  lemma {:induction false} Isolation(w: World, q: Request, reply: string, b: nat, d: nat)
    requires Servable(w, q.data, q.cmd) && HasDevice(w, b, d) && IsI2c(DevAt(w, b, d)) && Alone(w, b, d)
    requires !Addressed(w, q, b, d)
    ensures var w' := Perform(w, q.data, q.cmd, reply).world;
      HasDevice(w', b, d) && SameI2c(LocalOf(w, b, d), LocalOf(w', b, d))
  {
    hide Serve, PutLocal, LocalOf;
    if InTable(w, q.data) && q.cmd != CmdNone {
      var b1, d1 := q.data.bus, q.data.dev;
      assert InService(w, b1, d1);
      var served := Serve(DevAt(w, b1, d1).driver.value, LocalOf(w, b1, d1), q.data, q.cmd, reply);
      PutLocalIsolates(w, b1, d1, served.loc, b, d);
    }
  }

  // ---- interleavings --------------------------------------------------------------------------------------

  predicate ToDevice(q: Request, b: nat, d: nat) {
    q.data.bus == b && q.data.dev == d
  }

  /** The requests of a run that name one device. */
  function Mine(reqs: seq<Request>, b: nat, d: nat): seq<Request>
  {
    if reqs == [] then []
    else (if ToDevice(reqs[0], b, d) then [reqs[0]] else []) + Mine(reqs[1..], b, d)
  }

  /** The answers that those requests get. */
  function MyAnswers(reqs: seq<Request>, answers: seq<Answer>, b: nat, d: nat): seq<Answer>
    requires |reqs| == |answers|
  {
    if reqs == [] then []
    else (if ToDevice(reqs[0], b, d) then [answers[0]] else []) + MyAnswers(reqs[1..], answers[1..], b, d)
  }

  lemma {:induction false} RunLength(w: World, reqs: seq<Request>)
    requires AllServable(w, reqs)
    ensures |Run(w, reqs).1| == |reqs|
    decreases |reqs|
  {
    hide Perform, Servable;
    if reqs != [] {
      var w1 := Perform(w, reqs[0].data, reqs[0].cmd, "").world;
      PerformKeepsTable(w, reqs[0], "");
      AllServableKept(w, w1, reqs[1..]);
      RunLength(w1, reqs[1..]);
    }
  }

  lemma {:induction false} MineServable(w: World, reqs: seq<Request>, b: nat, d: nat)
    requires AllServable(w, reqs)
    ensures AllServable(w, Mine(reqs, b, d))
  {
    hide Servable;
    if reqs != [] {
      MineServable(w, reqs[1..], b, d);
    }
  }

  /** What a driver does depends on its own device only. */
  lemma {:induction false} DriverLocal(driver: Driver, x: Local, y: Local, v: word)
    requires driver != Piface && SameI2c(x, y)
    ensures var r, s := DevWrite(driver, x, v), DevWrite(driver, y, v);
      r.(loc := s.loc) == s && SameI2c(r.loc, s.loc)
    ensures var r, s := DevRead(driver, x, v), DevRead(driver, y, v);
      r.(loc := s.loc) == s && SameI2c(r.loc, s.loc)
  {
    hide Configure, Latch, Sample, SendByte, ReceiveByte, Directions;
  }

  lemma {:induction false} ServeLocal(driver: Driver, x: Local, y: Local, data: Data, cmd: Command)
    requires driver != Piface && SameI2c(x, y) && (cmd == CmdWrite ==> -1 <= data.sub < 31)
    ensures var r, s := Serve(driver, x, data, cmd, ""), Serve(driver, y, data, cmd, "");
      r.data == s.data && r.reply == s.reply && r.rc == s.rc && SameI2c(r.loc, s.loc)
  {
    hide DevWrite, DevRead, Merge, SameI2c, ShiftRight, DataJson, ErrorJson;
    DriverLocal(driver, x, y, data.value);
    var r := DevRead(driver, x, data.value);
    if cmd == CmdWrite && data.sub != IDX_INVALID && r.ok {
      DriverLocal(driver, r.loc, DevRead(driver, y, data.value).loc, Merge(r.value, data.sub, data.value));
    }
  }

  lemma {:induction false} SameAnswer(v: World, w: World, q: Request, b: nat, d: nat)
    requires SameTable(v, w) && Servable(v, q.data, q.cmd) && Servable(w, q.data, q.cmd) && ToDevice(q, b, d)
    requires HasDevice(v, b, d) && HasDevice(w, b, d) && IsI2c(DevAt(v, b, d))
    requires SameI2c(LocalOf(v, b, d), LocalOf(w, b, d))
    ensures var p, r := Perform(v, q.data, q.cmd, ""), Perform(w, q.data, q.cmd, "");
      && p.data == r.data && p.reply == r.reply && p.rc == r.rc
      && HasDevice(p.world, b, d) && HasDevice(r.world, b, d)
      && SameI2c(LocalOf(p.world, b, d), LocalOf(r.world, b, d))
  {
    hide Serve, PutLocal, LocalOf, Touches;
    assert SameBus(v.conf.busses[b], w.conf.busses[b]);
    SameTableServable(v, w, q);
    if InTable(v, q.data) && q.cmd != CmdNone {
      var driver := DevAt(v, b, d).driver.value;
      var x, y := LocalOf(v, b, d), LocalOf(w, b, d);
      ServeLocal(driver, x, y, q.data, q.cmd);
      ServeTouches(driver, x, q.data, q.cmd, "");
      ServeTouches(driver, y, q.data, q.cmd, "");
      var xs, ys := Serve(driver, x, q.data, q.cmd, "").loc, Serve(driver, y, q.data, q.cmd, "").loc;
      TouchesSelf(driver, xs);
      TouchesSelf(driver, ys);
      PutLocalTwice(v, b, d, xs, xs);
      PutLocalTwice(w, b, d, ys, ys);
    }
  }

  /** Non-interference: however the requests to the devices on the busses are interleaved, and
      whatever transfers fail, an I2C device with an address for itself ends in the same state and
      its requests get the same answers as if they had been made alone. */
  lemma {:induction false} NonInterference(w: World, v: World, reqs: seq<Request>, b: nat, d: nat)
    requires SameTable(w, v) && AllServable(w, reqs) && AllServable(v, Mine(reqs, b, d))
    requires HasDevice(w, b, d) && HasDevice(v, b, d) && IsI2c(DevAt(w, b, d)) && Alone(w, b, d)
    requires SameI2c(LocalOf(w, b, d), LocalOf(v, b, d))
    ensures var (wEnd, ws) := Run(w, reqs);
      var (vEnd, vs) := Run(v, Mine(reqs, b, d));
      && |ws| == |reqs| && MyAnswers(reqs, ws, b, d) == vs
      && HasDevice(wEnd, b, d) && HasDevice(vEnd, b, d)
      && SameI2c(LocalOf(wEnd, b, d), LocalOf(vEnd, b, d))
    decreases |reqs|
  {
    hide Perform, Alone, Servable, LocalOf, SameI2c, IsI2c, SameTable;
    RunLength(w, reqs);
    if reqs != [] {
      var q := reqs[0];
      var w1 := Perform(w, q.data, q.cmd, "").world;
      PerformKeepsTable(w, q, "");
      AllServableKept(w, w1, reqs[1..]);
      AloneKept(w, w1, b, d);
      TableHasDevice(w, w1, b, d);
      if ToDevice(q, b, d) {
        var mine := Mine(reqs, b, d);
        assert mine[0] == q && mine[1..] == Mine(reqs[1..], b, d);
        var v1 := Perform(v, q.data, q.cmd, "").world;
        PerformKeepsTable(v, q, "");
        AllServableKept(v, v1, mine[1..]);
        SameTableThrough(w, v, w1, v1);
        SameTableSymmetric(w, v);
        SameAnswer(w, v, q, b, d);
        NonInterference(w1, v1, reqs[1..], b, d);
      } else {
        assert Mine(reqs, b, d) == Mine(reqs[1..], b, d);
        Isolation(w, q, "", b, d);
        SameTableSymmetric(w, w1);
        SameTableTransitive(w1, w, v);
        SameI2cTransitive(LocalOf(w1, b, d), LocalOf(w, b, d), LocalOf(v, b, d));
        NonInterference(w1, v, reqs[1..], b, d);
      }
    }
  }

  lemma {:induction false} TableHasDevice(w: World, w1: World, b: nat, d: nat)
    requires SameTable(w, w1) && HasDevice(w, b, d)
    ensures HasDevice(w1, b, d) && (IsI2c(DevAt(w, b, d)) == IsI2c(DevAt(w1, b, d)))
  {
    assert SameBus(w.conf.busses[b], w1.conf.busses[b]);
  }

  lemma {:induction false} SameTableSymmetric(v: World, w: World)
    requires SameTable(v, w)
    ensures SameTable(w, v)
  {
  }

  lemma {:induction false} SameTableThrough(v: World, w: World, v1: World, w1: World)
    requires SameTable(v, w) && SameTable(v, v1) && SameTable(w, w1)
    ensures SameTable(v1, w1)
  {
    hide SameTable;
    SameTableSymmetric(v, v1);
    SameTableTransitive(v1, v, w);
    SameTableTransitive(v1, w, w1);
  }

  lemma {:induction false} SameI2cTransitive(x: Local, y: Local, z: Local)
    requires SameI2c(y, x) && SameI2c(y, z)
    ensures SameI2c(x, z)
  {
  }
}
