/** conf_init, io_init, io_deinit and conf_deinit: who allocates, who releases, and in which
    order the drivers are called. */
module Lifecycle {
  import opened Config
  import opened ConfigInvariants
  import opened ConfigRoundTrip
  import opened IniDocument
  import opened IoTable
  import opened Numbers
  import opened Options
  import opened Runs

  // ---- the table over its life -----------------------------------------------------------------

  /** free(p): NULL is ignored. */
  function Free(h: Heap, p: Option<nat>): Heap
  {
    if p.Some? then h.(live := h.live - {p.value}, freed := h.freed + [p.value]) else h
  }

  function DevDataBlock(dev: IoDev): Option<nat> {
    if dev.devData.Some? then Some(dev.devData.value.block) else None
  }

  predicate InRange(c: Conf, b: nat, d: nat) {
    b < |c.busses| && d < |c.busses[b].devices|
  }

  function SetDev(c: Conf, b: nat, d: nat, dev: IoDev): Conf
    requires InRange(c, b, d)
  {
    c.(busses := c.busses[b := c.busses[b].(devices := c.busses[b].devices[d := dev])])
  }

  function SetBus(c: Conf, b: nat, bus: IoBus): Conf
    requires b < |c.busses|
  {
    c.(busses := c.busses[b := bus])
  }

  /** Same dimensions, so that the same indices stay in range. */
  ghost predicate SameShape(c: Conf, e: Conf) {
    && c.numBusses == e.numBusses && |c.busses| == |e.busses|
    && forall b :: 0 <= b < |c.busses| ==>
         && |c.busses[b].devices| == |e.busses[b].devices|
         && c.busses[b].numDevices == e.busses[b].numDevices && c.busses[b].i2c == e.busses[b].i2c
  }

  /** drv_handle->init: mcp23017_init allocates; the others keep nothing in the table. */
  function InitDev(c: Conf, b: nat, d: nat): (e: Conf)
    requires InRange(c, b, d)
    ensures SameShape(c, e)
  {
    var dev := c.busses[b].devices[d];
    if dev.driver == Some(Mcp23017) then
      var (heap, block) := Alloc(c.heap);
      SetDev(c, b, d, dev.(devData := Some(McpData(block, Unconfigured)))).(heap := heap)
    else c
  }

  function InitDevs(c: Conf, b: nat, n: nat): (e: Conf)
    requires b < |c.busses| && n <= |c.busses[b].devices|
    ensures SameShape(c, e)
  {
    if n == 0 then c else InitDev(InitDevs(c, b, n - 1), b, n - 1)
  }

  /** drv_handle->open: the handle that opening the device file returned. */
  function OpenBus(c: Conf, b: nat, handles: string -> int): (e: Conf)
    requires b < |c.busses|
    ensures SameShape(c, e)
  {
    var bus := c.busses[b];
    if bus.i2c && bus.busData.Some?
    then SetBus(c, b, bus.(busData := Some(bus.busData.value.(fh := handles(bus.busData.value.device)))))
    else c
  }

  function InitBusses(c: Conf, n: nat, handles: string -> int): (e: Conf)
    requires Shaped(c) && n <= c.numBusses
    ensures SameShape(c, e)
  {
    if n == 0 then c
    else InitDevs(OpenBus(InitBusses(c, n - 1, handles), n - 1, handles), n - 1, c.busses[n - 1].numDevices)
  }

  /** Every I2C bus has the data that open and close follow. */
  predicate Openable(c: Conf) {
    forall b :: 0 <= b < c.numBusses && b < |c.busses| && c.busses[b].i2c ==> c.busses[b].busData.Some?
  }

  /** io_init */
  function IoInit(c: Conf, handles: string -> int): (e: Conf)
    requires Shaped(c)
    ensures SameShape(c, e)
  {
    InitBusses(c, c.numBusses, handles)
  }

  /** drv_handle->deinit */
  function DeinitDev(c: Conf, b: nat, d: nat): (e: Conf)
    requires InRange(c, b, d)
    ensures SameShape(c, e)
  {
    var dev := c.busses[b].devices[d];
    if dev.driver == Some(Mcp23017) && dev.devData.Some? then
      SetDev(c, b, d, dev.(devData := None)).(heap := Free(c.heap, DevDataBlock(dev)))
    else c
  }

  function DeinitDevs(c: Conf, b: nat, n: nat): (e: Conf)
    requires b < |c.busses| && n <= |c.busses[b].devices|
    ensures SameShape(c, e)
  {
    if n == 0 then c else DeinitDev(DeinitDevs(c, b, n - 1), b, n - 1)
  }

  function DeinitBusses(c: Conf, n: nat): (e: Conf)
    requires Shaped(c) && n <= c.numBusses
    ensures SameShape(c, e)
  {
    if n == 0 then c else DeinitDevs(DeinitBusses(c, n - 1), n - 1, c.busses[n - 1].numDevices)
  }

  /** io_deinit */
  function IoDeinit(c: Conf): (e: Conf)
    requires Shaped(c)
    ensures SameShape(c, e)
  {
    DeinitBusses(c, c.numBusses)
  }

  /** discard_bus_dev_data */
  function DiscardDev(c: Conf, b: nat, d: nat): (e: Conf)
    requires InRange(c, b, d)
    ensures SameShape(c, e)
  {
    var dev := c.busses[b].devices[d];
    if c.busses[b].i2c then
      SetDev(c, b, d, dev.(busData := None)).(heap := Free(c.heap, DevBusBlock(dev)))
    else c
  }

  function DiscardDevs(c: Conf, b: nat, n: nat): (e: Conf)
    requires b < |c.busses| && n <= |c.busses[b].devices|
    ensures SameShape(c, e)
  {
    if n == 0 then c else DiscardDev(DiscardDevs(c, b, n - 1), b, n - 1)
  }

  /** discard_bus_data */
  function DiscardBus(c: Conf, b: nat): (e: Conf)
    requires b < |c.busses|
    ensures SameShape(c, e)
  {
    var bus := c.busses[b];
    if bus.i2c then SetBus(c, b, bus.(busData := None)).(heap := Free(c.heap, BusBlock(bus))) else c
  }

  function DiscardBusses(c: Conf, n: nat): (e: Conf)
    requires n <= |c.busses|
    ensures SameShape(c, e)
  {
    if n == 0 then c
    else
      var e := DiscardBusses(c, n - 1);
      DiscardBus(DiscardDevs(e, n - 1, |c.busses[n - 1].devices|), n - 1)
  }

  /** conf_deinit goes through the whole table, whatever the counts say. */
  function ConfDeinit(c: Conf): Conf
  {
    DiscardBusses(c.(numBusses := 0), |c.busses|)
  }

  // ---- ownership ------------------------------------------------------------------------------------

  /** A place in the table that can hold a pointer to a block. */
  datatype Ref = AtBus(b: nat) | AtDevBus(b: nat, d: nat) | AtDevData(b: nat, d: nat)

  function BlockAt(c: Conf, r: Ref): Option<nat>
  {
    match r
    case AtBus(b) => if b < |c.busses| then BusBlock(c.busses[b]) else None
    case AtDevBus(b, d) => if InRange(c, b, d) then DevBusBlock(c.busses[b].devices[d]) else None
    case AtDevData(b, d) => if InRange(c, b, d) then DevDataBlock(c.busses[b].devices[d]) else None
  }

  ghost predicate NoDuplicates(s: seq<nat>) {
    forall i, j :: 0 <= i < j < |s| ==> s[i] != s[j]
  }

  /** Every block allocated since `base` is either live or has been freed once; a live block is
      held by exactly one place of the table, unless it is one of the lost ones. */
  ghost predicate Accounted(c: Conf, lost: set<nat>, base: nat) {
    && (forall r :: BlockAt(c, r).Some? ==> BlockAt(c, r).value in c.heap.live - lost)
    && (forall r, s :: BlockAt(c, r).Some? && BlockAt(c, s) == BlockAt(c, r) ==> r == s)
    && (forall id :: id in c.heap.live - lost ==> exists r :: BlockAt(c, r) == Some(id))
    && lost <= c.heap.live
    && NoDuplicates(c.heap.freed)
    && (forall id :: id in c.heap.freed ==> id !in c.heap.live && base <= id < c.heap.next)
    && (forall id :: id in c.heap.live ==> base <= id < c.heap.next)
    && (forall id: nat :: base <= id < c.heap.next ==> id in c.heap.live || id in c.heap.freed)
  }

  /** The two tables hold the same pointers everywhere but at r. */
  ghost predicate SameBut(c: Conf, e: Conf, r: Ref) {
    forall s :: s != r ==> BlockAt(e, s) == BlockAt(c, s)
  }

  lemma {:induction false} AllocAccounted(c: Conf, e: Conf, r: Ref, lost: set<nat>, base: nat)
    requires Accounted(c, lost, base) && SameBut(c, e, r) && base <= c.heap.next
    requires e.heap == Alloc(c.heap).0 && BlockAt(e, r) == Some(Alloc(c.heap).1)
    ensures Accounted(e, lost + AsSet(BlockAt(c, r)), base)
  {
    hide BlockAt;
    var lost' := lost + AsSet(BlockAt(c, r));
    forall id | id in e.heap.live - lost'
      ensures exists s :: BlockAt(e, s) == Some(id)
    {
      if id == c.heap.next {
        assert BlockAt(e, r) == Some(id);
      } else {
        var s :| BlockAt(c, s) == Some(id);
        assert BlockAt(e, s) == Some(id);
      }
    }
  }

  lemma {:induction false} FreeAccounted(c: Conf, e: Conf, r: Ref, lost: set<nat>, base: nat)
    requires Accounted(c, lost, base) && SameBut(c, e, r)
    requires e.heap == Free(c.heap, BlockAt(c, r)) && BlockAt(e, r) == None
    ensures Accounted(e, lost, base)
  {
    hide BlockAt;
    forall id | id in e.heap.live - lost
      ensures exists s :: BlockAt(e, s) == Some(id)
    {
      var s :| BlockAt(c, s) == Some(id);
      assert BlockAt(e, s) == Some(id);
    }
  }

  lemma {:induction false} SameAccounted(c: Conf, e: Conf, lost: set<nat>, base: nat)
    requires Accounted(c, lost, base) && e.heap == c.heap
    requires forall r :: BlockAt(e, r) == BlockAt(c, r)
    ensures Accounted(e, lost, base)
  {
    hide BlockAt;
    forall id | id in e.heap.live - lost
      ensures exists s :: BlockAt(e, s) == Some(id)
    {
      var s :| BlockAt(c, s) == Some(id);
      assert BlockAt(e, s) == Some(id);
    }
  }

  lemma {:induction false} SetDevRefs(c: Conf, b: nat, d: nat, dev: IoDev)
    requires InRange(c, b, d)
    ensures BlockAt(SetDev(c, b, d, dev), AtDevBus(b, d)) == DevBusBlock(dev)
    ensures BlockAt(SetDev(c, b, d, dev), AtDevData(b, d)) == DevDataBlock(dev)
    ensures forall r :: r != AtDevBus(b, d) && r != AtDevData(b, d) ==>
      BlockAt(SetDev(c, b, d, dev), r) == BlockAt(c, r)
  {
  }

  lemma {:induction false} SetBusRefs(c: Conf, b: nat, bus: IoBus)
    requires b < |c.busses| && bus.devices == c.busses[b].devices
    ensures forall r :: BlockAt(SetBus(c, b, bus), r) == if r == AtBus(b) then BusBlock(bus) else BlockAt(c, r)
  {
  }

  lemma {:induction false} HeapRefs(c: Conf, h: Heap)
    ensures forall r :: BlockAt(c.(heap := h), r) == BlockAt(c, r)
  {
  }

  // ---- parsing allocates ------------------------------------------------------------------------------

  lemma {:induction false} ProcessAccounted(u: Builder, name: string, value: string, lost: set<nat>, base: nat)
    requires Legal(u, name) && Accounted(u.conf, lost, base) && base <= u.conf.heap.next
    ensures var e := Process(u, name, value).0.conf;
      Accounted(e, lost + Overwritten(u, name), base) && base <= e.heap.next
  {
    hide Accounted, BlockAt, DriverNamed, Strtol;
    var e := Process(u, name, value).0.conf;
    var bus := u.conf.busses[u.busId];
    EntryNames();
    if name == INI_BUS_PARAM && bus.i2c {
      SetBusRefs(u.conf.(heap := e.heap), u.busId, e.busses[u.busId]);
      HeapRefs(u.conf, e.heap);
      RefOfBus(u.conf, u.busId);
      AllocAccounted(u.conf, e, AtBus(u.busId), lost, base);
    } else if name == INI_DEV_PARAM && bus.i2c {
      SetDevRefs(u.conf.(heap := e.heap), u.busId, u.devId, e.busses[u.busId].devices[u.devId]);
      HeapRefs(u.conf, e.heap);
      RefOfDev(u.conf, u.busId, u.devId);
      AllocAccounted(u.conf, e, AtDevBus(u.busId, u.devId), lost, base);
    } else {
      assert lost + {} == lost;
      SameRefs(u, name, value);
      SameAccounted(u.conf, e, lost, base);
    }
  }

  lemma {:induction false} RefOfBus(c: Conf, b: nat)
    requires b < |c.busses|
    ensures BlockAt(c, AtBus(b)) == BusBlock(c.busses[b])
  {
  }

  lemma {:induction false} RefOfDev(c: Conf, b: nat, d: nat)
    requires InRange(c, b, d)
    ensures BlockAt(c, AtDevBus(b, d)) == DevBusBlock(c.busses[b].devices[d])
    ensures BlockAt(c, AtDevData(b, d)) == DevDataBlock(c.busses[b].devices[d])
  {
  }

  lemma {:induction false} SameRefs(u: Builder, name: string, value: string)
    requires Legal(u, name) && (name == INI_BUS_PARAM || name == INI_DEV_PARAM ==> !u.conf.busses[u.busId].i2c)
    ensures var e := Process(u, name, value).0.conf;
      e.heap == u.conf.heap && forall r :: BlockAt(e, r) == BlockAt(u.conf, r)
  {
    hide DriverNamed, Strtol;
    EntryNames();
  }

  /** The blocks that the entries of a run drop. */
  function Lost(u: Builder, calls: seq<Call>): set<nat>
    decreases |calls|
  {
    if calls == [] then {}
    else Overwritten(Update(u, calls[0].section), calls[0].name)
         + Lost(Handle(u, calls[0].section, calls[0].name, calls[0].value).0, calls[1..])
  }

  /** Pointers of a bus without the I2C driver are NULL, and no device has driver data yet. */
  ghost predicate Parsed(c: Conf) {
    && (forall b :: 0 <= b < |c.busses| && c.busses[b].busData.Some? ==> c.busses[b].i2c)
    && (forall b: nat, d: nat :: InRange(c, b, d) && c.busses[b].devices[d].busData.Some? ==> c.busses[b].i2c)
    && (forall b: nat, d: nat :: InRange(c, b, d) ==> c.busses[b].devices[d].devData == None)
  }

  lemma {:induction false} ProcessParsed(u: Builder, name: string, value: string)
    requires Legal(u, name) && Parsed(u.conf)
    ensures Parsed(Process(u, name, value).0.conf)
  {
    hide DriverNamed, Strtol;
    EntryNames();
  }

  lemma {:induction false} UpdateAccounted(u: Builder, section: string, lost: set<nat>, base: nat)
    requires Accounted(u.conf, lost, base)
    ensures Accounted(Update(u, section).conf, lost, base)
    ensures Parsed(u.conf) ==> Parsed(Update(u, section).conf)
  {
    hide Changed, Accounted;
    var e := Update(u, section).conf;
    CountRefs(u.conf, e.numBusses);
    SameAccounted(u.conf, e, lost, base);
  }

  lemma {:induction false} CountRefs(c: Conf, n: nat)
    ensures forall r :: BlockAt(c.(numBusses := n), r) == BlockAt(c, r)
  {
  }

  lemma {:induction false} ParseAccounted(u: Builder, calls: seq<Call>, lost: set<nat>, base: nat)
    requires Accounted(u.conf, lost, base) && base <= u.conf.heap.next && Parsed(u.conf) && AllLegal(u, calls)
    ensures var e := Feed(Handle, calls, u).conf;
      Accounted(e, lost + Lost(u, calls), base) && base <= e.heap.next && Parsed(e)
    decreases |calls|
  {
    hide Process, Update, Accounted, Parsed, Legal, Overwritten;
    if calls == [] {
      assert lost + {} == lost;
    } else {
      var c := calls[0];
      var v, w := Update(u, c.section), Handle(u, c.section, c.name, c.value).0;
      UpdateAccounted(u, c.section, lost, base);
      UpdateHeap(u, c.section);
      var dropped := Overwritten(v, c.name);
      ProcessAccounted(v, c.name, c.value, lost, base);
      ProcessParsed(v, c.name, c.value);
      ParseAccounted(w, calls[1..], lost + dropped, base);
      assert lost + dropped + Lost(w, calls[1..]) == lost + Lost(u, calls);
    }
  }

  lemma {:induction false} UpdateHeap(u: Builder, section: string)
    ensures Update(u, section).conf.heap == u.conf.heap
  {
  }

  // ---- io_init and io_deinit ----------------------------------------------------------------------------

  /** Devices of both tables agree but for their driver data; busses but for their handles. */
  ghost predicate SameParsed(c: Conf, e: Conf) {
    && SameShape(c, e)
    && (forall b :: 0 <= b < |c.busses| ==> BusBlock(e.busses[b]) == BusBlock(c.busses[b]))
    && (forall b: nat, d: nat :: InRange(c, b, d) ==>
          && e.busses[b].devices[d].driver == c.busses[b].devices[d].driver
          && e.busses[b].devices[d].busData == c.busses[b].devices[d].busData)
  }

  function DataAt(c: Conf, b: nat, d: nat): Option<McpData>
    requires InRange(c, b, d)
  {
    c.busses[b].devices[d].devData
  }

  /** Driver data as mcp23017_init leaves it. */
  predicate IsFreshData(p: Option<McpData>) {
    p.Some? && p.value.ioState == Unconfigured
  }

  predicate IsMcpDev(c: Conf, b: nat, d: nat)
    requires InRange(c, b, d)
  {
    c.busses[b].devices[d].driver == Some(Mcp23017)
  }

  lemma {:induction false} InitDevAccounted(c: Conf, b: nat, d: nat, lost: set<nat>, base: nat)
    requires InRange(c, b, d) && Accounted(c, lost, base) && base <= c.heap.next && DataAt(c, b, d) == None
    ensures var e := InitDev(c, b, d);
      Accounted(e, lost, base) && base <= e.heap.next
  {
    hide Accounted, BlockAt;
    if IsMcpDev(c, b, d) {
      var e := InitDev(c, b, d);
      SetDevRefs(c, b, d, e.busses[b].devices[d]);
      HeapRefs(SetDev(c, b, d, e.busses[b].devices[d]), e.heap);
      RefOfDev(c, b, d);
      AllocAccounted(c, e, AtDevData(b, d), lost, base);
      assert lost + {} == lost;
    }
  }

  /** One device's driver data may have changed, nothing else. */
  ghost predicate OnlyData(c: Conf, e: Conf, b: nat, d: nat) {
    && SameParsed(c, e)
    && forall b1: nat, d1: nat :: InRange(c, b1, d1) && (b1, d1) != (b, d) ==> DataAt(e, b1, d1) == DataAt(c, b1, d1)
  }

  lemma {:induction false} InitDevOnly(c: Conf, b: nat, d: nat)
    requires InRange(c, b, d)
    ensures OnlyData(c, InitDev(c, b, d), b, d)
    ensures if IsMcpDev(c, b, d) then IsFreshData(DataAt(InitDev(c, b, d), b, d)) else InitDev(c, b, d) == c
  {
  }

  lemma {:induction false} DeinitDevOnly(c: Conf, b: nat, d: nat)
    requires InRange(c, b, d)
    ensures OnlyData(c, DeinitDev(c, b, d), b, d)
    ensures !IsMcpDev(c, b, d) ==> DeinitDev(c, b, d) == c
  {
  }

  lemma {:induction false} InitDevsAccounted(c: Conf, b: nat, n: nat, lost: set<nat>, base: nat)
    requires b < |c.busses| && n <= |c.busses[b].devices| && Accounted(c, lost, base) && base <= c.heap.next
    requires forall d: nat :: d < n ==> DataAt(c, b, d) == None
    ensures var e := InitDevs(c, b, n);
      && Accounted(e, lost, base) && base <= e.heap.next && SameParsed(c, e)
      && forall b1: nat, d1: nat :: InRange(c, b1, d1) ==>
           if b1 == b && d1 < n && IsMcpDev(c, b1, d1) then IsFreshData(DataAt(e, b1, d1))
           else DataAt(e, b1, d1) == DataAt(c, b1, d1)
    decreases n
  {
    hide Accounted, InitDev;
    if n > 0 {
      InitDevsAccounted(c, b, n - 1, lost, base);
      var e1, e, k := InitDevs(c, b, n - 1), InitDevs(c, b, n), n - 1;
      assert InRange(c, b, k) && InRange(e1, b, k);
      InitDevAccounted(e1, b, k, lost, base);
      InitDevOnly(e1, b, k);
      SameParsedJoin(c, e1, e);
      forall b1: nat, d1: nat | InRange(c, b1, d1)
        ensures if b1 == b && d1 < n && IsMcpDev(c, b1, d1) then IsFreshData(DataAt(e, b1, d1))
                else DataAt(e, b1, d1) == DataAt(c, b1, d1)
      {
        assert InRange(e1, b1, d1) && IsMcpDev(e1, b1, d1) == IsMcpDev(c, b1, d1);
      }
    }
  }

  lemma {:induction false} SameParsedJoin(c: Conf, e1: Conf, e: Conf)
    requires SameParsed(c, e1) && SameParsed(e1, e)
    ensures SameParsed(c, e)
  {
    assert forall b: nat, d: nat :: InRange(c, b, d) ==> InRange(e1, b, d) && InRange(e, b, d);
  }

  lemma {:induction false} OpenAccounted(c: Conf, b: nat, handles: string -> int, lost: set<nat>, base: nat)
    requires b < |c.busses| && Accounted(c, lost, base)
    ensures var e := OpenBus(c, b, handles);
      && Accounted(e, lost, base) && SameParsed(c, e) && e.heap == c.heap
      && forall b1: nat, d1: nat :: InRange(c, b1, d1) ==> DataAt(e, b1, d1) == DataAt(c, b1, d1)
  {
    hide Accounted, BlockAt;
    var e := OpenBus(c, b, handles);
    SetBusRefs(c, b, e.busses[b]);
    RefOfBus(c, b);
    SameAccounted(c, e, lost, base);
  }

  lemma {:induction false} InitBussesAccounted(c: Conf, n: nat, handles: string -> int, lost: set<nat>, base: nat)
    requires Shaped(c) && n <= c.numBusses && Accounted(c, lost, base) && base <= c.heap.next
    requires forall b: nat, d: nat :: InRange(c, b, d) ==> DataAt(c, b, d) == None
    ensures var e := InitBusses(c, n, handles);
      && Accounted(e, lost, base) && base <= e.heap.next && SameParsed(c, e)
      && forall b1: nat, d1: nat :: InRange(c, b1, d1) ==>
           if b1 < n && d1 < c.busses[b1].numDevices && IsMcpDev(c, b1, d1) then IsFreshData(DataAt(e, b1, d1))
           else DataAt(e, b1, d1) == None
    decreases n
  {
    hide Accounted, OpenBus, InitDevs;
    if n > 0 {
      InitBussesAccounted(c, n - 1, handles, lost, base);
      var e1 := InitBusses(c, n - 1, handles);
      OpenAccounted(e1, n - 1, handles, lost, base);
      var e2, k := OpenBus(e1, n - 1, handles), n - 1;
      forall d: nat | d < c.busses[k].numDevices
        ensures DataAt(e2, k, d) == None
      {
        assert InRange(c, k, d) && InRange(e1, k, d);
      }
      InitDevsAccounted(e2, n - 1, c.busses[n - 1].numDevices, lost, base);
      var e := InitBusses(c, n, handles);
      SameParsedTwice(c, e1, e2, e);
      forall b1: nat, d1: nat | InRange(c, b1, d1)
        ensures if b1 < n && d1 < c.busses[b1].numDevices && IsMcpDev(c, b1, d1) then IsFreshData(DataAt(e, b1, d1))
                else DataAt(e, b1, d1) == None
      {
        assert InRange(e1, b1, d1) && InRange(e2, b1, d1) && InRange(e, b1, d1);
      }
    }
  }

  lemma {:induction false} SameParsedTwice(c: Conf, e1: Conf, e2: Conf, e: Conf)
    requires SameParsed(c, e1) && SameParsed(e1, e2) && SameParsed(e2, e)
    ensures SameParsed(c, e)
  {
    assert forall b: nat, d: nat :: InRange(c, b, d) ==> InRange(e1, b, d) && InRange(e2, b, d) && InRange(e, b, d);
  }

  lemma {:induction false} DeinitDevAccounted(c: Conf, b: nat, d: nat, lost: set<nat>, base: nat)
    requires InRange(c, b, d) && Accounted(c, lost, base)
    ensures var e := DeinitDev(c, b, d);
      Accounted(e, lost, base) && (IsMcpDev(c, b, d) ==> DataAt(e, b, d) == None)
  {
    hide Accounted, BlockAt;
    if IsMcpDev(c, b, d) && DataAt(c, b, d).Some? {
      var e := DeinitDev(c, b, d);
      SetDevRefs(c, b, d, e.busses[b].devices[d]);
      HeapRefs(SetDev(c, b, d, e.busses[b].devices[d]), e.heap);
      RefOfDev(c, b, d);
      FreeAccounted(c, e, AtDevData(b, d), lost, base);
    }
  }

  lemma {:induction false} DeinitDevsAccounted(c: Conf, b: nat, n: nat, lost: set<nat>, base: nat)
    requires b < |c.busses| && n <= |c.busses[b].devices| && Accounted(c, lost, base)
    ensures var e := DeinitDevs(c, b, n);
      && Accounted(e, lost, base) && SameParsed(c, e)
      && forall b1: nat, d1: nat :: InRange(c, b1, d1) ==>
           DataAt(e, b1, d1) == if b1 == b && d1 < n && IsMcpDev(c, b1, d1) then None else DataAt(c, b1, d1)
    decreases n
  {
    hide Accounted, DeinitDev;
    if n > 0 {
      DeinitDevsAccounted(c, b, n - 1, lost, base);
      var e1, e, k := DeinitDevs(c, b, n - 1), DeinitDevs(c, b, n), n - 1;
      assert InRange(c, b, k) && InRange(e1, b, k);
      DeinitDevAccounted(e1, b, k, lost, base);
      DeinitDevOnly(e1, b, k);
      SameParsedJoin(c, e1, e);
      forall b1: nat, d1: nat | InRange(c, b1, d1)
        ensures DataAt(e, b1, d1) == if b1 == b && d1 < n && IsMcpDev(c, b1, d1) then None else DataAt(c, b1, d1)
      {
        assert InRange(e1, b1, d1) && IsMcpDev(e1, b1, d1) == IsMcpDev(c, b1, d1);
      }
    }
  }

  lemma {:induction false} DeinitBussesAccounted(c: Conf, n: nat, lost: set<nat>, base: nat)
    requires Shaped(c) && n <= c.numBusses && Accounted(c, lost, base)
    ensures var e := DeinitBusses(c, n);
      && Accounted(e, lost, base) && SameParsed(c, e)
      && forall b1: nat, d1: nat :: InRange(c, b1, d1) ==>
           DataAt(e, b1, d1) ==
             if b1 < n && d1 < c.busses[b1].numDevices && IsMcpDev(c, b1, d1) then None else DataAt(c, b1, d1)
    decreases n
  {
    hide Accounted, DeinitDevs;
    if n > 0 {
      DeinitBussesAccounted(c, n - 1, lost, base);
      var e1 := DeinitBusses(c, n - 1);
      DeinitDevsAccounted(e1, n - 1, c.busses[n - 1].numDevices, lost, base);
      var e := DeinitBusses(c, n);
      forall b1: nat, d1: nat | InRange(c, b1, d1)
        ensures DataAt(e, b1, d1) ==
          if b1 < n && d1 < c.busses[b1].numDevices && IsMcpDev(c, b1, d1) then None else DataAt(c, b1, d1)
      {
        assert InRange(e1, b1, d1) && InRange(e, b1, d1);
      }
    }
  }

  // ---- conf_deinit -------------------------------------------------------------------------------------

  /** The table holds no pointer of the first n busses with the I2C driver any more; the others
      keep theirs. */
  ghost predicate Discarded(c: Conf, e: Conf, n: nat) {
    && SameShape(c, e)
    && (forall b :: 0 <= b < |c.busses| ==>
          BusBlock(e.busses[b]) == if b < n && c.busses[b].i2c then None else BusBlock(c.busses[b]))
    && (forall b: nat, d: nat :: InRange(c, b, d) ==>
          && e.busses[b].devices[d].devData == c.busses[b].devices[d].devData
          && DevBusBlock(e.busses[b].devices[d]) ==
               if b < n && c.busses[b].i2c then None else DevBusBlock(c.busses[b].devices[d]))
  }

  lemma {:induction false} DiscardDevsAccounted(c: Conf, b: nat, n: nat, lost: set<nat>, base: nat)
    requires b < |c.busses| && n <= |c.busses[b].devices| && Accounted(c, lost, base)
    ensures var e := DiscardDevs(c, b, n);
      && Accounted(e, lost, base) && SameShape(c, e)
      && (forall k :: 0 <= k < |c.busses| ==> e.busses[k].busData == c.busses[k].busData)
      && forall b1: nat, d1: nat :: InRange(c, b1, d1) ==>
           && DataAt(e, b1, d1) == DataAt(c, b1, d1)
           && DevBusBlock(e.busses[b1].devices[d1]) ==
                if b1 == b && d1 < n && c.busses[b].i2c then None else DevBusBlock(c.busses[b1].devices[d1])
    decreases n
  {
    hide Accounted, BlockAt;
    if n > 0 {
      DiscardDevsAccounted(c, b, n - 1, lost, base);
      var e := DiscardDevs(c, b, n - 1);
      assert InRange(c, b, n - 1);
      if e.busses[b].i2c {
        var f := DiscardDev(e, b, n - 1);
        SetDevRefs(e, b, n - 1, f.busses[b].devices[n - 1]);
        HeapRefs(SetDev(e, b, n - 1, f.busses[b].devices[n - 1]), f.heap);
        RefOfDev(e, b, n - 1);
        FreeAccounted(e, f, AtDevBus(b, n - 1), lost, base);
      }
    }
  }

  lemma {:induction false} DiscardBusAccounted(c: Conf, b: nat, lost: set<nat>, base: nat)
    requires b < |c.busses| && Accounted(c, lost, base)
    ensures Accounted(DiscardBus(c, b), lost, base)
  {
    hide Accounted, BlockAt;
    if c.busses[b].i2c {
      var e := DiscardBus(c, b);
      SetBusRefs(c, b, e.busses[b]);
      HeapRefs(SetBus(c, b, e.busses[b]), e.heap);
      RefOfBus(c, b);
      FreeAccounted(c, e, AtBus(b), lost, base);
    }
  }

  lemma {:induction false} DiscardBussesAccounted(c: Conf, n: nat, lost: set<nat>, base: nat)
    requires n <= |c.busses| && Accounted(c, lost, base)
    ensures var e := DiscardBusses(c, n);
      Accounted(e, lost, base) && Discarded(c, e, n)
    decreases n
  {
    hide Accounted, DiscardDevs, DiscardBus;
    if n > 0 {
      DiscardBussesAccounted(c, n - 1, lost, base);
      var b := n - 1;
      var e1 := DiscardBusses(c, b);
      DiscardDevsAccounted(e1, b, |c.busses[b].devices|, lost, base);
      var e2 := DiscardDevs(e1, b, |c.busses[b].devices|);
      DiscardBusAccounted(e2, b, lost, base);
      DiscardBusOnly(e2, b);
      DiscardedNext(c, e1, e2, DiscardBus(e2, b), b);
    }
  }

  lemma {:induction false} DiscardBusOnly(c: Conf, b: nat)
    requires b < |c.busses|
    ensures var e := DiscardBus(c, b);
      forall k :: 0 <= k < |c.busses| ==>
        && e.busses[k].devices == c.busses[k].devices
        && BusBlock(e.busses[k]) == if k == b && c.busses[b].i2c then None else BusBlock(c.busses[k])
  {
  }

  lemma {:induction false} DiscardedNext(c: Conf, e1: Conf, e2: Conf, e: Conf, b: nat)
    requires b < |c.busses| && Discarded(c, e1, b) && SameShape(e1, e2) && SameShape(e2, e)
    requires forall k :: 0 <= k < |c.busses| ==> e2.busses[k].busData == e1.busses[k].busData
    requires forall b1: nat, d1: nat :: InRange(e1, b1, d1) ==>
      && DataAt(e2, b1, d1) == DataAt(e1, b1, d1)
      && DevBusBlock(e2.busses[b1].devices[d1]) ==
           if b1 == b && d1 < |c.busses[b].devices| && e1.busses[b].i2c then None
           else DevBusBlock(e1.busses[b1].devices[d1])
    requires forall k :: 0 <= k < |e2.busses| ==>
      && e.busses[k].devices == e2.busses[k].devices
      && BusBlock(e.busses[k]) == if k == b && e2.busses[b].i2c then None else BusBlock(e2.busses[k])
    ensures Discarded(c, e, b + 1)
  {
    forall b1: nat, d1: nat | InRange(c, b1, d1)
      ensures && e.busses[b1].devices[d1].devData == c.busses[b1].devices[d1].devData
              && DevBusBlock(e.busses[b1].devices[d1]) ==
                   if b1 < b + 1 && c.busses[b1].i2c then None else DevBusBlock(c.busses[b1].devices[d1])
    {
      assert InRange(e1, b1, d1);
      assert DataAt(e2, b1, d1) == DataAt(e1, b1, d1) == DataAt(c, b1, d1);
    }
  }

  // ---- the whole life ------------------------------------------------------------------------------------

  lemma {:induction false} NothingLost(u: Builder, calls: seq<Call>)
    ensures Lost(u, calls) == {} <==> NeverOverwrites(u, calls)
    decreases |calls|
  {
    hide Overwritten, Handle, Update;
    if calls != [] {
      var rest := Lost(Handle(u, calls[0].section, calls[0].name, calls[0].value).0, calls[1..]);
      var first := Overwritten(Update(u, calls[0].section), calls[0].name);
      NothingLost(Handle(u, calls[0].section, calls[0].name, calls[0].value).0, calls[1..]);
      assert first <= first + rest && rest <= first + rest;
    }
  }

  /** A table from which no place refers to a block. */
  ghost predicate Released(c: Conf) {
    forall r :: BlockAt(c, r) == None
  }

  lemma {:induction false} ReleasedAccounted(c: Conf, lost: set<nat>, base: nat)
    requires Accounted(c, lost, base) && Released(c)
    ensures c.heap.live == lost
    ensures forall id: nat :: base <= id < c.heap.next ==> (id in c.heap.freed <==> id !in lost)
  {
    hide BlockAt;
    forall id | id in c.heap.live
      ensures id in lost
    {
      assert id in c.heap.live - lost ==> exists r :: BlockAt(c, r) == Some(id);
    }
  }

  /** After io_deinit, only driver-less rests could be left; after conf_deinit nothing is. */
  lemma {:induction false} AllReleased(c1: Conf, c4: Conf, c5: Conf)
    requires Parsed(c1) && SameParsed(c1, c4)
    requires forall b: nat, d: nat :: InRange(c1, b, d) ==> DataAt(c4, b, d) == None
    requires Discarded(c4.(numBusses := 0), c5, |c4.busses|)
    ensures Released(c5)
  {
    forall r: Ref
      ensures BlockAt(c5, r) == None
    {
      match r
      case AtBus(b) =>
        if b < |c5.busses| {
          assert BusBlock(c4.busses[b]) == BusBlock(c1.busses[b]);
        }
      case AtDevBus(b, d) =>
        if InRange(c5, b, d) {
          assert InRange(c1, b, d) && InRange(c4.(numBusses := 0), b, d);
        }
      case AtDevData(b, d) =>
        if InRange(c5, b, d) {
          assert InRange(c1, b, d) && InRange(c4.(numBusses := 0), b, d);
        }
    }
  }

  lemma {:induction false} SecondDeinit(c: Conf, n: nat)
    requires n <= |c.busses| && Released(c)
    ensures DiscardBusses(c, n) == c
    decreases n
  {
    hide BlockAt, DiscardDevs;
    if n > 0 {
      SecondDeinit(c, n - 1);
      SecondDiscard(c, n - 1, |c.busses[n - 1].devices|);
      SecondDiscardBus(c, n - 1);
    }
  }

  lemma {:induction false} SecondDiscardBus(c: Conf, b: nat)
    requires b < |c.busses| && Released(c)
    ensures DiscardBus(c, b) == c
  {
    hide BlockAt;
    RefOfBus(c, b);
    assert c.busses[b := c.busses[b]] == c.busses;
  }

  lemma {:induction false} SecondDiscard(c: Conf, b: nat, n: nat)
    requires b < |c.busses| && n <= |c.busses[b].devices| && Released(c)
    ensures DiscardDevs(c, b, n) == c
    decreases n
  {
    hide BlockAt;
    if n > 0 {
      SecondDiscard(c, b, n - 1);
      RefOfDev(c, b, n - 1);
      var dev := c.busses[b].devices[n - 1];
      assert c.busses[b].devices[n - 1 := dev] == c.busses[b].devices;
      assert c.busses[b := c.busses[b]] == c.busses;
    }
  }

  lemma {:induction false} RequestsAccounted(v: World, w: World, lost: set<nat>, base: nat)
    requires SameTable(v, w) && Accounted(v.conf, lost, base)
    ensures Accounted(w.conf, lost, base)
  {
    forall r: Ref
      ensures BlockAt(w.conf, r) == BlockAt(v.conf, r)
    {
      var b := r.b;
      if b < |v.conf.busses| {
        assert SameBus(v.conf.busses[b], w.conf.busses[b]);
      }
    }
    SameAccounted(v.conf, w.conf, lost, base);
  }

  lemma {:induction false} RequestsParsed(v: World, w: World)
    requires SameTable(v, w)
    ensures SameParsed(v.conf, w.conf)
    ensures forall b: nat, d: nat :: InRange(v.conf, b, d) ==>
      (DataAt(w.conf, b, d) == None <==> DataAt(v.conf, b, d) == None)
  {
    assert forall b :: 0 <= b < |v.conf.busses| ==> SameBus(v.conf.busses[b], w.conf.busses[b]);
    forall b: nat, d: nat | InRange(v.conf, b, d)
      ensures SameDev(v.conf.busses[b].devices[d], w.conf.busses[b].devices[d])
    {
    }
  }

  lemma {:induction false} FreshAccounted(c: Conf)
    requires FreshTable(c) && c.heap.live == {} && c.heap.freed == []
    ensures Accounted(c, {}, c.heap.next) && Parsed(c)
  {
    forall r: Ref
      ensures BlockAt(c, r) == None
    {
      if r.b < |c.busses| {
        assert IsEmptyBus(c.busses[r.b]);
      }
    }
    forall b: nat, d: nat | InRange(c, b, d)
      ensures c.busses[b].devices[d] == NoDev
    {
      assert IsEmptyBus(c.busses[b]);
    }
  }

  /** Of the blocks allocated since `base`, those in lost are still allocated and every other one
      has been freed exactly once; nothing else has been freed, the table is empty and points to
      nothing, and another conf_deinit releases nothing. */
  ghost predicate Settled(c: Conf, lost: set<nat>, base: nat) {
    && c.numBusses == 0 && Released(c)
    && c.heap.live == lost && NoDuplicates(c.heap.freed)
    && (forall id :: id in c.heap.freed ==> base <= id < c.heap.next)
    && (forall id: nat :: base <= id < c.heap.next ==> (id in c.heap.freed <==> id !in lost))
    && ConfDeinit(c) == c
  }

  /** From the first entry of the configuration file to conf_deinit: every block that was allocated
      is freed exactly once, except those that a repeated parameter dropped. Nothing is dropped if
      and only if no bus and no device has more than one parameter behind its bus type. */
  lemma {:induction false} Ownership(c0: Conf, calls: seq<Call>, handles: string -> int, v: World, reqs: seq<Request>)
    requires FreshTable(c0) && c0.heap.live == {} && c0.heap.freed == []
    requires AllLegal(Builder(c0, "", -1, -1), calls)
    requires var c1 := Feed(Handle, calls, Builder(c0, "", -1, -1)).conf;
      Shaped(c1) && Openable(c1) && v.conf == IoInit(c1, handles) && AllServable(v, reqs)
    ensures Shaped(Run(v, reqs).0.conf)
    ensures var u, base := Builder(c0, "", -1, -1), c0.heap.next;
      var end := ConfDeinit(IoDeinit(Run(v, reqs).0.conf));
      && Settled(end, Lost(u, calls), base)
      && (Lost(u, calls) == {} <==> OneParameterEach(calls))
  {
    hide Accounted, Parsed, Lost, InitBusses, DeinitBusses, DiscardBusses, NeverOverwrites, Handle, FreshTable;
    hide Released, Run, SameTable, AllServable, AllLegal, OneParameterEach, Openable;
    var u, base := Builder(c0, "", -1, -1), c0.heap.next;
    FreshAccounted(c0);
    var lost := Lost(u, calls);
    assert {} + lost == lost;
    ParseAccounted(u, calls, {}, base);
    NothingLost(u, calls);
    OneParameterLosesNothing(u, calls);
    var c1 := Feed(Handle, calls, u).conf;
    ParsedNoData(c1);
    InitBussesAccounted(c1, c1.numBusses, handles, lost, base);
    var c2 := IoInit(c1, handles);
    var w := Run(v, reqs).0;
    var c3 := w.conf;
    RunKeepsTable(v, reqs);
    RequestsAccounted(v, w, lost, base);
    RequestsParsed(v, w);
    ShapedKept(c1, c2);
    ShapedKept(c2, c3);
    DeinitBussesAccounted(c3, c3.numBusses, lost, base);
    var c4 := IoDeinit(c3);
    NoDataLeft(c1, c2, c3, c4);
    SameParsedTwice(c1, c2, c3, c4);
    var c4' := c4.(numBusses := 0);
    CountRefs(c4, 0);
    SameAccounted(c4, c4', lost, base);
    DiscardBussesAccounted(c4', |c4'.busses|, lost, base);
    var end := ConfDeinit(c4);
    AllReleased(c1, c4, end);
    ReleasedAccounted(end, lost, base);
    AccountedFreed(end, lost, base);
    SecondDeinit(end.(numBusses := 0), |end.busses|);
  }

  lemma {:induction false} ParsedNoData(c: Conf)
    requires Parsed(c)
    ensures forall b: nat, d: nat :: InRange(c, b, d) ==> DataAt(c, b, d) == None
  {
  }

  lemma {:induction false} ShapedKept(c: Conf, e: Conf)
    requires Shaped(c) && SameShape(c, e)
    ensures Shaped(e)
  {
  }

  lemma {:induction false} NoDataLeft(c1: Conf, c2: Conf, c3: Conf, c4: Conf)
    requires SameParsed(c1, c2) && SameParsed(c2, c3) && SameParsed(c3, c4)
    requires forall b: nat, d: nat :: InRange(c1, b, d) ==>
      if b < c1.numBusses && d < c1.busses[b].numDevices && IsMcpDev(c1, b, d) then IsFreshData(DataAt(c2, b, d))
      else DataAt(c2, b, d) == None
    requires forall b: nat, d: nat :: InRange(c2, b, d) ==> (DataAt(c3, b, d) == None <==> DataAt(c2, b, d) == None)
    requires forall b: nat, d: nat :: InRange(c3, b, d) ==>
      DataAt(c4, b, d) ==
        if b < c3.numBusses && d < c3.busses[b].numDevices && IsMcpDev(c3, b, d) then None else DataAt(c3, b, d)
    ensures forall b: nat, d: nat :: InRange(c1, b, d) ==> DataAt(c4, b, d) == None
  {
    forall b: nat, d: nat | InRange(c1, b, d)
      ensures DataAt(c4, b, d) == None
    {
      assert InRange(c2, b, d) && InRange(c3, b, d);
    }
  }

  lemma {:induction false} AccountedFreed(c: Conf, lost: set<nat>, base: nat)
    requires Accounted(c, lost, base)
    ensures NoDuplicates(c.heap.freed) && forall id :: id in c.heap.freed ==> base <= id < c.heap.next
  {
  }

  // ---- handles -------------------------------------------------------------------------------------

  /** The data of a bus after its device file has been opened. */
  function OpenedData(p: Option<BusData>, handles: string -> int): Option<BusData> {
    if p.Some? then Some(p.value.(fh := handles(p.value.device))) else None
  }

  /** The first n I2C busses of e hold the handles of their device files; nothing else of the data of
      the busses differs from c. */
  ghost predicate HandlesOpen(c: Conf, e: Conf, n: nat, handles: string -> int) {
    && |e.busses| == |c.busses|
    && forall b :: 0 <= b < |c.busses| ==>
         e.busses[b].busData ==
           if b < n && c.busses[b].i2c then OpenedData(c.busses[b].busData, handles) else c.busses[b].busData
  }

  ghost predicate SameBusData(c: Conf, e: Conf) {
    && |e.busses| == |c.busses|
    && forall b :: 0 <= b < |c.busses| ==> e.busses[b].busData == c.busses[b].busData
  }

  lemma {:induction false} InitDevsBusData(c: Conf, b: nat, n: nat)
    requires b < |c.busses| && n <= |c.busses[b].devices|
    ensures SameBusData(c, InitDevs(c, b, n))
    decreases n
  {
    if n > 0 {
      InitDevsBusData(c, b, n - 1);
    }
  }

  lemma {:induction false} DeinitDevsBusData(c: Conf, b: nat, n: nat)
    requires b < |c.busses| && n <= |c.busses[b].devices|
    ensures SameBusData(c, DeinitDevs(c, b, n))
    decreases n
  {
    if n > 0 {
      DeinitDevsBusData(c, b, n - 1);
    }
  }

  lemma {:induction false} InitOpens(c: Conf, n: nat, handles: string -> int)
    requires Shaped(c) && n <= c.numBusses
    ensures HandlesOpen(c, InitBusses(c, n, handles), n, handles)
    decreases n
  {
    hide InitDevs;
    if n > 0 {
      InitOpens(c, n - 1, handles);
      var e := OpenBus(InitBusses(c, n - 1, handles), n - 1, handles);
      InitDevsBusData(e, n - 1, c.busses[n - 1].numDevices);
    }
  }

  lemma {:induction false} DeinitKeepsBusData(c: Conf, n: nat)
    requires Shaped(c) && n <= c.numBusses
    ensures SameBusData(c, DeinitBusses(c, n))
    decreases n
  {
    hide DeinitDevs;
    if n > 0 {
      DeinitKeepsBusData(c, n - 1);
      DeinitDevsBusData(DeinitBusses(c, n - 1), n - 1, c.busses[n - 1].numDevices);
    }
  }

  /** From io_init on every I2C bus in range holds the handle that opening its device file gave, with
      the path as it was parsed; whatever requests are served, and whatever devices have been
      deinitialised when its turn to be closed comes. */
  lemma {:induction false} HandlesKept(c: Conf, handles: string -> int, v: World, reqs: seq<Request>, n: nat, d: nat)
    requires Shaped(c) && v.conf == IoInit(c, handles) && AllServable(v, reqs)
    requires n < c.numBusses && d <= c.busses[n].numDevices
    ensures HandlesOpen(c, v.conf, c.numBusses, handles)
    ensures HandlesOpen(c, Run(v, reqs).0.conf, c.numBusses, handles)
    ensures SameShape(c, Run(v, reqs).0.conf) && Shaped(Run(v, reqs).0.conf)
    ensures HandlesOpen(c, DeinitDevs(DeinitBusses(Run(v, reqs).0.conf, n), n, d), c.numBusses, handles)
  {
    hide InitBusses, DeinitBusses, DeinitDevs, Run, AllServable;
    InitOpens(c, c.numBusses, handles);
    RunKeepsTable(v, reqs);
    var e := Run(v, reqs).0.conf;
    RequestsParsed(v, Run(v, reqs).0);
    SameTableBusData(v, Run(v, reqs).0);
    ShapedKept(c, v.conf);
    ShapedKept(v.conf, e);
    DeinitKeepsBusData(e, n);
    DeinitDevsBusData(DeinitBusses(e, n), n, d);
  }

  lemma {:induction false} SameTableBusData(v: World, w: World)
    requires SameTable(v, w)
    ensures SameBusData(v.conf, w.conf)
  {
    forall b | 0 <= b < |v.conf.busses|
      ensures w.conf.busses[b].busData == v.conf.busses[b].busData
    {
      assert SameBus(v.conf.busses[b], w.conf.busses[b]);
    }
  }
}
