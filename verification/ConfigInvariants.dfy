/** What the builder's counters mean over every legal sequence of entries. */
module ConfigInvariants {
  import opened CString
  import opened Config
  import opened ConfigRoundTrip
  import opened IniDocument
  import opened IniGrammar
  import opened IoTable
  import opened Numbers

  /** The section of the latest entry. */
  function Latest(calls: seq<Call>): string
  {
    if calls == [] then "" else calls[|calls| - 1].section
  }

  /** How often the section changes into a bus section. */
  function BusChanges(calls: seq<Call>): nat
  {
    if calls == [] then 0
    else
      var n := |calls| - 1;
      var s := calls[n].section;
      BusChanges(calls[..n]) + if Changed(Latest(calls[..n]), s) && INI_BUS <= s then 1 else 0
  }

  /** How often it changes into a device section, since the latest change into a bus section. */
  function DevChanges(calls: seq<Call>): nat
  {
    if calls == [] then 0
    else
      var n := |calls| - 1;
      var s := calls[n].section;
      if Changed(Latest(calls[..n]), s) && INI_BUS <= s then 0
      else DevChanges(calls[..n]) + if Changed(Latest(calls[..n]), s) && INI_DEV <= s then 1 else 0
  }

  /** The driver entries filed under bus b. */
  function DriverEntries(calls: seq<Call>, b: int): nat
  {
    if calls == [] then 0
    else
      var n := |calls| - 1;
      DriverEntries(calls[..n], b) + if calls[n].name == INI_DEV_DRV && BusChanges(calls) == b + 1 then 1 else 0
  }

  /** The builder before any entry: a table without devices. */
  ghost predicate Initial(u: Builder) {
    && u.lastSection == "" && u.busId == -1 && u.devId == -1 && u.conf.numBusses == 0
    && forall b :: 0 <= b < |u.conf.busses| ==> u.conf.busses[b].numDevices == 0
  }

  lemma {:induction false} FeedSnoc(h: Handler<Builder>, calls: seq<Call>, c: Call, u: Builder)
    ensures var mid := Feed(h, calls, u);
      Feed(h, calls + [c], u) == h(mid, c.section, c.name, c.value).0
  {
    if calls == [] {
      assert calls + [c] == [c];
      assert Feed(h, [c], u) == Feed(h, [], h(u, c.section, c.name, c.value).0);
    } else {
      assert (calls + [c])[1..] == calls[1..] + [c];
      FeedSnoc(h, calls[1..], c, h(u, calls[0].section, calls[0].name, calls[0].value).0);
    }
  }

  lemma {:induction false} LegalSnoc(calls: seq<Call>, c: Call, u: Builder)
    ensures AllLegal(u, calls + [c]) <==>
      AllLegal(u, calls) && Legal(Update(Feed(Handle, calls, u), c.section), c.name)
    decreases |calls|
  {
    hide Handle, Legal, Update;
    if calls == [] {
      assert (calls + [c])[0] == c && (calls + [c])[1..] == [];
    } else {
      assert (calls + [c])[1..] == calls[1..] + [c];
      LegalSnoc(calls[1..], c, Handle(u, calls[0].section, calls[0].name, calls[0].value).0);
    }
  }

  /** What one legal entry does to the table. */
  lemma {:induction false} HandleEffect(u: Builder, c: Call)
    requires Legal(Update(u, c.section), c.name)
    ensures var v, w := Update(u, c.section), Handle(u, c.section, c.name, c.value).0;
      && w.busId == v.busId && w.devId == v.devId && w.lastSection == v.lastSection
      && w.conf.numBusses == v.conf.numBusses && |w.conf.busses| == |u.conf.busses|
      && (forall b :: 0 <= b < |u.conf.busses| && b != v.busId ==> w.conf.busses[b] == u.conf.busses[b])
      && w.conf.busses[v.busId].numDevices ==
           u.conf.busses[v.busId].numDevices + if c.name == INI_DEV_DRV then 1 else 0
  {
    hide DriverNamed;
  }

  /** The indices and counts that the builder infers, for every legal sequence of entries. */
  lemma {:induction false} Counters(u: Builder, calls: seq<Call>)
    requires Initial(u) && AllLegal(u, calls)
    ensures var v := Feed(Handle, calls, u);
      && v.busId == BusChanges(calls) - 1 && v.conf.numBusses == BusChanges(calls)
      && v.devId == DevChanges(calls) - 1
      && v.lastSection == Take(Latest(calls), MAX_INI_ENTRY_LEN)
      && |v.conf.busses| == |u.conf.busses|
      && forall b :: 0 <= b < |v.conf.busses| ==> v.conf.busses[b].numDevices == DriverEntries(calls, b)
    decreases |calls|
  {
    hide Handle;
    if calls != [] {
      var n := |calls| - 1;
      var c := calls[n];
      assert calls == calls[..n] + [c];
      FeedSnoc(Handle, calls[..n], c, u);
      LegalSnoc(calls[..n], c, u);
      Counters(u, calls[..n]);
      HandleEffect(Feed(Handle, calls[..n], u), c);
      TakeTwice(Latest(calls[..n]));
    }
  }

  lemma {:induction false} TakeTwice(s: string)
    ensures Take(Take(s, MAX_INI_ENTRY_LEN), MAX_INI_ENTRY_LEN) == Take(s, MAX_INI_ENTRY_LEN)
  {
  }

  /** Once a later bus has started, a bus is never modified again. */
  lemma {:induction false} EarlierBussesFrozen(u: Builder, calls: seq<Call>, b: nat)
    requires AllLegal(u, calls) && b < u.busId && b < |u.conf.busses|
    ensures var v := Feed(Handle, calls, u);
      v.busId >= u.busId && b < |v.conf.busses| && v.conf.busses[b] == u.conf.busses[b]
    decreases |calls|
  {
    hide Handle;
    if calls != [] {
      HandleEffect(u, calls[0]);
      EarlierBussesFrozen(Handle(u, calls[0].section, calls[0].name, calls[0].value).0, calls[1..], b);
    }
  }

  /** Up to here an entry lies in the table: behind a change into one of at most eight bus sections,
      and a device entry behind one into one of at most 128 device sections since. */
  predicate Within(calls: seq<Call>)
    requires calls != []
  {
    && 0 < BusChanges(calls) <= 8
    && (IsDevEntry(calls[|calls| - 1].name) ==> 0 < DevChanges(calls) <= 128)
  }

  /** A caller can see from the section names whether all entries lie in the table. */
  lemma {:induction false} LegalIffWithin(u: Builder, calls: seq<Call>)
    requires FreshTable(u.conf) && u == Builder(u.conf, "", -1, -1)
    ensures AllLegal(u, calls) <==> forall k :: 0 < k <= |calls| ==> Within(calls[..k])
    ensures AllLegal(u, calls) ==>
      var c := Feed(Handle, calls, u).conf;
      |c.busses| == MAX_BUSSES && forall b :: 0 <= b < MAX_BUSSES ==> |c.busses[b].devices| == MAX_IO_DEVICES
    decreases |calls|
  {
    hide Handle, Update, BusChanges, DevChanges, Feed, AllLegal, Legal, FreshTable;
    if calls == [] {
      FreshSizes(u);
    } else {
      var n := |calls| - 1;
      var front, c := calls[..n], calls[n];
      assert calls == front + [c] && calls[..n + 1] == calls;
      FeedSnoc(Handle, front, c, u);
      LegalSnoc(front, c, u);
      LegalIffWithin(u, front);
      FreshIsInitial(u);
      assert forall k :: 0 < k <= n ==> calls[..k] == front[..k];
      if AllLegal(u, front) {
        Counters(u, front);
        NextIndices(Feed(Handle, front, u), front, c);
        if Legal(Update(Feed(Handle, front, u), c.section), c.name) {
          HandleEffect(Feed(Handle, front, u), c);
          PointerEffect(Feed(Handle, front, u), c);
        }
      }
    }
  }

  lemma {:induction false} FreshSizes(u: Builder)
    requires FreshTable(u.conf)
    ensures AllLegal(u, []) && Feed(Handle, [], u) == u && |u.conf.busses| == MAX_BUSSES
    ensures forall b :: 0 <= b < MAX_BUSSES ==> |u.conf.busses[b].devices| == MAX_IO_DEVICES
  {
    assert forall b :: 0 <= b < MAX_BUSSES ==> IsEmptyBus(u.conf.busses[b]);
  }

  lemma {:induction false} NextIndices(mid: Builder, front: seq<Call>, c: Call)
    requires mid.busId == BusChanges(front) - 1 && mid.devId == DevChanges(front) - 1
    requires mid.lastSection == Take(Latest(front), MAX_INI_ENTRY_LEN)
    requires |mid.conf.busses| == MAX_BUSSES
    requires forall b :: 0 <= b < MAX_BUSSES ==> |mid.conf.busses[b].devices| == MAX_IO_DEVICES
    ensures Legal(Update(mid, c.section), c.name) <==> Within(front + [c])
  {
    assert (front + [c])[..|front|] == front;
    TakeTwice(Latest(front));
  }

  // ---- parameters --------------------------------------------------------------------------------

  /** Bus b has been given the I2C driver. */
  function I2cSet(calls: seq<Call>, b: nat): bool
  {
    if calls == [] then false
    else
      var n := |calls| - 1;
      I2cSet(calls[..n], b)
      || (calls[n].name == INI_BUS_TYPE && calls[n].value == INI_BUS_TYPE_I2C && BusChanges(calls) == b + 1)
  }

  /** The bus parameters filed under bus b behind its bus type. */
  function BusParams(calls: seq<Call>, b: nat): nat
  {
    if calls == [] then 0
    else
      var n := |calls| - 1;
      BusParams(calls[..n], b)
      + if calls[n].name == INI_BUS_PARAM && BusChanges(calls) == b + 1 && I2cSet(calls[..n], b) then 1 else 0
  }

  /** The device parameters filed under device d of bus b behind the bus type. */
  function DevParams(calls: seq<Call>, b: nat, d: nat): nat
  {
    if calls == [] then 0
    else
      var n := |calls| - 1;
      DevParams(calls[..n], b, d)
      + if calls[n].name == INI_DEV_PARAM && BusChanges(calls) == b + 1 && DevChanges(calls) == d + 1
           && I2cSet(calls[..n], b) then 1 else 0
  }

  /** At most one parameter per bus and per device, not counting those in front of the bus type. */
  ghost predicate OneParameterEach(calls: seq<Call>) {
    && (forall b: nat :: BusParams(calls, b) <= 1)
    && (forall b: nat, d: nat :: DevParams(calls, b, d) <= 1)
  }

  lemma {:induction false} NeverSnoc(u: Builder, calls: seq<Call>, c: Call)
    ensures NeverOverwrites(u, calls + [c]) <==>
      NeverOverwrites(u, calls) && Overwritten(Update(Feed(Handle, calls, u), c.section), c.name) == {}
    decreases |calls|
  {
    hide Handle, Overwritten, Update;
    if calls == [] {
      assert (calls + [c])[0] == c && (calls + [c])[1..] == [];
    } else {
      assert (calls + [c])[1..] == calls[1..] + [c];
      NeverSnoc(Handle(u, calls[0].section, calls[0].name, calls[0].value).0, calls[1..], c);
    }
  }

  /** What one legal entry does to the drivers of busses and to the pointers. */
  lemma {:induction false} PointerEffect(u: Builder, c: Call)
    requires Legal(Update(u, c.section), c.name)
    ensures var v, w := Update(u, c.section), Handle(u, c.section, c.name, c.value).0;
      var bus, bus' := u.conf.busses[v.busId], w.conf.busses[v.busId];
      && bus'.i2c == (bus.i2c || (c.name == INI_BUS_TYPE && c.value == INI_BUS_TYPE_I2C))
      && (bus'.busData.Some? <==> bus.busData.Some? || (c.name == INI_BUS_PARAM && bus.i2c))
      && |bus'.devices| == |bus.devices|
      && forall d :: 0 <= d < |bus.devices| ==>
           (bus'.devices[d].busData.Some? <==>
             bus.devices[d].busData.Some? || (c.name == INI_DEV_PARAM && bus.i2c && d == v.devId))
  {
    hide DriverNamed, Strtol;
    EntryNames();
  }

  /** The entry drops a block exactly when it stores a parameter where one is. */
  lemma {:induction false} Drops(v: Builder, name: string)
    requires Legal(v, name)
    ensures var bus := v.conf.busses[v.busId];
      Overwritten(v, name) != {} <==>
        bus.i2c && ((name == INI_BUS_PARAM && bus.busData.Some?)
                    || (name == INI_DEV_PARAM && bus.devices[v.devId].busData.Some?))
  {
    EntryNames();
  }

  /** A table with the drivers and pointers that the entries so far have set. */
  ghost predicate Stored(c: Conf, calls: seq<Call>) {
    && (forall b :: 0 <= b < |c.busses| ==>
          c.busses[b].i2c == I2cSet(calls, b) && (c.busses[b].busData.Some? <==> BusParams(calls, b) > 0))
    && (forall b, d :: 0 <= b < |c.busses| && 0 <= d < |c.busses[b].devices| ==>
          (c.busses[b].devices[d].busData.Some? <==> DevParams(calls, b, d) > 0))
  }

  lemma {:induction false} StoredNext(u: Builder, v: Builder, calls: seq<Call>, c: Call)
    requires v == Update(u, c.section) && Legal(v, c.name) && Stored(u.conf, calls)
    requires v.busId == BusChanges(calls + [c]) - 1 && v.devId == DevChanges(calls + [c]) - 1
    ensures Stored(Handle(u, c.section, c.name, c.value).0.conf, calls + [c])
  {
    hide Handle, Update, Overwritten, BusChanges, DevChanges, Changed;
    HandleEffect(u, c);
    PointerEffect(u, c);
    ParamsSnoc(calls, c);
  }

  lemma {:induction false} ParamsSnoc(calls: seq<Call>, c: Call)
    ensures var all := calls + [c];
      && (forall b: nat :: I2cSet(all, b) == (I2cSet(calls, b) ||
            (c.name == INI_BUS_TYPE && c.value == INI_BUS_TYPE_I2C && BusChanges(all) == b + 1)))
      && (forall b: nat :: BusParams(all, b) == BusParams(calls, b) +
            if c.name == INI_BUS_PARAM && BusChanges(all) == b + 1 && I2cSet(calls, b) then 1 else 0)
      && (forall b: nat, d: nat :: DevParams(all, b, d) == DevParams(calls, b, d) +
            if c.name == INI_DEV_PARAM && BusChanges(all) == b + 1 && DevChanges(all) == d + 1 && I2cSet(calls, b)
            then 1 else 0)
  {
    hide BusChanges, DevChanges;
    assert (calls + [c])[..|calls|] == calls;
  }

  /** A caller can see from the entries whether a block will be dropped: none is, if and only if no
      bus and no device has more than one parameter behind its bus type. */
  lemma {:induction false} OneParameterLosesNothing(u: Builder, calls: seq<Call>)
    requires FreshTable(u.conf) && u == Builder(u.conf, "", -1, -1) && AllLegal(u, calls)
    ensures NeverOverwrites(u, calls) <==> OneParameterEach(calls)
    ensures Stored(Feed(Handle, calls, u).conf, calls)
    decreases |calls|
  {
    hide Handle, Update, Overwritten, BusParams, DevParams, I2cSet, BusChanges, DevChanges, Feed, AllLegal, Legal;
    hide Stored, FreshTable;
    if calls == [] {
      NoParameters(u);
    } else {
      var n := |calls| - 1;
      var front, c := calls[..n], calls[n];
      assert calls == front + [c];
      FeedSnoc(Handle, front, c, u);
      LegalSnoc(front, c, u);
      NeverSnoc(u, front, c);
      OneParameterLosesNothing(u, front);
      FreshIsInitial(u);
      Counters(u, calls);
      var mid := Feed(Handle, front, u);
      HandleEffect(mid, c);
      StoredNext(mid, Update(mid, c.section), front, c);
      OneMore(mid, front, c);
    }
  }

  lemma {:induction false} FreshIsInitial(u: Builder)
    requires FreshTable(u.conf) && u == Builder(u.conf, "", -1, -1)
    ensures Initial(u)
  {
  }

  lemma {:induction false} NoParameters(u: Builder)
    requires FreshTable(u.conf)
    ensures NeverOverwrites(u, []) && OneParameterEach([])
    ensures Stored(Feed(Handle, [], u).conf, [])
  {
    assert forall b :: 0 <= b < MAX_BUSSES ==> IsEmptyBus(u.conf.busses[b]);
  }

  lemma {:induction false} OneMore(mid: Builder, front: seq<Call>, c: Call)
    requires Stored(mid.conf, front)
    requires var v := Update(mid, c.section);
      Legal(v, c.name) && v.busId == BusChanges(front + [c]) - 1 && v.devId == DevChanges(front + [c]) - 1
    ensures OneParameterEach(front + [c]) <==>
      OneParameterEach(front) && Overwritten(Update(mid, c.section), c.name) == {}
  {
    hide Handle, Overwritten, BusChanges, DevChanges, Changed, BusParams, DevParams, I2cSet;
    var v := Update(mid, c.section);
    Drops(v, c.name);
    EntryNames();
    ParamsSnoc(front, c);
    assert v.conf.busses == mid.conf.busses;
  }
}
