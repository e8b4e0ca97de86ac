/** The PiFace as a memory of eight cells. */
module PifaceMemory {
  import opened Bits
  import opened Chips
  import opened IoRequests
  import opened IoTable
  import opened Json
  import opened Options
  import opened Runs
  import opened Uri

  /** The lowest n bits of v, bit 0 first. */
  function BitsOf(v: nat, n: nat): (cells: seq<bool>)
    ensures |cells| == n
  {
    if n == 0 then [] else [v % 2 == 1] + BitsOf(v / 2, n - 1)
  }

  function Number(cells: seq<bool>): nat
  {
    if cells == [] then 0 else (if cells[0] then 1 else 0) + 2 * Number(cells[1..])
  }

  lemma {:induction false} BitsOfAt(v: nat, n: nat, k: nat)
    requires k < n
    ensures BitsOf(v, n)[k] == Bit(v, k)
    decreases n
  {
    hide Bit;
    BitStep(v, k);
    if k > 0 {
      BitsOfAt(v / 2, n - 1, k - 1);
    }
  }

  lemma {:induction false} NumberOfBits(v: nat, n: nat)
    requires v < Pow2(n)
    ensures Number(BitsOf(v, n)) == v
    decreases n
  {
    if n > 0 {
      NumberOfBits(v / 2, n - 1);
    }
  }

  lemma {:induction false} HighBitsClear(v: nat, n: nat, k: nat)
    requires v < Pow2(n) && k >= n
    ensures !Bit(v, k)
    decreases n
  {
    hide Bit;
    if n == 0 {
      BitOfZero(k);
    } else {
      BitStep(v, k);
      HighBitsClear(v / 2, n - 1, k - 1);
    }
  }

  /** The output latches of port A. */
  function Cells(s: Spi): seq<bool> {
    BitsOf(s.olatA, 8)
  }

  // ---- one request -----------------------------------------------------------------------------

  /** A request to the memory: the new cells, and the request with the value read. */
  function Access(cells: seq<bool>, data: Data, cmd: Command): (seq<bool>, Data)
    requires |cells| == 8 && Number(cells) < WORD && (cmd == CmdWrite ==> -1 <= data.sub < 31)
  {
    if cmd == CmdWrite then
      (if data.sub == IDX_INVALID then BitsOf(data.value, 8)
       else if data.sub < 8 then cells[data.sub := data.value != 0]
       else cells, data)
    else
      (cells, data.(value := if 0 <= data.sub < 8 then (if cells[data.sub] then 1 else 0)
                             else if 8 <= data.sub < 32 then 0
                             else Number(cells)))
  }

  lemma {:induction false} ReadDriven(s: Spi)
    requires Driving(s)
    ensures SpiFetch(s, GPIOA) == s.olatA == Number(Cells(s)) < 256
  {
    PinLevelsSpec(s.olatA, s.level(s.samples));
    Pow2Values();
    NumberOfBits(s.olatA, 8);
  }

  lemma {:induction false} WholeWrite(s: Spi, v: word)
    ensures Cells(SpiStore(s, GPIOA, Low(v))) == BitsOf(v, 8)
  {
    hide Bit;
    Pow2Values();
    forall k | 0 <= k < 8
      ensures BitsOf(Low(v), 8)[k] == BitsOf(v, 8)[k]
    {
      BitsOfAt(Low(v), 8, k);
      BitsOfAt(v, 8, k);
      LowBits(v, 8, k);
    }
  }

  lemma {:induction false} BitWrite(s: Spi, sub: nat, value: word)
    requires sub < 31
    ensures var v := Merge(s.olatA, sub, value);
      Cells(SpiStore(s, GPIOA, Low(v))) == if sub < 8 then Cells(s)[sub := value != 0] else Cells(s)
  {
    hide Bit, Merge;
    var v := Merge(s.olatA, sub, value);
    WholeWrite(s, v);
    forall k | 0 <= k < 8
      ensures BitsOf(v, 8)[k] == if k == sub then value != 0 else Cells(s)[k]
    {
      BitsOfAt(v, 8, k);
      BitsOfAt(s.olatA, 8, k);
      MergeAt(s.olatA, sub, value, k);
    }
  }

  lemma {:induction false} MergeAt(v: word, sub: nat, value: word, k: nat)
    requires sub < 31
    ensures Bit(Merge(v, sub, value), k) <==> if k == sub then value != 0 else Bit(v, k)
  {
    hide Bit;
    SetBit(v, sub, k);
    ClearBit(v, sub, k);
  }

  lemma {:induction false} BitRead(s: Spi, sub: nat)
    requires sub < 32
    ensures ShiftRight(s.olatA, sub) % 2 == if sub < 8 && Cells(s)[sub] then 1 else 0
  {
    Pow2Values();
    assert Bit(s.olatA, sub) <==> ShiftRight(s.olatA, sub) % 2 == 1;
    if sub < 8 {
      BitsOfAt(s.olatA, 8, sub);
    } else {
      HighBitsClear(s.olatA, 8, sub);
    }
  }

  /** Every request to a PiFace that drives its outputs is an access to the memory, and always
      succeeds. */
  lemma {:induction false} ServeIsAccess(loc: Local, data: Data, cmd: Command, reply: string)
    requires Driving(loc.spi) && (cmd == CmdWrite ==> -1 <= data.sub < 31)
    ensures var r := Serve(Piface, loc, data, cmd, reply);
      && Number(Cells(loc.spi)) < 256 && Driving(r.loc.spi)
      && (Cells(r.loc.spi), r.data) == Access(Cells(loc.spi), data, cmd)
      && r.reply == DataJson(r.data) && r.rc == EXIT_SUCCESS
  {
    hide BitsOf, Number, Merge, Bit, ShiftRight, PinLevels, DataJson, ErrorJson;
    ReadDriven(loc.spi);
    var spi' := loc.spi.(samples := loc.spi.samples + 1);
    if cmd == CmdWrite {
      if data.sub == IDX_INVALID {
        WholeWrite(loc.spi, data.value);
      } else {
        BitWrite(spi', data.sub, data.value);
      }
    } else if 0 <= data.sub < 32 {
      BitRead(loc.spi, data.sub);
    }
  }

  // ---- runs ----------------------------------------------------------------------------------------

  ghost predicate ToPiface(w: World, q: Request)
    requires Servable(w, q.data, q.cmd)
  {
    InTable(w, q.data) && q.cmd != CmdNone && DevAt(w, q.data.bus, q.data.dev).driver == Some(Piface)
  }

  lemma {:induction false} NumberBound(cells: seq<bool>)
    ensures Number(cells) < Pow2(|cells|)
  {
    if cells != [] {
      NumberBound(cells[1..]);
    }
  }

  /** The memory after the PiFace requests of a run, and the answers to them, in order. */
  ghost function Accesses(w: World, reqs: seq<Request>, cells: seq<bool>): (seq<bool>, seq<Answer>)
    requires AllServable(w, reqs) && |cells| == 8
    decreases |reqs|
  {
    if reqs == [] then (cells, [])
    else if !ToPiface(w, reqs[0]) then Accesses(w, reqs[1..], cells)
    else
      NumberBound(cells);
      Pow2Values();
      var (cells', data) := Access(cells, reqs[0].data, reqs[0].cmd);
      var (end, answers) := Accesses(w, reqs[1..], cells');
      (end, [Answer(data, DataJson(data), EXIT_SUCCESS)] + answers)
  }

  ghost function PifaceAnswers(w: World, reqs: seq<Request>, answers: seq<Answer>): seq<Answer>
    requires AllServable(w, reqs) && |reqs| == |answers|
  {
    if reqs == [] then []
    else if ToPiface(w, reqs[0]) then [answers[0]] + PifaceAnswers(w, reqs[1..], answers[1..])
    else PifaceAnswers(w, reqs[1..], answers[1..])
  }

  lemma {:induction false} PifaceStep(w: World, q: Request)
    requires Servable(w, q.data, q.cmd) && Driving(w.spi)
    ensures var p := Perform(w, q.data, q.cmd, "");
      if ToPiface(w, q) then
        && Number(Cells(w.spi)) < 256 && Driving(p.world.spi)
        && (Cells(p.world.spi), p.data) == Access(Cells(w.spi), q.data, q.cmd)
        && p.reply == DataJson(p.data) && p.rc == EXIT_SUCCESS
      else p.world.spi == w.spi
  {
    hide Serve, Access, Cells, DataJson, SlotAt, PutSlot;
    if ToPiface(w, q) {
      ServeIsAccess(LocalOf(w, q.data.bus, q.data.dev), q.data, q.cmd, "");
    }
  }

  lemma {:induction false} ToPifaceKept(v: World, w: World, q: Request)
    requires SameTable(v, w) && Servable(v, q.data, q.cmd) && Servable(w, q.data, q.cmd)
    ensures ToPiface(v, q) == ToPiface(w, q)
  {
    SameTableServable(v, w, q);
    if InTable(v, q.data) {
      assert SameBus(v.conf.busses[q.data.bus], w.conf.busses[q.data.bus]);
    }
  }

  /** Every run of requests, to whatever devices, refines the memory: the PiFace requests see and
      leave the cells as the memory says, and no other request touches them. */
  lemma {:induction false} RunIsMemory(w: World, v: World, reqs: seq<Request>)
    requires AllServable(w, reqs) && AllServable(v, reqs) && SameTable(v, w) && Driving(v.spi)
    ensures var (end, answers) := Run(v, reqs);
      && |answers| == |reqs| && Driving(end.spi)
      && (Cells(end.spi), PifaceAnswers(w, reqs, answers)) == Accesses(w, reqs, Cells(v.spi))
    decreases |reqs|
  {
    hide Perform, Access, Cells, Servable, SameTable, ToPiface, DataJson;
    RunLength(v, reqs);
    if reqs != [] {
      var q := reqs[0];
      var v1 := Perform(v, q.data, q.cmd, "").world;
      PerformKeepsTable(v, q, "");
      AllServableKept(v, v1, reqs[1..]);
      SameTableSymmetric(v, v1);
      SameTableTransitive(v1, v, w);
      PifaceStep(v, q);
      ToPifaceKept(v, w, q);
      CellsLength(v.spi);
      CellsLength(v1.spi);
      RunIsMemory(w, v1, reqs[1..]);
    }
  }

  lemma {:induction false} CellsLength(s: Spi)
    ensures |Cells(s)| == 8
  {
  }
}
