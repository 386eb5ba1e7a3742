/**
 The genlock chip behind its SPI port.  Registers are addressed by page and register, and
 the driver remembers which page it last selected.  Bytes written to the port wait in a
 queue that the chip takes at its own pace; operations can time out half way.
 */
module GenlockSpi {
  import opened Basics

  const SET_ADDR_CMD: byte := 0x00
  const WRITE_CMD: byte := 0x40
  const READ_CMD: byte := 0x80
  const PAGE_REGISTER: byte := 0x01
  const NO_PAGE: byte := 0xff
  const SPI_TIMEOUT := 10000

  // ----- the chip -----

  datatype Mode = Idle | SetAddr | Write | Read

  datatype Chip = Chip(mode: Mode, latch: byte, page: byte, mem: map<int, byte>)

  function Address(page: byte, reg: byte): int {
    page * 256 + reg
  }

  /** The page an operation works on, when `cached` is the page remembered: the mark for an
      unknown page is never selected while no page is remembered. */
  function Landing(cached: byte, chipPage: byte, page: byte): byte {
    if page == NO_PAGE == cached then chipPage else page
  }

  function LandsAt(cached: byte, chipPage: byte, addr: int): int
    requires 0 <= addr < 0x10000
  {
    Address(Landing(cached, chipPage, addr / 256), addr % 256)
  }

  /** The chip takes one byte: a command, or the argument of the last one. */
  function Take(c: Chip, b: byte): Chip {
    match c.mode
    case Idle =>
      c.(mode := if b == SET_ADDR_CMD then SetAddr else if b == WRITE_CMD then Write
          else if b == READ_CMD then Read else Idle)
    case SetAddr => c.(mode := Idle, latch := b)
    case Write =>
      if c.latch == PAGE_REGISTER then c.(mode := Idle, page := b)
      else c.(mode := Idle, mem := c.mem[Address(c.page, c.latch) := b])
    case Read => c.(mode := Idle)
  }

  /** What the chip clocks out while it takes a byte. */
  function Reply(c: Chip): byte {
    if c.mode == Read && Address(c.page, c.latch) in c.mem then c.mem[Address(c.page, c.latch)] else 0
  }

  function TakeAll(c: Chip, bs: seq<byte>): Chip
    decreases |bs|
  {
    if bs == [] then c else TakeAll(Take(c, bs[0]), bs[1..])
  }

  function Replies(c: Chip, bs: seq<byte>): seq<byte>
    decreases |bs|
  {
    if bs == [] then [] else [Reply(c)] + Replies(Take(c, bs[0]), bs[1..])
  }

  lemma {:induction false} TakeAllAppends(c: Chip, xs: seq<byte>, ys: seq<byte>)
    ensures TakeAll(c, xs + ys) == TakeAll(TakeAll(c, xs), ys)
    ensures Replies(c, xs + ys) == Replies(c, xs) + Replies(TakeAll(c, xs), ys)
    decreases |xs|
  {
    if xs == [] {
      assert xs + ys == ys;
    } else {
      assert (xs + ys)[1..] == xs[1..] + ys;
      TakeAllAppends(Take(c, xs[0]), xs[1..], ys);
    }
  }

  lemma {:induction false} RepliesLength(c: Chip, bs: seq<byte>)
    ensures |Replies(c, bs)| == |bs|
    decreases |bs|
  {
    if bs != [] {
      RepliesLength(Take(c, bs[0]), bs[1..]);
    }
  }

  /** The bytes that select a page, and that write or read a register of it. */
  function SelectPage(page: byte): seq<byte> {
    [SET_ADDR_CMD, PAGE_REGISTER, WRITE_CMD, page]
  }

  function WriteRegister(reg: byte, value: byte): seq<byte> {
    [SET_ADDR_CMD, reg, WRITE_CMD, value]
  }

  function ReadRegister(reg: byte): seq<byte> {
    [SET_ADDR_CMD, reg, READ_CMD, 0xff]
  }

  /** Byte for byte: 0x00 sets the register address, 0x40 writes, 0x80 reads, and the page is
      register 1. */
  lemma BytesSent(page: byte, reg: byte, value: byte)
    ensures SelectPage(page) == [0x00, 0x01, 0x40, page]
    ensures WriteRegister(reg, value) == [0x00, reg, 0x40, value]
    ensures |ReadRegister(reg)| == 4 && ReadRegister(reg)[..3] == [0x00, reg, 0x80]
  {
  }

  lemma TakesFour(c: Chip, w: byte, x: byte, y: byte, z: byte)
    ensures TakeAll(c, [w, x, y, z]) == Take(Take(Take(Take(c, w), x), y), z)
    ensures |Replies(c, [w, x, y, z])| == 4
    ensures Replies(c, [w, x, y, z])[3] == Reply(Take(Take(Take(c, w), x), y))
  {
    var c1 := Take(c, w);
    var c2 := Take(c1, x);
    var c3 := Take(c2, y);
    assert [w, x, y, z][1..] == [x, y, z] && [x, y, z][1..] == [y, z] && [y, z][1..] == [z] && [z][1..] == [];
    assert TakeAll(c3, [z]) == TakeAll(Take(c3, z), []) == Take(c3, z);
    assert TakeAll(c2, [y, z]) == TakeAll(c3, [z]);
    assert TakeAll(c1, [x, y, z]) == TakeAll(c2, [y, z]);
    assert Replies(c3, [z]) == [Reply(c3)] + Replies(Take(c3, z), []) == [Reply(c3)];
    assert Replies(c2, [y, z]) == [Reply(c2)] + Replies(c3, [z]);
    assert Replies(c1, [x, y, z]) == [Reply(c1)] + Replies(c2, [y, z]);
  }

  lemma SelectPageSelects(c: Chip, page: byte)
    requires c.mode == Idle
    ensures TakeAll(c, SelectPage(page)) == c.(page := page, latch := PAGE_REGISTER)
  {
    TakesFour(c, SET_ADDR_CMD, PAGE_REGISTER, WRITE_CMD, page);
  }

  lemma WriteRegisterWrites(c: Chip, reg: byte, value: byte)
    requires c.mode == Idle && reg != PAGE_REGISTER
    ensures TakeAll(c, WriteRegister(reg, value)) == c.(latch := reg, mem := c.mem[Address(c.page, reg) := value])
  {
    TakesFour(c, SET_ADDR_CMD, reg, WRITE_CMD, value);
  }

  lemma ReadRegisterReads(c: Chip, reg: byte)
    requires c.mode == Idle
    ensures TakeAll(c, ReadRegister(reg)) == c.(latch := reg)
    ensures |Replies(c, ReadRegister(reg))| == 4
    ensures Replies(c, ReadRegister(reg))[3] == Reply(c.(mode := Read, latch := reg))
  {
    TakesFour(c, SET_ADDR_CMD, reg, READ_CMD, 0xff);
  }

  // ----- the driver -----

  class Genlock {
    var pageAddress: byte          // the page the driver believes selected
    var chip: Chip
    var writeFifo: seq<byte>       // bytes the chip has yet to take
    var readFifo: seq<byte>

    /** The chip once it has taken all that was sent. */
    ghost function Settled(): Chip
      reads this
    {
      TakeAll(chip, writeFifo)
    }

    /** The remembered page is unknown or the one the chip will have selected. */
    ghost predicate Coherent()
      reads this
    {
      Settled().mode == Idle && (pageAddress == NO_PAGE || pageAddress == Settled().page)
    }

    method SpiReset()
      modifies this
      ensures Coherent() && pageAddress == NO_PAGE && writeFifo == []
      ensures chip == old(chip).(mode := Idle)
    {
      pageAddress := NO_PAGE;
      chip := chip.(mode := Idle);
      writeFifo, readFifo := [], [];
    }

    method SpiResetFifos()
      modifies this`writeFifo, this`readFifo
      ensures writeFifo == [] && readFifo == []
    {
      writeFifo, readFifo := [], [];
    }

    /** The chip takes any number of waiting bytes between two looks at the status. */
    method ChipRuns()
      modifies this`chip, this`writeFifo, this`readFifo
      ensures Settled() == old(Settled())
      ensures readFifo + Replies(chip, writeFifo) == old(readFifo + Replies(chip, writeFifo))
      ensures |writeFifo| <= old(|writeFifo|)
    {
      var n: nat :| n <= |writeFifo|;
      var i := 0;
      while i < n
        invariant 0 <= i <= n && |writeFifo| == old(|writeFifo|) - i
        invariant Settled() == old(Settled())
        invariant readFifo + Replies(chip, writeFifo) == old(readFifo + Replies(chip, writeFifo))
      {
        readFifo := readFifo + [Reply(chip)];
        chip := Take(chip, writeFifo[0]);
        writeFifo := writeFifo[1..];
        i := i + 1;
      }
    }

    method SpiWaitWriteEmpty(monitorEnable: bool) returns (ok: bool)
      modifies this`chip, this`writeFifo, this`readFifo
      ensures Settled() == old(Settled())
      ensures readFifo + Replies(chip, writeFifo) == old(readFifo + Replies(chip, writeFifo))
      ensures ok <==> writeFifo == []
      ensures ok ==> chip == old(Settled())
    {
      var count := 0;
      ChipRuns();
      while writeFifo != []
        invariant 0 <= count <= SPI_TIMEOUT + 1
        invariant Settled() == old(Settled())
        invariant readFifo + Replies(chip, writeFifo) == old(readFifo + Replies(chip, writeFifo))
        decreases SPI_TIMEOUT + 1 - count
      {
        if count > SPI_TIMEOUT {
          return false;
        }
        count := count + 1;
        if !monitorEnable {
          return false;
        }
        ChipRuns();
      }
      return true;
    }

    method Send(bytes: seq<byte>)
      modifies this`writeFifo
      ensures writeFifo == old(writeFifo) + bytes
      ensures Settled() == TakeAll(old(Settled()), bytes)
      ensures Replies(chip, writeFifo) == old(Replies(chip, writeFifo)) + Replies(old(Settled()), bytes)
    {
      TakeAllAppends(chip, writeFifo, bytes);
      writeFifo := writeFifo + bytes;
    }

    /** Select the page unless it is the one remembered. */
    method UpdatePage(page: byte)
      requires Coherent()
      modifies this`writeFifo, this`pageAddress
      ensures Coherent() && pageAddress == page
      ensures Settled().page == Landing(old(pageAddress), old(Settled()).page, page)
      ensures Settled() == old(Settled()).(page := Settled().page, latch := Settled().latch)
      ensures writeFifo == old(writeFifo) || writeFifo == old(writeFifo) + SelectPage(page)
    {
      if page != pageAddress {
        SelectPageSelects(Settled(), page);
        Send(SelectPage(page));
        pageAddress := page;
      }
    }

    /** The register at the full sixteen-bit address is written, but for the page that cannot
        be selected; or, on a time-out, nothing at all. */
    method SpiGenlockWrite(addr: int, value: byte, monitorEnable: bool) returns (ok: bool)
      requires Coherent() && 0 <= addr < 0x10000 && addr % 256 != PAGE_REGISTER
      modifies this
      ensures Coherent()
      ensures ok ==> pageAddress == addr / 256
      ensures ok ==> Settled().mem == old(Settled()).mem[LandsAt(old(pageAddress), old(Settled()).page, addr) := value]
      ensures !ok ==> writeFifo != [] && Settled() == old(Settled()) && pageAddress == old(pageAddress)
    {
      var page: byte, reg: byte := addr / 256, addr % 256;
      ok := SpiWaitWriteEmpty(monitorEnable);
      if !ok {
        return;
      }
      SpiResetFifos();
      UpdatePage(page);
      WriteRegisterWrites(Settled(), reg, value);
      Send(WriteRegister(reg, value));
    }

    /** The register at the full address is read; nothing is written either way.  It fails only
        when bytes are left that the chip did not take in time. */
    method SpiGenlockRead(addr: int, monitorEnable: bool) returns (ok: bool, value: byte)
      requires Coherent() && 0 <= addr < 0x10000
      modifies this
      ensures Coherent() && Settled().mem == old(Settled()).mem
      ensures var at := LandsAt(old(pageAddress), old(Settled()).page, addr);
        ok && at in Settled().mem ==> value == Settled().mem[at]
      ensures !ok ==> writeFifo != []
    {
      var page: byte, reg: byte := addr / 256, addr % 256;
      value := 0;
      ok := SpiWaitWriteEmpty(monitorEnable);
      if !ok {
        return;
      }
      SpiResetFifos();
      UpdatePage(page);
      ok, value := Fetch(reg, monitorEnable);
    }

    /** Ask for a register of the page selected, and wait for the answer. */
    method Fetch(reg: byte, monitorEnable: bool) returns (ok: bool, value: byte)
      requires Coherent() && |writeFifo| <= 4 && readFifo == []
      modifies this
      ensures pageAddress == old(pageAddress) && Settled() == old(Settled()).(latch := reg)
      ensures ok ==> value == Reply(old(Settled()).(mode := Read, latch := reg))
      ensures !ok ==> writeFifo != []
    {
      value := 0;
      ReadRegisterReads(Settled(), reg);
      Send(ReadRegister(reg));
      ghost var all := Replies(chip, writeFifo);
      RepliesLength(chip, writeFifo);
      ok := SpiWaitWriteEmpty(monitorEnable);
      if !ok {
        return;
      }
      assert readFifo == readFifo + [] == all;
      value := readFifo[0];
      readFifo := readFifo[1..];
      ok, value := DrainReads(value);
    }

    /** Read on until the queue is empty; the last byte counts. */
    method DrainReads(first: byte) returns (ok: bool, value: byte)
      modifies this`readFifo
      ensures ok ==> value == if old(readFifo) == [] then first else old(readFifo)[|old(readFifo)| - 1]
      ensures |old(readFifo)| <= 51 ==> ok
    {
      value := first;
      var count := 0;
      while readFifo != []
        invariant if readFifo ==
          [] then value == (if old(readFifo) == [] then first else old(readFifo)[|old(readFifo)| - 1])
                  else old(readFifo) != [] && readFifo[|readFifo| - 1] == old(readFifo)[|old(readFifo)| - 1]
        invariant count + |readFifo| == |old(readFifo)|
        decreases |readFifo|
      {
        value := readFifo[0];
        readFifo := readFifo[1..];
        if count > 50 {
          return false, value;
        }
        count := count + 1;
      }
      ok := true;
    }

    /** configure_genlock: a table of register writes, ended by (0, 0); (0, 1) is a pause.
        When it succeeds the chip's registers are the table applied in order, each entry at
        its full address; when it fails they are some of the table applied. */
    method ConfigureGenlock(config: seq<Entry>, check: bool, monitorEnable: bool) returns (ok: bool)
      requires Ended(config) && forall e :: e in config ==> Addressable(e)
      modifies this
      ensures Coherent()
      ensures ok ==> Settled().mem == Applied(old(chip).mem, Entries(config))
      ensures !ok ==> writeFifo != []
      ensures !ok ==>
        exists k :: 0 <= k <= |Entries(config)| && Settled().mem == Applied(old(chip).mem, Entries(config)[..k])
    {
      ok := WriteTable(config, monitorEnable);
      if !ok || !check {
        return;
      }
      assert Entries(config)[..|Entries(config)|] == Entries(config);
      var i, errors := 0, 0;
      while config[i] != Entry(0, 0)
        invariant 0 <= i <= |Entries(config)|
        invariant Coherent() && Settled().mem == Applied(old(chip).mem, Entries(config))
        decreases |config| - i
      {
        EntryAt(config, i);
        assert config[i] in config && Addressable(config[i]);
        if config[i].addr != 0 {
          var data: byte;
          ok, data := SpiGenlockRead(config[i].addr % 0x10000, monitorEnable);
          if !ok {
            return;
          }
          if data != config[i].data % 256 {
            errors := errors + 1;
          }
        }
        i := i + 1;
      }
      ok := true;
    }

    method WriteTable(config: seq<Entry>, monitorEnable: bool) returns (ok: bool)
      requires Ended(config) && forall e :: e in config ==> Addressable(e)
      modifies this
      ensures Coherent()
      ensures ok ==> Settled().mem == Applied(old(chip).mem, Entries(config))
      ensures !ok ==> writeFifo != []
      ensures !ok ==>
        exists k :: 0 <= k <= |Entries(config)| && Settled().mem == Applied(old(chip).mem, Entries(config)[..k])
    {
      SpiReset();
      assert Settled() == chip;
      ghost var table := Entries(config);
      var i := 0;
      while config[i] != Entry(0, 0)
        invariant 0 <= i <= |table| < |config|
        invariant Coherent() && Settled().mem == Applied(old(chip).mem, table[..i])
        decreases |config| - i
      {
        EntryAt(config, i);
        assert config[i] in config && Addressable(config[i]);
        AppliedNext(old(chip).mem, table, i);
        if config[i].addr != 0 || config[i].data != 1 {
          ok := SpiGenlockWrite(config[i].addr % 0x10000, config[i].data % 256, monitorEnable);
          if !ok {
            return;
          }
        }
        i := i + 1;
      }
      EntriesEnd(config, i);
      assert table[..i] == table;
      ok := true;
    }
  }

  // ----- the table -----

  datatype Entry = Entry(addr: nat, data: nat)

  predicate Ended(config: seq<Entry>) {
    Entry(0, 0) in config
  }

  /** The entry names a register this page mechanism can reach. */
  predicate Addressable(e: Entry) {
    (e.addr % 0x10000) / 256 != NO_PAGE && (e.addr % 0x10000) % 256 != PAGE_REGISTER
  }

  /** The entries before the end mark. */
  function Entries(config: seq<Entry>): (r: seq<Entry>)
    requires Ended(config)
    ensures |r| < |config|
    decreases |config|
  {
    if config[0] == Entry(0, 0) then [] else [config[0]] + Entries(config[1..])
  }

  /** The registers after the entries are written one after the other. */
  function Applied(mem: map<int, byte>, entries: seq<Entry>): map<int, byte>
    decreases |entries|
  {
    if entries == [] then mem
    else
      var before := Applied(mem, entries[..|entries| - 1]);
      var e := entries[|entries| - 1];
      if e == Entry(0, 1) then before else before[e.addr % 0x10000 := e.data % 256]
  }

  lemma AppliedNext(mem: map<int, byte>, entries: seq<Entry>, i: nat)
    requires i < |entries|
    ensures Applied(mem, entries[..i + 1]) ==
      var before := Applied(mem, entries[..i]);
      if entries[i] == Entry(0, 1) then before else before[entries[i].addr % 0x10000 := entries[i].data % 256]
  {
    assert entries[..i + 1][..i] == entries[..i];
  }

  lemma {:induction false} EntryAt(config: seq<Entry>, i: nat)
    requires Ended(config) && i <= |Entries(config)| < |config| && config[i] != Entry(0, 0)
    ensures i < |Entries(config)| && Entries(config)[i] == config[i]
    decreases i
  {
    if i > 0 {
      EntryAt(config[1..], i - 1);
    }
  }

  lemma {:induction false} EntriesEnd(config: seq<Entry>, i: nat)
    requires Ended(config) && i <= |Entries(config)| < |config| && config[i] == Entry(0, 0)
    ensures i == |Entries(config)|
    decreases i
  {
    if i > 0 && config[0] != Entry(0, 0) {
      EntriesEnd(config[1..], i - 1);
    }
  }

  /** The last entry for an address is the one that stands. */
  lemma {:induction false} LastEntryStands(mem: map<int, byte>, entries: seq<Entry>, i: nat)
    requires i < |entries| && entries[i] != Entry(0, 1)
    requires forall j :: i < j < |entries| && entries[j] != Entry(0, 1) ==>
      entries[j].addr % 0x10000 != entries[i].addr % 0x10000
    ensures var m := Applied(mem, entries);
      entries[i].addr % 0x10000 in m && m[entries[i].addr % 0x10000] == entries[i].data % 256
    decreases |entries|
  {
    if i < |entries| - 1 {
      LastEntryStands(mem, entries[..|entries| - 1], i);
    }
  }

  // ----- the page that cannot be selected -----

  /** A read or write goes to the address asked for exactly when its page is not 0xff, or some
      page is remembered, or the chip happens to be on page 0xff: just after a reset a
      write to 0xff10 goes to 0x0010 of a chip on page 0. */
  lemma UnselectablePageIff(cached: byte, chipPage: byte, addr: int)
    requires 0 <= addr < 0x10000
    ensures LandsAt(cached, chipPage, addr) == addr <==>
      addr / 256 != NO_PAGE || cached != NO_PAGE || chipPage == NO_PAGE
    ensures LandsAt(NO_PAGE, 0, 0xff10) == 0x0010
  {
    assert addr == addr / 256 * 256 + addr % 256;
  }
}
