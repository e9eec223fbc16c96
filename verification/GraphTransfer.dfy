/** The two programs that work on the memory in place: one flattens the graph behind a root pointer
    into a new block, the other one loads a block and looks the ledger up. The addresses that malloc
    returns are parameters. */
module GraphTransfer {
  import opened Bytes
  import opened AddressSpace
  import opened PointerGraph

  /** Size and address of a block. */
  datatype FeedBack = FeedBack(size: nat, address: nat)

  function PointerAt(mem: array<byte>, at: nat): (p: uint64)
    requires at + 8 <= mem.Length <= 0x1_0000_0000_0000_0000
    reads mem
    ensures p == Pointer(mem[..], at)
  {
    Read64(BytesAt(mem, at, 8))
  }

  method Memcpy(mem: array<byte>, dst: nat, src: nat, n: nat)
    requires mem.Length <= 0x1_0000_0000_0000_0000
    requires src + n <= mem.Length && dst + n <= mem.Length
    modifies mem
    ensures mem[..] == Copied(old(mem[..]), dst, Area(src, n))
  {
    Store(mem, dst, BytesAt(mem, src, n));
  }

  method Store(mem: array<byte>, at: nat, s: seq<byte>)
    requires at + |s| <= mem.Length <= 0x1_0000_0000_0000_0000
    modifies mem
    ensures mem[..] == Splice(old(mem[..]), at, s)
  {
    ghost var before := mem[..];
    CopyInto(mem, at, s);
    assert mem[..] == mem[..at + |s|] + mem[at + |s|..];
    assert mem[at + |s|..] == before[at + |s|..];
  }

  /** Copies what the pointer in a slot leads to, and changes the pointer to the copy. */
  method Move(mem: array<byte>, slot: nat, copy: nat, size: nat)
    requires slot + 8 <= mem.Length <= 0x1_0000_0000_0000_0000
    requires Pointer(mem[..], slot) + size <= mem.Length && copy + size <= mem.Length && 0 < size
    modifies mem
    ensures mem[..] == Moved(old(mem[..]), slot, copy, size)
  {
    Memcpy(mem, copy, PointerAt(mem, slot), size);
    Store(mem, slot, U64(copy));
  }

  /** One structure is moved; its pointer is looked up from the root. */
  method MoveStructure(mem: array<byte>, fasptr: nat, base: nat, s: Structure)
    requires mem.Length <= 0x1_0000_0000_0000_0000
    requires s != Root && CanStep(mem[..], fasptr, base, s)
    modifies mem
    ensures mem[..] == Step(old(mem[..]), fasptr, base, s)
  {
    var holder := fasptr;
    if s == Owner {
      holder := PointerAt(mem, fasptr + ACCOUNT_PTR);
    }
    assert holder + RefOffset(s) == Slot(mem[..], fasptr, s);
    Move(mem, holder + RefOffset(s), InBlock(base).Of(s), Size(s));
  }

  lemma CodeOrderHeads()
    ensures CODE_ORDER == [Ledger] + [Owner, Account, Root]
    ensures [Owner, Account, Root] == [Owner] + [Account, Root] && [Account, Root] == [Account] + [Root]
    ensures [Root] == [Root] + []
  {
  }

  lemma RunHead(m: Memory, fas: nat, base: nat, s: Structure, rest: seq<Structure>)
    requires CanRun(m, fas, base, [s] + rest)
    ensures CanStep(m, fas, base, s) && CanRun(Step(m, fas, base, s), fas, base, rest)
    ensures Flattened(Step(m, fas, base, s), fas, base, rest) == Flattened(m, fas, base, [s] + rest)
  {
    assert ([s] + rest)[1..] == rest;
  }

  /** The copies and pointer changes, from the last structure to the first one. */
  method Flatten(mem: array<byte>, fasptr: nat, base: nat)
    requires mem.Length <= 0x1_0000_0000_0000_0000
    requires CanRun(mem[..], fasptr, base, CODE_ORDER)
    modifies mem
    ensures mem[..] == Flattened(old(mem[..]), fasptr, base, CODE_ORDER)
  {
    CodeOrderHeads();
    RunHead(mem[..], fasptr, base, Ledger, [Owner, Account, Root]);
    MoveStructure(mem, fasptr, base, Ledger);
    RunHead(mem[..], fasptr, base, Owner, [Account, Root]);
    MoveStructure(mem, fasptr, base, Owner);
    RunHead(mem[..], fasptr, base, Account, [Root]);
    MoveStructure(mem, fasptr, base, Account);
    RunHead(mem[..], fasptr, base, Root, []);
    Memcpy(mem, base, fasptr, FAS_SIZE);
  }

  /** What the flattening comes to: a block of 128 bytes with all fields, whose three pointers stay inside. */
  lemma FlattenedBlock(m: Memory, p: Places, base: nat)
    requires Placed(m, p, base) && p.Linked(m)
    ensures CanRun(m, p.fas, base, CODE_ORDER)
    ensures var t := Flattened(m, p.fas, base, CODE_ORDER);
      && InBlock(base).In(t) && InBlock(base).Linked(t) && GraphAt(t, InBlock(base)) == GraphAt(m, p)
      && BlockAt(t, base, GraphAt(m, p), base) && FieldsInBlock(m, p, t, base)
  {
    DeepCopyIsBlock(m, p, base);
    DeepCopy(m, p, base);
    FieldsOfGraph(m, p, Flattened(m, p.fas, base, CODE_ORDER), base);
  }

  lemma BlockPointers(t: Memory, base: nat, g: Graph)
    requires BlockAt(t, base, g, base)
    ensures base + 128 <= |t|
    ensures Pointer(t, base + 32) == base + 48 && Pointer(t, base + 40) == base + 112
    ensures Pointer(t, base + 64) == base + 72
  {
  }

  /** The graph in the block is the graph that was there, linked in itself. */
  method CompressData(mem: array<byte>, fasptr: nat, appliedArea: nat, ghost p: Places) returns (results: FeedBack)
    requires mem.Length <= 0x1_0000_0000_0000_0000
    requires Placed(mem[..], p, appliedArea) && p.fas == fasptr && p.Linked(mem[..])
    modifies mem
    ensures results == FeedBack(128, appliedArea)
    ensures CanRun(old(mem[..]), fasptr, appliedArea, CODE_ORDER)
    ensures mem[..] == Flattened(old(mem[..]), fasptr, appliedArea, CODE_ORDER)
    ensures InBlock(appliedArea).In(mem[..]) && InBlock(appliedArea).Linked(mem[..])
    ensures BlockAt(mem[..], appliedArea, old(GraphAt(mem[..], p)), appliedArea)
    ensures FieldsInBlock(old(mem[..]), p, mem[..], appliedArea)
    ensures Pointer(mem[..], appliedArea + 32) == appliedArea + 48
    ensures Pointer(mem[..], appliedArea + 40) == appliedArea + 112
    ensures Pointer(mem[..], appliedArea + 64) == appliedArea + 72
  {
    ghost var g := GraphAt(mem[..], p);
    FlattenedBlock(mem[..], p, appliedArea);
    Flatten(mem, fasptr, appliedArea);
    BlockPointers(mem[..], appliedArea, g);
    results := FeedBack(BLOCK_SIZE, appliedArea);
  }

  lemma LoadedBytes(m: Memory, bin: nat, at: nat)
    requires bin + WIRE_HEADER + BLOCK_SIZE <= |m| && at + BLOCK_SIZE <= |m|
    ensures bin + 144 <= |m| && at + 128 <= |m|
    ensures Loaded(m, bin, at)[at..at + 128] == m[bin + 16..bin + 144]
    ensures BytesOf(Loaded(m, bin, at), Area(at + LEDGER_AT, LEDGER_SIZE)) == Loaded(m, bin, at)[at + 112..at + 128]
  {
    CopiedBytes(m, at, Area(bin + WIRE_HEADER, BLOCK_SIZE), Area(at, 0));
  }

  /** Copies the block to its new address and reads the ledger twice: at its fixed offset, and where
      the distance of the root's ledger pointer from the original address puts it. The size in front
      is read but not used. */
  method LoadBinData(mem: array<byte>, binptr: nat, dataAddress: nat)
    returns (info: FeedBack, ledger1: array<byte>, ledger2: array<byte>)
    requires mem.Length <= 0x1_0000_0000_0000_0000
    requires binptr + WIRE_HEADER + BLOCK_SIZE <= mem.Length && dataAddress + BLOCK_SIZE <= mem.Length
    requires var oldLedger := Pointer(Loaded(mem[..], binptr, dataAddress), dataAddress + LEDGER_PTR);
      var found := Relocate(oldLedger, Pointer(mem[..], binptr + 8), dataAddress);
      0 <= found && found + LEDGER_SIZE <= mem.Length
    modifies mem
    ensures mem[..] == Loaded(old(mem[..]), binptr, dataAddress)
    ensures info == FeedBack(BLOCK_SIZE, dataAddress)
    ensures mem[dataAddress..dataAddress + 128] == old(mem[binptr + 16..binptr + 144])
    ensures info.size == 128 && ledger1[..] == mem[dataAddress + 112..dataAddress + 128]
    ensures var oldLedger := Pointer(mem[..], dataAddress + LEDGER_PTR);
      var found := Relocate(oldLedger, old(Pointer(mem[..], binptr + 8)), dataAddress);
      0 <= found && found + LEDGER_SIZE <= mem.Length && ledger2[..] == BytesOf(mem[..], Area(found, LEDGER_SIZE))
  {
    ghost var before := mem[..];
    var offset := PointerAt(mem, binptr + 8);
    Memcpy(mem, dataAddress, binptr + WIRE_HEADER, BLOCK_SIZE);
    LoadedBytes(before, binptr, dataAddress);
    info := FeedBack(BLOCK_SIZE, dataAddress);
    ledger1 := LedgerByOffset(mem, dataAddress);
    ledger2 := LedgerByPointer(mem, dataAddress, offset);
  }

  method LedgerByOffset(mem: array<byte>, dataAddress: nat) returns (ledger: array<byte>)
    requires dataAddress + BLOCK_SIZE <= mem.Length <= 0x1_0000_0000_0000_0000
    ensures fresh(ledger) && ledger[..] == BytesOf(mem[..], Area(dataAddress + LEDGER_AT, LEDGER_SIZE))
  {
    ledger := CopyOut(mem, dataAddress + FAS_SIZE + ACCOUNT_SIZE + OWNER_SIZE, LEDGER_SIZE);
  }

  /** The original address of the ledger is taken from a copy of the root; its distance from the
      original address of the block is its distance from the new one. */
  method LedgerByPointer(mem: array<byte>, dataAddress: nat, offset: uint64) returns (ledger: array<byte>)
    requires dataAddress + BLOCK_SIZE <= mem.Length <= 0x1_0000_0000_0000_0000
    requires var found := Relocate(Pointer(mem[..], dataAddress + LEDGER_PTR), offset, dataAddress);
      0 <= found && found + LEDGER_SIZE <= mem.Length
    ensures fresh(ledger)
    ensures var found := Relocate(Pointer(mem[..], dataAddress + LEDGER_PTR), offset, dataAddress);
      ledger[..] == BytesOf(mem[..], Area(found, LEDGER_SIZE))
  {
    var fas1 := CopyOut(mem, dataAddress, FAS_SIZE);
    var oldLedgerAddress: int := PointerAt(fas1, LEDGER_PTR);
    EqualParts(fas1[..], Area(0, FAS_SIZE), mem[..], Area(dataAddress, FAS_SIZE), LEDGER_PTR, 8);
    var newLedgerAddress := dataAddress + (oldLedgerAddress - offset);
    ledger := CopyOut(mem, newLedgerAddress, LEDGER_SIZE);
  }

  /** Allocates a structure of its own and copies it out of the memory. */
  method CopyOut(mem: array<byte>, at: nat, n: nat) returns (copy: array<byte>)
    requires at + n <= mem.Length <= 0x1_0000_0000_0000_0000
    ensures fresh(copy) && copy.Length == n && copy[..] == BytesOf(mem[..], Area(at, n))
  {
    copy := new byte[n];
    CopyInto(copy, 0, BytesAt(mem, at, n));
  }

  // ----- from one process to another

  /** The wire as the loader reads it: size, original address, block. */
  function Wire(base: uint64, block: seq<byte>): (s: seq<byte>)
    ensures |s| == WIRE_HEADER + |block|
  {
    U64(BLOCK_SIZE) + U64(base) + block
  }

  lemma WireLayout(base: uint64, block: seq<byte>)
    ensures var wire := Wire(base, block);
      wire[..8] == U64(128) && wire[8..16] == U64(base) && wire[16..] == block
  {
  }

  lemma WrittenWire(n: Memory, bin: nat, base: uint64, m: Memory, g: Graph)
    requires base + BLOCK_SIZE <= |m| && BlockAt(m, base, g, base)
    requires bin + WIRE_HEADER + BLOCK_SIZE <= |n|
    ensures WireAt(Splice(n, bin, Wire(base, BytesOf(m, Area(base, BLOCK_SIZE)))), bin, g, base)
  {
    var block := BytesOf(m, Area(base, BLOCK_SIZE));
    var wire := Wire(base, block);
    var t := Splice(n, bin, wire);
    SpliceInside(n, bin, wire);
    WireLayout(base, block);
    EqualParts(t, Area(bin, |wire|), wire, Area(0, |wire|), 8, 8);
    EqualParts(t, Area(bin, |wire|), wire, Area(0, |wire|), 16, BLOCK_SIZE);
    Read64OfU64(base);
    BlockCopied(m, base, t, bin + WIRE_HEADER, g, base);
  }

  /** The block with its address, as it arrives in the memory of another process. */
  method SendBlock(mem: array<byte>, base: nat, other: array<byte>, binptr: nat, ghost g: Graph)
    requires mem.Length <= 0x1_0000_0000_0000_0000 && other.Length <= 0x1_0000_0000_0000_0000 && mem != other
    requires base + BLOCK_SIZE <= mem.Length && binptr + WIRE_HEADER + BLOCK_SIZE <= other.Length
    requires BlockAt(mem[..], base, g, base)
    modifies other
    ensures WireAt(other[..], binptr, g, base)
    ensures other[binptr..binptr + 144] == Wire(base, mem[base..base + 128])
  {
    ghost var before, wire := other[..], Wire(base, BytesAt(mem, base, BLOCK_SIZE));
    WrittenWire(before, binptr, base, mem[..], g);
    SpliceInside(before, binptr, wire);
    Store(other, binptr, Wire(base, BytesAt(mem, base, BLOCK_SIZE)));
  }

  /** The loader on a wire that carries the address the block was made at. */
  method ReceiveBlock(other: array<byte>, binptr: nat, dataAddress: nat, ghost g: Graph, ghost base: nat)
    returns (ledger1: array<byte>, ledger2: array<byte>)
    requires other.Length <= 0x1_0000_0000_0000_0000 && dataAddress + BLOCK_SIZE <= other.Length
    requires WireAt(other[..], binptr, g, base)
    modifies other
    ensures ledger1[..] == ledger2[..] == g.ledger
    ensures InBlock(dataAddress).In(other[..]) && GraphAt(other[..], InBlock(dataAddress)) == g
  {
    LoaderFindsLedger(other[..], binptr, dataAddress, g, base);
    PositionIndependence(other[..], binptr, dataAddress, g, base);
    var info;
    info, ledger1, ledger2 := LoadBinData(other, binptr, dataAddress);
  }

  lemma FieldsArrived(m: Memory, p: Places, t: Memory, at: nat, ledger1: array<byte>, ledger2: array<byte>)
    requires p.In(m) && InBlock(at).In(t) && GraphAt(t, InBlock(at)) == GraphAt(m, p)
    requires ledger1[..] == ledger2[..] == GraphAt(m, p).ledger
    ensures FieldsInBlock(m, p, t, at) && IsLedger(ledger1, m, p.ledger) && IsLedger(ledger2, m, p.ledger)
  {
    FieldsOfGraph(m, p, t, at);
    LedgerFields(m, p.ledger, ledger1);
    LedgerFields(m, p.ledger, ledger2);
  }

  method Ship(mem: array<byte>, fasptr: nat, appliedArea: nat, other: array<byte>, binptr: nat, dataAddress: nat,
              ghost p: Places)
    returns (ledger1: array<byte>, ledger2: array<byte>)
    requires mem.Length <= 0x1_0000_0000_0000_0000 && other.Length <= 0x1_0000_0000_0000_0000 && mem != other
    requires Placed(mem[..], p, appliedArea) && p.fas == fasptr && p.Linked(mem[..])
    requires binptr + WIRE_HEADER + BLOCK_SIZE <= other.Length && dataAddress + BLOCK_SIZE <= other.Length
    modifies mem, other
    ensures ledger1[..] == ledger2[..] == old(GraphAt(mem[..], p)).ledger
    ensures InBlock(dataAddress).In(other[..])
    ensures GraphAt(other[..], InBlock(dataAddress)) == old(GraphAt(mem[..], p))
  {
    ghost var g := GraphAt(mem[..], p);
    var results := CompressData(mem, fasptr, appliedArea, p);
    SendBlock(mem, results.address, other, binptr, g);
    ledger1, ledger2 := ReceiveBlock(other, binptr, dataAddress, g, appliedArea);
  }

  /** One process flattens its graph and sends the block with its address; another one, with a memory of
      its own, loads it anywhere. Both ways of looking the ledger up find the two fields of the first
      ledger, and all other fields arrive as well. */
  method Transfer(mem: array<byte>, fasptr: nat, appliedArea: nat, other: array<byte>, binptr: nat, dataAddress: nat,
                  ghost p: Places)
    returns (ledger1: array<byte>, ledger2: array<byte>)
    requires mem.Length <= 0x1_0000_0000_0000_0000 && other.Length <= 0x1_0000_0000_0000_0000 && mem != other
    requires Placed(mem[..], p, appliedArea) && p.fas == fasptr && p.Linked(mem[..])
    requires binptr + 144 <= other.Length && dataAddress + 128 <= other.Length
    modifies mem, other
    ensures IsLedger(ledger1, old(mem[..]), p.ledger) && IsLedger(ledger2, old(mem[..]), p.ledger)
    ensures FieldsInBlock(old(mem[..]), p, other[..], dataAddress)
  {
    ledger1, ledger2 := Ship(mem, fasptr, appliedArea, other, binptr, dataAddress, p);
    FieldsArrived(old(mem[..]), p, other[..], dataAddress, ledger1, ledger2);
  }

  /** A copy of the transaction_id and the amount that lie at an address. */
  predicate IsLedger(ledger: array<byte>, m: Memory, at: nat)
    reads ledger
  {
    && at + 16 <= |m| && ledger.Length == 16
    && ledger[0..8] == m[at..at + 8] && ledger[8..16] == m[at + 8..at + 16]
  }

  lemma LedgerFields(m: Memory, at: nat, ledger: array<byte>)
    requires at + 16 <= |m| && ledger[..] == m[at..at + 16]
    ensures IsLedger(ledger, m, at)
  {
    assert ledger[..][0..8] == m[at..at + 16][0..8] && ledger[..][8..16] == m[at..at + 16][8..16];
  }
}
