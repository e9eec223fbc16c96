/** Flattening a graph of four structures into one block of memory, and finding the structures again
    after the block has been loaded somewhere else. */
module PointerGraph {
  import opened Bytes
  import opened AddressSpace

  /** Sizes of the structures, padding included, and the offsets of their pointers. */
  const FAS_SIZE := 48
  const ACCOUNT_SIZE := 24
  const OWNER_SIZE := 40
  const LEDGER_SIZE := 16
  const BLOCK_SIZE := FAS_SIZE + ACCOUNT_SIZE + OWNER_SIZE + LEDGER_SIZE
  const ACCOUNT_PTR := 32
  const LEDGER_PTR := 40
  const OWNER_PTR := 16
  /** Offsets of the copies in the block. */
  const ACCOUNT_AT := FAS_SIZE
  const OWNER_AT := ACCOUNT_AT + ACCOUNT_SIZE
  const LEDGER_AT := OWNER_AT + OWNER_SIZE

  // ----- the graph

  datatype Structure = Root | Account | Owner | Ledger

  function Size(s: Structure): nat {
    match s
    case Root => FAS_SIZE
    case Account => ACCOUNT_SIZE
    case Owner => OWNER_SIZE
    case Ledger => LEDGER_SIZE
  }

  /** How much of a structure, from its start, is data; the rest of it is pointers. */
  function DataSize(s: Structure): nat {
    match s
    case Root => ACCOUNT_PTR
    case Account => OWNER_PTR
    case Owner => OWNER_SIZE
    case Ledger => LEDGER_SIZE
  }

  /** The structure with the pointer to s, and where the pointer is in it. The root has none. */
  function Holder(s: Structure): Structure {
    if s == Owner then Account else Root
  }

  function RefOffset(s: Structure): nat {
    match s
    case Root => 0
    case Account => ACCOUNT_PTR
    case Owner => OWNER_PTR
    case Ledger => LEDGER_PTR
  }

  /** Where the four structures are. */
  datatype Places = Places(fas: nat, account: nat, owner: nat, ledger: nat) {
    function Of(s: Structure): nat {
      match s
      case Root => fas
      case Account => account
      case Owner => owner
      case Ledger => ledger
    }

    function Whole(s: Structure): Area {
      Area(Of(s), Size(s))
    }

    function Data(s: Structure): Area {
      Area(Of(s), DataSize(s))
    }

    /** The pointer to s. */
    function Ref(s: Structure): Area {
      Area(Of(Holder(s)) + RefOffset(s), 8)
    }

    predicate In(m: Memory) {
      && Whole(Root).In(m) && Whole(Account).In(m) && Whole(Owner).In(m) && Whole(Ledger).In(m)
    }

    predicate Leads(m: Memory, s: Structure)
      requires In(m) && s != Root
    {
      Pointer(m, Ref(s).at) == Of(s)
    }

    predicate Linked(m: Memory)
      requires In(m)
    {
      Leads(m, Account) && Leads(m, Owner) && Leads(m, Ledger)
    }

    ghost predicate AllApart(a: Area) {
      forall x: Structure {:trigger Whole(x).Apart(a)} :: Whole(x).Apart(a)
    }

    /** Four different objects. */
    ghost predicate Disjoint() {
      forall x: Structure, y: Structure {:trigger Whole(x).Apart(Whole(y))} :: x != y ==> Whole(x).Apart(Whole(y))
    }
  }

  /** The data of the four structures, without the pointers. */
  datatype Graph = Graph(fas: seq<byte>, account: seq<byte>, owner: seq<byte>, ledger: seq<byte>) {
    function Of(s: Structure): seq<byte> {
      match s
      case Root => fas
      case Account => account
      case Owner => owner
      case Ledger => ledger
    }
  }

  function GraphAt(m: Memory, p: Places): Graph
    requires p.In(m)
  {
    Graph(BytesOf(m, p.Data(Root)), BytesOf(m, p.Data(Account)), BytesOf(m, p.Data(Owner)), BytesOf(m, p.Data(Ledger)))
  }

  /** The structures in a block that starts at base. */
  function InBlock(base: nat): Places {
    Places(base, base + ACCOUNT_AT, base + OWNER_AT, base + LEDGER_AT)
  }

  /** The named fields of the structures. */
  datatype Field = OrderId | DateStamp | AccountId | Balance | Name | Identity | TransactionId | Amount

  function StructureOf(f: Field): Structure {
    match f
    case OrderId => Root
    case DateStamp => Root
    case AccountId => Account
    case Balance => Account
    case Name => Owner
    case Identity => Owner
    case TransactionId => Ledger
    case Amount => Ledger
  }

  /** Offset in the structure, offset in the block, size. */
  function Layout(f: Field): (nat, nat, nat) {
    match f
    case OrderId => (0, 0, 8)
    case DateStamp => (8, 8, 20)
    case AccountId => (0, 48, 4)
    case Balance => (8, 56, 8)
    case Name => (0, 72, 20)
    case Identity => (20, 92, 20)
    case TransactionId => (0, 112, 8)
    case Amount => (8, 120, 8)
  }

  /** A field of the graph at p is found in a block of 128 bytes. */
  predicate FieldInBlock(m: Memory, p: Places, t: Memory, at: nat, f: Field) {
    var (inStructure, inBlock, size) := Layout(f);
    && p.Of(StructureOf(f)) + inStructure + size <= |m| && at + 128 <= |t|
    && t[at + inBlock..at + inBlock + size]
       == m[p.Of(StructureOf(f)) + inStructure..p.Of(StructureOf(f)) + inStructure + size]
  }

  ghost predicate FieldsInBlock(m: Memory, p: Places, t: Memory, at: nat) {
    forall f: Field :: FieldInBlock(m, p, t, at, f)
  }

  lemma FieldsOfGraph(m: Memory, p: Places, t: Memory, at: nat)
    requires p.In(m) && InBlock(at).In(t) && GraphAt(t, InBlock(at)) == GraphAt(m, p)
    ensures FieldsInBlock(m, p, t, at)
  {
    forall f: Field
      ensures FieldInBlock(m, p, t, at, f)
    {
      FieldOfGraph(m, p, t, at, f);
    }
  }

  lemma DataOfGraph(m: Memory, p: Places, t: Memory, q: Places, s: Structure)
    requires p.In(m) && q.In(t) && GraphAt(t, q) == GraphAt(m, p)
    ensures q.Data(s).In(t) && p.Data(s).In(m) && BytesOf(t, q.Data(s)) == BytesOf(m, p.Data(s))
  {
  }

  lemma FieldOfGraph(m: Memory, p: Places, t: Memory, at: nat, f: Field)
    requires p.In(m) && InBlock(at).In(t) && GraphAt(t, InBlock(at)) == GraphAt(m, p)
    ensures FieldInBlock(m, p, t, at, f)
  {
    var s, q := StructureOf(f), InBlock(at);
    var (offset, inBlock, size) := Layout(f);
    DataOfGraph(m, p, t, q, s);
    EqualParts(t, q.Data(s), m, p.Data(s), offset, size);
    assert q.Data(s).at + offset == at + inBlock;
  }

  /** Four different objects and a newly allocated block. */
  ghost predicate Placed(m: Memory, p: Places, base: nat) {
    p.In(m) && p.Disjoint() && base + BLOCK_SIZE <= |m| && p.AllApart(Area(base, BLOCK_SIZE))
  }

  /** The originals or the copies. */
  function Side(p: Places, base: nat, inBlock: bool): Places {
    if inBlock then InBlock(base) else p
  }

  /** The eight structures lie apart. */
  lemma StructuresApart(m: Memory, p: Places, base: nat, b: bool, x: Structure, c: bool, y: Structure)
    requires Placed(m, p, base) && (b, x) != (c, y)
    ensures Side(p, base, b).Whole(x).Apart(Side(p, base, c).Whole(y))
    ensures Side(p, base, b).Whole(x).In(m)
  {
    if b != c {
      var o, i := if b then y else x, if b then x else y;
      PartsApart(p.Whole(o), Area(base, BLOCK_SIZE), p.Whole(o), InBlock(base).Whole(i));
    }
  }

  /** Data and pointers of the eight structures lie apart. */
  lemma DataApartFromRef(m: Memory, p: Places, base: nat, b: bool, x: Structure, c: bool, y: Structure)
    requires Placed(m, p, base) && y != Root
    ensures Side(p, base, b).Data(x).Apart(Side(p, base, c).Ref(y))
  {
    var q, r := Side(p, base, b), Side(p, base, c);
    if (b, x) != (c, Holder(y)) {
      StructuresApart(m, p, base, b, x, c, Holder(y));
      PartsApart(q.Whole(x), r.Whole(Holder(y)), q.Data(x), r.Ref(y));
    }
  }

  lemma RefsApart(m: Memory, p: Places, base: nat, b: bool, x: Structure, c: bool, y: Structure)
    requires Placed(m, p, base) && x != Root && y != Root && (b, x) != (c, y)
    ensures Side(p, base, b).Ref(x).Apart(Side(p, base, c).Ref(y))
  {
    var q, r := Side(p, base, b), Side(p, base, c);
    if (b, Holder(x)) != (c, Holder(y)) {
      StructuresApart(m, p, base, b, Holder(x), c, Holder(y));
      PartsApart(q.Whole(Holder(x)), r.Whole(Holder(y)), q.Ref(x), r.Ref(y));
    }
  }

  // ----- flattening, in any order

  /** Where the pointer to a structure is at this moment, found from the root. */
  function Slot(m: Memory, fas: nat, s: Structure): nat
    requires fas + FAS_SIZE <= |m|
  {
    (if s == Owner then Pointer(m, fas + ACCOUNT_PTR) else fas) + RefOffset(s)
  }

  predicate CanStep(m: Memory, fas: nat, base: nat, s: Structure) {
    && fas + FAS_SIZE <= |m| && base + BLOCK_SIZE <= |m|
    && (s != Root ==> Slot(m, fas, s) + 8 <= |m| && Pointer(m, Slot(m, fas, s)) + Size(s) <= |m|)
  }

  /** One structure is copied to its place in the block and, except for the root, the pointer that led
      to it is changed to the copy. */
  function Step(m: Memory, fas: nat, base: nat, s: Structure): (t: Memory)
    requires CanStep(m, fas, base, s)
    ensures |t| == |m|
  {
    if s == Root then Copied(m, base, Area(fas, FAS_SIZE))
    else Moved(m, Slot(m, fas, s), InBlock(base).Of(s), Size(s))
  }

  predicate CanRun(m: Memory, fas: nat, base: nat, order: seq<Structure>)
    decreases |order|
  {
    order == [] || (CanStep(m, fas, base, order[0]) && CanRun(Step(m, fas, base, order[0]), fas, base, order[1..]))
  }

  /** The steps one after the other, each following the pointers as they then are. */
  function Flattened(m: Memory, fas: nat, base: nat, order: seq<Structure>): (t: Memory)
    requires CanRun(m, fas, base, order)
    ensures |t| == |m|
    decreases |order|
  {
    if order == [] then m else Flattened(Step(m, fas, base, order[0]), fas, base, order[1..])
  }

  // ----- what has happened after some of the steps

  /** The steps done so far, and what was already done when the owner's and the root's turn came. */
  datatype Marks = Marks(root: bool, account: bool, owner: bool, ledger: bool,
                         ownerFirst: bool, rootAfterAccount: bool, rootAfterLedger: bool) {
    predicate All() {
      root && account && owner && ledger
    }
  }

  function Marked(k: Marks, s: Structure): bool {
    match s
    case Root => k.root
    case Account => k.account
    case Owner => k.owner
    case Ledger => k.ledger
  }

  function Mark(k: Marks, s: Structure): Marks {
    match s
    case Root => k.(root := true, rootAfterAccount := k.account, rootAfterLedger := k.ledger)
    case Account => k.(account := true)
    case Owner => k.(owner := true, ownerFirst := !k.account)
    case Ledger => k.(ledger := true)
  }

  function MarkAll(k: Marks, order: seq<Structure>): Marks
    decreases |order|
  {
    if order == [] then k else MarkAll(Mark(k, order[0]), order[1..])
  }

  const NOTHING := Marks(false, false, false, false, false, false, false)

  /** Where the pointer to x in the originals, or in the copies, leads. */
  function Target(p: Places, base: nat, k: Marks, inBlock: bool, x: Structure): nat {
    var changed := match x
      case Root => false
      case Account => if inBlock then k.rootAfterAccount else k.account
      case Owner => if inBlock then k.owner else k.ownerFirst
      case Ledger => if inBlock then k.rootAfterLedger else k.ledger;
    Side(p, base, changed).Of(x)
  }

  /** The data of the originals never changes, their pointers do; the copies made so far have the same
      data. The pointer to the owner is changed where the root leads to at that time, in the original
      account or in its copy. */
  ghost predicate Progress(m: Memory, g: Graph, p: Places, base: nat, k: Marks) {
    && Placed(m, p, base)
    && (forall b, x :: !b || Marked(k, x) ==> DataIs(m, p, base, b, x, g.Of(x)))
    && (forall b, x :: x != Root && (!b || Marked(k, Holder(x))) ==> RefIs(m, p, base, b, x, Target(p, base, k, b, x)))
    && (k.ownerFirst ==> k.owner) && (k.owner && !k.account ==> k.ownerFirst)
  }

  predicate DataIs(m: Memory, p: Places, base: nat, inBlock: bool, x: Structure, data: seq<byte>) {
    var a := Side(p, base, inBlock).Data(x);
    a.In(m) && BytesOf(m, a) == data
  }

  predicate RefIs(m: Memory, p: Places, base: nat, inBlock: bool, x: Structure, target: nat) {
    var a := Side(p, base, inBlock).Ref(x);
    a.In(m) && Pointer(m, a.at) == target
  }

  /** The pointer that the next step follows, in the original account or in its copy for the owner,
      still leads to the original. */
  ghost predicate Follows(m: Memory, p: Places, base: nat, s: Structure, inBlock: bool) {
    && Placed(m, p, base) && CanStep(m, p.fas, base, s) && (inBlock ==> s == Owner)
    && (s != Root ==> Slot(m, p.fas, s) == Side(p, base, inBlock).Ref(s).at && Pointer(m, Slot(m, p.fas, s)) == p.Of(s))
  }

  lemma StepFollows(m: Memory, g: Graph, p: Places, base: nat, k: Marks, s: Structure)
    requires Progress(m, g, p, base, k) && !Marked(k, s)
    ensures Follows(m, p, base, s, s == Owner && k.account)
  {
    if s != Root {
      assert RefIs(m, p, base, false, s, Target(p, base, k, false, s));
      if s == Owner {
        assert RefIs(m, p, base, false, Account, Target(p, base, k, false, Account));
        if k.account {
          assert RefIs(m, p, base, true, s, Target(p, base, k, true, s));
        }
      }
    }
  }

  /** What a step does to any area: the copy gets the bytes of the original, the slot the address of
      the copy, everything else stays. */
  lemma StepBytes(m: Memory, p: Places, base: nat, s: Structure, c: bool, a: Area)
    requires Follows(m, p, base, s, c) && a.In(m)
    ensures var t, copy := Step(m, p.fas, base, s), InBlock(base).Whole(s);
      && copy.In(t) && p.Whole(s).In(m) && BytesOf(t, copy) == BytesOf(m, p.Whole(s))
      && (s != Root ==> Pointer(t, Side(p, base, c).Ref(s).at) == copy.at)
      && (a.Apart(copy) && (s != Root ==> a.Apart(Side(p, base, c).Ref(s))) ==> BytesOf(t, a) == BytesOf(m, a))
  {
    var copy, r := InBlock(base).Whole(s), Side(p, base, c).Ref(s);
    if s == Root {
      CopiedBytes(m, base, p.Whole(Root), a);
    } else {
      StructuresApart(m, p, base, c, Holder(s), true, s);
      MovedBytes(m, r.at, copy.at, copy.size, a);
    }
  }

  /** The copy has the parts of the original. */
  lemma StepCopies(m: Memory, p: Places, base: nat, s: Structure, c: bool, offset: nat, n: nat)
    requires Follows(m, p, base, s, c) && offset + n <= Size(s)
    ensures var copy, original := InBlock(base).Whole(s), p.Whole(s);
      BytesOf(Step(m, p.fas, base, s), Area(copy.at + offset, n)) == BytesOf(m, Area(original.at + offset, n))
  {
    var t, copy, original := Step(m, p.fas, base, s), InBlock(base).Whole(s), p.Whole(s);
    StepBytes(m, p, base, s, c, original);
    EqualParts(t, copy, m, original, offset, n);
  }

  /** A part of another structure stays, unless it is the pointer that the step changes. */
  lemma StepKeeps(m: Memory, p: Places, base: nat, s: Structure, c: bool, b: bool, y: Structure, a: Area)
    requires Follows(m, p, base, s, c)
    requires (b, y) != (true, s) && a.Inside(Side(p, base, b).Whole(y))
    requires s != Root ==> a.Apart(Side(p, base, c).Ref(s))
    ensures a.In(m) && BytesOf(Step(m, p.fas, base, s), a) == BytesOf(m, a)
  {
    StructuresApart(m, p, base, b, y, true, s);
    PartsApart(Side(p, base, b).Whole(y), InBlock(base).Whole(s), a, InBlock(base).Whole(s));
    StepBytes(m, p, base, s, c, a);
  }

  lemma StepCopiesData(m: Memory, p: Places, base: nat, s: Structure, c: bool, data: seq<byte>)
    requires Follows(m, p, base, s, c) && DataIs(m, p, base, false, s, data)
    ensures DataIs(Step(m, p.fas, base, s), p, base, true, s, data)
  {
    assert Area(InBlock(base).Of(s) + 0, DataSize(s)) == InBlock(base).Data(s);
    assert Area(p.Of(s) + 0, DataSize(s)) == p.Data(s);
    StepCopies(m, p, base, s, c, 0, DataSize(s));
  }

  lemma StepKeepsData(m: Memory, p: Places, base: nat, s: Structure, c: bool, b: bool, x: Structure, data: seq<byte>)
    requires Follows(m, p, base, s, c) && (b, x) != (true, s) && DataIs(m, p, base, b, x, data)
    ensures DataIs(Step(m, p.fas, base, s), p, base, b, x, data)
  {
    if s != Root {
      DataApartFromRef(m, p, base, b, x, c, s);
    }
    StepKeeps(m, p, base, s, c, b, x, Side(p, base, b).Data(x));
  }

  lemma StepChangesRef(m: Memory, p: Places, base: nat, s: Structure, c: bool)
    requires Follows(m, p, base, s, c) && s != Root
    ensures RefIs(Step(m, p.fas, base, s), p, base, c, s, InBlock(base).Of(s))
  {
    StepBytes(m, p, base, s, c, p.Whole(s));
  }

  lemma StepCopiesRef(m: Memory, p: Places, base: nat, s: Structure, c: bool, x: Structure, target: nat)
    requires Follows(m, p, base, s, c) && x != Root && Holder(x) == s && RefIs(m, p, base, false, x, target)
    ensures RefIs(Step(m, p.fas, base, s), p, base, true, x, target)
  {
    StepCopies(m, p, base, s, c, RefOffset(x), 8);
  }

  lemma StepKeepsRef(m: Memory, p: Places, base: nat, s: Structure, c: bool, b: bool, x: Structure, target: nat)
    requires Follows(m, p, base, s, c) && x != Root && (b, x) != (c, s) && (b, Holder(x)) != (true, s)
    requires RefIs(m, p, base, b, x, target)
    ensures RefIs(Step(m, p.fas, base, s), p, base, b, x, target)
  {
    if s != Root {
      RefsApart(m, p, base, b, x, c, s);
    }
    StepKeeps(m, p, base, s, c, b, Holder(x), Side(p, base, b).Ref(x));
  }

  /** What a step means for where the pointers lead. */
  lemma MarkTarget(p: Places, base: nat, k: Marks, s: Structure, b: bool, x: Structure)
    requires !Marked(k, s) && (k.ownerFirst ==> k.owner) && (k.owner && !k.account ==> k.ownerFirst)
    requires x != Root && (!b || Marked(Mark(k, s), Holder(x)))
    ensures Target(p, base, Mark(k, s), b, x) ==
      if x == s && b == (s == Owner && k.account) then InBlock(base).Of(s)
      else Target(p, base, k, b && Holder(x) != s, x)
  {
  }

  lemma StepKeepsRefs(m: Memory, g: Graph, p: Places, base: nat, k: Marks, s: Structure, b: bool, x: Structure)
    requires Progress(m, g, p, base, k) && !Marked(k, s) && Follows(m, p, base, s, s == Owner && k.account)
    requires x != Root && (!b || Marked(Mark(k, s), Holder(x)))
    ensures RefIs(Step(m, p.fas, base, s), p, base, b, x, Target(p, base, Mark(k, s), b, x))
  {
    MarkTarget(p, base, k, s, b, x);
    var c := s == Owner && k.account;
    if (b, x) == (c, s) {
      StepChangesRef(m, p, base, s, c);
    } else if b && Holder(x) == s {
      assert RefIs(m, p, base, false, x, Target(p, base, k, false, x));
      StepCopiesRef(m, p, base, s, c, x, Target(p, base, k, false, x));
    } else {
      assert RefIs(m, p, base, b, x, Target(p, base, k, b, x));
      StepKeepsRef(m, p, base, s, c, b, x, Target(p, base, k, b, x));
    }
  }

  lemma StepProgress(m: Memory, g: Graph, p: Places, base: nat, k: Marks, s: Structure)
    requires Progress(m, g, p, base, k) && !Marked(k, s)
    ensures CanStep(m, p.fas, base, s)
    ensures Progress(Step(m, p.fas, base, s), g, p, base, Mark(k, s))
  {
    StepFollows(m, g, p, base, k, s);
    var t, k', c := Step(m, p.fas, base, s), Mark(k, s), s == Owner && k.account;
    forall b, x | !b || Marked(k', x)
      ensures DataIs(t, p, base, b, x, g.Of(x))
    {
      if b && x == s {
        assert DataIs(m, p, base, false, x, g.Of(x));
        StepCopiesData(m, p, base, s, c, g.Of(x));
      } else {
        assert DataIs(m, p, base, b, x, g.Of(x));
        StepKeepsData(m, p, base, s, c, b, x, g.Of(x));
      }
    }
    forall b, x | x != Root && (!b || Marked(k', Holder(x)))
      ensures RefIs(t, p, base, b, x, Target(p, base, k', b, x))
    {
      StepKeepsRefs(m, g, p, base, k, s, b, x);
    }
  }

  /** Every order of steps that have not been done yet can be run. */
  lemma {:induction false} RunProgress(m: Memory, g: Graph, p: Places, base: nat, k: Marks, order: seq<Structure>)
    requires Progress(m, g, p, base, k)
    requires Distinct(order) && forall s :: s in order ==> !Marked(k, s)
    ensures CanRun(m, p.fas, base, order)
    ensures Progress(Flattened(m, p.fas, base, order), g, p, base, MarkAll(k, order))
    decreases |order|
  {
    if order != [] {
      StepProgress(m, g, p, base, k, order[0]);
      Uncons(order);
      RunProgress(Step(m, p.fas, base, order[0]), g, p, base, Mark(k, order[0]), order[1..]);
    }
  }

  // ----- all orders

  predicate Distinct(order: seq<Structure>) {
    forall i, j :: 0 <= i < j < |order| ==> order[i] != order[j]
  }

  /** An order of all four steps. */
  ghost predicate EachOnce(order: seq<Structure>) {
    Distinct(order) && forall s: Structure :: s in order
  }

  function Position(order: seq<Structure>, s: Structure): nat {
    if order == [] || order[0] == s then 0 else 1 + Position(order[1..], s)
  }

  /** x comes before y. */
  predicate Before(order: seq<Structure>, x: Structure, y: Structure) {
    Position(order, x) < Position(order, y)
  }

  lemma Uncons(order: seq<Structure>)
    requires order != []
    ensures forall s :: s in order <==> s == order[0] || s in order[1..]
    ensures Distinct(order) ==> Distinct(order[1..]) && order[0] !in order[1..]
  {
    assert order == [order[0]] + order[1..];
  }

  lemma {:induction false} AllMarked(k: Marks, order: seq<Structure>, s: Structure)
    ensures Marked(MarkAll(k, order), s) <==> Marked(k, s) || s in order
    decreases |order|
  {
    if order != [] {
      AllMarked(Mark(k, order[0]), order[1..], s);
      assert Marked(Mark(k, order[0]), s) <==> Marked(k, s) || s == order[0];
      Uncons(order);
    }
  }

  lemma {:induction false} OwnerMark(k: Marks, order: seq<Structure>)
    requires Distinct(order)
    ensures MarkAll(k, order).ownerFirst
            == (if Owner in order then !k.account && !Before(order, Account, Owner) else k.ownerFirst)
    decreases |order|
  {
    if order != [] {
      OwnerMark(Mark(k, order[0]), order[1..]);
      Uncons(order);
    }
  }

  lemma {:induction false} RootAfterAccountMark(k: Marks, order: seq<Structure>)
    requires Distinct(order)
    ensures MarkAll(k, order).rootAfterAccount
            == (if Root in order then k.account || Before(order, Account, Root) else k.rootAfterAccount)
    decreases |order|
  {
    if order != [] {
      RootAfterAccountMark(Mark(k, order[0]), order[1..]);
      Uncons(order);
    }
  }

  lemma {:induction false} RootAfterLedgerMark(k: Marks, order: seq<Structure>)
    requires Distinct(order)
    ensures MarkAll(k, order).rootAfterLedger
            == (if Root in order then k.ledger || Before(order, Ledger, Root) else k.rootAfterLedger)
    decreases |order|
  {
    if order != [] {
      RootAfterLedgerMark(Mark(k, order[0]), order[1..]);
      Uncons(order);
    }
  }

  lemma {:induction false} PositionIn(order: seq<Structure>, s: Structure)
    requires s in order
    ensures Position(order, s) < |order| && order[Position(order, s)] == s
  {
    if order[0] != s {
      PositionIn(order[1..], s);
    }
  }

  lemma OneOfTwoFirst(order: seq<Structure>, x: Structure, y: Structure)
    requires EachOnce(order) && x != y
    ensures Before(order, x, y) <==> !Before(order, y, x)
  {
    PositionIn(order, x);
    PositionIn(order, y);
  }

  lemma Beginning(m: Memory, p: Places, base: nat)
    requires Placed(m, p, base) && p.Linked(m)
    ensures Progress(m, GraphAt(m, p), p, base, NOTHING)
  {
    forall x: Structure
      ensures DataIs(m, p, base, false, x, GraphAt(m, p).Of(x))
    {
    }
    forall x: Structure | x != Root
      ensures RefIs(m, p, base, false, x, p.Of(x))
    {
      assert p.Leads(m, x);
    }
  }

  lemma EndingData(t: Memory, g: Graph, p: Places, base: nat, k: Marks, b: bool)
    requires Progress(t, g, p, base, k) && k.All()
    ensures Side(p, base, b).In(t) && GraphAt(t, Side(p, base, b)) == g
  {
    assert DataIs(t, p, base, b, Root, g.Of(Root)) && DataIs(t, p, base, b, Account, g.Of(Account));
    assert DataIs(t, p, base, b, Owner, g.Of(Owner)) && DataIs(t, p, base, b, Ledger, g.Of(Ledger));
  }

  lemma EndingRef(t: Memory, g: Graph, p: Places, base: nat, k: Marks, b: bool, x: Structure)
    requires Progress(t, g, p, base, k) && k.All() && x != Root
    ensures var a := Side(p, base, b).Ref(x); a.In(t) && Pointer(t, a.at) == Target(p, base, k, b, x)
  {
    assert Marked(k, Holder(x));
    assert RefIs(t, p, base, b, x, Target(p, base, k, b, x));
  }

  /** The copies are elsewhere than the originals. */
  lemma CopiesAreElsewhere(m: Memory, p: Places, base: nat)
    requires Placed(m, p, base)
    ensures var q := InBlock(base); p.account != q.account && p.owner != q.owner && p.ledger != q.ledger
  {
    StructuresApart(m, p, base, false, Account, true, Account);
    StructuresApart(m, p, base, false, Owner, true, Owner);
    StructuresApart(m, p, base, false, Ledger, true, Ledger);
  }

  /** The memory after the four steps in any order. */
  lemma Ending(m: Memory, p: Places, base: nat, order: seq<Structure>) returns (k: Marks)
    requires Placed(m, p, base) && p.Linked(m) && EachOnce(order)
    ensures CanRun(m, p.fas, base, order) && Progress(Flattened(m, p.fas, base, order), GraphAt(m, p), p, base, k)
    ensures k.All() && k.ownerFirst == Before(order, Owner, Account)
    ensures k.rootAfterAccount == Before(order, Account, Root) && k.rootAfterLedger == Before(order, Ledger, Root)
  {
    k := MarkAll(NOTHING, order);
    Beginning(m, p, base);
    RunProgress(m, GraphAt(m, p), p, base, NOTHING, order);
    AllMarked(NOTHING, order, Root);
    AllMarked(NOTHING, order, Account);
    AllMarked(NOTHING, order, Owner);
    AllMarked(NOTHING, order, Ledger);
    OwnerMark(NOTHING, order);
    RootAfterAccountMark(NOTHING, order);
    RootAfterLedgerMark(NOTHING, order);
    OneOfTwoFirst(order, Owner, Account);
  }

  /** The block, when all steps are done. */
  lemma BlockAtEnd(t: Memory, g: Graph, p: Places, base: nat, k: Marks)
    requires Progress(t, g, p, base, k) && k.All()
    ensures var q := InBlock(base);
      q.In(t) && q.Leads(t, Owner) && (q.Linked(t) <==> k.rootAfterAccount && k.rootAfterLedger)
  {
    EndingRef(t, g, p, base, k, true, Account);
    EndingRef(t, g, p, base, k, true, Ledger);
    EndingRef(t, g, p, base, k, true, Owner);
    CopiesAreElsewhere(t, p, base);
  }

  /** The originals, when all steps are done: from the old root one gets into the block. */
  lemma OriginalsAtEnd(t: Memory, g: Graph, p: Places, base: nat, k: Marks)
    requires Progress(t, g, p, base, k) && k.All()
    ensures var q := InBlock(base).(fas := p.fas);
      q.In(t) && q.Linked(t) && p.In(t) && (p.Leads(t, Owner) <==> !k.ownerFirst)
  {
    EndingRef(t, g, p, base, k, false, Account);
    EndingRef(t, g, p, base, k, false, Ledger);
    EndingRef(t, g, p, base, k, false, Owner);
    EndingRef(t, g, p, base, k, true, Owner);
    CopiesAreElsewhere(t, p, base);
  }

  /** The four steps in any order, each following the pointers as they are at that moment. All data is
      copied, and from the old root the pointers lead to the copies. The block itself is linked exactly
      when the root is copied after the account and the ledger have been; the owner's place in the order
      only decides whether the pointer of the old account changes. */
  lemma AnyOrder(m: Memory, p: Places, base: nat, order: seq<Structure>)
    requires Placed(m, p, base) && p.Linked(m) && EachOnce(order)
    ensures CanRun(m, p.fas, base, order)
    ensures var t, q := Flattened(m, p.fas, base, order), InBlock(base);
      && q.In(t) && p.In(t) && GraphAt(t, q) == GraphAt(m, p) == GraphAt(t, p)
      && (q.Linked(t) <==> Before(order, Account, Root) && Before(order, Ledger, Root))
      && q.(fas := p.fas).In(t) && q.(fas := p.fas).Linked(t)
      && q.Leads(t, Owner) && (p.Leads(t, Owner) <==> !Before(order, Owner, Account))
  {
    var k := Ending(m, p, base, order);
    var t, g := Flattened(m, p.fas, base, order), GraphAt(m, p);
    EndingData(t, g, p, base, k, true);
    EndingData(t, g, p, base, k, false);
    BlockAtEnd(t, g, p, base, k);
    OriginalsAtEnd(t, g, p, base, k);
  }

  /** Nothing changes apart from the block and the three pointers of the originals. */
  lemma {:induction false} Elsewhere(m: Memory, g: Graph, p: Places, base: nat, k: Marks, order: seq<Structure>,
                                     a: Area)
    requires Progress(m, g, p, base, k)
    requires Distinct(order) && forall s :: s in order ==> !Marked(k, s)
    requires a.In(m) && a.Apart(Area(base, BLOCK_SIZE))
    requires a.Apart(p.Ref(Account)) && a.Apart(p.Ref(Owner)) && a.Apart(p.Ref(Ledger))
    ensures CanRun(m, p.fas, base, order) && BytesOf(Flattened(m, p.fas, base, order), a) == BytesOf(m, a)
    decreases |order|
  {
    if order != [] {
      var s := order[0];
      StepProgress(m, g, p, base, k, s);
      StepElsewhere(m, g, p, base, k, s, a);
      Uncons(order);
      Elsewhere(Step(m, p.fas, base, s), g, p, base, Mark(k, s), order[1..], a);
    }
  }

  lemma StepElsewhere(m: Memory, g: Graph, p: Places, base: nat, k: Marks, s: Structure, a: Area)
    requires Progress(m, g, p, base, k) && !Marked(k, s)
    requires a.In(m) && a.Apart(Area(base, BLOCK_SIZE))
    requires a.Apart(p.Ref(Account)) && a.Apart(p.Ref(Owner)) && a.Apart(p.Ref(Ledger))
    ensures CanStep(m, p.fas, base, s) && BytesOf(Step(m, p.fas, base, s), a) == BytesOf(m, a)
  {
    StepFollows(m, g, p, base, k, s);
    StepBytes(m, p, base, s, s == Owner && k.account, a);
    PartsApart(a, Area(base, BLOCK_SIZE), a, InBlock(base).Whole(s));
    if s != Root {
      PartsApart(a, Area(base, BLOCK_SIZE), a, InBlock(base).Ref(s));
    }
  }

  // ----- the order of the code

  const CODE_ORDER := [Ledger, Owner, Account, Root]

  lemma CodeOrder()
    ensures EachOnce(CODE_ORDER)
    ensures Before(CODE_ORDER, Account, Root) && Before(CODE_ORDER, Ledger, Root) && Before(CODE_ORDER, Owner, Account)
  {
    forall s: Structure
      ensures s in CODE_ORDER
    {
      match s
      case Root => assert CODE_ORDER[3] == s;
      case Account => assert CODE_ORDER[2] == s;
      case Owner => assert CODE_ORDER[1] == s;
      case Ledger => assert CODE_ORDER[0] == s;
    }
  }

  /** At `at` lies a block that was made for the address base: the data of g, and pointers that are as
      far from base as their targets are from the start of the block. */
  predicate BlockAt(m: Memory, at: nat, g: Graph, base: nat) {
    var q, r := InBlock(at), InBlock(base);
    && q.In(m) && GraphAt(m, q) == g
    && Pointer(m, q.Ref(Account).at) == r.account
    && Pointer(m, q.Ref(Owner).at) == r.owner
    && Pointer(m, q.Ref(Ledger).at) == r.ledger
  }

  /** The deep copy: the block holds the graph and is linked in itself; the source is changed only in
      its three pointers, which lead into the block. */
  lemma DeepCopy(m: Memory, p: Places, base: nat)
    requires Placed(m, p, base) && p.Linked(m)
    ensures CanRun(m, p.fas, base, CODE_ORDER)
    ensures var t, q := Flattened(m, p.fas, base, CODE_ORDER), InBlock(base);
      && q.In(t) && q.Linked(t) && GraphAt(t, q) == GraphAt(m, p)
      && p.In(t) && GraphAt(t, p) == GraphAt(m, p) && !p.Leads(t, Owner)
      && q.(fas := p.fas).In(t) && q.(fas := p.fas).Linked(t)
  {
    CodeOrder();
    AnyOrder(m, p, base, CODE_ORDER);
  }

  lemma DeepCopyIsBlock(m: Memory, p: Places, base: nat)
    requires Placed(m, p, base) && p.Linked(m)
    ensures CanRun(m, p.fas, base, CODE_ORDER)
    ensures BlockAt(Flattened(m, p.fas, base, CODE_ORDER), base, GraphAt(m, p), base)
  {
    DeepCopy(m, p, base);
    var t := Flattened(m, p.fas, base, CODE_ORDER);
    assert InBlock(base).Leads(t, Account) && InBlock(base).Leads(t, Owner) && InBlock(base).Leads(t, Ledger);
  }

  /** A block may be copied as it is. */
  lemma BlockCopied(m: Memory, a: nat, n: Memory, b: nat, g: Graph, base: nat)
    requires a + BLOCK_SIZE <= |m| && b + BLOCK_SIZE <= |n|
    requires BytesOf(m, Area(a, BLOCK_SIZE)) == BytesOf(n, Area(b, BLOCK_SIZE)) && BlockAt(m, a, g, base)
    ensures BlockAt(n, b, g, base)
  {
    var x, y := Area(a, BLOCK_SIZE), Area(b, BLOCK_SIZE);
    EqualParts(m, x, n, y, 0, ACCOUNT_PTR);
    EqualParts(m, x, n, y, ACCOUNT_PTR, 8);
    EqualParts(m, x, n, y, LEDGER_PTR, 8);
    EqualParts(m, x, n, y, ACCOUNT_AT, OWNER_PTR);
    EqualParts(m, x, n, y, ACCOUNT_AT + OWNER_PTR, 8);
    EqualParts(m, x, n, y, OWNER_AT, OWNER_SIZE);
    EqualParts(m, x, n, y, LEDGER_AT, LEDGER_SIZE);
  }

  // ----- loading

  /** What the loader expects at its argument: a size, the address the block was made at, and the
      block. */
  const WIRE_HEADER := 16

  predicate WireAt(m: Memory, bin: nat, g: Graph, base: nat) {
    && bin + WIRE_HEADER + BLOCK_SIZE <= |m|
    && Pointer(m, bin + 8) == base && BlockAt(m, bin + WIRE_HEADER, g, base)
  }

  /** The copy of the block at its new place. */
  function Loaded(m: Memory, bin: nat, at: nat): (t: Memory)
    requires bin + WIRE_HEADER + BLOCK_SIZE <= |m| && at + BLOCK_SIZE <= |m|
    ensures |t| == |m|
  {
    Copied(m, at, Area(bin + WIRE_HEADER, BLOCK_SIZE))
  }

  lemma LoadedBlock(m: Memory, bin: nat, at: nat, g: Graph, base: nat)
    requires bin + WIRE_HEADER + BLOCK_SIZE <= |m| && at + BLOCK_SIZE <= |m|
    requires BlockAt(m, bin + WIRE_HEADER, g, base)
    ensures BlockAt(Loaded(m, bin, at), at, g, base)
  {
    CopiedBytes(m, at, Area(bin + WIRE_HEADER, BLOCK_SIZE), Area(at, 0));
    BlockCopied(m, bin + WIRE_HEADER, Loaded(m, bin, at), at, g, base);
  }

  /** The new address of what a pointer of the block meant, by pointer difference. */
  function Relocate(ptr: uint64, original: uint64, at: nat): int {
    at + (ptr - original)
  }

  /** The places of the structures as the pointers of the loaded block give them. */
  ghost predicate RelocatedPlaces(m: Memory, at: nat, original: uint64, p: Places) {
    && p.In(m) && p.fas == at
    && p.account == Relocate(Pointer(m, p.Ref(Account).at), original, at)
    && p.ledger == Relocate(Pointer(m, p.Ref(Ledger).at), original, at)
    && p.owner == Relocate(Pointer(m, p.Ref(Owner).at), original, at)
  }

  /** Position independence: wherever the graph was flattened and wherever the block is loaded, the
      pointers, taken relative to the original address, lead to the same places as the fixed
      offsets, and to the data of the graph that was flattened. */
  lemma PositionIndependence(n: Memory, bin: nat, at: nat, g: Graph, base: nat)
    requires WireAt(n, bin, g, base) && at + BLOCK_SIZE <= |n|
    ensures var t := Loaded(n, bin, at);
      && InBlock(at).In(t) && GraphAt(t, InBlock(at)) == g
      && RelocatedPlaces(t, at, Pointer(n, bin + 8), InBlock(at))
  {
    LoadedBlock(n, bin, at, g, base);
  }

  /** The two lookups of the ledger agree exactly when the wire tells the address the block was made
      at; otherwise the difference lookup is off by the distance of the two addresses. */
  lemma LookupsAgreeIffBaseIsTold(n: Memory, bin: nat, at: nat, g: Graph, base: nat)
    requires bin + WIRE_HEADER + BLOCK_SIZE <= |n| && at + BLOCK_SIZE <= |n|
    requires BlockAt(n, bin + WIRE_HEADER, g, base)
    ensures var t, told := Loaded(n, bin, at), Pointer(n, bin + 8);
      var found := Relocate(Pointer(t, at + LEDGER_PTR), told, at);
      && found == at + LEDGER_AT + (base - told)
      && (found == at + LEDGER_AT <==> told == base)
  {
    LoadedBlock(n, bin, at, g, base);
  }

  /** The loader's two lookups of the ledger, by fixed offset and by pointer difference, read the
      ledger that was flattened. */
  lemma LoaderFindsLedger(n: Memory, bin: nat, at: nat, g: Graph, base: nat)
    requires WireAt(n, bin, g, base) && at + BLOCK_SIZE <= |n|
    ensures var t := Loaded(n, bin, at);
      var found := Relocate(Pointer(t, at + LEDGER_PTR), Pointer(n, bin + 8), at);
      && found == at + LEDGER_AT && found + LEDGER_SIZE <= |t|
      && BytesOf(t, Area(found, LEDGER_SIZE)) == g.ledger
  {
    LoadedBlock(n, bin, at, g, base);
  }
}
