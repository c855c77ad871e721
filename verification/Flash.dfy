/**
  The two-page settings store of src/flash.c: two NOR pages kept in one flash partition.

  Erasing sets every bit of a page, writing can only clear bits. `Cells` is the content of
  the partition, `Pages` the two independent pages the store is meant to provide.
 */
module Flash {
  import opened Platform

  const PAGE_NUM: nat := 2
  const PAGE_SIZE: nat := 4096
  const ERASED: bv8 := 0xFF

  type Cells = seq<bv8>

  /** `otPlatFlashGetSwapSize`: the size of both pages together. */
  function SwapSize(): (size: nat)
    ensures size == 8192
  {
    PAGE_NUM * PAGE_SIZE
  }

  /** Any nonzero swap index is the second page. */
  function PageOf(swapIndex: uint8): nat {
    if swapIndex != 0 then 1 else 0
  }

  /** Where a page begins: the page size times zero or one. */
  function StartOf(page: nat): nat {
    if page == 0 then 0 else PAGE_SIZE
  }

  /** The address arithmetic is done in a `uint32_t`. */
  function Address(swapIndex: uint8, offset: uint32): uint32 {
    (offset + StartOf(PageOf(swapIndex))) % UINT32_RANGE
  }

  // ---------- The address map ----------

  /**
    Swap index 0 uses its offsets as they are, every other index begins one page later, where
    the 32-bit sum wraps for the last page of offsets; below one page they never meet.
   */
  lemma AddressMeaning(i: uint8, x: uint32)
    ensures Address(0, x) == x
    ensures i != 0 ==> Address(i, x) == if x < 0xFFFF_F000 then 4096 + x else x - 0xFFFF_F000
    ensures i != 0 && x < 4096 ==> forall y: uint32 :: y < 4096 ==> Address(0, y) != Address(i, x)
  {
    if i != 0 && x < 4096 {
      forall y: uint32 | y < 4096
        ensures Address(0, y) != Address(i, x)
      {
        assert Address(0, y) == y;
      }
    }
  }

  /** Within the reported range the 32-bit arithmetic does not wrap. */
  lemma AddressInSwapRange(i: uint8, x: uint32)
    requires x < SwapSize()
    ensures Address(i, x) == StartOf(PageOf(i)) + x
  {
  }

  lemma AddressIsInjectiveInPage(i: uint8, x: uint32, j: uint8, y: uint32)
    requires x < PAGE_SIZE && y < PAGE_SIZE
    ensures Address(i, x) == Address(j, y) <==> PageOf(i) == PageOf(j) && x == y
  {
    AddressInSwapRange(i, x);
    AddressInSwapRange(j, y);
    hide Address;
  }

  /**
    Over the whole range reported by SwapSize, two different places share an address exactly
    when one is past the end of the first page and the other is as far into the second.
   */
  lemma AliasesInSwapRange(i: uint8, x: uint32, j: uint8, y: uint32)
    requires x < SwapSize() && y < SwapSize()
    requires PageOf(i) <= PageOf(j)
    ensures Address(i, x) == Address(j, y) && (PageOf(i), x) != (PageOf(j), y) <==>
              PageOf(i) == 0 && PageOf(j) == 1 && x >= PAGE_SIZE && y == x - PAGE_SIZE
  {
    AddressInSwapRange(i, x);
    AddressInSwapRange(j, y);
    hide Address;
  }

  // ---------- The partition ----------

  /** Programming a NOR cell: bits go from one to zero only. */
  function And(cell: bv8, data: bv8): bv8 {
    cell & data
  }

  lemma AndUnits(data: bv8)
    ensures And(ERASED, data) == data
    ensures And(data, 0) == 0
  {
  }

  /** `esp_partition_write` on NOR flash. */
  function Programmed(cells: Cells, address: nat, data: seq<bv8>): (r: Cells)
    requires address + |data| <= |cells|
    ensures |r| == |cells|
    ensures forall k :: 0 <= k < |cells| ==>
      r[k] == if address <= k < address + |data| then And(cells[k], data[k - address]) else cells[k]
  {
    seq(|cells|, k requires 0 <= k < |cells| =>
      if address <= k < address + |data| then And(cells[k], data[k - address]) else cells[k])
  }

  function Blanked(cells: Cells, address: nat, size: nat): (r: Cells)
    requires address + size <= |cells|
    ensures |r| == |cells|
    ensures forall k :: 0 <= k < |cells| ==> r[k] == if address <= k < address + size then ERASED else cells[k]
  {
    seq(|cells|, k requires 0 <= k < |cells| => if address <= k < address + size then ERASED else cells[k])
  }

  // ---------- Operations ----------

  datatype Op =
    | Erase(swapIndex: uint8)
    | Write(swapIndex: uint8, offset: uint32, data: seq<bv8>)
    | Read(swapIndex: uint8, offset: uint32, size: nat)

  function Size(op: Op): nat {
    match op
    case Erase(_) => PAGE_SIZE
    case Write(_, _, data) => |data|
    case Read(_, _, size) => size
  }

  function Offset(op: Op): uint32 {
    match op
    case Erase(_) => 0
    case Write(_, offset, _) => offset
    case Read(_, offset, _) => offset
  }

  /** The operation stays inside its page. */
  predicate InPage(op: Op) {
    Offset(op) + Size(op) <= PAGE_SIZE
  }

  /** The partition accepts the operation; if not, the platform layer dies. */
  predicate Accepted(cells: Cells, op: Op) {
    Address(op.swapIndex, Offset(op)) + Size(op) <= |cells|
  }

  function After(cells: Cells, op: Op): (r: Cells)
    requires Accepted(cells, op)
    ensures |r| == |cells|
  {
    match op
    case Erase(i) => Blanked(cells, Address(i, 0), PAGE_SIZE)
    case Write(i, offset, data) => Programmed(cells, Address(i, offset), data)
    case Read(_, _, _) => cells
  }

  function Answer(cells: Cells, op: Op): seq<bv8>
    requires Accepted(cells, op)
  {
    if op.Read? then var a := Address(op.swapIndex, op.offset); cells[a..a + op.size] else []
  }

  /** Without a wrap an operation is accepted exactly when its last byte is in the partition; an erase takes a page. */
  lemma AcceptedIffItFits(cells: Cells, op: Op)
    requires Offset(op) < 0xFFFF_F000
    ensures Accepted(cells, op) <==>
              match op
              case Erase(i) => |cells| >= if i == 0 then 4096 else 8192
              case Write(i, offset, data) => (if i == 0 then 0 else 4096) + offset + |data| <= |cells|
              case Read(i, offset, size) => (if i == 0 then 0 else 4096) + offset + size <= |cells|
  {
    AddressMeaning(op.swapIndex, Offset(op));
    hide Address;
  }

  lemma InPageIsAccepted(cells: Cells, op: Op)
    requires |cells| >= SwapSize() && InPage(op)
    ensures Accepted(cells, op)
    ensures Address(op.swapIndex, Offset(op)) == Offset(op) + StartOf(PageOf(op.swapIndex))
  {
  }

  // ---------- Two independent pages ----------

  /** The store as it is meant: each page on its own. */
  datatype Pages = Pages(first: Cells, second: Cells) {

    predicate Valid() {
      |first| == PAGE_SIZE && |second| == PAGE_SIZE
    }

    function Page(swapIndex: uint8): Cells {
      if PageOf(swapIndex) == 0 then first else second
    }

    function With(swapIndex: uint8, page: Cells): Pages {
      if PageOf(swapIndex) == 0 then Pages(page, second) else Pages(first, page)
    }
  }

  function PagesAfter(p: Pages, op: Op): (r: Pages)
    requires p.Valid() && InPage(op)
    ensures r.Valid()
  {
    match op
    case Erase(i) => p.With(i, Blanked(p.Page(i), 0, PAGE_SIZE))
    case Write(i, offset, data) => p.With(i, Programmed(p.Page(i), offset, data))
    case Read(_, _, _) => p
  }

  function PagesAnswer(p: Pages, op: Op): seq<bv8>
    requires p.Valid() && InPage(op)
  {
    if op.Read? then p.Page(op.swapIndex)[op.offset..op.offset + op.size] else []
  }

  /** What the partition holds, seen as pages; the rest of the partition is `Tail`. */
  function Abstract(cells: Cells): Pages
    requires |cells| >= SwapSize()
  {
    Pages(cells[..PAGE_SIZE], cells[PAGE_SIZE..SwapSize()])
  }

  function Tail(cells: Cells): Cells
    requires |cells| >= SwapSize()
  {
    cells[SwapSize()..]
  }

  lemma SliceOfSlice(s: Cells, a: nat, b: nat, i: nat, j: nat)
    requires i <= j && a + j <= b <= |s|
    ensures s[a..b][i..j] == s[a + i..a + j]
  {
    assert forall k :: 0 <= k < j - i ==> s[a..b][i..j][k] == s[a..b][i + k] == s[a + (i + k)];
  }

  lemma StepAnswers(cells: Cells, op: Op)
    requires |cells| >= SwapSize() && InPage(op) && Accepted(cells, op)
    ensures Answer(cells, op) == PagesAnswer(Abstract(cells), op)
  {
    InPageIsAccepted(cells, op);
    if op.Read? {
      var start := StartOf(PageOf(op.swapIndex));
      assert Abstract(cells).Page(op.swapIndex) == cells[start..start + PAGE_SIZE];
      SliceOfSlice(cells, start, start + PAGE_SIZE, op.offset, op.offset + op.size);
    }
  }

  lemma TailIsKept(cells: Cells, op: Op)
    requires |cells| >= SwapSize() && InPage(op) && Accepted(cells, op)
    ensures Tail(After(cells, op)) == Tail(cells)
  {
    InPageIsAccepted(cells, op);
    var after := After(cells, op);
    hide And, Programmed, Blanked, Address;
    forall k | SwapSize() <= k < |cells|
      ensures after[k] == cells[k]
    {
    }
  }

  /** One operation inside its page acts on that page alone, and answers as the page would. */
  lemma StepRefines(cells: Cells, op: Op)
    requires |cells| >= SwapSize() && InPage(op)
    ensures Accepted(cells, op)
    ensures Abstract(After(cells, op)) == PagesAfter(Abstract(cells), op)
    ensures Tail(After(cells, op)) == Tail(cells)
    ensures Answer(cells, op) == PagesAnswer(Abstract(cells), op)
  {
    InPageIsAccepted(cells, op);
    StepAnswers(cells, op);
    TailIsKept(cells, op);
    hide And, Tail, Programmed, Blanked, Answer, PagesAnswer;
    var got, want := Abstract(After(cells, op)), PagesAfter(Abstract(cells), op);
    forall k | 0 <= k < PAGE_SIZE
      ensures got.first[k] == want.first[k] && got.second[k] == want.second[k]
    {
    }
  }

  /** Whether a write of `n` bytes to the first page leaves the second alone, whatever is stored and written. */
  ghost predicate LeavesSecondPage(offset: uint32, n: nat) {
    forall cells: Cells, data: seq<bv8> ::
      |cells| >= SwapSize() && |data| == n && Accepted(cells, Write(0, offset, data)) ==>
        Abstract(After(cells, Write(0, offset, data))).second == Abstract(cells).second
  }

  /** A write that starts in the first page spills into the second exactly when it passes the page end. */
  lemma SpillsIffPastPageEnd(offset: uint32, n: nat)
    requires offset < PAGE_SIZE
    ensures LeavesSecondPage(offset, n) <==> offset + n <= PAGE_SIZE
  {
    if offset + n <= PAGE_SIZE {
      forall cells: Cells, data: seq<bv8> | |cells| >= SwapSize() && |data| == n
        ensures Abstract(After(cells, Write(0, offset, data))).second == Abstract(cells).second
      {
        StepRefines(cells, Write(0, offset, data));
      }
    } else {
      SpillsPastPageEnd(offset, n);
    }
  }

  lemma WriteToFirstPage(cells: Cells, offset: uint32, data: seq<bv8>)
    requires offset < PAGE_SIZE && Accepted(cells, Write(0, offset, data))
    ensures offset + |data| <= |cells|
    ensures After(cells, Write(0, offset, data)) == Programmed(cells, offset, data)
  {
    hide And, Programmed;
  }

  lemma SpilledByte(cells: Cells, offset: uint32, data: seq<bv8>)
    requires |cells| >= SwapSize() && offset < PAGE_SIZE < offset + |data|
    requires Accepted(cells, Write(0, offset, data))
    ensures Abstract(After(cells, Write(0, offset, data))).second[0] == And(cells[PAGE_SIZE], data[PAGE_SIZE - offset])
    ensures Abstract(cells).second[0] == cells[PAGE_SIZE]
  {
    WriteToFirstPage(cells, offset, data);
    hide And, After, Programmed, Accepted;
  }

  lemma ByteSpills(cells: Cells, offset: uint32, data: seq<bv8>)
    requires |cells| >= SwapSize() && Accepted(cells, Write(0, offset, data))
    requires offset < PAGE_SIZE < offset + |data|
    requires And(cells[PAGE_SIZE], data[PAGE_SIZE - offset]) != cells[PAGE_SIZE]
    ensures !LeavesSecondPage(offset, |data|)
  {
    hide And, After, Abstract, Accepted;
    SpilledByte(cells, offset, data);
  }

  lemma SpillsPastPageEnd(offset: uint32, n: nat)
    requires offset < PAGE_SIZE < offset + n
    ensures !LeavesSecondPage(offset, n)
  {
    hide LeavesSecondPage, After, Abstract;
    var cells: Cells := seq(SwapSize() + n, _ => ERASED);
    var data: seq<bv8> := seq(n, _ => 0);
    AndUnits(ERASED);
    ByteSpills(cells, offset, data);
  }

  // ---------- What an erase reaches ----------

  /** An erase sets every bit of bytes 0 to 4095 for swap index 0, else of bytes 4096 to 8191, and of no more. */
  lemma ErasedRange(cells: Cells, i: uint8, k: nat)
    requires Accepted(cells, Erase(i)) && k < |cells|
    ensures var start := if i == 0 then 0 else 4096;
            After(cells, Erase(i))[k] == if start <= k < start + 4096 then 0xFF else cells[k]
  {
    AddressMeaning(i, 0);
    hide Address, Blanked;
  }

  /** Whether an erase blanks this offset of the range reported for its swap index, whatever was stored. */
  ghost predicate EraseBlanks(swapIndex: uint8, offset: uint32) {
    forall cells: Cells :: Accepted(cells, Erase(swapIndex)) && Address(swapIndex, offset) < |cells| ==>
      After(cells, Erase(swapIndex))[Address(swapIndex, offset)] == ERASED
  }

  lemma ByteAfterErase(cells: Cells, swapIndex: uint8, offset: uint32)
    requires offset < SwapSize()
    requires Accepted(cells, Erase(swapIndex)) && Address(swapIndex, offset) < |cells|
    ensures var a := Address(swapIndex, offset);
            After(cells, Erase(swapIndex))[a] == if offset < PAGE_SIZE then ERASED else cells[a]
  {
    AddressInSwapRange(swapIndex, offset);
    AddressInSwapRange(swapIndex, 0);
    hide Blanked, Address;
  }

  /** An erase covers the first page size of its reported range, and nothing of the rest. */
  lemma EraseBlanksIffInPage(swapIndex: uint8, offset: uint32)
    requires offset < SwapSize()
    ensures EraseBlanks(swapIndex, offset) <==> offset < PAGE_SIZE
  {
    if offset < PAGE_SIZE {
      forall cells: Cells | Accepted(cells, Erase(swapIndex)) && Address(swapIndex, offset) < |cells|
        ensures After(cells, Erase(swapIndex))[Address(swapIndex, offset)] == ERASED
      {
        ByteAfterErase(cells, swapIndex, offset);
      }
    } else {
      var cells: Cells := seq(SwapSize() + PAGE_SIZE, _ => 0);
      ByteAfterErase(cells, swapIndex, offset);
      assert cells[Address(swapIndex, offset)] != ERASED;
    }
  }

  /** Erasing the second page destroys what the first swap index keeps past its own page size. */
  lemma EraseDestroysAlias(cells: Cells, i: uint8, j: uint8, k: uint32)
    requires PageOf(i) == 0 && PageOf(j) == 1 && k < PAGE_SIZE
    requires Accepted(cells, Erase(j))
    ensures Address(i, PAGE_SIZE + k) < |cells|
    ensures After(cells, Erase(j))[Address(i, PAGE_SIZE + k)] == ERASED
  {
    AliasesInSwapRange(i, PAGE_SIZE + k, j, k);
    ByteAfterErase(cells, j, k);
  }

  // ---------- Histories ----------

  predicate AllInPage(ops: seq<Op>) {
    forall k :: 0 <= k < |ops| ==> InPage(ops[k])
  }

  function AfterAll(cells: Cells, ops: seq<Op>): (r: Cells)
    requires |cells| >= SwapSize() && AllInPage(ops)
    ensures |r| == |cells|
    decreases ops
  {
    if ops == [] then cells
    else
      InPageIsAccepted(cells, ops[0]);
      AfterAll(After(cells, ops[0]), ops[1..])
  }

  function PagesAfterAll(p: Pages, ops: seq<Op>): (r: Pages)
    requires p.Valid() && AllInPage(ops)
    ensures r.Valid()
    decreases ops
  {
    if ops == [] then p else PagesAfterAll(PagesAfter(p, ops[0]), ops[1..])
  }

  function Answers(cells: Cells, ops: seq<Op>): seq<seq<bv8>>
    requires |cells| >= SwapSize() && AllInPage(ops)
    decreases ops
  {
    if ops == [] then []
    else
      InPageIsAccepted(cells, ops[0]);
      [Answer(cells, ops[0])] + Answers(After(cells, ops[0]), ops[1..])
  }

  function PagesAnswers(p: Pages, ops: seq<Op>): seq<seq<bv8>>
    requires p.Valid() && AllInPage(ops)
    decreases ops
  {
    if ops == [] then [] else [PagesAnswer(p, ops[0])] + PagesAnswers(PagesAfter(p, ops[0]), ops[1..])
  }

  /** Any history inside the pages behaves, answer by answer, like two independent pages. */
  lemma {:induction false} StoreRefinesPages(cells: Cells, ops: seq<Op>)
    requires |cells| >= SwapSize() && AllInPage(ops)
    ensures Abstract(AfterAll(cells, ops)) == PagesAfterAll(Abstract(cells), ops)
    ensures Answers(cells, ops) == PagesAnswers(Abstract(cells), ops)
    ensures Tail(AfterAll(cells, ops)) == Tail(cells)
    decreases ops
  {
    if ops != [] {
      StepRefines(cells, ops[0]);
      StoreRefinesPages(After(cells, ops[0]), ops[1..]);
    }
  }

  // ---------- What a byte holds ----------

  predicate Covers(op: Op, page: nat, offset: nat) {
    op.Write? && PageOf(op.swapIndex) == page && op.offset <= offset < op.offset + |op.data|
  }

  predicate Erases(op: Op, page: nat) {
    op.Erase? && PageOf(op.swapIndex) == page
  }

  /**
    The byte the history should leave at an offset of a page: since the last erase of that
    page, the conjunction of everything written there, starting from all ones.
   */
  function Expected(initial: bv8, ops: seq<Op>, page: nat, offset: nat): bv8 {
    if ops == [] then initial
    else
      var op := ops[|ops| - 1];
      var before := ops[..|ops| - 1];
      if Erases(op, page) then ERASED
      else if Covers(op, page, offset) then And(Expected(initial, before, page, offset), op.data[offset - op.offset])
      else Expected(initial, before, page, offset)
  }

  lemma {:induction false} AfterAllButLast(cells: Cells, ops: seq<Op>)
    requires |cells| >= SwapSize() && AllInPage(ops) && ops != []
    ensures var before := ops[..|ops| - 1];
            var middle := AfterAll(cells, before);
            Accepted(middle, ops[|ops| - 1]) && AfterAll(cells, ops) == After(middle, ops[|ops| - 1])
    decreases ops
  {
    InPageIsAccepted(cells, ops[0]);
    var before := ops[..|ops| - 1];
    InPageIsAccepted(AfterAll(cells, before), ops[|ops| - 1]);
    if |ops| == 1 {
      assert before == [] && ops[1..] == [];
    } else {
      AfterAllButLast(After(cells, ops[0]), ops[1..]);
      assert ops[1..][..|ops| - 2] == before[1..];
    }
  }

  /** The effect of one operation on one byte of a page. */
  lemma ByteAfter(cells: Cells, op: Op, page: nat, offset: nat)
    requires |cells| >= SwapSize() && InPage(op) && Accepted(cells, op)
    requires page < PAGE_NUM && offset < PAGE_SIZE
    ensures var b := StartOf(page) + offset;
            After(cells, op)[b] ==
              if Erases(op, page) then ERASED
              else if Covers(op, page, offset) then And(cells[b], op.data[offset - op.offset])
              else cells[b]
  {
    InPageIsAccepted(cells, op);
    hide And, Programmed, Blanked, Address, Accepted;
  }

  /** Every byte of the partition is what the history of its own page determines. */
  lemma {:induction false} ByteIsExpected(cells: Cells, ops: seq<Op>, page: nat, offset: nat)
    requires |cells| >= SwapSize() && AllInPage(ops)
    requires page < PAGE_NUM && offset < PAGE_SIZE
    ensures AfterAll(cells, ops)[StartOf(page) + offset] == Expected(cells[StartOf(page) + offset], ops, page, offset)
    decreases ops
  {
    if ops != [] {
      var before := ops[..|ops| - 1];
      AfterAllButLast(cells, ops);
      ByteIsExpected(cells, before, page, offset);
      ByteAfter(AfterAll(cells, before), ops[|ops| - 1], page, offset);
      hide And, After, Accepted, Covers, Erases;
    }
  }

  /** Bit `b` of a byte. */
  predicate Bit(x: bv8, b: nat)
    requires b < 8
  {
    var mask: seq<bv8> := [1, 2, 4, 8, 16, 32, 64, 128];
    x & mask[b] != 0
  }

  lemma AndBits(c: bv8, d: bv8, b: nat)
    requires b < 8
    ensures Bit(And(c, d), b) <==> Bit(c, b) && Bit(d, b)
  {
  }

  lemma ErasedBits(b: nat)
    requires b < 8
    ensures Bit(ERASED, b)
  {
  }

  /** Every write to the offset after the first `from` operations has this bit set. */
  predicate NeverCleared(ops: seq<Op>, from: nat, page: nat, offset: nat, b: nat)
    requires b < 8
  {
    forall k :: from <= k < |ops| && Covers(ops[k], page, offset) ==> Bit(ops[k].data[offset - ops[k].offset], b)
  }

  predicate ErasedLast(ops: seq<Op>, page: nat, e: nat) {
    && e < |ops| && Erases(ops[e], page)
    && forall k :: e < k < |ops| ==> !Erases(ops[k], page)
  }

  /** A write can clear a bit and never set it; only an erase sets it again. */
  lemma {:induction false} BitIsSetIff(initial: bv8, ops: seq<Op>, page: nat, offset: nat, b: nat, e: nat)
    requires b < 8 && ErasedLast(ops, page, e)
    ensures Bit(Expected(initial, ops, page, offset), b) <==> NeverCleared(ops, e + 1, page, offset, b)
    decreases ops
  {
    ErasedBits(b);
    if e < |ops| - 1 {
      var op, before := ops[|ops| - 1], ops[..|ops| - 1];
      BitIsSetIff(initial, before, page, offset, b, e);
      if Covers(op, page, offset) {
        AndBits(Expected(initial, before, page, offset), op.data[offset - op.offset], b);
      }
      hide And, Bit;
    }
  }

  /** Once its page has been erased, a bit in the partition is set exactly when each later write there has it set. */
  lemma BitsAreAnded(cells: Cells, ops: seq<Op>, page: nat, offset: nat, b: nat, e: nat)
    requires |cells| >= SwapSize() && AllInPage(ops)
    requires page < PAGE_NUM && offset < PAGE_SIZE && b < 8 && ErasedLast(ops, page, e)
    ensures Bit(AfterAll(cells, ops)[StartOf(page) + offset], b) <==> NeverCleared(ops, e + 1, page, offset, b)
  {
    hide Bit, NeverCleared, ErasedLast, AfterAll, Expected;
    ByteIsExpected(cells, ops, page, offset);
    BitIsSetIff(cells[StartOf(page) + offset], ops, page, offset, b, e);
  }

  // ---------- Disjoint writes read back ----------

  /** Writes to one page, no two of which touch the same byte. */
  predicate DisjointWrites(ops: seq<Op>, swapIndex: uint8) {
    && (forall k :: 0 <= k < |ops| ==> ops[k].Write? && ops[k].swapIndex == swapIndex)
    && (forall j, k | 0 <= j < k < |ops| ::
          ops[j].offset + |ops[j].data| <= ops[k].offset || ops[k].offset + |ops[k].data| <= ops[j].offset)
  }

  lemma {:induction false} OnceWritten(initial: bv8, ops: seq<Op>, swapIndex: uint8, k: nat, offset: nat)
    requires DisjointWrites(ops, swapIndex)
    requires k < |ops| && Covers(ops[k], PageOf(swapIndex), offset)
    ensures Expected(initial, ops, PageOf(swapIndex), offset) == And(initial, ops[k].data[offset - ops[k].offset])
    decreases ops
  {
    var before := ops[..|ops| - 1];
    if k == |ops| - 1 {
      NeverWritten(initial, before, swapIndex, offset);
    } else {
      OnceWritten(initial, before, swapIndex, k, offset);
    }
  }

  lemma {:induction false} NeverWritten(initial: bv8, ops: seq<Op>, swapIndex: uint8, offset: nat)
    requires forall k :: 0 <= k < |ops| ==> ops[k].Write? && !Covers(ops[k], PageOf(swapIndex), offset)
    ensures Expected(initial, ops, PageOf(swapIndex), offset) == initial
    decreases ops
  {
    if ops != [] {
      NeverWritten(initial, ops[..|ops| - 1], swapIndex, offset);
    }
  }

  predicate BlankFrom(cells: Cells, start: nat)
    requires start + PAGE_SIZE <= |cells|
  {
    forall x :: start <= x < start + PAGE_SIZE ==> cells[x] == ERASED
  }

  lemma ReadsBackByte(blank: Cells, ops: seq<Op>, swapIndex: uint8, k: nat, x: nat)
    requires |blank| >= SwapSize() && BlankFrom(blank, StartOf(PageOf(swapIndex)))
    requires DisjointWrites(ops, swapIndex) && AllInPage(ops) && k < |ops| && x < |ops[k].data|
    ensures AfterAll(blank, ops)[StartOf(PageOf(swapIndex)) + ops[k].offset + x] == ops[k].data[x]
  {
    var offset := ops[k].offset + x;
    ByteIsExpected(blank, ops, PageOf(swapIndex), offset);
    OnceWritten(ERASED, ops, swapIndex, k, offset);
    AndUnits(ops[k].data[x]);
  }

  /** The cells from `start` on are exactly `data`. */
  predicate Holds(cells: Cells, start: nat, data: seq<bv8>) {
    && start + |data| <= |cells|
    && forall i :: start <= i < start + |data| ==> cells[i] == data[i - start]
  }

  lemma WriteIsHeld(blank: Cells, ops: seq<Op>, swapIndex: uint8, k: nat)
    requires |blank| >= SwapSize() && BlankFrom(blank, StartOf(PageOf(swapIndex)))
    requires DisjointWrites(ops, swapIndex) && AllInPage(ops)
    requires k < |ops| && ops[k].Write? && InPage(ops[k])
    ensures Holds(AfterAll(blank, ops), StartOf(PageOf(swapIndex)) + ops[k].offset, ops[k].data)
  {
    hide AfterAll, DisjointWrites, AllInPage, BlankFrom;
    var start := StartOf(PageOf(swapIndex)) + ops[k].offset;
    forall i | start <= i < start + |ops[k].data|
      ensures AfterAll(blank, ops)[i] == ops[k].data[i - start]
    {
      ReadsBackByte(blank, ops, swapIndex, k, i - start);
    }
  }

  lemma ErasedIsBlank(cells: Cells, swapIndex: uint8)
    requires |cells| >= SwapSize()
    ensures Accepted(cells, Erase(swapIndex))
    ensures BlankFrom(After(cells, Erase(swapIndex)), StartOf(PageOf(swapIndex)))
  {
    hide Blanked;
  }

  /** Reading the range of a write gives the data of that write. */
  predicate ReadsBack(cells: Cells, write: Op)
    requires write.Write?
  {
    var read := Read(write.swapIndex, write.offset, |write.data|);
    Accepted(cells, read) && Answer(cells, read) == write.data
  }

  lemma HeldReadsBack(cells: Cells, write: Op)
    requires |cells| >= SwapSize() && write.Write? && InPage(write)
    requires Holds(cells, StartOf(PageOf(write.swapIndex)) + write.offset, write.data)
    ensures ReadsBack(cells, write)
  {
  }

  lemma WriteInPage(ops: seq<Op>, swapIndex: uint8, k: nat)
    requires DisjointWrites(ops, swapIndex) && AllInPage(ops) && k < |ops|
    ensures ops[k].swapIndex == swapIndex && InPage(ops[k])
  {
  }

  lemma BlankPageReadsBack(blank: Cells, ops: seq<Op>, swapIndex: uint8, k: nat)
    requires |blank| >= SwapSize() && BlankFrom(blank, StartOf(PageOf(swapIndex)))
    requires DisjointWrites(ops, swapIndex) && AllInPage(ops)
    requires k < |ops| && ops[k].Write?
    ensures ReadsBack(AfterAll(blank, ops), ops[k])
  {
    hide BlankFrom, DisjointWrites, AllInPage, AfterAll, ReadsBack, InPage, Holds;
    WriteInPage(ops, swapIndex, k);
    WriteIsHeld(blank, ops, swapIndex, k);
    HeldReadsBack(AfterAll(blank, ops), ops[k]);
  }

  /** After an erase, disjoint writes to the page can all be read back exactly. */
  lemma DisjointWritesReadBack(cells: Cells, ops: seq<Op>, swapIndex: uint8, k: nat)
    requires |cells| >= SwapSize() && DisjointWrites(ops, swapIndex) && AllInPage(ops)
    requires k < |ops| && ops[k].Write?
    ensures Accepted(cells, Erase(swapIndex))
    ensures ReadsBack(AfterAll(After(cells, Erase(swapIndex)), ops), ops[k])
  {
    ErasedIsBlank(cells, swapIndex);
    hide BlankFrom, DisjointWrites, AllInPage, After, AfterAll, ReadsBack, Accepted;
    BlankPageReadsBack(After(cells, Erase(swapIndex)), ops, swapIndex, k);
  }

  // ---------- The partition in place ----------

  class Store {
    /** The settings partition, once it has been found. */
    const partition: array<bv8>

    constructor (partition: array<bv8>)
      ensures this.partition == partition
    {
      this.partition := partition;
    }

    /** `otPlatFlashErase`; `false` stands for the fatal exit. */
    method Erase(swapIndex: uint8) returns (ok: bool)
      modifies partition
      ensures ok == Accepted(old(partition[..]), Op.Erase(swapIndex))
      ensures partition[..] == if ok then After(old(partition[..]), Op.Erase(swapIndex)) else old(partition[..])
      ensures var start := if swapIndex == 0 then 0 else 4096;
              && ok == (start + 4096 <= partition.Length)
              && (ok ==> forall k :: 0 <= k < partition.Length ==>
                    partition[k] == if start <= k < start + 4096 then 0xFF else old(partition[k]))
    {
      var address := StartOf(PageOf(swapIndex));
      if address + PAGE_SIZE > partition.Length {
        return false;
      }
      forall k | address <= k < address + PAGE_SIZE {
        partition[k] := ERASED;
      }
      ok := true;
    }

    /** `otPlatFlashWrite` */
    method Write(swapIndex: uint8, offset: uint32, data: seq<bv8>) returns (ok: bool)
      modifies partition
      ensures ok == Accepted(old(partition[..]), Op.Write(swapIndex, offset, data))
      ensures partition[..] ==
                if ok then After(old(partition[..]), Op.Write(swapIndex, offset, data)) else old(partition[..])
    {
      var address := (offset + StartOf(PageOf(swapIndex))) % UINT32_RANGE;
      if address + |data| > partition.Length {
        return false;
      }
      hide And, Programmed;
      forall k | address <= k < address + |data| {
        partition[k] := And(partition[k], data[k - address]);
      }
      assert partition[..] == Programmed(old(partition[..]), address, data);
      ok := true;
    }

    /** `otPlatFlashRead` */
    method Read(swapIndex: uint8, offset: uint32, size: nat) returns (ok: bool, data: seq<bv8>)
      ensures ok == Accepted(partition[..], Op.Read(swapIndex, offset, size))
      ensures data == if ok then Answer(partition[..], Op.Read(swapIndex, offset, size)) else []
      ensures ok ==> |data| == size
    {
      var address := (offset + StartOf(PageOf(swapIndex))) % UINT32_RANGE;
      if address + size > partition.Length {
        return false, [];
      }
      data := partition[address..address + size];
      ok := true;
    }
  }
}
