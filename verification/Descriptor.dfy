/** The report-descriptor scanner of clients/gamepad/gamepad_feedback.h against the short-item
    stream and the global item table of section 6.2.2 of HID 1.11. */
module Descriptor {
  newtype Byte = x: int | 0 <= x < 0x100

  const WORD := 0x1_0000_0000

  const LONG_ITEM := 0xfe
  const REPORT_SIZE := 0x74
  const REPORT_ID := 0x84
  const REPORT_COUNT := 0x94
  const PUSH := 0xa4
  const POP := 0xb4
  const OUTPUT := 0x90

  const RUMBLE_REPORT := 5
  const RUMBLE_BITS := 248

  /** A short item: its tag without the length bits, and its little-endian value. */
  datatype Item = Item(tag: nat, value: nat)

  function Length(tag: Byte): (n: nat)
    ensures n <= 4
  {
    if tag % 4 == 3 then 4 else (tag % 4) as nat
  }

  function Little(bytes: seq<Byte>): nat {
    if bytes == [] then 0 else bytes[0] as nat + 256 * Little(bytes[1..])
  }

  /** One more item can be read here. */
  predicate Readable(data: seq<Byte>) {
    data != [] && data[0] != LONG_ITEM as Byte && Length(data[0]) <= |data| - 1
  }

  function First(data: seq<Byte>): Item
    requires Readable(data)
  {
    Item((data[0] - data[0] % 4) as nat, Little(data[1..1 + Length(data[0])]))
  }

  /** The short items up to the end of the data or to the first that cannot be read. */
  function Items(data: seq<Byte>): seq<Item> {
    if !Readable(data) then [] else [First(data)] + Items(data[1 + Length(data[0])..])
  }

  predicate WellFormed(data: seq<Byte>) {
    data == [] || (Readable(data) && WellFormed(data[1 + Length(data[0])..]))
  }

  // ---------------------------------------------------------------- meaning

  datatype Globals = Globals(id: nat, bits: nat, count: nat)

  const NO_GLOBALS := Globals(0, 0, 0)

  /** Pushes that are still open before item k. */
  function Depth(items: seq<Item>, k: nat): int
    requires k <= |items|
  {
    if k == 0 then 0
    else Depth(items, k - 1) + if items[k - 1].tag == PUSH then 1 else if items[k - 1].tag == POP then -1 else 0
  }

  /** Every pop has a push to undo. */
  predicate Matched(items: seq<Item>, n: nat)
    requires n <= |items|
  {
    forall k | 0 <= k < n :: items[k].tag == POP ==> Depth(items, k) > 0
  }

  /** The last push before item k that was made at this depth. */
  function Opener(items: seq<Item>, k: nat, depth: int): (i: nat)
    requires k <= |items|
    ensures i <= k && (k > 0 ==> i < k)
  {
    if k == 0 then 0
    else if items[k - 1].tag == PUSH && Depth(items, k - 1) == depth then k - 1
    else Opener(items, k - 1, depth)
  }

  /** The global items that apply to item k: a pop brings back what its push found. */
  function GlobalsAt(items: seq<Item>, k: nat): Globals
    requires k <= |items|
  {
    if k == 0 then NO_GLOBALS
    else
      var item := items[k - 1];
      if item.tag == POP then
        if Depth(items, k - 1) <= 0 then NO_GLOBALS
        else GlobalsAt(items, Opener(items, k - 1, Depth(items, k - 1) - 1))
      else
        var before := GlobalsAt(items, k - 1);
        if item.tag == REPORT_SIZE then before.(bits := item.value)
        else if item.tag == REPORT_ID then before.(id := item.value)
        else if item.tag == REPORT_COUNT then before.(count := item.value)
        else before
  }

  predicate IsRumbleOutput(items: seq<Item>, k: nat)
    requires k < |items|
  {
    items[k].tag == OUTPUT && GlobalsAt(items, k).id == RUMBLE_REPORT
  }

  function Area(g: Globals): nat { g.bits * g.count }

  /** Bits of the rumble report declared by the first n items. */
  function TotalBits(items: seq<Item>, n: nat): nat
    requires n <= |items|
  {
    if n == 0 then 0
    else
      TotalBits(items, n - 1) +
      if IsRumbleOutput(items, n - 1) then Area(GlobalsAt(items, n - 1)) else 0
  }

  predicate Modest(items: seq<Item>, n: nat)
    requires n <= |items|
  {
    forall k | 0 <= k < n :: IsRumbleOutput(items, k) ==>
      GlobalsAt(items, k).bits <= RUMBLE_BITS && GlobalsAt(items, k).count <= RUMBLE_BITS
  }

  /** The descriptor declares exactly the output report the rumble command needs. */
  predicate Supports(data: seq<Byte>) {
    var items := Items(data);
    && WellFormed(data) && Matched(items, |items|) && Modest(items, |items|)
    && TotalBits(items, |items|) == RUMBLE_BITS
  }

  lemma {:induction false} TotalGrows(items: seq<Item>, m: nat, n: nat)
    requires m <= n <= |items|
    ensures TotalBits(items, m) <= TotalBits(items, n)
    decreases n
  {
    if m < n {
      TotalGrows(items, m, n - 1);
    }
  }

  /** Four bytes never exceed one machine word. */
  lemma {:induction false} LittleFits(bytes: seq<Byte>)
    requires |bytes| <= 4
    ensures Little(bytes) < WORD
    ensures |bytes| <= 3 ==> 256 * Little(bytes) + 255 < WORD
    ensures |bytes| <= 2 ==> 256 * (256 * Little(bytes) + 255) + 255 < WORD
    ensures |bytes| <= 1 ==> Little(bytes) < 256
  {
    if bytes != [] {
      LittleFits(bytes[1..]);
    }
  }

  // ---------------------------------------------------------------- scanner

  /** The stack holds what the open pushes found. */
  ghost predicate StackSound(items: seq<Item>, n: nat, stack: seq<Globals>)
    requires n <= |items|
  {
    |stack| == Depth(items, n) &&
    forall d | 0 <= d < |stack| ::
      Opener(items, n, d) < n && Opener(items, n, d) < |items| && stack[d] == GlobalsAt(items, Opener(items, n, d))
  }

  lemma {:induction false} Pushed(items: seq<Item>, n: nat, stack: seq<Globals>)
    requires n < |items| && items[n].tag == PUSH && StackSound(items, n, stack)
    ensures StackSound(items, n + 1, stack + [GlobalsAt(items, n)])
  {
    var next := stack + [GlobalsAt(items, n)];
    forall d | 0 <= d < |next|
      ensures Opener(items, n + 1, d) <= n && next[d] == GlobalsAt(items, Opener(items, n + 1, d))
    {}
  }

  lemma {:induction false} Popped(items: seq<Item>, n: nat, stack: seq<Globals>)
    requires n < |items| && items[n].tag == POP && StackSound(items, n, stack) && stack != []
    ensures StackSound(items, n + 1, stack[..|stack| - 1])
    ensures GlobalsAt(items, n + 1) == stack[|stack| - 1]
  {
    var next := stack[..|stack| - 1];
    forall d | 0 <= d < |next|
      ensures Opener(items, n + 1, d) <= n && next[d] == GlobalsAt(items, Opener(items, n + 1, d))
    {
      assert stack[d] == GlobalsAt(items, Opener(items, n, d));
    }
  }

  lemma {:induction false} Kept(items: seq<Item>, n: nat, stack: seq<Globals>)
    requires n < |items| && items[n].tag != POP && items[n].tag != PUSH && StackSound(items, n, stack)
    ensures StackSound(items, n + 1, stack)
  {
    forall d | 0 <= d < |stack|
      ensures Opener(items, n + 1, d) <= n && stack[d] == GlobalsAt(items, Opener(items, n + 1, d))
    {}
  }

  /** Little-endian bytes, the lowest first. */
  method ReadValue(data: seq<Byte>, at: nat, length: nat) returns (value: nat)
    requires length <= 4 && at + length <= |data|
    ensures value == Little(data[at..at + length]) < WORD
  {
    value := 0;
    var weight := 1;
    ghost var bytes := data[at..at + length];
    for j := 0 to length
      invariant weight == Power(j) && value + weight * Little(bytes[j..]) == Little(bytes)
    {
      assert bytes[j..][1..] == bytes[j + 1..];
      assert Little(bytes[j..]) == data[at + j] as nat + 256 * Little(bytes[j + 1..]);
      NextDigit(weight, data[at + j] as nat, Little(bytes[j + 1..]));
      value := value + data[at + j] as nat * weight;
      weight := weight * 256;
    }
    LittleFits(bytes);
  }

  function Power(j: nat): nat { if j == 0 then 1 else Power(j - 1) * 256 }

  lemma NextDigit(weight: nat, digit: nat, rest: nat)
    ensures weight * (digit + 256 * rest) == digit * weight + weight * 256 * rest
  {}

  lemma SmallArea(g: Globals)
    requires g.bits <= RUMBLE_BITS && g.count <= RUMBLE_BITS
    ensures Area(g) < WORD
  {
    AtMost(g.bits, g.count);
  }

  lemma AtMost(x: nat, y: nat)
    requires x <= RUMBLE_BITS && y <= RUMBLE_BITS
    ensures x * y <= RUMBLE_BITS * y && RUMBLE_BITS * y <= RUMBLE_BITS * RUMBLE_BITS
  {}

  /** Read one item, if there is a whole one. */
  method ReadItem(data: seq<Byte>, at: nat) returns (ok: bool, item: Item, next: nat)
    requires at < |data|
    ensures ok == Readable(data[at..])
    ensures ok ==> item == First(data[at..]) && next == at + 1 + Length(data[at]) <= |data|
  {
    var tag := data[at];
    ok, item, next := false, Item(0, 0), at + 1;
    if tag == LONG_ITEM as Byte {
      return;
    }
    var length := Length(tag);
    if length > |data| - next {
      return;
    }
    var value := ReadValue(data, next, length);
    assert data[at..][1..1 + length] == data[next..next + length];
    ok, item, next := true, Item((tag - tag % 4) as nat, value), next + length;
  }

  /** Everything is in order before item n. */
  ghost predicate InOrder(items: seq<Item>, n: nat)
    requires n <= |items|
  {
    Matched(items, n) && Modest(items, n) && TotalBits(items, n) <= RUMBLE_BITS
  }

  /** An output item of the rumble report; unsigned arithmetic never wraps around here. */
  method CountOutput(g: Globals, outputBits: nat, ghost items: seq<Item>, ghost n: nat) returns (ok: bool, sum: nat)
    requires n < |items| && IsRumbleOutput(items, n) && g == GlobalsAt(items, n)
    requires InOrder(items, n) && outputBits == TotalBits(items, n)
    ensures ok == InOrder(items, n + 1)
    ensures ok ==> sum == TotalBits(items, n + 1)
  {
    hide GlobalsAt, Depth, Area;
    ok, sum := false, outputBits;
    if g.bits > RUMBLE_BITS || g.count > RUMBLE_BITS {
      return;
    }
    SmallArea(g);
    var product := Area(g) % WORD;
    var room := (RUMBLE_BITS - outputBits) % WORD;
    if product > room {
      return;
    }
    ok, sum := true, (outputBits + product) % WORD;
  }

  method Interpret(item: Item, g: Globals, stack: seq<Globals>, outputBits: nat, ghost items: seq<Item>, ghost n: nat)
    returns (ok: bool, globals: Globals, saved: seq<Globals>, sum: nat)
    requires n < |items| && item == items[n] && g == GlobalsAt(items, n) && StackSound(items, n, stack)
    requires InOrder(items, n) && outputBits == TotalBits(items, n)
    ensures ok == InOrder(items, n + 1)
    ensures ok ==> globals == GlobalsAt(items, n + 1) && StackSound(items, n + 1, saved) && sum == TotalBits(items, n + 1)
  {
    ok, globals, saved, sum := true, g, stack, outputBits;
    if item.tag == PUSH {
      Pushed(items, n, stack);
      saved := stack + [g];
    } else if item.tag == POP {
      if stack == [] {
        ok := false;
        return;
      }
      Popped(items, n, stack);
      globals, saved := stack[|stack| - 1], stack[..|stack| - 1];
    } else {
      Kept(items, n, stack);
      hide StackSound;
      if item.tag == REPORT_SIZE {
        globals := g.(bits := item.value);
      } else if item.tag == REPORT_ID {
        globals := g.(id := item.value);
      } else if item.tag == REPORT_COUNT {
        globals := g.(count := item.value);
      } else if item.tag == OUTPUT && g.id == RUMBLE_REPORT {
        ok, sum := CountOutput(g, outputBits, items, n);
      }
    }
  }

  lemma OutOfOrder(items: seq<Item>, n: nat)
    requires n <= |items| && !InOrder(items, n)
    ensures !(Matched(items, |items|) && Modest(items, |items|) && TotalBits(items, |items|) == RUMBLE_BITS)
  {
    TotalGrows(items, n, |items|);
  }

  /** Reading on from one item to the next. */
  lemma NextItem(data: seq<Byte>, i: nat, items: seq<Item>, n: nat)
    requires i < |data| && n <= |items| && Items(data[i..]) == items[n..]
    ensures !Readable(data[i..]) ==> !WellFormed(data[i..])
    ensures Readable(data[i..]) ==>
              var next := i + 1 + Length(data[i]);
              && next <= |data| && n < |items| && First(data[i..]) == items[n]
              && Items(data[next..]) == items[n + 1..] && WellFormed(data[next..]) == WellFormed(data[i..])
  {
    if Readable(data[i..]) {
      var next := i + 1 + Length(data[i]);
      assert data[i..][1 + Length(data[i])..] == data[next..];
      assert items[n..][0] == First(data[i..]) && items[n..][1..] == items[n + 1..];
    }
  }

  lemma ScanStarts(items: seq<Item>)
    ensures GlobalsAt(items, 0) == NO_GLOBALS && StackSound(items, 0, []) && InOrder(items, 0) && TotalBits(items, 0) == 0
  {}

  lemma ScanStops(data: seq<Byte>, i: nat, n: nat)
    requires i == |data| && n <= |Items(data)| && Items(data[i..]) == Items(data)[n..]
    requires WellFormed(data[i..]) == WellFormed(data) && InOrder(Items(data), n)
    ensures Supports(data) <==> TotalBits(Items(data), n) == RUMBLE_BITS
  {
    assert data[i..] == [] && n == |Items(data)|;
  }

  /** The scanner terminates, stays in bounds, never wraps around, and accepts exactly the
      descriptors that declare the rumble report. */
  method HasDs4Output(data: seq<Byte>) returns (found: bool)
    ensures found <==> Supports(data)
  {
    hide GlobalsAt, StackSound, InOrder, TotalBits, Items, WellFormed, Readable, First, Length;
    var g, stack := NO_GLOBALS, [];
    var outputBits, i := 0, 0;
    ghost var items, n := Items(data), 0;
    ScanStarts(items);
    assert data[0..] == data && items[0..] == items;
    while i < |data|
      invariant i <= |data| && n <= |items|
      invariant Items(data[i..]) == items[n..] && WellFormed(data[i..]) == WellFormed(data)
      invariant g == GlobalsAt(items, n) && StackSound(items, n, stack)
      invariant InOrder(items, n) && outputBits == TotalBits(items, n)
      decreases |data| - i
    {
      NextItem(data, i, items, n);
      var ok, item, next := ReadItem(data, i);
      if !ok {
        return false;
      }
      i := next;
      ok, g, stack, outputBits := Interpret(item, g, stack, outputBits, items, n);
      n := n + 1;
      if !ok {
        OutOfOrder(items, n);
        return false;
      }
    }
    ScanStops(data, i, n);
    found := outputBits == RUMBLE_BITS;
  }
}
