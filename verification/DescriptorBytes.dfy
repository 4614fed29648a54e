/** Report descriptors byte by byte: what is encoded is read back, what cannot be read is refused, and
    which sizes of the rumble report are accepted. */
module DescriptorBytes {
  import opened Descriptor

  // ---------------------------------------------------------------- encoding

  /** A short item as it is sent: tag, and a value of no, one, two or four bytes. */
  datatype Sent = Sent(tag: nat, length: nat, value: nat)

  predicate Sendable(s: Sent) {
    s.tag < 0xfc && s.tag % 4 == 0 && s.length in {0, 1, 2, 4} && s.value < Power(s.length)
  }

  function Digits(value: nat, length: nat): (bytes: seq<Byte>)
    ensures |bytes| == length
  {
    if length == 0 then [] else [(value % 256) as Byte] + Digits(value / 256, length - 1)
  }

  function Encoded(s: Sent): (bytes: seq<Byte>)
    requires Sendable(s)
    ensures |bytes| == 1 + s.length
  {
    [(s.tag + if s.length == 4 then 3 else s.length) as Byte] + Digits(s.value, s.length)
  }

  function Stream(sent: seq<Sent>): seq<Byte>
    requires forall i | 0 <= i < |sent| :: Sendable(sent[i])
  {
    if sent == [] then [] else Encoded(sent[0]) + Stream(sent[1..])
  }

  function Meant(sent: seq<Sent>): seq<Item> {
    seq(|sent|, i requires 0 <= i < |sent| => Item(sent[i].tag, sent[i].value))
  }

  lemma {:induction false} DigitsRead(value: nat, length: nat)
    requires value < Power(length)
    ensures Little(Digits(value, length)) == value
  {
    if length > 0 {
      assert value / 256 < Power(length - 1);
      DigitsRead(value / 256, length - 1);
      assert Digits(value, length)[1..] == Digits(value / 256, length - 1);
    }
  }

  lemma FirstRead(s: Sent, rest: seq<Byte>)
    requires Sendable(s)
    ensures var data := Encoded(s) + rest;
            && Readable(data) && 1 + Length(data[0]) == 1 + s.length && data[1 + Length(data[0])..] == rest
            && First(data) == Item(s.tag, s.value)
  {
    var data := Encoded(s) + rest;
    assert data[1..1 + s.length] == Digits(s.value, s.length);
    DigitsRead(s.value, s.length);
  }

  lemma ItemsStep(data: seq<Byte>)
    requires Readable(data)
    ensures Items(data) == [First(data)] + Items(data[1 + Length(data[0])..])
    ensures WellFormed(data) <==> WellFormed(data[1 + Length(data[0])..])
  {}

  lemma MeantStep(sent: seq<Sent>)
    requires sent != []
    ensures Meant(sent) == [Item(sent[0].tag, sent[0].value)] + Meant(sent[1..])
  {}

  /** Every stream of short items is read back as sent, whatever follows it. */
  lemma {:induction false} StreamRead(sent: seq<Sent>, rest: seq<Byte>)
    requires forall i | 0 <= i < |sent| :: Sendable(sent[i])
    ensures Items(Stream(sent) + rest) == Meant(sent) + Items(rest)
    ensures WellFormed(Stream(sent) + rest) <==> WellFormed(rest)
    decreases |sent|
  {
    hide Readable, First, Length, Encoded, Items, WellFormed, Meant, Sendable;
    if sent == [] {
      assert Stream(sent) + rest == rest && |Meant(sent)| == 0 by { NothingMeant(sent); }
      assert Meant(sent) + Items(rest) == Items(rest);
    } else {
      var tail := Stream(sent[1..]) + rest;
      assert Stream(sent) + rest == Encoded(sent[0]) + tail;
      FirstRead(sent[0], tail);
      ItemsStep(Encoded(sent[0]) + tail);
      StreamRead(sent[1..], rest);
      MeantStep(sent);
      assert Meant(sent) + Items(rest) == [Item(sent[0].tag, sent[0].value)] + (Meant(sent[1..]) + Items(rest));
    }
  }

  lemma NothingMeant(sent: seq<Sent>)
    requires sent == []
    ensures Meant(sent) == []
  {}

  /** A long item and an item that is cut off are refused wherever they stand. */
  lemma BrokenIsRefused(sent: seq<Sent>, tag: Byte, rest: seq<Byte>)
    requires forall i | 0 <= i < |sent| :: Sendable(sent[i])
    requires tag == 0xfe || |rest| < (if tag % 4 == 3 then 4 else (tag % 4) as int)
    ensures !Supports(Stream(sent) + ([tag] + rest))
  {
    StreamRead(sent, [tag] + rest);
    assert ([tag] + rest)[0] == tag;
  }

  // ---------------------------------------------------------------- sizes

  /** What a stream means is what its items say. */
  lemma StreamMeans(sent: seq<Sent>)
    requires forall i | 0 <= i < |sent| :: Sendable(sent[i])
    ensures var items := Meant(sent);
            Supports(Stream(sent)) <==>
            Matched(items, |items|) && Modest(items, |items|) && TotalBits(items, |items|) == RUMBLE_BITS
  {
    hide Meant, Matched, Modest;
    StreamRead(sent, []);
    assert Stream(sent) + [] == Stream(sent) && Meant(sent) + [] == Meant(sent);
  }

  /** One output report: size, identifier and number of its fields. */
  lemma ReportExactly(size: Sent, id: Sent, count: Sent, output: Sent)
    requires Sendable(size) && Sendable(id) && Sendable(count) && Sendable(output)
    requires size.tag == 0x74 && id.tag == 0x84 && count.tag == 0x94 && output.tag == 0x90
    ensures Supports(Stream([size, id, count, output])) <==> id.value == 5 && size.value * count.value == 248
  {
    var sent := [size, id, count, output];
    StreamMeans(sent);
    var items := Meant(sent);
    OneReport(items, size.value, id.value, count.value);
  }

  lemma OneReport(items: seq<Item>, size: nat, id: nat, count: nat)
    requires |items| == 4 && items[0] == Item(0x74, size) && items[1] == Item(0x84, id) && items[2] == Item(0x94, count)
    requires items[3].tag == 0x90
    ensures Matched(items, 4) && Modest(items, 4) && TotalBits(items, 4) == 248 <==> id == 5 && size * count == 248
  {
    assert GlobalsAt(items, 0) == Globals(0, 0, 0);
    assert GlobalsAt(items, 1) == Globals(0, size, 0);
    assert GlobalsAt(items, 2) == Globals(id, size, 0);
    assert GlobalsAt(items, 3) == Globals(id, size, count);
    assert TotalBits(items, 0) == TotalBits(items, 1) == TotalBits(items, 2) == TotalBits(items, 3) == 0;
    assert TotalBits(items, 4) == if id == 5 then size * count else 0;
    if size * count == 248 {
      Factors(size, count);
    }
  }

  lemma Factors(x: nat, y: nat)
    requires x * y == 248
    ensures x <= 248 && y <= 248
  {
    if x > 248 || y > 248 {
      assert x >= 1 && y >= 1;
      Larger(x, y);
    }
  }

  lemma Larger(x: nat, y: nat)
    requires x >= 1 && y >= 1
    ensures x * y >= x && x * y >= y
  {}

  /** A report inside a push and its pop has its own size and identifier; after the pop those before
      the push apply again, and the sizes of both add up. */
  lemma NestedExactly(size: nat, id: nat, count: nat, size2: nat, id2: nat, count2: nat, items: seq<Item>)
    requires |items| == 10
    requires items[0] == Item(0x74, size) && items[1] == Item(0x84, id) && items[2] == Item(0x94, count)
    requires items[3].tag == 0xa4
    requires items[4] == Item(0x74, size2) && items[5] == Item(0x84, id2) && items[6] == Item(0x94, count2)
    requires items[7].tag == 0x90 && items[8].tag == 0xb4 && items[9].tag == 0x90
    ensures Matched(items, 10)
    ensures TotalBits(items, 10) == (if id2 == 5 then size2 * count2 else 0) + (if id == 5 then size * count else 0)
    ensures Modest(items, 10) <==> (id2 == 5 ==> size2 <= 248 && count2 <= 248) && (id == 5 ==> size <= 248 && count <= 248)
  {
    hide Area;
    Inner(size, id, count, size2, id2, count2, items);
    assert TotalBits(items, 7) == 0 by {
      assert TotalBits(items, 0) == TotalBits(items, 1) == TotalBits(items, 2) == TotalBits(items, 3) == TotalBits(items, 4)
        == TotalBits(items, 5) == TotalBits(items, 6) == 0;
    }
    assert TotalBits(items, 8) == if id2 == 5 then Area(Globals(id2, size2, count2)) else 0;
    assert TotalBits(items, 9) == TotalBits(items, 8);
    assert Area(Globals(id2, size2, count2)) == size2 * count2 && Area(Globals(id, size, count)) == size * count
      by { AreaIs(size, count, id); AreaIs(size2, count2, id2); }
    assert IsRumbleOutput(items, 7) <==> id2 == 5;
    assert IsRumbleOutput(items, 9) <==> id == 5;
  }

  lemma AreaIs(size: nat, count: nat, id: nat)
    ensures Area(Globals(id, size, count)) == size * count
  {}

  lemma Inner(size: nat, id: nat, count: nat, size2: nat, id2: nat, count2: nat, items: seq<Item>)
    requires |items| == 10
    requires items[0] == Item(0x74, size) && items[1] == Item(0x84, id) && items[2] == Item(0x94, count)
    requires items[3].tag == 0xa4
    requires items[4] == Item(0x74, size2) && items[5] == Item(0x84, id2) && items[6] == Item(0x94, count2)
    requires items[7].tag == 0x90 && items[8].tag == 0xb4 && items[9].tag == 0x90
    ensures Depth(items, 8) == 1 && Matched(items, 10)
    ensures GlobalsAt(items, 7) == Globals(id2, size2, count2) && GlobalsAt(items, 9) == Globals(id, size, count)
  {
    assert Depth(items, 0) == Depth(items, 1) == Depth(items, 2) == Depth(items, 3) == 0;
    assert Depth(items, 4) == Depth(items, 5) == Depth(items, 6) == Depth(items, 7) == Depth(items, 8) == 1;
    assert GlobalsAt(items, 0) == Globals(0, 0, 0);
    assert GlobalsAt(items, 1) == Globals(0, size, 0);
    assert GlobalsAt(items, 2) == Globals(id, size, 0);
    assert GlobalsAt(items, 3) == GlobalsAt(items, 4) == Globals(id, size, count);
    assert GlobalsAt(items, 5) == Globals(id, size2, count);
    assert GlobalsAt(items, 6) == Globals(id2, size2, count);
    assert GlobalsAt(items, 7) == GlobalsAt(items, 8) == Globals(id2, size2, count2);
    assert Opener(items, 8, 0) == Opener(items, 7, 0) == Opener(items, 6, 0) == Opener(items, 5, 0) == Opener(items, 4, 0) == 3;
  }

  /** The same for the bytes of such a descriptor. */
  lemma NestedReports(a: seq<Sent>, push: Sent, b: seq<Sent>, inner: Sent, pop: Sent, outer: Sent)
    requires |a| == |b| == 3 && (forall i | 0 <= i < 3 :: Sendable(a[i]) && Sendable(b[i]))
    requires Sendable(push) && Sendable(inner) && Sendable(pop) && Sendable(outer)
    requires a[0].tag == b[0].tag == 0x74 && a[1].tag == b[1].tag == 0x84 && a[2].tag == b[2].tag == 0x94
    requires push.tag == 0xa4 && pop.tag == 0xb4 && inner.tag == outer.tag == 0x90
    ensures Supports(Stream(a + [push] + b + [inner, pop, outer])) <==>
            && (a[1].value == 5 ==> a[0].value <= 248 && a[2].value <= 248)
            && (b[1].value == 5 ==> b[0].value <= 248 && b[2].value <= 248)
            && (if a[1].value == 5 then a[0].value * a[2].value else 0)
               + (if b[1].value == 5 then b[0].value * b[2].value else 0) == 248
  {
    var sent := a + [push] + b + [inner, pop, outer];
    forall i | 0 <= i < |sent| ensures Sendable(sent[i]) {}
    StreamMeans(sent);
    NestedExactly(a[0].value, a[1].value, a[2].value, b[0].value, b[1].value, b[2].value, Meant(sent));
    hide Matched, Modest, TotalBits, Sendable, Supports;
  }

  /** A pop without a push is refused. */
  lemma PopNeedsPush(pop: Sent, sent: seq<Sent>)
    requires Sendable(pop) && pop.tag == 0xb4 && forall i | 0 <= i < |sent| :: Sendable(sent[i])
    ensures !Supports(Stream([pop] + sent))
  {
    hide Modest, TotalBits, Sendable;
    StreamMeans([pop] + sent);
    var items := Meant([pop] + sent);
    assert items[0].tag == POP && Depth(items, 0) == 0;
  }

  // ---------------------------------------------------------------- items of no concern

  /** Local and main items other than outputs, and global items such as units and ranges. */
  predicate Foreign(x: Item) { x.tag !in {0x74, 0x84, 0x94, 0xa4, 0xb4, 0x90} }

  lemma {:induction false} DepthAfter(x: Item, items: seq<Item>, k: nat)
    requires Foreign(x) && k <= |items|
    ensures Depth([x] + items, k + 1) == Depth(items, k)
  {
    if k > 0 {
      DepthAfter(x, items, k - 1);
    } else {
      assert Depth([x] + items, 0) == 0;
    }
  }

  lemma {:induction false} OpenerAfter(x: Item, items: seq<Item>, k: nat, depth: int)
    requires Foreign(x) && k <= |items| && 0 <= depth < Depth(items, k)
    ensures Opener([x] + items, k + 1, depth) == Opener(items, k, depth) + 1
  {
    if k > 0 {
      DepthAfter(x, items, k - 1);
      if !(items[k - 1].tag == PUSH && Depth(items, k - 1) == depth) {
        OpenerAfter(x, items, k - 1, depth);
      }
    }
  }

  lemma {:induction false} GlobalsAfter(x: Item, items: seq<Item>, k: nat)
    requires Foreign(x) && k <= |items|
    ensures GlobalsAt([x] + items, k + 1) == GlobalsAt(items, k)
    decreases k
  {
    if k == 0 {
      assert GlobalsAt([x] + items, 0) == NO_GLOBALS;
    } else if items[k - 1].tag == POP {
      DepthAfter(x, items, k - 1);
      var depth := Depth(items, k - 1) - 1;
      if depth >= 0 {
        OpenerAfter(x, items, k - 1, depth);
        GlobalsAfter(x, items, Opener(items, k - 1, depth));
      }
    } else {
      GlobalsAfter(x, items, k - 1);
    }
  }

  lemma {:induction false} TotalAfter(x: Item, items: seq<Item>, k: nat)
    requires Foreign(x) && k <= |items|
    ensures TotalBits([x] + items, k + 1) == TotalBits(items, k)
  {
    hide GlobalsAt;
    if k > 0 {
      GlobalsAfter(x, items, k - 1);
      TotalAfter(x, items, k - 1);
    } else {
      assert TotalBits([x] + items, 0) == 0;
    }
  }

  /** An item of no concern in front changes nothing. */
  lemma ForeignIsIgnored(x: Sent, sent: seq<Sent>)
    requires Sendable(x) && (forall i | 0 <= i < |sent| :: Sendable(sent[i])) && Foreign(Item(x.tag, x.value))
    ensures Supports(Stream([x] + sent)) <==> Supports(Stream(sent))
  {
    hide GlobalsAt, Depth, TotalBits, Sendable, Supports, Matched, Modest, Meant, Stream;
    var first, items := Item(x.tag, x.value), Meant(sent);
    StreamMeans(sent);
    StreamMeans([x] + sent);
    assert ([x] + sent)[1..] == sent;
    MeantStep([x] + sent);
    TotalAfter(first, items, |items|);
    SameMatched(first, items);
    SameModest(first, items);
  }

  lemma SameMatched(x: Item, items: seq<Item>)
    requires Foreign(x)
    ensures var all := [x] + items; Matched(all, |all|) <==> Matched(items, |items|)
  {
    hide Depth;
    var all := [x] + items;
    forall k | 0 <= k < |items| ensures Depth(all, k + 1) == Depth(items, k) && all[k + 1] == items[k] {
      DepthAfter(x, items, k);
    }
    if Matched(items, |items|) {
      forall k | 0 <= k < |all| && all[k].tag == POP ensures Depth(all, k) > 0 {
        assert Depth(all, (k - 1) + 1) == Depth(items, k - 1);
      }
    } else {
      var k :| 0 <= k < |items| && items[k].tag == POP && Depth(items, k) <= 0;
      assert all[k + 1].tag == POP && Depth(all, k + 1) <= 0;
    }
  }

  lemma SameModest(x: Item, items: seq<Item>)
    requires Foreign(x)
    ensures var all := [x] + items; Modest(all, |all|) <==> Modest(items, |items|)
  {
    hide GlobalsAt;
    var all := [x] + items;
    forall k | 0 <= k < |items| ensures GlobalsAt(all, k + 1) == GlobalsAt(items, k) && all[k + 1] == items[k] {
      GlobalsAfter(x, items, k);
    }
    if Modest(items, |items|) {
      forall k | 0 <= k < |all| && IsRumbleOutput(all, k)
        ensures GlobalsAt(all, k).bits <= RUMBLE_BITS && GlobalsAt(all, k).count <= RUMBLE_BITS {
        assert IsRumbleOutput(items, k - 1);
        assert GlobalsAt(all, (k - 1) + 1) == GlobalsAt(items, k - 1);
      }
    } else {
      var k :| 0 <= k < |items| && IsRumbleOutput(items, k)
        && (GlobalsAt(items, k).bits > RUMBLE_BITS || GlobalsAt(items, k).count > RUMBLE_BITS);
      assert IsRumbleOutput(all, k + 1);
    }
  }
}