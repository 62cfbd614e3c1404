/**
 * A whole receipt through the parser and the split: the three lines
 * "Pizza 12,50", "Cola 3x 1,20" and "ОБЩА СУМА 16,10". The code keeps all
 * three: the total line carries its amount, so the anchored skip pattern
 * does not match it, and the quantity after "Cola" is not a prefix.
 */
module Scenario {
  import opened Options
  import opened Strings
  import opened Money
  import opened Bills
  import opened Receipt
  import opened ReceiptFacts
  import opened ReceiptExamples
  import opened Split

  lemma PizzaAt(s: string)
    requires s == "Pizza 12,50"
    ensures MatchAt(s, 5) == Some(PriceMatch(5, 11, " 12", "50"))
  {
    SpanIs(s, 5, DigitOrSpace, 8);
    SpanIs(s, 11, Space, 11);
    assert s[5..8] == " 12" && s[9..11] == "50";
    assert CurrencyLength(s, 11) == 0;
  }

  lemma PizzaNoEarlierMatch(s: string)
    requires s == "Pizza 12,50"
    ensures forall p :: 0 <= p < 5 ==> MatchAt(s, p).None?
  {
    forall p | 0 <= p < 5 ensures MatchAt(s, p).None? {
      NoMatchAt(s, p);
    }
  }

  lemma PizzaMatch(s: string)
    requires s == "Pizza 12,50"
    ensures LastPriceMatch(s) == Some(PriceMatch(5, 11, " 12", "50"))
  {
    PizzaAt(s);
    PizzaNoEarlierMatch(s);
    OnlyMatch(s, 5, PriceMatch(5, 11, " 12", "50"));
  }

  lemma PizzaCents(m: PriceMatch)
    requires m == PriceMatch(5, 11, " 12", "50")
    ensures WellFormed(m) && PriceCents(m) == 1250
  {
    PizzaWellFormed(m);
    assert m.intPart[1..] == "12";
    SpaceThenDigits(m.intPart);
    assert DigitsValue("12") == 12;
    assert DigitsValue("50") == 50;
  }

  lemma PizzaWellFormed(m: PriceMatch)
    requires m == PriceMatch(5, 11, " 12", "50")
    ensures WellFormed(m)
  {
    assert forall k :: 0 <= k < 3 ==> InClass(m.intPart[k], DigitOrSpace);
  }

  lemma PizzaLabel(t: string)
    requires t == "Pizza"
    ensures LabelOf(Trim(t)) == ("Pizza", 1)
  {
    PlainLabel(t);
  }

  lemma PizzaBefore(s: string)
    requires s == "Pizza 12,50"
    ensures LabelOf(Trim(s[..5])) == ("Pizza", 1)
  {
    assert s[..5] == "Pizza";
    PizzaLabel(s[..5]);
  }

  /** "Pizza 12,50" is one pizza at 12.50. */
  lemma PizzaLine(s: string)
    requires s == "Pizza 12,50"
    ensures ParseLine(s) == Some(Parsed("Pizza", 1250, 1))
  {
    var m := PriceMatch(5, 11, " 12", "50");
    assert '#' !in s && Trimmed(s);
    LatinLineKept(s);
    PizzaMatch(s);
    PizzaCents(m);
    PizzaBefore(s);
    ParsedAs(s, m, "Pizza", 1250, 1);
  }

  /** Three lines without line breaks, each trimmed and not blank, are read back as they were joined. */
  lemma ThreeLines(a: string, b: string, c: string)
    requires OneLine(a) && OneLine(b) && OneLine(c)
    ensures ReceiptLines(a + "\n" + b + "\n" + c) == [a, b, c]
  {
    var ls := [a, b, c];
    assert JoinLines(ls[1..][1..]) == c;
    assert JoinLines(ls[1..]) == b + "\n" + c;
    assert JoinLines(ls) == a + "\n" + b + "\n" + c;
    SplitJoin(ls);
    TrimmedNonBlankKeeps(ls);
  }

  /** A line the parser reads as it is: no line break, not blank, no white space at either end. */
  predicate OneLine(s: string) {
    '\n' !in s && s != "" && Trimmed(s)
  }

  lemma ScenarioLinesRead(a: string, b: string, c: string)
    requires a == "Pizza 12,50" && b == "Cola 3x 1,20" && c == "ОБЩА СУМА 16,10"
    ensures OneLine(a) && OneLine(b) && OneLine(c)
  {
  }

  /** The rows of three lines are the rows of each, in order. */
  lemma RowsOfThree(f: string -> seq<Parsed>, a: string, b: string, c: string)
    ensures RowsOf(f, [a, b, c]) == f(a) + f(b) + f(c)
  {
    var l3, l2, l1 := [a, b, c], [a, b], [a];
    assert l3[..2] == l2 && l2[..1] == l1 && l1[..0] == [];
    assert RowsOf(f, l1) == f(a);
    assert RowsOf(f, l2) == RowsOf(f, l1) + f(b);
    assert RowsOf(f, l3) == RowsOf(f, l2) + f(c);
  }

  /** Three lines give the rows of each, in order. */
  lemma ThreeRows(a: string, b: string, c: string)
    ensures ParseLines([a, b, c]) == LineRows(a) + LineRows(b) + LineRows(c)
  {
    RowsOfThree(LineRows, a, b, c);
  }

  /** A text of three readable lines that give a row each gives those rows, in order. */
  lemma ReceiptOfThree(text: string, a: string, b: string, c: string, pa: Parsed, pb: Parsed, pc: Parsed)
    requires OneLine(a) && OneLine(b) && OneLine(c) && text == a + "\n" + b + "\n" + c
    requires ParseLine(a) == Some(pa) && ParseLine(b) == Some(pb) && ParseLine(c) == Some(pc)
    ensures ParseLines(ReceiptLines(text)) == [pa, pb, pc]
  {
    ThreeLines(a, b, c);
    ThreeRows(a, b, c);
    assert LineRows(a) == [pa] && LineRows(b) == [pb] && LineRows(c) == [pc];
    Cat3(pa, pb, pc);
  }

  lemma Cat3<T>(x: T, y: T, z: T)
    ensures [x] + [y] + [z] == [x, y, z]
  {
  }

  /** The three lines of the receipt are read as they are, and each gives its row. */
  lemma ScenarioLineRows(a: string, b: string, c: string)
    requires a == "Pizza 12,50" && b == "Cola 3x 1,20" && c == "ОБЩА СУМА 16,10"
    ensures OneLine(a) && OneLine(b) && OneLine(c)
    ensures ParseLine(a) == Some(Parsed("Pizza", 1250, 1))
    ensures ParseLine(b) == Some(Parsed("Cola 3x", 120, 1))
    ensures ParseLine(c) == Some(Parsed("ОБЩА СУМА", 1610, 1))
  {
    ScenarioLinesRead(a, b, c);
    PizzaLine(a);
    QuantityAfterName(b);
    TotalWithAmountKept(c);
  }

  /** Three rows, each of quantity 1, become three items with ids from `firstId` whose totals are their prices. */
  lemma ItemsOfThree(text: string, firstId: int, pa: Parsed, pb: Parsed, pc: Parsed)
    requires ParseLines(ReceiptLines(text)) == [pa, pb, pc]
    requires pa.qty == 1 && pb.qty == 1 && pc.qty == 1
    ensures var items := ReceiptItems(text, firstId);
      |items| == 3
      && items[0].id == firstId && items[1].id == firstId + 1 && items[2].id == firstId + 2
      && items[0].title == pa.title && items[1].title == pb.title && items[2].title == pc.title
      && ItemTotal(items[0]) == pa.cents as real / 100.0
      && ItemTotal(items[1]) == pb.cents as real / 100.0
      && ItemTotal(items[2]) == pc.cents as real / 100.0
  {
    ReceiptItemsShape(text, firstId);
    var items := ReceiptItems(text, firstId);
    var ps := ParseLines(ReceiptLines(text));
    assert ps[0] == pa && ps[1] == pb && ps[2] == pc;
    TotalOfOne(items[0]);
    TotalOfOne(items[1]);
    TotalOfOne(items[2]);
  }

  /** An item of quantity 1 costs its price. */
  lemma TotalOfOne(it: Item)
    requires it.qty == 1
    ensures ItemTotal(it) == NumericValue(it.price)
  {
  }

  /**
   * The receipt gives three rows, Pizza, "Cola 3x" (the quantity after the
   * name is not taken) and the total line, and a bill total of 29.80. With
   * Pizza assigned to person 1, Cola to persons 1 and 2 and the total line
   * to nobody, person 1 owes 12.50 + 0.60 = 13.10 and person 2 owes 0.60.
   */
  lemma EndToEnd(text: string, a: string, b: string, c: string, firstId: int)
    requires a == "Pizza 12,50" && b == "Cola 3x 1,20" && c == "ОБЩА СУМА 16,10"
    requires text == a + "\n" + b + "\n" + c
    ensures var items := ReceiptItems(text, firstId);
      |items| == 3
      && items[0].title == "Pizza" && items[1].title == "Cola 3x" && items[2].title == "ОБЩА СУМА"
      && TotalSum(items) == 29.80
    ensures var asg := map[firstId := [1], firstId + 1 := [1, 2]];
      Owed(ReceiptItems(text, firstId), asg, 1) == 13.10 && Owed(ReceiptItems(text, firstId), asg, 2) == 0.60
  {
    var pa, pb, pc := Parsed("Pizza", 1250, 1), Parsed("Cola 3x", 120, 1), Parsed("ОБЩА СУМА", 1610, 1);
    ScenarioLineRows(a, b, c);
    ReceiptOfThree(text, a, b, c, pa, pb, pc);
    ItemsOfThree(text, firstId, pa, pb, pc);
    ThreeItems(ReceiptItems(text, firstId), firstId);
  }

  /** The total of three items is the sum of their totals. */
  lemma ThreeTotal(items: seq<Item>)
    requires |items| == 3
    ensures TotalSum(items) == ItemTotal(items[0]) + ItemTotal(items[1]) + ItemTotal(items[2])
  {
    var i2, i1 := items[..2], items[..1];
    assert i2[..1] == i1 && i1[..0] == [] && items[..2] == i2;
    assert TotalSum(i1) == ItemTotal(items[0]);
    assert TotalSum(i2) == TotalSum(i1) + ItemTotal(items[1]);
    assert TotalSum(items) == TotalSum(i2) + ItemTotal(items[2]);
  }

  /** What a person owes for three items is the sum of the three shares. */
  lemma ThreeOwed(items: seq<Item>, asg: map<int, seq<int>>, pid: int)
    requires |items| == 3
    ensures Owed(items, asg, pid) == Share(items[0], asg, pid) + Share(items[1], asg, pid) + Share(items[2], asg, pid)
  {
    var i2, i1 := items[..2], items[..1];
    assert i2[..1] == i1 && i1[..0] == [] && items[..2] == i2;
    assert Owed(i1, asg, pid) == Share(items[0], asg, pid);
    assert Owed(i2, asg, pid) == Owed(i1, asg, pid) + Share(items[1], asg, pid);
    assert Owed(items, asg, pid) == Owed(i2, asg, pid) + Share(items[2], asg, pid);
  }

  /** An item assigned to `pid` alone is all theirs. */
  lemma ShareAlone(it: Item, asg: map<int, seq<int>>, pid: int)
    requires Assignees(asg, it.id) == [pid]
    ensures Share(it, asg, pid) == ItemTotal(it)
  {
    assert [pid][..0] == [];
    assert Count([pid], pid) == 1;
    assert Times(1, ItemTotal(it) / 1.0) == ItemTotal(it);
  }

  /** An item assigned to two people is half theirs each. */
  lemma SharePair(it: Item, asg: map<int, seq<int>>, p: int, q: int)
    requires Assignees(asg, it.id) == [p, q] && p != q
    ensures Share(it, asg, p) == ItemTotal(it) / 2.0 && Share(it, asg, q) == ItemTotal(it) / 2.0
  {
    var l := [p, q];
    assert l[..1] == [p] && l[..1][..0] == [];
    assert Count(l, p) == 1 && Count(l, q) == 1;
    assert Times(1, ItemTotal(it) / 2.0) == ItemTotal(it) / 2.0;
  }

  /** The totals and the split of three items with ids from `firstId` costing 12.50, 1.20 and 16.10. */
  lemma ThreeItems(items: seq<Item>, firstId: int)
    requires |items| == 3
    requires items[0].id == firstId && items[1].id == firstId + 1 && items[2].id == firstId + 2
    requires ItemTotal(items[0]) == 12.50 && ItemTotal(items[1]) == 1.20 && ItemTotal(items[2]) == 16.10
    ensures TotalSum(items) == 29.80
    ensures var asg := map[firstId := [1], firstId + 1 := [1, 2]];
      Owed(items, asg, 1) == 13.10 && Owed(items, asg, 2) == 0.60
  {
    ThreeTotal(items);
    var asg := map[firstId := [1], firstId + 1 := [1, 2]];
    ThreeOwed(items, asg, 1);
    ThreeOwed(items, asg, 2);
    assert Assignees(asg, items[0].id) == [1];
    assert Assignees(asg, items[1].id) == [1, 2];
    assert Assignees(asg, items[2].id) == [];
    ShareAlone(items[0], asg, 1);
    ShareUnassigned(items[0], asg, 2);
    SharePair(items[1], asg, 1, 2);
    ShareUnassigned(items[2], asg, 1);
    ShareUnassigned(items[2], asg, 2);
  }
}
