/**
 * Totals and the split of the bill: what each item costs, what each person
 * owes once every assigned item is shared out evenly among its assignees, the
 * order of the summary, and the text of the copied summary. Amounts are exact
 * reals: the source's floating point rounding is not modelled.
 */
module Split {
  import opened Strings
  import opened Money
  import opened Bills

  // ----- getItemTotal, getTotalSum -----

  /** `getItemTotal`: the price read as a number (0 when it does not read), times the quantity. */
  function ItemTotal(it: Item): real {
    NumericValue(it.price) * it.qty as real
  }

  /** `getTotalSum`: the `reduce` that adds up the item totals from the first item to the last. */
  function TotalSum(items: seq<Item>): real {
    if items == [] then 0.0 else TotalSum(items[..|items| - 1]) + ItemTotal(items[|items| - 1])
  }

  /** The total of the items of `a` then of `b` is the sum of their totals. */
  lemma {:induction false} TotalSumAppend(a: seq<Item>, b: seq<Item>)
    ensures TotalSum(a + b) == TotalSum(a) + TotalSum(b)
    decreases |b|
  {
    if b == [] {
      assert a + b == a;
    } else {
      TotalSumAppend(a, b[..|b| - 1]);
      assert (a + b)[..|a + b| - 1] == a + b[..|b| - 1];
    }
  }

  /** The total does not depend on the order of the items: moving one item to the end leaves it unchanged. */
  lemma TotalSumMoveLast(a: seq<Item>, it: Item, b: seq<Item>)
    ensures TotalSum(a + [it] + b) == TotalSum(a + b + [it])
  {
    TotalSumAppend(a + [it], b);
    TotalSumAppend(a, [it]);
    TotalSumAppend(a + b, [it]);
    TotalSumAppend(a, b);
  }

  // ----- The owes computation of renderSummary and of the copy button -----

  /** `state.assignments[id] || []`. */
  function Assignees(assignments: map<int, seq<int>>, id: int): seq<int> {
    if id in assignments then assignments[id] else []
  }

  /** How many times `x` occurs in `s`. */
  function Count(s: seq<int>, x: int): (n: nat)
    ensures n <= |s|
  {
    if s == [] then 0 else Count(s[..|s| - 1], x) + if s[|s| - 1] == x then 1 else 0
  }

  /** `x` is counted no times exactly when it is not in `s`. */
  lemma {:induction false} CountZero(s: seq<int>, x: int)
    ensures Count(s, x) == 0 <==> x !in s
    decreases |s|
  {
    if s != [] {
      var init := s[..|s| - 1];
      CountZero(init, x);
      assert s == init + [s[|s| - 1]];
    }
  }

  /**
   * One person's part of an amount `total` shared among the ids `ids`:
   * `total / ids.length`, once for each time `pid` is in `ids`; nothing when
   * `ids` is empty.
   */
  function Slice(total: real, ids: seq<int>, pid: int): real {
    if |ids| == 0 then 0.0 else Times(Count(ids, pid), total / |ids| as real)
  }

  /** `x` added `n` times over, as the owes loop adds `perPerson` once for each place. */
  function Times(n: nat, x: real): real {
    if n == 0 then 0.0 else Times(n - 1, x) + x
  }

  lemma {:induction false} TimesAdd(a: nat, b: nat, x: real)
    ensures Times(a + b, x) == Times(a, x) + Times(b, x)
    decreases b
  {
    if b > 0 {
      TimesAdd(a, b - 1, x);
    }
  }

  /** Adding `x` up `n` times is multiplying it by `n`. */
  lemma {:induction false} TimesIsProduct(n: nat, x: real)
    ensures Times(n, x) == n as real * x
  {
    if n > 0 {
      TimesIsProduct(n - 1, x);
      assert (n - 1) as real * x + x == n as real * x;
    }
  }

  /** What item `it` adds to person `pid`: its part of the item's total among the item's assignees. */
  function Share(it: Item, assignments: map<int, seq<int>>, pid: int): real {
    Slice(ItemTotal(it), Assignees(assignments, it.id), pid)
  }

  /** What person `pid` owes for `items`: the shares of the items, added in item order. */
  function Owed(items: seq<Item>, assignments: map<int, seq<int>>, pid: int): real {
    if items == [] then 0.0
    else Owed(items[..|items| - 1], assignments, pid) + Share(items[|items| - 1], assignments, pid)
  }

  /** `owes[pid] || 0`. */
  function Get(owes: map<int, real>, pid: int): real {
    if pid in owes then owes[pid] else 0.0
  }

  /**
   * The owes computation: everybody in `people` starts at 0, then each item
   * with assignees adds `total / n` to each of its `n` assignees. Every person
   * has an entry, and the entry of every id is what `Owed` says.
   */
  method ComputeOwes(items: seq<Item>, assignments: map<int, seq<int>>, people: seq<Person>)
    returns (owes: map<int, real>)
    ensures forall k :: 0 <= k < |people| ==> people[k].id in owes
    ensures forall pid :: Get(owes, pid) == Owed(items, assignments, pid)
  {
    owes := map[];
    for k := 0 to |people|
      invariant forall j :: 0 <= j < k ==> people[j].id in owes
      invariant forall pid :: pid in owes ==> owes[pid] == 0.0
    {
      owes := owes[people[k].id := 0.0];
    }
    for i := 0 to |items|
      invariant forall j :: 0 <= j < |people| ==> people[j].id in owes
      invariant forall pid :: Get(owes, pid) == Owed(items[..i], assignments, pid)
    {
      var item := items[i];
      var ids := Assignees(assignments, item.id);
      if |ids| > 0 {
        var perPerson := ItemTotal(item) / |ids| as real;
        owes := AddShares(owes, ids, perPerson);
        forall pid ensures Get(owes, pid) == Owed(items[..i + 1], assignments, pid) {
          OwedAt(items, i, assignments, pid);
          assert Share(item, assignments, pid) == Times(Count(ids, pid), perPerson);
        }
      } else {
        forall pid ensures Get(owes, pid) == Owed(items[..i + 1], assignments, pid) {
          OwedAt(items, i, assignments, pid);
        }
      }
    }
    assert items[..|items|] == items;
  }

  /**
   * `personIds.forEach(pid => { owes[pid] = (owes[pid] || 0) + perPerson; })`:
   * every id gets `perPerson` once for each of its places in `ids`, and keeps
   * its entry.
   */
  method AddShares(owes: map<int, real>, ids: seq<int>, perPerson: real) returns (r: map<int, real>)
    ensures forall pid :: pid in owes ==> pid in r
    ensures forall pid :: Get(r, pid) == Get(owes, pid) + Times(Count(ids, pid), perPerson)
  {
    r := owes;
    for j := 0 to |ids|
      invariant forall pid :: pid in owes ==> pid in r
      invariant forall pid :: Get(r, pid) == Get(owes, pid) + Times(Count(ids[..j], pid), perPerson)
    {
      r := r[ids[j] := Get(r, ids[j]) + perPerson];
      forall pid
        ensures Get(r, pid) == Get(owes, pid) + Times(Count(ids[..j + 1], pid), perPerson)
      {
        CountStep(ids, j, pid, perPerson);
      }
    }
    assert ids[..|ids|] == ids;
  }

  /** Counting one more element of `s` adds `per` once more for that element only. */
  lemma CountStep(s: seq<int>, j: nat, x: int, per: real)
    requires j < |s|
    ensures Times(Count(s[..j + 1], x), per) == Times(Count(s[..j], x), per) + if s[j] == x then per else 0.0
  {
    CountAt(s, j, x);
  }

  lemma CountAt(s: seq<int>, j: nat, x: int)
    requires j < |s|
    ensures Count(s[..j + 1], x) == Count(s[..j], x) + if s[j] == x then 1 else 0
  {
    assert s[..j + 1][..j] == s[..j];
  }

  /** What `pid` owes for the first `i + 1` items: what they owe for the first `i`, and the share of item `i`. */
  lemma OwedAt(items: seq<Item>, i: nat, assignments: map<int, seq<int>>, pid: int)
    requires i < |items|
    ensures Owed(items[..i + 1], assignments, pid) == Owed(items[..i], assignments, pid) + Share(items[i], assignments, pid)
  {
    assert items[..i + 1][..i] == items[..i];
  }

  // ----- What the split promises -----

  /** A person who is on no item's list owes nothing. */
  lemma {:induction false} OwedUnassigned(items: seq<Item>, assignments: map<int, seq<int>>, pid: int)
    requires forall k :: 0 <= k < |items| ==> pid !in Assignees(assignments, items[k].id)
    ensures Owed(items, assignments, pid) == 0.0
  {
    if items != [] {
      var init := items[..|items| - 1];
      assert forall k :: 0 <= k < |init| ==> init[k] == items[k];
      OwedUnassigned(init, assignments, pid);
      ShareUnassigned(items[|items| - 1], assignments, pid);
    }
  }

  /** An item whose list does not name `pid` adds nothing to what `pid` owes. */
  lemma ShareUnassigned(it: Item, assignments: map<int, seq<int>>, pid: int)
    requires pid !in Assignees(assignments, it.id)
    ensures Share(it, assignments, pid) == 0.0
  {
    var ids := Assignees(assignments, it.id);
    if |ids| > 0 {
      CountZero(ids, pid);
    }
  }

  /** An item nobody is assigned to adds nothing to anybody. */
  lemma OwedSkipsUnassigned(items: seq<Item>, it: Item, assignments: map<int, seq<int>>, pid: int)
    requires Assignees(assignments, it.id) == []
    ensures Owed(items + [it], assignments, pid) == Owed(items, assignments, pid)
  {
    assert (items + [it])[..|items|] == items;
  }

  /** The parts of an amount `total` shared among `l` that go to the ids `ids`, added up. */
  function Slices(total: real, l: seq<int>, ids: seq<int>): real {
    if ids == [] then 0.0 else Slices(total, l, ids[..|ids| - 1]) + Slice(total, l, ids[|ids| - 1])
  }

  /** What the people with ids `ids` owe for `items`, added up. */
  function OwedOver(items: seq<Item>, assignments: map<int, seq<int>>, ids: seq<int>): real {
    if ids == [] then 0.0
    else OwedOver(items, assignments, ids[..|ids| - 1]) + Owed(items, assignments, ids[|ids| - 1])
  }

  /** How many places of `s` the ids `ids` take up, counted for each id. */
  function CountOver(s: seq<int>, ids: seq<int>): nat {
    if ids == [] then 0 else CountOver(s, ids[..|ids| - 1]) + Count(s, ids[|ids| - 1])
  }

  lemma {:induction false} CountOverSnoc(s: seq<int>, y: int, ids: seq<int>)
    ensures CountOver(s + [y], ids) == CountOver(s, ids) + Count(ids, y)
    decreases |ids|
  {
    assert (s + [y])[..|s|] == s;
    if ids != [] {
      CountOverSnoc(s, y, ids[..|ids| - 1]);
    }
  }

  /** In a list without repeats, an element that is there occurs once. */
  lemma {:induction false} CountDistinct(ids: seq<int>, y: int)
    requires Distinct(ids) && y in ids
    ensures Count(ids, y) == 1
    decreases |ids|
  {
    var init := ids[..|ids| - 1];
    assert Distinct(init);
    if ids[|ids| - 1] == y {
      CountZero(init, y);
      assert ids == init + [y];
      assert y !in init by {
        forall k | 0 <= k < |init| ensures init[k] != y {
          assert init[k] == ids[k];
        }
      }
    } else {
      assert y in init by {
        var k :| 0 <= k < |ids| && ids[k] == y;
        assert init[k] == y;
      }
      CountDistinct(init, y);
    }
  }

  /** Distinct ids that include every element of `s` take up all of `s`. */
  lemma {:induction false} CountOverCovers(s: seq<int>, ids: seq<int>)
    requires Distinct(ids) && forall x :: x in s ==> x in ids
    ensures CountOver(s, ids) == |s|
    decreases |s|
  {
    if s == [] {
      CountOverEmpty(ids);
    } else {
      var init, y := s[..|s| - 1], s[|s| - 1];
      assert s == init + [y];
      assert forall x :: x in init ==> x in s;
      CountOverCovers(init, ids);
      CountOverSnoc(init, y, ids);
      CountDistinct(ids, y);
    }
  }

  lemma {:induction false} CountOverEmpty(ids: seq<int>)
    ensures CountOver([], ids) == 0
    decreases |ids|
  {
    if ids != [] {
      CountOverEmpty(ids[..|ids| - 1]);
    }
  }

  /** The parts over some ids are the places those ids take up in `l`, each worth `total / n`. */
  lemma {:induction false} SlicesCount(total: real, l: seq<int>, ids: seq<int>)
    requires |l| > 0
    ensures Slices(total, l, ids) == Times(CountOver(l, ids), total / |l| as real)
    decreases |ids|
  {
    if ids != [] {
      SlicesCount(total, l, ids[..|ids| - 1]);
      TimesAdd(CountOver(l, ids[..|ids| - 1]), Count(l, ids[|ids| - 1]), total / |l| as real);
    }
  }

  /**
   * An amount shared among `l` is shared out exactly, over any ids without
   * repeats that include everybody in `l` (in particular over `l` itself when
   * it has no repeats); an amount shared among nobody is shared out as 0.
   */
  lemma SlicesSumToTotal(total: real, l: seq<int>, ids: seq<int>)
    requires Distinct(ids) && forall x :: x in l ==> x in ids
    ensures Slices(total, l, ids) == if |l| == 0 then 0.0 else total
  {
    if |l| == 0 {
      SlicesZero(total, l, ids);
    } else {
      SlicesCount(total, l, ids);
      CountOverCovers(l, ids);
      var n := |l| as real;
      TimesIsProduct(|l|, total / n);
      assert n * (total / n) == total;
    }
  }

  lemma {:induction false} SlicesZero(total: real, l: seq<int>, ids: seq<int>)
    requires |l| == 0
    ensures Slices(total, l, ids) == 0.0
    decreases |ids|
  {
    if ids != [] {
      SlicesZero(total, l, ids[..|ids| - 1]);
    }
  }

  /** One more item adds its shares to what the people owe, in total. */
  lemma {:induction false} OwedOverSnoc(items: seq<Item>, it: Item, assignments: map<int, seq<int>>, ids: seq<int>)
    ensures OwedOver(items + [it], assignments, ids) ==
      OwedOver(items, assignments, ids) + Slices(ItemTotal(it), Assignees(assignments, it.id), ids)
    decreases |ids|
  {
    assert (items + [it])[..|items|] == items;
    if ids != [] {
      OwedOverSnoc(items, it, assignments, ids[..|ids| - 1]);
    }
  }

  /** The total of the items that somebody is assigned to. */
  function AssignedTotal(items: seq<Item>, assignments: map<int, seq<int>>): real {
    if items == [] then 0.0
    else
      var it := items[|items| - 1];
      AssignedTotal(items[..|items| - 1], assignments)
      + if |Assignees(assignments, it.id)| == 0 then 0.0 else ItemTotal(it)
  }

  /**
   * Nothing is lost or made up: when the assignment lists name only people of
   * the bill and person ids do not repeat, what the people owe adds up to the
   * total of the assigned items.
   */
  lemma {:induction false} OwedAddsUp(items: seq<Item>, assignments: map<int, seq<int>>, people: seq<Person>)
    requires Distinct(PersonIds(people))
    requires forall k, x :: k in assignments && x in assignments[k] ==> x in PersonIds(people)
    ensures OwedOver(items, assignments, PersonIds(people)) == AssignedTotal(items, assignments)
    decreases |items|
  {
    var ids := PersonIds(people);
    if items == [] {
      OwedOverNone(assignments, ids);
    } else {
      var init, it := items[..|items| - 1], items[|items| - 1];
      assert items == init + [it];
      OwedAddsUp(init, assignments, people);
      OwedOverSnoc(init, it, assignments, ids);
      SlicesSumToTotal(ItemTotal(it), Assignees(assignments, it.id), ids);
    }
  }

  lemma {:induction false} OwedOverNone(assignments: map<int, seq<int>>, ids: seq<int>)
    ensures OwedOver([], assignments, ids) == 0.0
    decreases |ids|
  {
    if ids != [] {
      OwedOverNone(assignments, ids[..|ids| - 1]);
    }
  }

  /** When every item is assigned to somebody, what the people owe adds up to the bill's total. */
  lemma {:induction false} AllAssignedTotal(items: seq<Item>, assignments: map<int, seq<int>>)
    requires forall k :: 0 <= k < |items| ==> |Assignees(assignments, items[k].id)| > 0
    ensures AssignedTotal(items, assignments) == TotalSum(items)
    decreases |items|
  {
    if items != [] {
      AllAssignedTotal(items[..|items| - 1], assignments);
    }
  }

  // ----- The summary order -----

  /** Index `a` comes before index `b`: a larger amount, or the same amount and an earlier place. */
  predicate Before(keys: seq<real>, a: nat, b: nat)
    requires a < |keys| && b < |keys|
  {
    keys[a] > keys[b] || (keys[a] == keys[b] && a < b)
  }

  /** The indices `r` are in `Before` order. */
  predicate Ranked(keys: seq<real>, r: seq<nat>) {
    (forall i :: 0 <= i < |r| ==> r[i] < |keys|)
    && forall i, j :: 0 <= i < j < |r| ==> Before(keys, r[i], r[j])
  }

  /** Index `k` put into the ranked indices `r` at its place. */
  function Insert(keys: seq<real>, r: seq<nat>, k: nat): (r': seq<nat>)
    requires k < |keys| && Ranked(keys, r) && k !in r
    ensures |r'| == |r| + 1 && Ranked(keys, r')
    ensures forall x :: x in r' <==> x in r || x == k
  {
    if r == [] then [k]
    else if Before(keys, k, r[0]) then [k] + r
    else
      var rest := Insert(keys, r[1..], k);
      assert forall x :: x in r[1..] ==> x in r;
      assert forall j :: 0 <= j < |rest| ==> Before(keys, r[0], rest[j]) by {
        forall j | 0 <= j < |rest| ensures Before(keys, r[0], rest[j]) {
          if rest[j] != k {
            assert rest[j] in rest;
            assert rest[j] in r[1..];
            var i :| 0 <= i < |r[1..]| && r[1..][i] == rest[j];
            assert r[i + 1] == rest[j];
          }
        }
      }
      assert forall x :: x in r <==> x == r[0] || x in r[1..];
      [r[0]] + rest
  }

  /**
   * `[...state.people].sort((a, b) => owes[b.id] - owes[a.id])`, as the
   * indices of the people in the sorted list: the stable sort of the
   * specification (ES2019) puts a larger amount first and keeps equal amounts
   * in their original order.
   */
  function RankOrder(keys: seq<real>, n: nat): (r: seq<nat>)
    requires n <= |keys|
    ensures |r| == n && Ranked(keys, r)
    ensures forall x: nat :: x in r <==> x < n
    ensures forall i, j :: 0 <= i < j < |r| ==> r[i] != r[j]
  {
    if n == 0 then []
    else
      var r0 := RankOrder(keys, n - 1);
      var r := Insert(keys, r0, n - 1);
      assert forall x :: x in r <==> x in r0 || x == n - 1;
      r
  }

  /** The ranking of the amounts of `people`: `owes[p.id] || 0` for each of them in turn. */
  function Amounts(people: seq<Person>, owes: map<int, real>): (keys: seq<real>)
    ensures |keys| == |people| && forall k :: 0 <= k < |people| ==> keys[k] == Get(owes, people[k].id)
  {
    if people == [] then [] else [Get(owes, people[0].id)] + Amounts(people[1..], owes)
  }

  // ----- The text of an amount -----

  /** `Не дължи` ("owes nothing"), shown for an amount of exactly 0. */
  const OwesNothing: string := "Не дължи"

  /** An amount as the summary shows it: `Не дължи` for 0, else `formatMoney(x) + ' €'`. */
  function AmountText(x: real): (t: string)
    ensures x == 0.0 ==> t == OwesNothing
    ensures x != 0.0 ==> t == FormatMoney(x) + " €"
  {
    if x == 0.0 then OwesNothing else FormatMoney(x) + " €"
  }

  /** The lines of the copied summary, one per person in `people` order: `${name}: ${amount}`. */
  function SummaryLines(people: seq<Person>, owes: map<int, real>): (ls: seq<string>)
    ensures |ls| == |people|
    ensures forall k :: 0 <= k < |people| ==> ls[k] == people[k].name + ": " + AmountText(Get(owes, people[k].id))
  {
    if people == [] then [] else [people[0].name + ": " + AmountText(Get(owes, people[0].id))] + SummaryLines(people[1..], owes)
  }

  /** No amount text holds a line break. */
  lemma AmountTextOneLine(x: real)
    ensures '\n' !in AmountText(x)
  {
    if x != 0.0 {
      var c := RoundCents(if x < 0.0 then -x else x);
      var t := CentsText(c);
      var d := NatToDigits(c / 100);
      assert t == d + ['.', DigitChar(c % 100 / 10), DigitChar(c % 10)];
      assert forall k :: 0 <= k < |t| ==> t[k] != '\n' by {
        forall k | 0 <= k < |t| ensures t[k] != '\n' {
          if k < |d| {
            assert IsDigit(d[k]);
          }
        }
      }
      var f := FormatMoney(x);
      assert f == t || f == "-" + t;
      assert forall k :: 0 <= k < |f| ==> f[k] != '\n' by {
        forall k | 0 <= k < |f| ensures f[k] != '\n' {
          if f != t {
            assert k == 0 || f[k] == t[k - 1];
          }
        }
      }
      var a := f + " €";
      assert forall k :: 0 <= k < |a| ==> a[k] != '\n' by {
        forall k | 0 <= k < |a| ensures a[k] != '\n' {
          if k < |f| {
            assert a[k] == f[k];
          }
        }
      }
    }
  }

  /** One card of the summary: a name, the amount owed, and the text shown for it. */
  datatype Card = Card(name: string, amount: real, text: string)

  /** What each person of `people` owes, in people order. */
  function OwedList(items: seq<Item>, assignments: map<int, seq<int>>, people: seq<Person>): (keys: seq<real>)
    ensures |keys| == |people|
    ensures forall k :: 0 <= k < |people| ==> keys[k] == Owed(items, assignments, people[k].id)
  {
    if people == [] then [] else [Owed(items, assignments, people[0].id)] + OwedList(items, assignments, people[1..])
  }

  /**
   * What the summary shows: the bill's total, and one card per person, in
   * `RankOrder` of what they owe, each with the person's name, the amount and
   * its text; the amounts therefore never go up from one card to the next.
   */
  predicate IsSummary(items: seq<Item>, assignments: map<int, seq<int>>, people: seq<Person>,
                      total: real, cards: seq<Card>)
  {
    var keys := OwedList(items, assignments, people);
    var order := RankOrder(keys, |people|);
    total == TotalSum(items)
    && |cards| == |people|
    && (forall i :: 0 <= i < |cards| ==>
          cards[i] == Card(people[order[i]].name, keys[order[i]], AmountText(keys[order[i]])))
    && (forall i, j :: 0 <= i < j < |cards| ==> cards[i].amount >= cards[j].amount)
  }

  /**
   * `renderSummary`: the bill's total, and a card for each person, ordered by
   * the amount owed, largest first, people who owe the same amount keeping
   * their order in the list of people.
   */
  method Summary(items: seq<Item>, assignments: map<int, seq<int>>, people: seq<Person>)
    returns (total: real, cards: seq<Card>)
    ensures IsSummary(items, assignments, people, total, cards)
  {
    var owes := ComputeOwes(items, assignments, people);
    total := TotalSum(items);
    var keys := Amounts(people, owes);
    assert keys == OwedList(items, assignments, people);
    var order := RankOrder(keys, |people|);
    cards := CardsInOrder(people, keys, order);
    forall i, j | 0 <= i < j < |cards| ensures cards[i].amount >= cards[j].amount {
      assert Before(keys, order[i], order[j]);
    }
  }

  /** `sorted.forEach(person => ...)`: one card per index of `order`, in that order. */
  method CardsInOrder(people: seq<Person>, keys: seq<real>, order: seq<nat>) returns (cards: seq<Card>)
    requires |keys| == |people|
    requires forall i :: 0 <= i < |order| ==> order[i] < |people|
    ensures |cards| == |order|
    ensures forall i :: 0 <= i < |cards| ==>
      cards[i] == Card(people[order[i]].name, keys[order[i]], AmountText(keys[order[i]]))
  {
    cards := [];
    for i := 0 to |order|
      invariant |cards| == i
      invariant forall q :: 0 <= q < i ==>
        cards[q] == Card(people[order[q]].name, keys[order[q]], AmountText(keys[order[q]]))
    {
      var amount := keys[order[i]];
      cards := cards + [Card(people[order[i]].name, amount, AmountText(amount))];
    }
  }

  /** The lines the copy button puts together: `${name}: ${amount}`, for each person in people order. */
  function CopyLines(items: seq<Item>, assignments: map<int, seq<int>>, people: seq<Person>): (ls: seq<string>)
    ensures |ls| == |people|
    ensures forall k :: 0 <= k < |people| ==>
      ls[k] == people[k].name + ": " + AmountText(Owed(items, assignments, people[k].id))
  {
    if people == [] then []
    else [people[0].name + ": " + AmountText(Owed(items, assignments, people[0].id))] + CopyLines(items, assignments, people[1..])
  }

  /** The copy button's text: the lines of `CopyLines` joined with line breaks. */
  method CopyText(items: seq<Item>, assignments: map<int, seq<int>>, people: seq<Person>) returns (text: string)
    ensures text == JoinLines(CopyLines(items, assignments, people))
  {
    var owes := ComputeOwes(items, assignments, people);
    var lines := SummaryLines(people, owes);
    assert lines == CopyLines(items, assignments, people);
    text := JoinLines(lines);
  }

  /** When no name holds a line break, the copied text splits back into exactly one line per person. */
  lemma CopyTextLines(items: seq<Item>, assignments: map<int, seq<int>>, people: seq<Person>)
    requires |people| >= 1
    requires forall k :: 0 <= k < |people| ==> '\n' !in people[k].name
    ensures SplitLines(JoinLines(CopyLines(items, assignments, people))) == CopyLines(items, assignments, people)
  {
    var ls := CopyLines(items, assignments, people);
    forall k | 0 <= k < |ls| ensures '\n' !in ls[k] {
      var a := AmountText(Owed(items, assignments, people[k].id));
      AmountTextOneLine(Owed(items, assignments, people[k].id));
      var n := people[k].name;
      assert ls[k] == n + ": " + a;
      forall q | 0 <= q < |ls[k]| ensures ls[k][q] != '\n' {
        if q < |n| {
          assert ls[k][q] == n[q];
        } else if q >= |n| + 2 {
          assert ls[k][q] == a[q - |n| - 2];
        }
      }
    }
    SplitJoin(ls);
  }
}
