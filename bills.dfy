/**
 * The records the bill is made of, `{ id, label, price, qty }` items and
 * `{ id, name }` people, with the list filters the handlers apply to them and
 * the referential integrity the bill keeps between them.
 */
module Bills {
  import opened Strings

  /** One row of the bill. `title` is the source's `label` (a keyword in Dafny); `price` is the text of the price field, as the source keeps it. */
  datatype Item = Item(id: int, title: string, price: string, qty: int)

  datatype Person = Person(id: int, name: string)

  /** The empty editable row `{ id, label: '', price: '', qty: 1 }`. */
  function BlankItem(id: int): Item {
    Item(id, "", "", 1)
  }

  /** `people.map(p => p.id)`. */
  function PersonIds(ps: seq<Person>): (r: seq<int>)
    ensures |r| == |ps|
    ensures forall k :: 0 <= k < |ps| ==> r[k] == ps[k].id
  {
    if ps == [] then [] else [ps[0].id] + PersonIds(ps[1..])
  }

  predicate HasItemId(items: seq<Item>, id: int) {
    exists k :: 0 <= k < |items| && items[k].id == id
  }

  predicate Distinct(s: seq<int>) {
    forall i, j :: 0 <= i < j < |s| ==> s[i] != s[j]
  }

  /** Appending an id that is not on a list of distinct ids keeps it distinct. */
  lemma AppendDistinct(s: seq<int>, x: int)
    requires Distinct(s) && x !in s
    ensures Distinct(s + [x])
  {
  }

  /** `list.filter(x => x !== y)`. */
  function Without(s: seq<int>, y: int): (r: seq<int>)
    ensures forall x :: x in r <==> x in s && x != y
    ensures |r| <= |s|
    ensures Distinct(s) ==> Distinct(r)
  {
    if s == [] then []
    else if s[0] == y then Without(s[1..], y)
    else
      var rest := Without(s[1..], y);
      assert s[0] !in rest ==> forall j :: 0 <= j < |rest| ==> s[0] != rest[j];
      [s[0]] + rest
  }

  /** `people.filter(p => p.id !== id)`. */
  function PeopleWithout(ps: seq<Person>, id: int): (r: seq<Person>)
    ensures forall p :: p in r <==> p in ps && p.id != id
    ensures |r| <= |ps|
    ensures PersonIds(r) == Without(PersonIds(ps), id)
  {
    if ps == [] then []
    else if ps[0].id == id then PeopleWithout(ps[1..], id)
    else [ps[0]] + PeopleWithout(ps[1..], id)
  }

  /** `Object.keys(assignments).forEach(k => assignments[k] = assignments[k].filter(pid => pid !== id))`. */
  function AssignmentsWithout(assignments: map<int, seq<int>>, id: int): (r: map<int, seq<int>>)
    ensures r.Keys == assignments.Keys
    ensures forall k :: k in r ==> r[k] == Without(assignments[k], id)
  {
    map k | k in assignments :: Without(assignments[k], id)
  }

  /** No two items share an id. */
  predicate DistinctIds(items: seq<Item>) {
    forall i, j :: 0 <= i < j < |items| ==> items[i].id != items[j].id
  }

  /** `items.filter(keep)`: the rows `keep` accepts, in their order. */
  function FilterItems(items: seq<Item>, keep: Item -> bool): (r: seq<Item>)
    ensures forall it :: it in r <==> it in items && keep(it)
    ensures |r| <= |items|
    ensures DistinctIds(items) ==> DistinctIds(r)
  {
    if items == [] then []
    else
      var rest := FilterItems(items[1..], keep);
      if !keep(items[0]) then rest
      else
        FilterHead(items, rest);
        [items[0]] + rest
  }

  /** The first row, put before rows taken from the others, keeps the ids distinct. */
  lemma FilterHead(items: seq<Item>, rest: seq<Item>)
    requires items != [] && forall it :: it in rest ==> it in items[1..]
    requires DistinctIds(items[1..]) ==> DistinctIds(rest)
    ensures DistinctIds(items) ==> DistinctIds([items[0]] + rest)
  {
    if DistinctIds(items) {
      assert DistinctIds(items[1..]) by {
        forall i, j | 0 <= i < j < |items[1..]| ensures items[1..][i].id != items[1..][j].id {
          assert items[1..][i] == items[i + 1] && items[1..][j] == items[j + 1];
        }
      }
      var r := [items[0]] + rest;
      forall i, j | 0 <= i < j < |r| ensures r[i].id != r[j].id {
        assert r[j] == rest[j - 1] && rest[j - 1] in rest;
        if i == 0 {
          var m :| 0 <= m < |items[1..]| && items[1..][m] == rest[j - 1];
          assert items[m + 1] == rest[j - 1];
        } else {
          assert r[i] == rest[i - 1];
        }
      }
    }
  }

  /** `items.filter(i => i.id !== id)`. */
  function ItemsWithout(items: seq<Item>, id: int): (r: seq<Item>)
    ensures forall it :: it in r <==> it in items && it.id != id
    ensures |r| <= |items|
    ensures DistinctIds(items) ==> DistinctIds(r)
  {
    FilterItems(items, (it: Item) => it.id != id)
  }

  /**
   * The integrity the bill store keeps: item ids and person ids are unique and
   * below their counters, names are trimmed and non-empty, and every
   * assignment list names distinct people who are in the list of people.
   * Assignment keys may name items that no longer exist.
   */
  ghost predicate Consistent(items: seq<Item>, people: seq<Person>, assignments: map<int, seq<int>>,
                             nextItemId: int, nextPersonId: int)
  {
    DistinctIds(items)
    && (forall i :: 0 <= i < |items| ==> items[i].id < nextItemId)
    && Distinct(PersonIds(people))
    && (forall i :: 0 <= i < |people| ==> people[i].id < nextPersonId)
    && (forall i :: 0 <= i < |people| ==> people[i].name != "" && Trimmed(people[i].name))
    && (forall k :: k in assignments ==> Distinct(assignments[k]))
    && (forall k, x :: k in assignments && x in assignments[k] ==> x in PersonIds(people))
  }

  /** Keeping some of the rows, with distinct ids, keeps the integrity. */
  lemma KeepRowsConsistent(items: seq<Item>, kept: seq<Item>, people: seq<Person>,
                           assignments: map<int, seq<int>>, nextItemId: int, nextPersonId: int)
    requires Consistent(items, people, assignments, nextItemId, nextPersonId)
    requires DistinctIds(kept) && forall j :: 0 <= j < |kept| ==> kept[j] in items
    ensures Consistent(kept, people, assignments, nextItemId, nextPersonId)
  {
    forall j | 0 <= j < |kept| ensures kept[j].id < nextItemId {
      var i :| 0 <= i < |items| && items[i] == kept[j];
    }
  }

  /** Taking a person out of the list and out of every assignment list keeps the integrity. */
  lemma RemovePersonConsistent(items: seq<Item>, people: seq<Person>, assignments: map<int, seq<int>>,
                               nextItemId: int, nextPersonId: int, id: int)
    requires Consistent(items, people, assignments, nextItemId, nextPersonId)
    ensures Consistent(items, PeopleWithout(people, id), AssignmentsWithout(assignments, id), nextItemId, nextPersonId)
  {
    var ps := PeopleWithout(people, id);
    forall j | 0 <= j < |ps| ensures ps[j].id < nextPersonId && ps[j].name != "" && Trimmed(ps[j].name) {
      assert ps[j] in people;
    }
    var pruned := AssignmentsWithout(assignments, id);
    forall k, x | k in pruned && x in pruned[k] ensures x in PersonIds(ps) {
      assert x in assignments[k] && x != id;
    }
  }

  /** New rows with distinct ids below the new counter keep the integrity; the people and the assignments are untouched. */
  lemma NewRowsConsistent(items: seq<Item>, people: seq<Person>, assignments: map<int, seq<int>>,
                          nextItemId: int, nextPersonId: int, items': seq<Item>, nextItemId': int)
    requires Consistent(items, people, assignments, nextItemId, nextPersonId)
    requires DistinctIds(items') && forall j :: 0 <= j < |items'| ==> items'[j].id < nextItemId'
    ensures Consistent(items', people, assignments, nextItemId', nextPersonId)
  {
  }

  /** A row appended with the counter's id, the counter moving on, keeps the integrity. */
  lemma AppendRowConsistent(items: seq<Item>, people: seq<Person>, assignments: map<int, seq<int>>,
                            nextItemId: int, nextPersonId: int, it: Item)
    requires Consistent(items, people, assignments, nextItemId, nextPersonId) && it.id == nextItemId
    ensures Consistent(items + [it], people, assignments, nextItemId + 1, nextPersonId)
  {
    NewRowsConsistent(items, people, assignments, nextItemId, nextPersonId, items + [it], nextItemId + 1);
  }

  /** A row with the counter's id inserted after row `k`, the counter moving on, keeps the integrity. */
  lemma InsertRowConsistent(items: seq<Item>, people: seq<Person>, assignments: map<int, seq<int>>,
                            nextItemId: int, nextPersonId: int, k: nat, it: Item)
    requires Consistent(items, people, assignments, nextItemId, nextPersonId)
    requires k < |items| && it.id == nextItemId
    ensures Consistent(items[..k + 1] + [it] + items[k + 1..], people, assignments, nextItemId + 1, nextPersonId)
  {
    var r := items[..k + 1] + [it] + items[k + 1..];
    forall j | 0 <= j < |r| ensures r[j] == (if j <= k then items[j] else if j == k + 1 then it else items[j - 1]) {
    }
    NewRowsConsistent(items, people, assignments, nextItemId, nextPersonId, r, nextItemId + 1);
  }

  /** Changing the label or the price of row `k` keeps the integrity. */
  lemma EditRowConsistent(items: seq<Item>, people: seq<Person>, assignments: map<int, seq<int>>,
                          nextItemId: int, nextPersonId: int, k: nat, it: Item)
    requires Consistent(items, people, assignments, nextItemId, nextPersonId)
    requires k < |items| && it.id == items[k].id
    ensures Consistent(items[k := it], people, assignments, nextItemId, nextPersonId)
  {
    var r := items[k := it];
    assert forall j :: 0 <= j < |r| ==> r[j].id == items[j].id;
    NewRowsConsistent(items, people, assignments, nextItemId, nextPersonId, r, nextItemId);
  }

  /** Removing the rows with id `id` and the assignment entry of `id` keeps the integrity. */
  lemma RemoveRowConsistent(items: seq<Item>, people: seq<Person>, assignments: map<int, seq<int>>,
                            nextItemId: int, nextPersonId: int, id: int)
    requires Consistent(items, people, assignments, nextItemId, nextPersonId)
    ensures Consistent(ItemsWithout(items, id), people, assignments - {id}, nextItemId, nextPersonId)
  {
    var r := ItemsWithout(items, id);
    assert forall j :: 0 <= j < |r| ==> r[j] in items;
    KeepRowsConsistent(items, r, people, assignments, nextItemId, nextPersonId);
  }

  /** A person with the counter's id and a trimmed non-empty name, the counter moving on, keeps the integrity. */
  lemma AddPersonConsistent(items: seq<Item>, people: seq<Person>, assignments: map<int, seq<int>>,
                            nextItemId: int, nextPersonId: int, name: string)
    requires Consistent(items, people, assignments, nextItemId, nextPersonId)
    requires name != "" && Trimmed(name)
    ensures Consistent(items, people + [Person(nextPersonId, name)], assignments, nextItemId, nextPersonId + 1)
  {
    var ps := people + [Person(nextPersonId, name)];
    assert PersonIds(ps) == PersonIds(people) + [nextPersonId];
  }

  /** Setting the list of item `itemId` to distinct people of the bill keeps the integrity. */
  lemma AssignConsistent(items: seq<Item>, people: seq<Person>, assignments: map<int, seq<int>>,
                         nextItemId: int, nextPersonId: int, itemId: int, ids: seq<int>)
    requires Consistent(items, people, assignments, nextItemId, nextPersonId)
    requires Distinct(ids) && forall x :: x in ids ==> x in PersonIds(people)
    ensures Consistent(items, people, assignments[itemId := ids], nextItemId, nextPersonId)
  {
  }
}
