/**
 * The page's `state` object, its two id counters, the steps' `active`
 * markers and the stored snapshot, as one object whose methods are the
 * page's event handlers. Each handler that ends with `saveState()` takes a
 * `writable` flag: `false` stands for a storage that throws, after which the
 * stored snapshot is what it was.
 */
module Store {
  import opened Options
  import opened Strings
  import opened Money
  import opened Bills
  import opened Receipt
  import ReceiptFacts
  import opened Split
  import opened Wizard
  import opened Snapshot

  class Bill {
    /** `state.imageDataUrl`. */
    var image: Option<string>
    var items: seq<Item>
    var people: seq<Person>
    /** `state.assignments`: item id to the ids of the people who share it. */
    var assignments: map<int, seq<int>>
    var nextItemId: int
    var nextPersonId: int
    /** Whether each element of `steps` carries the `active` class. */
    var active: seq<bool>
    /** What `localStorage` holds under `splitbill-state`. */
    var stored: Stored

    predicate Valid()
      reads this`active
    {
      |active| == |Steps|
    }

    /** The referential integrity the handlers keep. */
    ghost predicate Integrity()
      reads this`items, this`people, this`assignments, this`nextItemId, this`nextPersonId
    {
      Consistent(items, people, assignments, nextItemId, nextPersonId)
    }

    /** The step `saveState` records: the first active one, Upload when none is. */
    function CurrentStep(): Step
      reads this`active
      requires Valid()
    {
      FirstActive(active)
    }

    /** The part of the state `saveState` writes. */
    function Data(): BillData
      reads this`active, this`items, this`people, this`assignments, this`nextItemId, this`nextPersonId
      requires Valid()
    {
      BillData(CurrentStep(), items, people, assignments, nextItemId, nextPersonId)
    }

    /** The stored snapshot after `saveState()`, when it was `before`. */
    function StoredAfter(writable: bool, before: Stored): Stored
      reads this`active, this`items, this`people, this`assignments, this`nextItemId, this`nextPersonId
      requires Valid()
    {
      if writable then Saved(Save(Data())) else before
    }

    /** The initial `state`: no photo, no rows, no people, both counters at 1; no step is marked yet. */
    constructor (s: Stored)
      ensures Valid() && Integrity()
      ensures image == None && items == [] && people == [] && assignments == map[]
      ensures nextItemId == 1 && nextPersonId == 1
      ensures active == [false, false, false, false, false] && stored == s
    {
      image := None;
      items := [];
      people := [];
      assignments := map[];
      nextItemId := 1;
      nextPersonId := 1;
      active := [false, false, false, false, false];
      stored := s;
    }

    // ----- showStep, saveState, loadState -----

    /** `showStep(s)`: the `active` class toggled on each step, on for `s` and off for the others. */
    method ShowStep(s: Step)
      requires Valid()
      modifies this`active
      ensures Valid() && active == ActiveFlags(s)
      ensures CurrentStep() == s && ExactlyOneActive(active)
    {
      for k := 0 to |Steps|
        invariant |active| == |Steps|
        invariant forall j :: 0 <= j < k ==> active[j] == (Steps[j] == s)
      {
        active := active[k := Steps[k] == s];
      }
      ShownStep(s);
    }

    /** `saveState()`: the snapshot of the current step, the lists and the counters; nothing when storage throws. */
    method SaveState(writable: bool)
      requires Valid()
      modifies this`stored
      ensures stored == StoredAfter(writable, old(stored))
    {
      if writable {
        stored := Saved(Save(Data()));
      }
    }

    /**
     * `loadState()`: `None` (the source's `undefined`) when nothing is stored,
     * `Some(false)` when reading throws, both leaving the state as it was;
     * otherwise every field of the right type is taken over, the stored step
     * (or Upload) is shown, and the result is `Some(true)`.
     */
    method LoadState() returns (r: Option<bool>)
      requires Valid()
      modifies this`items, this`people, this`assignments, this`nextItemId, this`nextPersonId, this`active
      ensures Valid()
      ensures stored.Nothing? ==> r == None && Data() == old(Data()) && active == old(active)
      ensures stored.Corrupt? ==> r == Some(false) && Data() == old(Data()) && active == old(active)
      ensures stored.Saved? ==>
        r == Some(true) && Data() == Restore(stored.record, old(Data()))
        && active == ActiveFlags(RestoredStep(stored.record))
    {
      match stored
      case Nothing =>
        r := None;
      case Corrupt =>
        r := Some(false);
      case Saved(rec) =>
        if rec.items.Some? {
          items := RestoreItems(rec.items.value);
        }
        if rec.people.Some? {
          people := rec.people.value;
        }
        if rec.assignments.Some? {
          assignments := rec.assignments.value;
        }
        if rec.nextItemId.Some? {
          nextItemId := rec.nextItemId.value;
        }
        if rec.nextPersonId.Some? {
          nextPersonId := rec.nextPersonId.value;
        }
        ShowStep(RestoredStep(rec));
        r := Some(true);
    }

    /** The start of the page: `if (!loadState()) showStep('step-upload')`. */
    method Start()
      requires Valid()
      modifies this`items, this`people, this`assignments, this`nextItemId, this`nextPersonId, this`active
      ensures Valid()
      ensures stored.Saved? ==>
        Data() == Restore(stored.record, old(Data())) && active == ActiveFlags(RestoredStep(stored.record))
      ensures !stored.Saved? ==> Data() == old(Data()).(step := Upload) && active == ActiveFlags(Upload)
    {
      var loaded := LoadState();
      if loaded != Some(true) {
        ShowStep(Upload);
      }
    }

    /**
     * Saving and then loading (on a storage that works) gives back the saved
     * part of the bill. The snapshot stays stored, and the recorded step ends
     * up as the only marked one.
     */
    method SaveThenLoad()
      requires Valid()
      modifies this`items, this`people, this`assignments, this`nextItemId, this`nextPersonId, this`active, this`stored
      ensures Valid() && Data() == old(Data())
      ensures stored == Saved(Save(old(Data())))
      ensures active == ActiveFlags(old(CurrentStep()))
    {
      SaveState(true);
      ghost var saved := Data();
      var r := LoadState();
      RestoreSave(saved, saved);
    }

    // ----- Upload and scan -----

    /** `reader.onload`: the photo is kept and the state saved. */
    method LoadImage(dataUrl: string, writable: bool)
      requires Valid()
      modifies this`image, this`stored
      ensures image == Some(dataUrl) && stored == StoredAfter(writable, old(stored))
    {
      image := Some(dataUrl);
      SaveState(writable);
    }

    /** The change-photo button: the photo is dropped and the state saved. */
    method ChangePhoto(writable: bool)
      requires Valid()
      modifies this`image, this`stored
      ensures image == None && stored == StoredAfter(writable, old(stored))
    {
      image := None;
      SaveState(writable);
    }

    /**
     * `parseReceiptText(text)`: the loop over the trimmed non-blank lines that
     * pushes a row for each priced line, then the rows as items with ids from
     * `nextItemId`, or one blank row when no line gave a price.
     */
    method ParseReceiptText(text: string)
      modifies this`items, this`nextItemId
      ensures items == ReceiptItems(text, old(nextItemId))
      ensures nextItemId == old(nextItemId) + |items|
      ensures old(Integrity()) ==> Integrity()
    {
      ghost var sound := Integrity();
      var parsed := ParseRows(ReceiptLines(text));
      ghost var firstId := nextItemId;
      ghost var before := items;
      if |parsed| > 0 {
        items := ParsedItems(parsed, nextItemId);
        nextItemId := nextItemId + |parsed|;
      } else {
        items := [BlankItem(nextItemId)];
        nextItemId := nextItemId + 1;
      }
      ReceiptFacts.ReceiptItemIds(text, firstId);
      if sound {
        NewRowsConsistent(before, people, assignments, firstId, nextPersonId, items, nextItemId);
      }
    }

    /**
     * The scan button: nothing without a photo (an empty data URL counts as
     * none, as `!state.imageDataUrl` reads it); otherwise the recognised text
     * (or `''` when recognition fails, `None` here) is parsed, the items step
     * shown and the state saved.
     */
    method Scan(ocr: Option<string>, writable: bool)
      requires Valid()
      modifies this`items, this`nextItemId, this`active, this`stored
      ensures Valid()
      ensures old(image) == None || old(image) == Some("") ==>
        items == old(items) && nextItemId == old(nextItemId) && active == old(active) && stored == old(stored)
      ensures old(image).Some? && old(image).value != "" ==>
        items == ReceiptItems(ocr.GetOr(""), old(nextItemId)) && nextItemId == old(nextItemId) + |items|
        && active == ActiveFlags(ItemsStep) && stored == StoredAfter(writable, old(stored))
      ensures old(Integrity()) ==> Integrity()
    {
      if image == None || image == Some("") {
        return;
      }
      ghost var sound := Integrity();
      ParseReceiptText(ocr.GetOr(""));
      assert sound ==> Integrity();
      ShowStep(ItemsStep);
      assert sound ==> Integrity();
      SaveState(writable);
      assert sound ==> Integrity();
    }

    /** The skip-scan button: no rows, the items step, saved. */
    method SkipScan(writable: bool)
      requires Valid()
      modifies this`items, this`active, this`stored
      ensures Valid() && items == [] && active == ActiveFlags(ItemsStep)
      ensures stored == StoredAfter(writable, old(stored))
      ensures old(Integrity()) ==> Integrity()
    {
      ghost var sound := Integrity();
      if sound {
        NewRowsConsistent(items, people, assignments, nextItemId, nextPersonId, [], nextItemId);
      }
      items := [];
      assert sound ==> Integrity();
      ShowStep(ItemsStep);
      assert sound ==> Integrity();
      SaveState(writable);
      assert sound ==> Integrity();
    }

    // ----- The item rows -----

    /** Typing in the label field of row `k`. */
    method EditLabel(k: nat, text: string, writable: bool)
      requires Valid() && k < |items|
      modifies this`items, this`stored
      ensures items == old(items)[k := old(items)[k].(title := text)]
      ensures stored == StoredAfter(writable, old(stored))
      ensures old(Integrity()) ==> Integrity()
    {
      ghost var sound := Integrity();
      if sound {
        EditRowConsistent(items, people, assignments, nextItemId, nextPersonId, k, items[k].(title := text));
      }
      items := items[k := items[k].(title := text)];
      assert sound ==> Integrity();
      SaveState(writable);
    }

    /** Typing in the price field of row `k`: the text is kept as typed. */
    method EditPrice(k: nat, text: string, writable: bool)
      requires Valid() && k < |items|
      modifies this`items, this`stored
      ensures items == old(items)[k := old(items)[k].(price := text)]
      ensures stored == StoredAfter(writable, old(stored))
      ensures old(Integrity()) ==> Integrity()
    {
      ghost var sound := Integrity();
      if sound {
        EditRowConsistent(items, people, assignments, nextItemId, nextPersonId, k, items[k].(price := text));
      }
      items := items[k := items[k].(price := text)];
      assert sound ==> Integrity();
      SaveState(writable);
    }

    /** The duplicate button of row `k`: right after it, a copy with a fresh id, the same label and price, and quantity 1. */
    method DuplicateItem(k: nat, writable: bool)
      requires Valid() && k < |items|
      modifies this`items, this`nextItemId, this`stored
      ensures items == old(items)[..k + 1] + [Item(old(nextItemId), old(items)[k].title, old(items)[k].price, 1)]
                       + old(items)[k + 1..]
      ensures nextItemId == old(nextItemId) + 1
      ensures stored == StoredAfter(writable, old(stored))
      ensures old(Integrity()) ==> Integrity()
    {
      var copy := Item(nextItemId, items[k].title, items[k].price, 1);
      ghost var sound := Integrity();
      if sound {
        InsertRowConsistent(items, people, assignments, nextItemId, nextPersonId, k, copy);
      }
      items := items[..k + 1] + [copy] + items[k + 1..];
      nextItemId := nextItemId + 1;
      assert sound ==> Integrity();
      SaveState(writable);
    }

    /** The remove button of the row with id `id`: the row goes, and so does its assignment entry. */
    method RemoveItem(id: int, writable: bool)
      requires Valid()
      modifies this`items, this`assignments, this`stored
      ensures items == ItemsWithout(old(items), id)
      ensures assignments == old(assignments) - {id}
      ensures stored == StoredAfter(writable, old(stored))
      ensures old(Integrity()) ==> Integrity()
    {
      ghost var sound := Integrity();
      if sound {
        RemoveRowConsistent(items, people, assignments, nextItemId, nextPersonId, id);
      }
      items := ItemsWithout(items, id);
      assignments := assignments - {id};
      assert sound ==> Integrity();
      SaveState(writable);
    }

    /** The add button: a blank row with a fresh id at the end. */
    method AddItem(writable: bool)
      requires Valid()
      modifies this`items, this`nextItemId, this`stored
      ensures items == old(items) + [BlankItem(old(nextItemId))]
      ensures nextItemId == old(nextItemId) + 1
      ensures stored == StoredAfter(writable, old(stored))
      ensures old(Integrity()) ==> Integrity()
    {
      ghost var sound := Integrity();
      if sound {
        AppendRowConsistent(items, people, assignments, nextItemId, nextPersonId, BlankItem(nextItemId));
      }
      items := items + [BlankItem(nextItemId)];
      nextItemId := nextItemId + 1;
      assert sound ==> Integrity();
      SaveState(writable);
    }

    /**
     * The "to people" button: refused, with nothing changed, unless some row
     * has a positive price; otherwise blank and unpriced rows are dropped, the
     * people step is shown and the state saved.
     */
    method ToPeople(writable: bool) returns (moved: bool)
      requires Valid()
      modifies this`items, this`active, this`stored
      ensures Valid()
      ensures moved <==> HasPricedRow(old(items))
      ensures !moved ==> items == old(items) && active == old(active) && stored == old(stored)
      ensures moved ==>
        items == PruneRows(old(items)) && |items| >= 1
        && active == ActiveFlags(PeopleStep) && stored == StoredAfter(writable, old(stored))
      ensures old(Integrity()) ==> Integrity()
    {
      if !HasPricedRow(items) {
        return false;
      }
      DropBlankRows();
      ghost var sound := Integrity();
      ShowStep(PeopleStep);
      assert sound ==> Integrity();
      SaveState(writable);
      assert sound ==> Integrity();
      moved := true;
    }

    /** `state.items = state.items.filter(...)`: the blank and unpriced rows are dropped. */
    method DropBlankRows()
      modifies this`items
      ensures items == PruneRows(old(items))
      ensures HasPricedRow(old(items)) ==> |items| >= 1
      ensures old(Integrity()) ==> Integrity()
    {
      if HasPricedRow(items) {
        PruneKeepsPriced(items);
      }
      if Integrity() {
        PruneConsistent(items, people, assignments, nextItemId, nextPersonId);
      }
      items := PruneRows(items);
    }

    // ----- People -----

    /** `addPerson`: the trimmed name, if it is not empty, joins the list with a fresh id. */
    method AddPerson(input: string, writable: bool) returns (added: bool)
      requires Valid()
      modifies this`people, this`nextPersonId, this`stored
      ensures added <==> Trim(input) != ""
      ensures !added ==> people == old(people) && nextPersonId == old(nextPersonId) && stored == old(stored)
      ensures added ==>
        people == old(people) + [Person(old(nextPersonId), Trim(input))]
        && nextPersonId == old(nextPersonId) + 1 && stored == StoredAfter(writable, old(stored))
      ensures old(Integrity()) ==> Integrity()
    {
      var name := Trim(input);
      if name == "" {
        return false;
      }
      ghost var sound := Integrity();
      if sound {
        TrimIsTrimmed(input);
        AddPersonConsistent(items, people, assignments, nextItemId, nextPersonId, name);
      }
      people := people + [Person(nextPersonId, name)];
      nextPersonId := nextPersonId + 1;
      assert sound ==> Integrity();
      SaveState(writable);
      added := true;
    }

    /** The remove button of person `id`: they leave the list and every assignment list. */
    method RemovePerson(id: int, writable: bool)
      requires Valid()
      modifies this`people, this`assignments, this`stored
      ensures people == PeopleWithout(old(people), id)
      ensures assignments == AssignmentsWithout(old(assignments), id)
      ensures stored == StoredAfter(writable, old(stored))
      ensures old(Integrity()) ==> Integrity()
    {
      ghost var sound := Integrity();
      if sound {
        RemovePersonConsistent(items, people, assignments, nextItemId, nextPersonId, id);
      }
      people := PeopleWithout(people, id);
      PruneAssignments(id);
      assert sound ==> Integrity();
      SaveState(writable);
    }

    /** The `Object.keys(state.assignments).forEach` loop of the remove-person handler. */
    method PruneAssignments(id: int)
      modifies this`assignments
      ensures assignments == AssignmentsWithout(old(assignments), id)
    {
      var original := assignments;
      var pruned := original;
      var todo := original.Keys;
      while todo != {}
        invariant todo <= original.Keys && pruned.Keys == original.Keys
        invariant forall k :: k in original && k !in todo ==> pruned[k] == Without(original[k], id)
        invariant forall k :: k in todo ==> pruned[k] == original[k]
        decreases |todo|
      {
        if forall k :: k !in todo {
          assert false;
        }
        var k :| k in todo;
        pruned := pruned[k := Without(pruned[k], id)];
        todo := todo - {k};
      }
      ghost var expected := AssignmentsWithout(original, id);
      assert pruned.Keys == expected.Keys;
      assert forall k :: k in expected ==> pruned[k] == expected[k];
      assert pruned == expected;
      assignments := pruned;
    }

    /** The back button of the people step. */
    method BackToItems(writable: bool)
      requires Valid()
      modifies this`active, this`stored
      ensures Valid() && active == ActiveFlags(ItemsStep)
      ensures stored == StoredAfter(writable, old(stored))
    {
      ShowStep(ItemsStep);
      SaveState(writable);
    }

    /** The "to assign" button: refused, with nothing changed, while there is nobody. */
    method ToAssign(writable: bool) returns (moved: bool)
      requires Valid()
      modifies this`active, this`stored
      ensures Valid()
      ensures moved <==> |people| > 0
      ensures !moved ==> active == old(active) && stored == old(stored)
      ensures moved ==> active == ActiveFlags(AssignStep) && stored == StoredAfter(writable, old(stored))
    {
      if |people| == 0 {
        return false;
      }
      ShowStep(AssignStep);
      SaveState(writable);
      moved := true;
    }

    // ----- Assignments -----

    /**
     * The checkbox of person `pid` on item `itemId`: checking appends the id to
     * the item's list, unchecking filters it out. A box is checked only when
     * it was clear, that is when the id is not on the list.
     */
    method Toggle(itemId: int, pid: int, checked: bool, writable: bool)
      requires Valid()
      modifies this`assignments, this`stored
      ensures assignments == old(assignments)[itemId :=
        if checked then Assignees(old(assignments), itemId) + [pid] else Without(Assignees(old(assignments), itemId), pid)]
      ensures stored == StoredAfter(writable, old(stored))
      ensures (old(Integrity()) && pid in PersonIds(people)
               && (checked ==> pid !in Assignees(old(assignments), itemId))) ==> Integrity()
    {
      var ids := Assignees(assignments, itemId);
      var updated := if checked then ids + [pid] else Without(ids, pid);
      ghost var sound := Integrity() && pid in PersonIds(people) && (checked ==> pid !in ids);
      if sound {
        if checked {
          AppendDistinct(ids, pid);
        }
        AssignConsistent(items, people, assignments, nextItemId, nextPersonId, itemId, updated);
      }
      assignments := assignments[itemId := updated];
      assert sound ==> Integrity();
      SaveState(writable);
    }

    /** The "all" link of item `itemId`: everybody, in list order. */
    method AssignAll(itemId: int, writable: bool)
      requires Valid()
      modifies this`assignments, this`stored
      ensures assignments == old(assignments)[itemId := PersonIds(people)]
      ensures stored == StoredAfter(writable, old(stored))
      ensures old(Integrity()) ==> Integrity()
    {
      ghost var sound := Integrity();
      if sound {
        AssignConsistent(items, people, assignments, nextItemId, nextPersonId, itemId, PersonIds(people));
      }
      assignments := assignments[itemId := PersonIds(people)];
      assert sound ==> Integrity();
      SaveState(writable);
    }

    /** The "nobody" link of item `itemId`. */
    method AssignNone(itemId: int, writable: bool)
      requires Valid()
      modifies this`assignments, this`stored
      ensures assignments == old(assignments)[itemId := []]
      ensures stored == StoredAfter(writable, old(stored))
      ensures old(Integrity()) ==> Integrity()
    {
      ghost var sound := Integrity();
      if sound {
        AssignConsistent(items, people, assignments, nextItemId, nextPersonId, itemId, []);
      }
      assignments := assignments[itemId := []];
      assert sound ==> Integrity();
      SaveState(writable);
    }

    /** The back button of the assign step. */
    method BackToPeople(writable: bool)
      requires Valid()
      modifies this`active, this`stored
      ensures Valid() && active == ActiveFlags(PeopleStep)
      ensures stored == StoredAfter(writable, old(stored))
    {
      ShowStep(PeopleStep);
      SaveState(writable);
    }

    /** The "to summary" button, which has no condition: the summary step and what it shows. */
    method ToSummary(writable: bool) returns (total: real, cards: seq<Card>)
      requires Valid()
      modifies this`active, this`stored
      ensures Valid() && active == ActiveFlags(SummaryStep)
      ensures IsSummary(items, assignments, people, total, cards)
      ensures stored == StoredAfter(writable, old(stored))
    {
      ShowStep(SummaryStep);
      total, cards := Summary(items, assignments, people);
      SaveState(writable);
    }

    // ----- Summary -----

    /** The text the copy button hands to the clipboard. */
    method CopySummary() returns (text: string)
      ensures text == JoinLines(CopyLines(items, assignments, people))
    {
      text := CopyText(items, assignments, people);
    }

    /** The back button of the summary step. */
    method BackToAssign(writable: bool)
      requires Valid()
      modifies this`active, this`stored
      ensures Valid() && active == ActiveFlags(AssignStep)
      ensures stored == StoredAfter(writable, old(stored))
    {
      ShowStep(AssignStep);
      SaveState(writable);
    }

    /**
     * The new-bill button: no photo, no rows, no people, no assignments, both
     * counters back to 1, the snapshot removed (unless removing it throws),
     * and the upload step shown. The state is not saved afterwards.
     */
    method NewBill(removable: bool)
      requires Valid()
      modifies this`image, this`items, this`people, this`assignments, this`nextItemId, this`nextPersonId
      modifies this`active, this`stored
      ensures Valid() && Integrity()
      ensures image == None && items == [] && people == [] && assignments == map[]
      ensures nextItemId == 1 && nextPersonId == 1
      ensures stored == if removable then Nothing else old(stored)
      ensures active == ActiveFlags(Upload)
    {
      image := None;
      items := [];
      people := [];
      assignments := map[];
      nextItemId := 1;
      nextPersonId := 1;
      if removable {
        stored := Nothing;
      }
      ShowStep(Upload);
    }

    /** A click on the stepper dot of step id `id`: any known step is shown, without a gate and without saving. */
    method SelectStep(id: string)
      requires Valid()
      modifies this`active
      ensures Valid()
      ensures StepFromId(id).None? ==> active == old(active)
      ensures StepFromId(id).Some? ==> active == ActiveFlags(StepFromId(id).value)
    {
      var s := StepFromId(id);
      if s.None? {
        return;
      }
      ShowStep(s.value);
    }
  }
}
