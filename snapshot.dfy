/**
 * The snapshot `saveState` writes under the key `splitbill-state` and
 * `loadState` reads back. The JSON text itself is not modelled: a snapshot is
 * a record whose fields are `None` when the stored object lacks them or holds
 * a value of the wrong type, which is what `loadState` tests for.
 */
module Snapshot {
  import opened Options
  import opened Bills
  import opened Wizard

  /** A stored item; `qty` is `None` when it is missing or `null`. */
  datatype StoredItem = StoredItem(id: int, title: string, price: string, qty: Option<int>)

  /**
   * The stored object: `items` and `people` are `Some` when they are arrays,
   * `assignments` when it is a non-null object, the counters when they are
   * numbers, and `currentStep` holds the stored value when it is a string.
   * `loadState` tests only these top-level shapes; the elements of the arrays
   * are taken to be well-typed items and people, and the counters whole
   * numbers. A stored `null` item, on which reading `qty` throws, makes the
   * snapshot `Corrupt`.
   */
  datatype Record = Record(
    currentStep: Option<string>,
    items: Option<seq<StoredItem>>,
    people: Option<seq<Person>>,
    assignments: Option<map<int, seq<int>>>,
    nextItemId: Option<int>,
    nextPersonId: Option<int>)

  /**
   * What `localStorage` holds under the key: nothing (or an empty string), a
   * text `JSON.parse` rejects or a `null` object (on which reading a field
   * throws), or a record.
   */
  datatype Stored = Nothing | Corrupt | Saved(record: Record)

  /** The part of the bill that is saved: the current step, the lists and the counters. The photo is not saved. */
  datatype BillData = BillData(
    step: Step,
    items: seq<Item>,
    people: seq<Person>,
    assignments: map<int, seq<int>>,
    nextItemId: int,
    nextPersonId: int)

  function SaveItems(items: seq<Item>): (r: seq<StoredItem>)
    ensures |r| == |items|
    ensures forall k :: 0 <= k < |items| ==>
      r[k] == StoredItem(items[k].id, items[k].title, items[k].price, Some(items[k].qty))
  {
    if items == [] then [] else [StoredItem(items[0].id, items[0].title, items[0].price, Some(items[0].qty))] + SaveItems(items[1..])
  }

  /** The object `saveState` writes. */
  function Save(d: BillData): Record {
    Record(Some(StepId(d.step)), Some(SaveItems(d.items)), Some(d.people), Some(d.assignments),
           Some(d.nextItemId), Some(d.nextPersonId))
  }

  /** `{ ...it, qty: it.qty != null ? it.qty : 1 }`. */
  function RestoreItem(si: StoredItem): (it: Item)
    ensures it.id == si.id && it.title == si.title && it.price == si.price
    ensures it.qty == if si.qty.Some? then si.qty.value else 1
  {
    Item(si.id, si.title, si.price, si.qty.GetOr(1))
  }

  function RestoreItems(sis: seq<StoredItem>): (r: seq<Item>)
    ensures |r| == |sis|
    ensures forall k :: 0 <= k < |sis| ==> r[k] == RestoreItem(sis[k])
  {
    if sis == [] then [] else [RestoreItem(sis[0])] + RestoreItems(sis[1..])
  }

  /** `steps.includes(data.currentStep) ? data.currentStep : 'step-upload'`. */
  function RestoredStep(r: Record): (s: Step)
    ensures r.currentStep.Some? && StepFromId(r.currentStep.value).Some? ==> StepId(s) == r.currentStep.value
    ensures (r.currentStep.None? || StepFromId(r.currentStep.value).None?) ==> s == Upload
  {
    if r.currentStep.Some? then StepFromId(r.currentStep.value).GetOr(Upload) else Upload
  }

  /** The bill after `loadState` read record `r` over bill `d`: each field of the right type replaces its own. */
  function Restore(r: Record, d: BillData): BillData {
    BillData(
      RestoredStep(r),
      if r.items.Some? then RestoreItems(r.items.value) else d.items,
      r.people.GetOr(d.people),
      r.assignments.GetOr(d.assignments),
      r.nextItemId.GetOr(d.nextItemId),
      r.nextPersonId.GetOr(d.nextPersonId))
  }

  /** Loading what was saved gives the saved bill back, whatever the bill was before. */
  lemma {:induction false} RestoreSave(saved: BillData, d: BillData)
    ensures Restore(Save(saved), d) == saved
  {
    StepIdRoundTrip(saved.step);
    var restored := RestoreItems(SaveItems(saved.items));
    assert restored == saved.items by {
      assert |restored| == |saved.items|;
      forall k | 0 <= k < |restored| ensures restored[k] == saved.items[k] {
      }
    }
  }

  /**
   * A record whose fields are all missing or of the wrong type changes
   * nothing but the step, which goes back to Upload; so does an unknown step id.
   */
  lemma RestoreDefaults(r: Record, d: BillData)
    requires r.items.None? && r.people.None? && r.assignments.None?
    requires r.nextItemId.None? && r.nextPersonId.None?
    requires r.currentStep.None? || StepFromId(r.currentStep.value).None?
    ensures Restore(r, d) == d.(step := Upload)
  {
  }
}
