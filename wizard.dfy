/**
 * The wizard: the five steps in their fixed order, the step ids the page and
 * the stored snapshot use, the `active` markers `showStep` sets, and the
 * conditions under which the forward buttons let the user go on.
 */
module Wizard {
  import opened Options
  import opened Strings
  import opened Money
  import opened Bills

  datatype Step = Upload | ItemsStep | PeopleStep | AssignStep | SummaryStep

  /** The `steps` array, in wizard order. */
  const Steps: seq<Step> := [Upload, ItemsStep, PeopleStep, AssignStep, SummaryStep]

  /** The element id of a step. */
  function StepId(s: Step): string {
    match s
    case Upload => "step-upload"
    case ItemsStep => "step-items"
    case PeopleStep => "step-people"
    case AssignStep => "step-assign"
    case SummaryStep => "step-summary"
  }

  /** The place of a step in `steps` (`steps.indexOf`). */
  function StepIndex(s: Step): (k: nat)
    ensures k < |Steps| && Steps[k] == s
  {
    match s
    case Upload => 0
    case ItemsStep => 1
    case PeopleStep => 2
    case AssignStep => 3
    case SummaryStep => 4
  }

  /** `steps.includes(id)`: the step whose id is `id`, if there is one. */
  function StepFromId(id: string): (r: Option<Step>)
    ensures r.Some? ==> StepId(r.value) == id
    ensures r.None? ==> forall s: Step :: StepId(s) != id
  {
    if id == "step-upload" then Some(Upload)
    else if id == "step-items" then Some(ItemsStep)
    else if id == "step-people" then Some(PeopleStep)
    else if id == "step-assign" then Some(AssignStep)
    else if id == "step-summary" then Some(SummaryStep)
    else None
  }

  /** Every step is found again from its id: the ids are distinct. */
  lemma StepIdRoundTrip(s: Step)
    ensures StepFromId(StepId(s)) == Some(s)
  {
  }

  /** The `active` markers after `showStep(s)`: one per step of `steps`, set on `s` only. */
  function ActiveFlags(s: Step): (flags: seq<bool>)
    ensures |flags| == |Steps|
    ensures forall k :: 0 <= k < |Steps| ==> (flags[k] <==> Steps[k] == s)
  {
    seq(|Steps|, k requires 0 <= k < |Steps| => Steps[k] == s)
  }

  /** Exactly one marker is set. */
  predicate ExactlyOneActive(flags: seq<bool>) {
    exists k :: 0 <= k < |flags| && flags[k] && forall j :: 0 <= j < |flags| && j != k ==> !flags[j]
  }

  /** `steps.find(id => ...contains('active')) || 'step-upload'`: the first marked step, Upload when none is. */
  function FirstActive(flags: seq<bool>): (s: Step)
    requires |flags| == |Steps|
    ensures s != Upload ==> flags[StepIndex(s)]
    ensures forall k :: 0 <= k < StepIndex(s) ==> !flags[k]
  {
    if flags[0] then Upload
    else if flags[1] then ItemsStep
    else if flags[2] then PeopleStep
    else if flags[3] then AssignStep
    else if flags[4] then SummaryStep
    else Upload
  }

  /** After `showStep(s)` exactly `s` is active, and `saveState` reads `s` back as the current step. */
  lemma ShownStep(s: Step)
    ensures ExactlyOneActive(ActiveFlags(s))
    ensures FirstActive(ActiveFlags(s)) == s
  {
    var flags := ActiveFlags(s);
    var k := StepIndex(s);
    assert flags[k];
    assert forall j :: 0 <= j < |flags| && j != k ==> !flags[j];
  }

  // ----- The items -> people gate -----

  /** `Number(i.price) > 0`. */
  predicate Priced(it: Item) {
    NumericValue(it.price) > 0.0
  }

  /** `withPrice.length > 0`: the gate of the "to people" button. */
  predicate HasPricedRow(items: seq<Item>) {
    exists k :: 0 <= k < |items| && Priced(items[k])
  }

  /** `(i.label || '').trim() || (i.price && Number(i.price) > 0)`: a row worth keeping. */
  predicate KeepRow(it: Item) {
    Trim(it.title) != "" || (it.price != "" && Priced(it))
  }

  /** `items.filter(KeepRow)`. */
  function PruneRows(items: seq<Item>): (r: seq<Item>)
    ensures |r| <= |items|
    ensures forall it :: it in r <==> it in items && KeepRow(it)
    ensures DistinctIds(items) ==> DistinctIds(r)
  {
    FilterItems(items, KeepRow)
  }

  /** A row with a positive price has a non-empty price text. */
  lemma PricedHasText(it: Item)
    requires Priced(it)
    ensures it.price != ""
  {
    EmptyIsZero();
  }

  /** `Number('') || 0` is 0. */
  lemma EmptyIsZero()
    ensures NumericValue("") == 0.0
  {
    assert |TrimStart("")| == 0;
  }

  /** Once the gate lets the user on, pruning keeps every priced row, so the list stays non-empty. */
  lemma PruneKeepsPriced(items: seq<Item>)
    requires HasPricedRow(items)
    ensures |PruneRows(items)| >= 1
    ensures forall k :: 0 <= k < |items| && Priced(items[k]) ==> items[k] in PruneRows(items)
  {
    var k :| 0 <= k < |items| && Priced(items[k]);
    forall j | 0 <= j < |items| && Priced(items[j]) ensures items[j] in PruneRows(items) {
      PricedHasText(items[j]);
    }
    assert items[k] in PruneRows(items);
  }

  /** Dropping the blank rows keeps the bill's integrity. */
  lemma PruneConsistent(items: seq<Item>, people: seq<Person>, assignments: map<int, seq<int>>,
                        nextItemId: int, nextPersonId: int)
    requires Consistent(items, people, assignments, nextItemId, nextPersonId)
    ensures Consistent(PruneRows(items), people, assignments, nextItemId, nextPersonId)
  {
    var kept := PruneRows(items);
    assert forall j :: 0 <= j < |kept| ==> kept[j] in items by {
      forall j | 0 <= j < |kept| ensures kept[j] in items {
        assert kept[j] in kept;
      }
    }
    KeepRowsConsistent(items, kept, people, assignments, nextItemId, nextPersonId);
  }
}
