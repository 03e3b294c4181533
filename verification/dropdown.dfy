/** `VDropdown`: a text field with a list of items under it. The list shows
    the items whose label contains the typed text, ignoring case; a required
    dropdown accepts only text equal to some item's label, ignoring case.
    `toLowerCase` is modelled on ASCII letters. */
module Dropdown {
  import opened Common

  /** `DropdownItem`; `labelText` is the item's `label`. */
  datatype DropdownItem = DropdownItem(value: string, labelText: string)

  /** The validation text of a required dropdown whose text names no item. */
  const InvalidOptionMessage := "Please select a valid option from the list"

  // ---------------------------------------------------------------------------
  // updateFilteredItems

  /** `item.label.toLowerCase().includes(value.toLowerCase())`. */
  predicate Matches(item: DropdownItem, v: string)
  {
    Includes(ToLower(item.labelText), ToLower(v))
  }

  /** `sub` keeps some of the elements of `s`, in their order. */
  predicate IsSubsequence<T(==)>(sub: seq<T>, s: seq<T>)
    decreases |s|
  {
    if sub == [] then true
    else if s == [] then false
    else if sub[0] == s[0] then IsSubsequence(sub[1..], s[1..])
    else IsSubsequence(sub, s[1..])
  }

  /** `items.filter(...)`: the matching items, in their order. */
  function FilterMatching(items: seq<DropdownItem>, v: string): (r: seq<DropdownItem>)
    ensures forall x :: x in r <==> x in items && Matches(x, v)
    ensures forall x :: multiset(r)[x] == (if Matches(x, v) then multiset(items)[x] else 0)
    ensures IsSubsequence(r, items)
  {
    if items == [] then []
    else
      var rest := FilterMatching(items[1..], v);
      assert forall x :: x in items <==> x == items[0] || x in items[1..];
      assert items == [items[0]] + items[1..];
      assert multiset(items) == multiset{items[0]} + multiset(items[1..]);
      if Matches(items[0], v) then [items[0]] + rest
      else
        SubsequenceOfTail(rest, items);
        rest
  }

  /** Dropping the head of the longer sequence keeps the relation. */
  lemma {:induction false} SubsequenceOfTail<T>(sub: seq<T>, s: seq<T>)
    requires s != [] && IsSubsequence(sub, s[1..])
    ensures IsSubsequence(sub, s)
    decreases |s|, 0
  {
    if sub != [] && sub[0] == s[0] {
      SubsequenceDropHead(sub, s[1..]);
    }
  }

  /** Dropping the head of the shorter sequence keeps the relation. */
  lemma {:induction false} SubsequenceDropHead<T>(sub: seq<T>, s: seq<T>)
    requires sub != [] && IsSubsequence(sub, s)
    ensures IsSubsequence(sub[1..], s)
    decreases |s|, 1
  {
    if sub[0] == s[0] {
      SubsequenceOfTail(sub[1..], s);
    } else {
      SubsequenceDropHead(sub, s[1..]);
      SubsequenceOfTail(sub[1..], s);
    }
  }

  /** What the list shows for the text `v`: every item when the text is blank
      (`!value.trim()`; see `TrimEmptyIffBlank`), else the matching items. */
  function FilteredItems(items: seq<DropdownItem>, v: string): (r: seq<DropdownItem>)
    ensures IsBlank(v) ==> r == items
    ensures !IsBlank(v) ==> (forall x :: x in r <==> x in items && Matches(x, v)) && IsSubsequence(r, items)
    ensures !IsBlank(v) ==> forall x :: multiset(r)[x] == (if Matches(x, v) then multiset(items)[x] else 0)
  {
    if IsBlank(v) then items else FilterMatching(items, v)
  }

  lemma {:induction false} ToLowerIdempotent(s: string)
    ensures ToLower(ToLower(s)) == ToLower(s)
  {
    if s != [] {
      ToLowerIdempotent(s[1..]);
    }
  }

  /** The filter ignores the case of the typed text. */
  lemma {:induction false} FilterIgnoresCase(items: seq<DropdownItem>, v: string)
    ensures FilterMatching(items, ToLower(v)) == FilterMatching(items, v)
  {
    if items != [] {
      ToLowerIdempotent(v);
      assert Matches(items[0], ToLower(v)) == Matches(items[0], v);
      FilterIgnoresCase(items[1..], v);
    }
  }

  /** Filtering the shown list again with the same text changes nothing. */
  lemma {:induction false} FilterIdempotent(items: seq<DropdownItem>, v: string)
    ensures FilterMatching(FilterMatching(items, v), v) == FilterMatching(items, v)
  {
    if items != [] {
      FilterIdempotent(items[1..], v);
    }
  }

  /** Every item whose label equals the text, up to case, is shown. */
  lemma ExactLabelIsShown(items: seq<DropdownItem>, item: DropdownItem, v: string)
    requires item in items && ToLower(item.labelText) == ToLower(v)
    ensures item in FilteredItems(items, v)
  {
    assert OccursAt(ToLower(item.labelText), ToLower(v), 0);
  }

  // ---------------------------------------------------------------------------
  // validateInput

  /** `items.find(item => item.label.toLowerCase() === value.toLowerCase())`
      finds something. */
  function HasExactMatch(items: seq<DropdownItem>, v: string): (b: bool)
    ensures b <==> exists i :: 0 <= i < |items| && ToLower(items[i].labelText) == ToLower(v)
  {
    if items == [] then false
    else if ToLower(items[0].labelText) == ToLower(v) then true
    else
      var b := HasExactMatch(items[1..], v);
      assert forall i :: 1 <= i < |items| ==> items[1..][i - 1] == items[i];
      assert b ==> exists i :: 0 <= i < |items| && ToLower(items[i].labelText) == ToLower(v) by {
        if b {
          var j :| 0 <= j < |items[1..]| && ToLower(items[1..][j].labelText) == ToLower(v);
          assert ToLower(items[j + 1].labelText) == ToLower(v);
        }
      }
      b
  }

  /** The error `validateInput` sets: none when the dropdown is optional or
      the text is blank; otherwise none iff some label equals the text up to
      case. */
  function ValidationError(isRequired: bool, items: seq<DropdownItem>, v: string): (e: string)
    ensures e == "" || e == InvalidOptionMessage
    ensures e == InvalidOptionMessage <==>
              isRequired && !IsBlank(v) && forall i :: 0 <= i < |items| ==> ToLower(items[i].labelText) != ToLower(v)
  {
    if !isRequired || IsBlank(v) then ""
    else if !HasExactMatch(items, v) then InvalidOptionMessage
    else ""
  }

  /** The label of any item passes validation, whatever its case. */
  lemma ItemLabelIsValid(isRequired: bool, items: seq<DropdownItem>, i: int, v: string)
    requires 0 <= i < |items| && ToLower(v) == ToLower(items[i].labelText)
    ensures ValidationError(isRequired, items, v) == ""
  {
  }

  // ---------------------------------------------------------------------------
  // computedErrorMessage$$ and dropdownListStyles$$

  /** While the list is open only the configured message shows; while it is
      closed the validation error wins over it. */
  function ComputedErrorMessage(isOpen: bool, validationError: string, errorMessage: string): (m: string)
    ensures isOpen ==> m == errorMessage
    ensures !isOpen && validationError != "" ==> m == validationError
    ensures !isOpen && validationError == "" ==> m == errorMessage
  {
    if isOpen then errorMessage
    else if validationError != "" then validationError
    else errorMessage
  }

  /** The list's style map: a measured width wins; otherwise the configured
      minimum width, if any; otherwise nothing. `fmt` writes the number. */
  function ListStyles(dropdownWidth: real, minDropdownWidth: string, fmt: real -> string): (styles: map<string, string>)
    ensures |styles| <= 1
    ensures "width" in styles <==> dropdownWidth > 0.0
    ensures "width" in styles ==> styles["width"] == fmt(dropdownWidth) + "px"
    ensures "min-width" in styles <==> dropdownWidth <= 0.0 && minDropdownWidth != ""
    ensures "min-width" in styles ==> styles["min-width"] == minDropdownWidth
  {
    if dropdownWidth > 0.0 then map["width" := fmt(dropdownWidth) + "px"]
    else if minDropdownWidth != "" then map["min-width" := minDropdownWidth]
    else map[]
  }

  // ---------------------------------------------------------------------------
  // The component

  class VDropdown {
    const items: seq<DropdownItem>
    const isRequired: bool
    const errorMessage: string
    /** `value$$`: the typed or selected text. */
    var value: string
    var isOpen: bool
    var filteredItems: seq<DropdownItem>
    var validationError: string
    /** The internal search control's value. */
    var searchText: string
    /** Values passed to the form's `onChange`, oldest first. */
    var changes: seq<string>
    /** Items emitted by `onSelectionChanged` (`None` for null), oldest first. */
    var selections: seq<Option<DropdownItem>>
    var touchCount: nat

    /** The validation error is one of the two texts `validateInput` sets. */
    ghost predicate Valid()
      reads this
    {
      validationError == "" || validationError == InvalidOptionMessage
    }

    constructor (items: seq<DropdownItem>, isRequired: bool, errorMessage: string)
      ensures Valid()
      ensures this.items == items && this.isRequired == isRequired && this.errorMessage == errorMessage
      ensures value == "" && !isOpen && filteredItems == [] && validationError == "" && searchText == ""
      ensures changes == [] && selections == [] && touchCount == 0
    {
      this.items := items;
      this.isRequired := isRequired;
      this.errorMessage := errorMessage;
      value := "";
      isOpen := false;
      filteredItems := [];
      validationError := "";
      searchText := "";
      changes := [];
      selections := [];
      touchCount := 0;
    }

    /** `computedErrorMessage$$`. */
    function ShownError(): (m: string)
      reads this
      ensures m == ComputedErrorMessage(isOpen, validationError, errorMessage)
    {
      ComputedErrorMessage(isOpen, validationError, errorMessage)
    }

    method UpdateFilteredItems()
      modifies this`filteredItems
      ensures filteredItems == FilteredItems(items, value)
    {
      if IsBlank(value) {
        filteredItems := items;
      } else {
        filteredItems := FilterMatching(items, value);
      }
    }

    method ValidateInput()
      modifies this`validationError
      ensures validationError == ValidationError(isRequired, items, value)
      ensures Valid()
    {
      if !isRequired || IsBlank(value) {
        validationError := "";
        return;
      }
      var exactMatch := HasExactMatch(items, value);
      if !exactMatch {
        validationError := InvalidOptionMessage;
      } else {
        validationError := "";
      }
    }

    /** `writeValue`: the form writes a value (`None` for null); the list and
        the validation follow it. */
    method WriteValue(v: Option<string>)
      modifies this`value, this`searchText, this`filteredItems, this`validationError
      ensures Valid()
      ensures value == (if v.Some? then v.value else "") && searchText == value
      ensures filteredItems == FilteredItems(items, value)
      ensures validationError == ValidationError(isRequired, items, value)
    {
      value := if v.Some? then v.value else "";
      searchText := value;
      UpdateFilteredItems();
      ValidateInput();
    }

    /** `onFocus`: opens the list over the current text. */
    method OnFocus()
      modifies this`isOpen, this`filteredItems
      ensures isOpen && filteredItems == FilteredItems(items, value)
    {
      isOpen := true;
      UpdateFilteredItems();
    }

    /** `selectItem`: the item's label becomes the text, its value is
        reported, and the list closes without an error. */
    method SelectItem(item: DropdownItem)
      modifies this`value, this`validationError, this`searchText, this`changes, this`selections, this`isOpen
      ensures Valid()
      ensures value == item.labelText && searchText == item.labelText && validationError == "" && !isOpen
      ensures changes == old(changes) + [item.value]
      ensures selections == old(selections) + [Some(item)]
      ensures ShownError() == errorMessage
    {
      value := item.labelText;
      validationError := "";
      searchText := value;
      changes := changes + [item.value];
      selections := selections + [Some(item)];
      isOpen := false;
    }

    /** `clearInput`: empties the text, reports "" and null, and shows every
        item again. */
    method ClearInput()
      modifies this`value, this`validationError, this`searchText, this`changes, this`selections, this`filteredItems
      ensures Valid()
      ensures value == "" && searchText == "" && validationError == ""
      ensures changes == old(changes) + [""] && selections == old(selections) + [None]
      ensures filteredItems == items
    {
      value := "";
      validationError := "";
      searchText := "";
      changes := changes + [""];
      selections := selections + [None];
      UpdateFilteredItems();
    }

    /** `closeDropdown`: closes the list, validates the text, and marks the
        control touched. */
    method CloseDropdown()
      modifies this`isOpen, this`validationError, this`touchCount
      ensures Valid() && !isOpen
      ensures validationError == ValidationError(isRequired, items, value)
      ensures touchCount == old(touchCount) + 1
    {
      isOpen := false;
      ValidateInput();
      touchCount := touchCount + 1;
    }
  }

  /** Selecting an item and then closing the list leaves no validation error. */
  method SelectThenClose(d: VDropdown, i: int)
    requires 0 <= i < |d.items|
    modifies d
    ensures d.validationError == "" && !d.isOpen && d.value == d.items[i].labelText
  {
    d.SelectItem(d.items[i]);
    d.CloseDropdown();
    ItemLabelIsValid(d.isRequired, d.items, i, d.value);
  }
}
