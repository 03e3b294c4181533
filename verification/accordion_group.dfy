/** `AccordionGroupService`: accordions that share a group id keep one
    record per group, the key of the single open item (`null` when none).
    An item's key is its accordion's id and its index joined by `-`. */
module AccordionGroup {
  import opened Common

  /** `groups$$`: group id to `openedItemKey`. */
  type Groups = map<string, Option<string>>

  /** `${accordionId}-${itemIndex}`. */
  function ItemKey(accordionId: string, itemIndex: nat): string
  {
    accordionId + "-" + NatToString(itemIndex)
  }

  /** The number of digits at the end of `s`. */
  function TrailingDigits(s: string): (n: nat)
    ensures n <= |s|
  {
    if s == [] || !IsDigit(s[|s| - 1]) then 0 else 1 + TrailingDigits(s[..|s| - 1])
  }

  /** In `p-d` with `d` all digits, the dash stops the trailing digits. */
  lemma {:induction false} TrailingDigitsOfKey(p: string, d: string)
    requires AllDigits(d)
    ensures TrailingDigits(p + "-" + d) == |d|
    decreases |d|
  {
    var s := p + "-" + d;
    if d == [] {
      assert s[|s| - 1] == '-';
    } else {
      assert s[..|s| - 1] == p + "-" + d[..|d| - 1];
      TrailingDigitsOfKey(p, d[..|d| - 1]);
    }
  }

  /** Different items never share a key, even across accordions: the index
      is the digits after the last dash. */
  lemma ItemKeyInjective(a1: string, i1: nat, a2: string, i2: nat)
    requires ItemKey(a1, i1) == ItemKey(a2, i2)
    ensures a1 == a2 && i1 == i2
  {
    var k := ItemKey(a1, i1);
    var d1, d2 := NatToString(i1), NatToString(i2);
    TrailingDigitsOfKey(a1, d1);
    TrailingDigitsOfKey(a2, d2);
    assert d1 == k[|k| - |d1|..];
    assert d2 == k[|k| - |d2|..];
    NatToStringInjective(i1, i2);
    assert a1 == k[..|a1|];
    assert a2 == k[..|a2|];
  }

  /** `isOpen`: the group is known and its open key is this item's. */
  predicate IsOpenIn(gs: Groups, groupId: string, accordionId: string, itemIndex: nat)
  {
    groupId in gs && gs[groupId] == Some(ItemKey(accordionId, itemIndex))
  }

  /** A group has at most one open item, and an unknown group none. */
  lemma AtMostOneOpen(gs: Groups, g: string, a1: string, i1: nat, a2: string, i2: nat)
    requires IsOpenIn(gs, g, a1, i1) && IsOpenIn(gs, g, a2, i2)
    ensures g in gs && a1 == a2 && i1 == i2
  {
    ItemKeyInjective(a1, i1, a2, i2);
  }

  /** `registerGroup`: adds the group with nothing open, only if absent. */
  function WithGroup(gs: Groups, g: string): (r: Groups)
    ensures r.Keys == gs.Keys + {g}
    ensures forall h :: h in gs ==> r[h] == gs[h]
    ensures g !in gs ==> r[g] == None
  {
    if g in gs then gs else gs[g := None]
  }

  /** `unregisterGroup`: removes the group and keeps the others. */
  function WithoutGroup(gs: Groups, g: string): (r: Groups)
    ensures r.Keys == gs.Keys - {g}
    ensures forall h :: h in r ==> r[h] == gs[h]
  {
    map h | h in gs && h != g :: gs[h]
  }

  /** `toggle`: in a known group, closes the item if it is open and otherwise
      makes it the group's only open item; an unknown group is left alone. */
  function Toggled(gs: Groups, g: string, accordionId: string, itemIndex: nat): (r: Groups)
    ensures g !in gs ==> r == gs
    ensures r.Keys == gs.Keys
    ensures forall h :: h in gs && h != g ==> r[h] == gs[h]
    ensures g in gs ==> (IsOpenIn(r, g, accordionId, itemIndex) <==> !IsOpenIn(gs, g, accordionId, itemIndex))
    ensures g in gs ==> r[g] == None || r[g] == Some(ItemKey(accordionId, itemIndex))
  {
    if g !in gs then gs
    else
      var key := ItemKey(accordionId, itemIndex);
      if gs[g] == Some(key) then gs[g := None] else gs[g := Some(key)]
  }

  /** After a toggle no other item of that group is open. */
  lemma ToggledOnlyItemOpen(gs: Groups, g: string, a: string, i: nat, b: string, j: nat)
    requires IsOpenIn(Toggled(gs, g, a, i), g, b, j)
    ensures b == a && j == i && !IsOpenIn(gs, g, a, i)
  {
    ItemKeyInjective(a, i, b, j);
  }

  /** Toggling twice gives back an open item, but leaves a group whose open
      item was another one with nothing open. */
  lemma ToggleTwice(gs: Groups, g: string, a: string, i: nat)
    requires g in gs
    ensures Toggled(Toggled(gs, g, a, i), g, a, i) ==
              if IsOpenIn(gs, g, a, i) then gs else gs[g := None]
  {
    if IsOpenIn(gs, g, a, i) {
      assert gs[g := Some(ItemKey(a, i))] == gs;
    }
  }

  /** `closeAll(groupId)`: the group ends with nothing open. */
  function ClosedGroup(gs: Groups, g: string): (r: Groups)
    ensures r.Keys == gs.Keys
    ensures g in gs ==> r[g] == None
    ensures forall h :: h in gs && h != g ==> r[h] == gs[h]
    ensures forall a, i :: !IsOpenIn(r, g, a, i)
  {
    if g in gs then gs[g := None] else gs
  }

  class AccordionGroupService {
    var groups: Groups

    constructor ()
      ensures groups == map[]
    {
      groups := map[];
    }

    method RegisterGroup(groupId: string)
      modifies this
      ensures groups == WithGroup(old(groups), groupId)
    {
      if groupId !in groups {
        groups := groups[groupId := None];
      }
    }

    method UnregisterGroup(groupId: string)
      modifies this
      ensures groups == WithoutGroup(old(groups), groupId)
    {
      groups := map h | h in groups && h != groupId :: groups[h];
    }

    method Toggle(groupId: string, accordionId: string, itemIndex: nat)
      modifies this
      ensures groups == Toggled(old(groups), groupId, accordionId, itemIndex)
    {
      if groupId !in groups {
        return;
      }
      var itemKey := ItemKey(accordionId, itemIndex);
      if groups[groupId] == Some(itemKey) {
        groups := groups[groupId := None];
      } else {
        groups := groups[groupId := Some(itemKey)];
      }
    }

    method IsOpen(groupId: string, accordionId: string, itemIndex: nat) returns (b: bool)
      ensures b <==> IsOpenIn(groups, groupId, accordionId, itemIndex)
    {
      if groupId !in groups {
        return false;
      }
      var itemKey := ItemKey(accordionId, itemIndex);
      b := groups[groupId] == Some(itemKey);
    }

    method CloseAll(groupId: string)
      modifies this
      ensures groups == ClosedGroup(old(groups), groupId)
    {
      if groupId !in groups {
        return;
      }
      groups := groups[groupId := None];
    }
  }
}
