/** `VAccordion` and its `VExpand` panels. An accordion either keeps its own
    set of open indices (one at a time unless `multiple`), or, with a group
    id, stores the open item in the shared `AccordionGroupService`. A panel
    that an accordion registered asks the accordion whether it is open and
    asks it to toggle; a standalone panel keeps its own flag.
    `item.notifyStateChange(state)` (the panel emitting `onOpened` with that
    state) is recorded in the accordion's `notified` log. */
module Expand {
  import opened Common
  import opened AccordionGroup

  /** `AccordionItemPosition`; its `isOpen` and `toggle` closures are
      `owner.IsItemOpen(index)` and `owner.Toggle(index)`. */
  datatype ItemPosition = ItemPosition(index: nat, isFirst: bool, isLast: bool, owner: VAccordion)

  /** One `item.notifyStateChange(isOpen)` call, on the item at `index`. */
  datatype Notification = Notification(index: nat, isOpen: bool)

  // ---------------------------------------------------------------------------
  // updatePositions

  /** The position `updatePositions` gives the item at `index` of `total`. */
  function PositionOf(owner: VAccordion, index: nat, total: nat): ItemPosition
  {
    ItemPosition(index, index == 0, index == total - 1, owner)
  }

  /** `isAccordionMiddle$$`: registered, and neither first nor last. */
  predicate IsMiddle(pos: Option<ItemPosition>)
  {
    pos.Some? && !pos.value.isFirst && !pos.value.isLast
  }

  /** An item is in the middle exactly when it has items on both sides; a
      lone item is both first and last. */
  lemma MiddleIffInterior(owner: VAccordion, index: nat, total: nat)
    requires index < total
    ensures IsMiddle(Some(PositionOf(owner, index, total))) <==> 0 < index < total - 1
    ensures total == 1 ==> PositionOf(owner, index, total).isFirst && PositionOf(owner, index, total).isLast
    ensures PositionOf(owner, index, total).isFirst <==> index == 0
    ensures PositionOf(owner, index, total).isLast <==> index == total - 1
  {
  }

  // ---------------------------------------------------------------------------
  // toggle without a group

  /** The open set after toggling `index`: `multiple` flips that index
      alone; otherwise the index ends up the only open one, or nothing is
      open if it was. */
  function ToggledIndices(openSet: set<nat>, multiple: bool, index: nat): (r: set<nat>)
    ensures index in r <==> index !in openSet
    ensures multiple ==> forall k :: k != index ==> (k in r <==> k in openSet)
    ensures !multiple ==> r <= {index}
  {
    if multiple then
      if index in openSet then openSet - {index} else openSet + {index}
    else
      if index in openSet then {} else {index}
  }

  /** In single mode at most one index is ever open; in multiple mode
      toggling twice restores the set. */
  lemma ToggledIndicesProperties(openSet: set<nat>, multiple: bool, index: nat)
    ensures !multiple ==> forall i, j :: i in ToggledIndices(openSet, multiple, index) && j in ToggledIndices(openSet, multiple, index) ==> i == j
    ensures multiple ==> ToggledIndices(ToggledIndices(openSet, multiple, index), multiple, index) == openSet
  {
  }

  // ---------------------------------------------------------------------------
  // groupStateChangeEffect$$

  /** The group's open state of each of `n` items, by index. */
  function GroupStatesOf(gs: Groups, g: string, accordionId: string, n: nat): (r: seq<bool>)
    ensures |r| == n
    ensures forall i :: 0 <= i < n ==> r[i] == IsOpenIn(gs, g, accordionId, i)
  {
    seq(n, i requires 0 <= i => IsOpenIn(gs, g, accordionId, i))
  }

  /** Whether the record `prev` already holds `state` for `index`
      (`previousStates.get(index) === state`). */
  predicate SameAsRecorded(prev: map<nat, bool>, index: nat, state: bool)
  {
    index in prev && prev[index] == state
  }

  /** The notifications one pass of the effect sends, in index order. */
  function GroupNotifications(prev: map<nat, bool>, cur: seq<bool>): seq<Notification>
  {
    if cur == [] then []
    else
      var k := |cur| - 1;
      GroupNotifications(prev, cur[..k]) + (if SameAsRecorded(prev, k, cur[k]) then [] else [Notification(k, cur[k])])
  }

  /** One notification for each item whose state differs from the record,
      carrying that state, and in index order. */
  lemma {:induction false} GroupNotificationsExact(prev: map<nat, bool>, cur: seq<bool>)
    ensures forall n :: n in GroupNotifications(prev, cur) ==>
              n.index < |cur| && n.isOpen == cur[n.index] && !SameAsRecorded(prev, n.index, cur[n.index])
    ensures forall i: nat :: i < |cur| && !SameAsRecorded(prev, i, cur[i]) ==>
              Notification(i, cur[i]) in GroupNotifications(prev, cur)
    ensures forall a, b :: 0 <= a < b < |GroupNotifications(prev, cur)| ==>
              GroupNotifications(prev, cur)[a].index < GroupNotifications(prev, cur)[b].index
  {
    if cur != [] {
      var k := |cur| - 1;
      GroupNotificationsExact(prev, cur[..k]);
      assert forall i :: 0 <= i < k ==> cur[..k][i] == cur[i];
    }
  }

  /** The record after one pass. */
  function Recorded(prev: map<nat, bool>, cur: seq<bool>): map<nat, bool>
  {
    if cur == [] then prev
    else
      var k := |cur| - 1;
      Recorded(prev, cur[..k])[k := cur[k]]
  }

  /** The record holds every item's current state, and the old entries
      beyond the items. */
  lemma {:induction false} RecordedExact(prev: map<nat, bool>, cur: seq<bool>)
    ensures forall k: nat :: k < |cur| ==> k in Recorded(prev, cur) && Recorded(prev, cur)[k] == cur[k]
    ensures forall k :: k in prev ==> k in Recorded(prev, cur)
    ensures forall k :: k in Recorded(prev, cur) && k >= |cur| ==> k in prev && Recorded(prev, cur)[k] == prev[k]
  {
    if cur != [] {
      var k := |cur| - 1;
      RecordedExact(prev, cur[..k]);
      assert forall i :: 0 <= i < k ==> cur[..k][i] == cur[i];
    }
  }

  /** One more item: the record gains its state, and a notification is
      added iff the old record differs. */
  lemma EffectStep(prev: map<nat, bool>, cur: seq<bool>, k: nat)
    requires k < |cur|
    ensures Recorded(prev, cur[..k + 1]) == Recorded(prev, cur[..k])[k := cur[k]]
    ensures GroupNotifications(prev, cur[..k + 1]) ==
              GroupNotifications(prev, cur[..k]) + (if SameAsRecorded(prev, k, cur[k]) then [] else [Notification(k, cur[k])])
    ensures SameAsRecorded(Recorded(prev, cur[..k]), k, cur[k]) == SameAsRecorded(prev, k, cur[k])
  {
    assert cur[..k + 1][..k] == cur[..k];
    RecordedExact(prev, cur[..k]);
  }

  /** A record that already matches every state yields no notification. */
  lemma {:induction false} NoChanges(prev: map<nat, bool>, cur: seq<bool>)
    requires forall i :: 0 <= i < |cur| ==> SameAsRecorded(prev, i, cur[i])
    ensures GroupNotifications(prev, cur) == []
  {
    if cur != [] {
      var k := |cur| - 1;
      assert forall i :: 0 <= i < k ==> cur[..k][i] == cur[i];
      NoChanges(prev, cur[..k]);
    }
  }

  /** A second pass over unchanged group state notifies nobody. */
  lemma SecondPassQuiet(prev: map<nat, bool>, cur: seq<bool>)
    ensures GroupNotifications(Recorded(prev, cur), cur) == []
  {
    RecordedExact(prev, cur);
    NoChanges(Recorded(prev, cur), cur);
  }

  // ---------------------------------------------------------------------------
  // VAccordion

  class VAccordion {
    const multiple: bool
    const groupId: Option<string>
    /** `crypto.randomUUID()`, given by the caller. */
    const accordionId: string
    const service: AccordionGroupService
    /** `items()`: the panels in content order. */
    const items: seq<VExpand>
    var openedIndices: set<nat>
    var previousStates: map<nat, bool>
    var notified: seq<Notification>

    /** Without `multiple`, at most one index is open. */
    ghost predicate Valid()
      reads this
    {
      !multiple ==> forall i, j :: i in openedIndices && j in openedIndices ==> i == j
    }

    /** `contentChildren` lists each panel once. */
    predicate ItemsDistinct()
    {
      forall i, j :: 0 <= i < j < |items| ==> items[i] != items[j]
    }

    constructor (multiple: bool, groupId: Option<string>, accordionId: string,
                 service: AccordionGroupService, items: seq<VExpand>)
      ensures Valid()
      ensures this.multiple == multiple && this.groupId == groupId && this.accordionId == accordionId
      ensures this.service == service && this.items == items
      ensures openedIndices == {} && previousStates == map[] && notified == []
    {
      this.multiple := multiple;
      this.groupId := groupId;
      this.accordionId := accordionId;
      this.service := service;
      this.items := items;
      openedIndices := {};
      previousStates := map[];
      notified := [];
    }

    /** `if (groupId)`: a group id that is present and not empty. */
    predicate HasGroup()
    {
      groupId.Some? && groupId.value != ""
    }

    /** The `isOpen` closure given to the item at `index`. */
    function IsItemOpen(index: nat): bool
      reads this, service
    {
      if HasGroup() then IsOpenIn(service.groups, groupId.value, accordionId, index)
      else index in openedIndices
    }

    /** A toggle takes effect: no group, or a group the service knows. */
    predicate CanToggle()
      reads service
    {
      !HasGroup() || groupId.value in service.groups
    }

    /** `ngOnInit`: registers the group, if any. */
    method OnInit()
      modifies service
      ensures service.groups == if HasGroup() then WithGroup(old(service.groups), groupId.value) else old(service.groups)
    {
      if HasGroup() {
        service.RegisterGroup(groupId.value);
      }
    }

    /** `ngOnDestroy`: unregisters the group, if any. */
    method OnDestroy()
      modifies service
      ensures service.groups == if HasGroup() then WithoutGroup(old(service.groups), groupId.value) else old(service.groups)
    {
      if HasGroup() {
        service.UnregisterGroup(groupId.value);
      }
    }

    /** `updatePositions`: registers every item with its position. */
    method UpdatePositions()
      requires ItemsDistinct()
      modifies set k | 0 <= k < |items| :: items[k]
      ensures forall k :: 0 <= k < |items| ==> items[k].position == Some(PositionOf(this, k, |items|))
      ensures forall k :: 0 <= k < |items| ==> items[k].expanded == old(items[k].expanded)
    {
      var index := 0;
      while index < |items|
        invariant 0 <= index <= |items|
        invariant forall k :: 0 <= k < index ==> items[k].position == Some(PositionOf(this, k, |items|))
        invariant forall k :: 0 <= k < |items| ==> items[k].expanded == old(items[k].expanded)
      {
        items[index].RegisterInAccordion(PositionOf(this, index, |items|));
        index := index + 1;
      }
    }

    /** `itemsChangeEffect$$`: positions are handed out once there are items. */
    method ItemsChanged()
      requires ItemsDistinct()
      modifies set k | 0 <= k < |items| :: items[k]
      ensures forall k :: 0 <= k < |items| ==> items[k].position == Some(PositionOf(this, k, |items|))
      ensures forall k :: 0 <= k < |items| ==> items[k].expanded == old(items[k].expanded)
    {
      if |items| > 0 {
        UpdatePositions();
      }
    }

    /** `toggle(index)`: through the group service when there is a group,
        else on the local set; either way the item hears its new state. */
    /** The accordion's state is what `Toggle(index)` makes of the earlier
        one: the group map or the local set toggled, the record updated in
        group mode, and the item notified of its new state. */
    twostate predicate ToggledFrom(index: nat)
      reads this, service
    {
      && notified == old(notified) + [Notification(index, IsItemOpen(index))]
      && (HasGroup() ==>
            service.groups == Toggled(old(service.groups), groupId.value, accordionId, index)
            && openedIndices == old(openedIndices)
            && previousStates == old(previousStates)[index := IsItemOpen(index)])
      && (!HasGroup() ==>
            service.groups == old(service.groups)
            && openedIndices == ToggledIndices(old(openedIndices), multiple, index)
            && previousStates == old(previousStates))
    }

    method Toggle(index: nat)
      requires Valid() && index < |items|
      modifies this, service
      ensures Valid()
      ensures HasGroup() ==>
                service.groups == Toggled(old(service.groups), groupId.value, accordionId, index)
                && openedIndices == old(openedIndices)
                && previousStates == old(previousStates)[index := IsItemOpen(index)]
      ensures !HasGroup() ==>
                service.groups == old(service.groups)
                && openedIndices == ToggledIndices(old(openedIndices), multiple, index)
                && previousStates == old(previousStates)
      ensures notified == old(notified) + [Notification(index, IsItemOpen(index))]
      ensures old(CanToggle()) ==> IsItemOpen(index) == !old(IsItemOpen(index))
      ensures !old(CanToggle()) ==> !IsItemOpen(index) && !old(IsItemOpen(index))
    {
      if HasGroup() {
        var g := groupId.value;
        service.Toggle(g, accordionId, index);
        var newState := service.IsOpen(g, accordionId, index);
        previousStates := previousStates[index := newState];
        notified := notified + [Notification(index, newState)];
      } else {
        var openSet := openedIndices;
        if multiple {
          if index in openSet {
            openSet := openSet - {index};
          } else {
            openSet := openSet + {index};
          }
        } else {
          if index in openSet {
            openSet := {};
          } else {
            openSet := {index};
          }
        }
        openedIndices := openSet;
        notified := notified + [Notification(index, index in openSet)];
      }
    }

    /** `groupStateChangeEffect$$`: with a group, notifies each item whose
        state in the group differs from the record, and records it. */
    method GroupStateChangeEffect()
      modifies this`previousStates, this`notified
      ensures !HasGroup() ==> previousStates == old(previousStates) && notified == old(notified)
      ensures HasGroup() ==>
                var cur := GroupStatesOf(service.groups, groupId.value, accordionId, |items|);
                previousStates == Recorded(old(previousStates), cur)
                && notified == old(notified) + GroupNotifications(old(previousStates), cur)
    {
      if !HasGroup() {
        return;
      }
      var g := groupId.value;
      ghost var prev0 := previousStates;
      ghost var cur := GroupStatesOf(service.groups, g, accordionId, |items|);
      var index := 0;
      while index < |items|
        invariant 0 <= index <= |items|
        invariant previousStates == Recorded(prev0, cur[..index])
        invariant notified == old(notified) + GroupNotifications(prev0, cur[..index])
      {
        var currentState := service.IsOpen(g, accordionId, index);
        EffectStep(prev0, cur, index);
        if !SameAsRecorded(previousStates, index, currentState) {
          previousStates := previousStates[index := currentState];
          notified := notified + [Notification(index, currentState)];
        } else {
          assert previousStates[index := currentState] == previousStates;
        }
        index := index + 1;
      }
      assert cur[..index] == cur;
    }
  }

  /** At most one item reads as open: always with a group (the group holds
      one item key), and without one unless `multiple`. */
  lemma OpenItemsExclusive(acc: VAccordion, i: nat, j: nat)
    requires acc.Valid() && (acc.HasGroup() || !acc.multiple)
    requires acc.IsItemOpen(i) && acc.IsItemOpen(j)
    ensures i == j
  {
    if acc.HasGroup() {
      AtMostOneOpen(acc.service.groups, acc.groupId.value, acc.accordionId, i, acc.accordionId, j);
    }
  }

  // ---------------------------------------------------------------------------
  // VExpand

  class VExpand {
    /** `accordionPosition$$`: `None` until an accordion registers the panel. */
    var position: Option<ItemPosition>
    /** `_isExpanded$$`: the standalone open flag. */
    var expanded: bool

    constructor ()
      ensures position == None && !expanded
    {
      position := None;
      expanded := false;
    }

    /** `isAccordionMiddle$$`. */
    predicate IsAccordionMiddle()
      reads this
    {
      IsMiddle(position)
    }

    /** `isPanelExpanded$$`: the accordion's answer when registered,
        otherwise the standalone flag. */
    function IsPanelExpanded(): bool
      reads this
      reads if position.Some? then {position.value.owner} else {}
      reads if position.Some? then {position.value.owner.service} else {}
    {
      if position.Some? then position.value.owner.IsItemOpen(position.value.index) else expanded
    }

    /** `registerInAccordion`. */
    method RegisterInAccordion(p: ItemPosition)
      modifies this`position
      ensures position == Some(p)
    {
      position := Some(p);
    }

    /** `syncIsExpandedEffect$$`: the `isExpanded` input overwrites the flag. */
    method Sync(external: bool)
      modifies this`expanded
      ensures expanded == external
      ensures position.None? ==> IsPanelExpanded() == external
    {
      expanded := external;
    }

    /** `setExpanded(state)`: a registered panel toggles through its
        accordion only when its state differs, so it ends in `state`; a
        standalone panel sets its flag. */
    method SetExpanded(state: bool)
      requires position.Some? ==> position.value.owner.Valid() && position.value.index < |position.value.owner.items|
      modifies this`expanded
      modifies if position.Some? then {position.value.owner} else {}
      modifies if position.Some? then {position.value.owner.service} else {}
      ensures position == old(position)
      ensures position.None? ==> expanded == state
      ensures position.Some? ==> expanded == old(expanded) && position.value.owner.Valid()
      ensures position.Some? && old(position.value.owner.CanToggle()) ==> IsPanelExpanded() == state
      ensures position.Some? && old(IsPanelExpanded()) == state ==>
                unchanged(position.value.owner) && unchanged(position.value.owner.service)
      ensures position.Some? && old(IsPanelExpanded()) != state ==>
                position.value.owner.ToggledFrom(position.value.index)
    {
      if position.Some? {
        var pos := position.value;
        var currentState := pos.owner.IsItemOpen(pos.index);
        if currentState != state {
          pos.owner.Toggle(pos.index);
        }
      } else {
        expanded := state;
      }
    }

    /** `toggle`: delegates to the accordion, or flips the standalone flag. */
    method Toggle()
      requires position.Some? ==> position.value.owner.Valid() && position.value.index < |position.value.owner.items|
      modifies this`expanded
      modifies if position.Some? then {position.value.owner} else {}
      modifies if position.Some? then {position.value.owner.service} else {}
      ensures position == old(position)
      ensures position.None? ==> expanded == !old(expanded)
      ensures position.Some? ==> expanded == old(expanded) && position.value.owner.Valid()
      ensures position.Some? && old(position.value.owner.CanToggle()) ==> IsPanelExpanded() == !old(IsPanelExpanded())
      ensures position.Some? ==> position.value.owner.ToggledFrom(position.value.index)
    {
      if position.Some? {
        var pos := position.value;
        pos.owner.Toggle(pos.index);
      } else {
        expanded := !expanded;
      }
    }
  }
}
