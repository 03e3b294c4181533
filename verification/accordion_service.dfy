/** `AccordionService`: per group, the id of its open item. A group that was
    never touched has no entry; a group whose item was closed holds `null`. */
module Accordion {
  import opened Common

  /** `_openedIds$$`: group id to open item id (`None` for `null`). */
  type OpenedIds = map<string, Option<string>>

  /** `isOpen`: `get(groupId) === id`, so an absent or `null` entry is closed. */
  predicate IsOpenId(m: OpenedIds, groupId: string, id: string)
  {
    groupId in m && m[groupId] == Some(id)
  }

  /** `toggle`: closes the id if it is the group's open one, otherwise makes
      it the open one; no other group changes. */
  function ToggledId(m: OpenedIds, groupId: string, id: string): (r: OpenedIds)
    ensures r.Keys == m.Keys + {groupId}
    ensures forall h :: h in m && h != groupId ==> r[h] == m[h]
    ensures IsOpenId(r, groupId, id) <==> !IsOpenId(m, groupId, id)
    ensures forall other :: other != id ==> !IsOpenId(r, groupId, other)
  {
    if groupId in m && m[groupId] == Some(id) then m[groupId := None] else m[groupId := Some(id)]
  }

  /** Toggling twice restores the group when the id was open or the group
      held `null`. */
  lemma ToggleTwiceId(m: OpenedIds, groupId: string, id: string)
    requires groupId in m && (m[groupId] == None || m[groupId] == Some(id))
    ensures ToggledId(ToggledId(m, groupId, id), groupId, id) == m
  {
  }

  /** `close`: closes the id only if it is the group's open one. Closing
      never opens anything. */
  function ClosedId(m: OpenedIds, groupId: string, id: string): (r: OpenedIds)
    ensures r.Keys == m.Keys
    ensures !IsOpenId(r, groupId, id)
    ensures !IsOpenId(m, groupId, id) ==> r == m
    ensures IsOpenId(m, groupId, id) ==> r[groupId] == None
    ensures forall h :: h in m && h != groupId ==> r[h] == m[h]
    ensures forall h, x :: IsOpenId(r, h, x) ==> IsOpenId(m, h, x)
  {
    if groupId in m && m[groupId] == Some(id) then m[groupId := None] else m
  }

  /** `closeGroup`: the group holds `null`, an entry being added if needed. */
  function ClosedGroupIds(m: OpenedIds, groupId: string): (r: OpenedIds)
    ensures r.Keys == m.Keys + {groupId}
    ensures r[groupId] == None
    ensures forall h :: h in m && h != groupId ==> r[h] == m[h]
  {
    m[groupId := None]
  }

  class AccordionService {
    var openedIds: OpenedIds

    constructor ()
      ensures openedIds == map[]
    {
      openedIds := map[];
    }

    method Toggle(groupId: string, id: string)
      modifies this
      ensures openedIds == ToggledId(old(openedIds), groupId, id)
    {
      var current := if groupId in openedIds then openedIds[groupId] else None;
      if current == Some(id) {
        openedIds := openedIds[groupId := None];
      } else {
        openedIds := openedIds[groupId := Some(id)];
      }
    }

    method IsOpen(groupId: string, id: string) returns (b: bool)
      ensures b <==> IsOpenId(openedIds, groupId, id)
    {
      b := groupId in openedIds && openedIds[groupId] == Some(id);
    }

    /** `open` is `toggle`: opening the open id closes it. */
    method Open(groupId: string, id: string)
      modifies this
      ensures openedIds == ToggledId(old(openedIds), groupId, id)
      ensures IsOpenId(openedIds, groupId, id) <==> !IsOpenId(old(openedIds), groupId, id)
    {
      Toggle(groupId, id);
    }

    method Close(groupId: string, id: string)
      modifies this
      ensures openedIds == ClosedId(old(openedIds), groupId, id)
    {
      if groupId in openedIds && openedIds[groupId] == Some(id) {
        openedIds := openedIds[groupId := None];
      }
    }

    method CloseGroup(groupId: string)
      modifies this
      ensures openedIds == ClosedGroupIds(old(openedIds), groupId)
    {
      openedIds := openedIds[groupId := None];
    }

    method CloseAll()
      modifies this
      ensures openedIds == map[]
      ensures forall g, id :: !IsOpenId(openedIds, g, id)
    {
      openedIds := map[];
    }
  }
}
