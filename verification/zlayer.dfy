/** The z-layer allocator (`ZLayerService`): a counter for layer ids, a
    counter for root z-indices and a registry of live layers. Root layers
    take the next z-index above every earlier root; a layer with a
    registered parent sits at a fixed offset from it. */
module ZLayer {
  import opened Common

  datatype LayerType = Modal | Dropdown | Tooltip | Backdrop

  /** `LayerEntry`. */
  datatype LayerEntry = LayerEntry(id: string, zIndex: int, layerType: LayerType, parentId: Option<string>)

  /** The z-index counter starts here; the first root layer gets one more. */
  const BaseZIndex := 100

  /** What `getBackdropZIndex` answers for an id it does not know. */
  const FallbackBackdropZIndex := 90

  /** `getTypeOffset`: the distance of a child layer from its parent. */
  function TypeOffset(t: LayerType): (offset: int)
    ensures t == Backdrop <==> offset < 0
    ensures offset == -10 || offset == 0 || offset == 10 || offset == 20
  {
    match t
    case Backdrop => -10
    case Modal => 0
    case Dropdown => 10
    case Tooltip => 20
  }

  /** Layers of a higher type sit higher above the same parent. */
  lemma TypeOffsetOrder()
    ensures TypeOffset(Backdrop) < TypeOffset(Modal) < TypeOffset(Dropdown) < TypeOffset(Tooltip)
  {
  }

  /** The id `generateId` hands out for counter value `n`: `layer_<n>`. */
  function LayerId(n: nat): string { "layer_" + NatToString(n) }

  /** Ids made from different counter values differ. */
  lemma LayerIdInjective(a: nat, b: nat)
    requires LayerId(a) == LayerId(b)
    ensures a == b
  {
    SamePrefixCancels("layer_", NatToString(a), NatToString(b));
    NatToStringInjective(a, b);
  }

  class ZLayerService {
    var currentZIndex: int
    var idCounter: nat
    var layers: map<string, LayerEntry>
    /** The z-indices handed to root layers, in order. */
    ghost var rootZIndices: seq<int>

    /** The counters and the registry agree: every live layer carries an
        id already handed out and is filed under it, and the root z-indices
        are 101, 102, ... up to the counter. */
    ghost predicate Valid()
      reads this
    {
      && (forall id :: id in layers ==> layers[id].id == id)
      && (forall id :: id in layers ==> exists k :: 1 <= k <= idCounter && id == LayerId(k))
      && currentZIndex == BaseZIndex + |rootZIndices|
      && (forall i :: 0 <= i < |rootZIndices| ==> rootZIndices[i] == BaseZIndex + 1 + i)
    }

    constructor ()
      ensures Valid()
      ensures currentZIndex == BaseZIndex && idCounter == 0 && layers == map[] && rootZIndices == []
    {
      currentZIndex := BaseZIndex;
      idCounter := 0;
      layers := map[];
      rootZIndices := [];
    }

    /** `generateId`: `layer_1`, `layer_2`, ...; never an id in use. */
    method GenerateId() returns (id: string)
      requires Valid()
      modifies this`idCounter
      ensures Valid()
      ensures idCounter == old(idCounter) + 1 && id == LayerId(idCounter)
      ensures id !in layers
      ensures forall k :: 1 <= k <= old(idCounter) ==> id != LayerId(k)
    {
      idCounter := idCounter + 1;
      id := LayerId(idCounter);
      forall k | 1 <= k <= old(idCounter)
        ensures id != LayerId(k)
      {
        if id == LayerId(k) {
          LayerIdInjective(idCounter, k);
        }
      }
    }

    /** True when `parentId` names a live layer (`if (parentId)` first rules
        out a missing or empty id). */
    predicate HasParent(parentId: Option<string>)
      reads this
    {
      parentId.Some? && parentId.value != "" && parentId.value in layers
    }

    /** `getNextZIndex`: the parent's z-index plus the type offset, or else
        the next root z-index. */
    method GetNextZIndex(t: LayerType, parentId: Option<string>) returns (z: int)
      requires Valid()
      modifies this`currentZIndex, this`rootZIndices
      ensures Valid()
      ensures old(HasParent(parentId)) ==>
                z == layers[parentId.value].zIndex + TypeOffset(t)
                && currentZIndex == old(currentZIndex) && rootZIndices == old(rootZIndices)
      ensures !old(HasParent(parentId)) ==>
                z == currentZIndex == old(currentZIndex) + 1 && rootZIndices == old(rootZIndices) + [z]
    {
      if parentId.Some? && parentId.value != "" {
        if parentId.value in layers {
          var parent := layers[parentId.value];
          return parent.zIndex + TypeOffset(t);
        }
      }
      currentZIndex := currentZIndex + 1;
      rootZIndices := rootZIndices + [currentZIndex];
      z := currentZIndex;
    }

    /** `registerLayer`: files exactly one new entry, under a fresh id, and
        returns its controller. */
    method RegisterLayer(t: LayerType, parentId: Option<string>) returns (c: LayerController)
      requires Valid()
      modifies this`idCounter, this`currentZIndex, this`rootZIndices, this`layers
      ensures Valid()
      ensures fresh(c) && c.service == this
      ensures c.id == LayerId(idCounter) && idCounter == old(idCounter) + 1
      ensures c.id !in old(layers)
      ensures layers == old(layers)[c.id := LayerEntry(c.id, c.zIndex, t, parentId)]
      ensures old(HasParent(parentId)) ==>
                c.zIndex == old(layers)[parentId.value].zIndex + TypeOffset(t)
                && currentZIndex == old(currentZIndex)
      ensures !old(HasParent(parentId)) ==>
                c.zIndex == currentZIndex == old(currentZIndex) + 1
                && rootZIndices == old(rootZIndices) + [c.zIndex]
    {
      var id := GenerateId();
      var zIndex := GetNextZIndex(t, parentId);
      FileLayer(id, LayerEntry(id, zIndex, t, parentId));
      c := new LayerController(id, zIndex, this);
    }

    /** Files `e` under the id the counter handed out last. */
    method FileLayer(id: string, e: LayerEntry)
      requires Valid() && idCounter >= 1 && id == LayerId(idCounter) && e.id == id
      modifies this`layers
      ensures Valid()
      ensures layers == old(layers)[id := e]
    {
      layers := layers[id := e];
      forall x | x in layers
        ensures exists k :: 1 <= k <= idCounter && x == LayerId(k)
      {
        if x == id {
          assert 1 <= idCounter <= idCounter && x == LayerId(idCounter);
        }
      }
    }

    /** `unregisterLayer`: removes that id and nothing else. */
    method UnregisterLayer(id: string)
      requires Valid()
      modifies this`layers
      ensures Valid()
      ensures layers == old(layers) - {id}
    {
      layers := layers - {id};
    }

    /** `getBackdropZIndex`: ten below the named layer, or 90. */
    function BackdropZIndex(id: string): (z: int)
      reads this
      ensures id in layers ==> z == layers[id].zIndex + TypeOffset(Backdrop)
      ensures id !in layers ==> z == FallbackBackdropZIndex
    {
      if id in layers then layers[id].zIndex - 10 else 90
    }
  }

  /** Every root z-index is above every earlier one, the first is 101. */
  lemma RootZIndicesIncrease(s: ZLayerService, i: int, j: int)
    requires s.Valid() && 0 <= i < j < |s.rootZIndices|
    ensures s.rootZIndices[0] == 101
    ensures s.rootZIndices[i] < s.rootZIndices[j]
    ensures s.rootZIndices[j] <= s.currentZIndex
  {
  }

  /** `LayerController`: the handle a component keeps for its layer. */
  class LayerController {
    const id: string
    const zIndex: int
    const service: ZLayerService

    constructor (id: string, zIndex: int, service: ZLayerService)
      ensures this.id == id && this.zIndex == zIndex && this.service == service
    {
      this.id := id;
      this.zIndex := zIndex;
      this.service := service;
    }

    /** The backdrop z-index of this layer, while it is registered. */
    function GetBackdropZIndex(): (z: int)
      reads service
      ensures id in service.layers ==> z == service.layers[id].zIndex - 10
      ensures id !in service.layers ==> z == FallbackBackdropZIndex
    {
      service.BackdropZIndex(id)
    }

    /** `destroy`: unregisters this layer. */
    method Destroy()
      requires service.Valid()
      modifies service`layers
      ensures service.Valid()
      ensures service.layers == old(service.layers) - {id}
    {
      service.UnregisterLayer(id);
    }
  }
}
