/**
 * The `App` component of app/page.tsx as an object: its state hooks are fields, and each
 * handler is a method that updates them. Ids from `generateId()` and the answer of
 * `window.confirm` are parameters.
 */
module AppState {
  import opened Wrappers
  import opened Types
  import opened JsArray
  import TierList
  import Container

  class App {
    var tiers: seq<Tier>
    var unrankedItems: seq<Item>
    var isEditMode: bool
    var draggedItem: Option<DraggedItemInfo>
    var isDraggingGlobal: bool
    var draggedOverTierId: Option<CollectionId>
    var dropPreviewIndex: Option<int>
    var showAddItemModal: bool
    var itemToEdit: Option<Item>

    /** The two item-holding fields as one value. */
    function Board(): TierList.Board
      reads this
    {
      TierList.Board(tiers, unrankedItems)
    }

    /** The drag props every container renders from. */
    function View(): Container.DragView
      reads this
    {
      Container.DragView(isEditMode, isDraggingGlobal, draggedItem, draggedOverTierId, dropPreviewIndex)
    }

    /** The tiers have unique ids and derived text colours. */
    predicate Valid()
      reads this
    {
      TierList.TiersValid(tiers)
    }

    /** The first render: the initial data, browse mode, no drag and no open form. */
    constructor()
      ensures Board() == TierList.Board(TierList.InitialTiers(), TierList.InitialUnranked())
      ensures !isEditMode && draggedItem.None? && !isDraggingGlobal
      ensures draggedOverTierId.None? && dropPreviewIndex.None?
      ensures !showAddItemModal && itemToEdit.None?
    {
      tiers := TierList.InitialTiers();
      unrankedItems := TierList.InitialUnranked();
      isEditMode := false;
      draggedItem := None;
      isDraggingGlobal := false;
      draggedOverTierId := None;
      dropPreviewIndex := None;
      showAddItemModal := false;
      itemToEdit := None;
    }

    /** `setIsEditMode`, as the toolbar calls it. */
    method SetEditMode(on: bool)
      modifies this`isEditMode
      ensures isEditMode == on
    {
      isEditMode := on;
    }

    /** `addTier()`, with `newId` the value of `generateId()`. */
    method AddTier(newId: string)
      modifies this`tiers
      ensures Board() == TierList.AddTier(old(Board()), newId)
      ensures (old(Valid()) && TierList.FindTier(old(tiers), newId).None?) ==> Valid()
    {
      var b := Board();
      tiers := TierList.AddTier(b, newId).tiers;
      if TierList.TiersValid(b.tiers) && TierList.FindTier(b.tiers, newId).None? {
        TierList.AddTierKeepsTextColors(b, newId);
        TierList.AddTierKeepsUniqueIds(b, newId);
      }
    }

    /** `updateTier(tierId, updatedProps)`. */
    method UpdateTier(id: string, patch: TierPatch)
      modifies this`tiers
      ensures Board() == TierList.UpdateTier(old(Board()), id, patch)
      ensures old(Valid()) ==> Valid()
    {
      var b := Board();
      tiers := TierList.PatchTiers(tiers, id, patch);
      TierList.UpdateTierEffect(b, id, patch);
    }

    /** `deleteTier(tierId)`: the pool takes the tier's items first, then the tier goes. */
    method DeleteTier(id: string)
      modifies this`tiers, this`unrankedItems
      ensures Board() == TierList.DeleteTier(old(Board()), id)
      ensures old(Valid()) ==> Valid()
    {
      var b := Board();
      var tierToDelete := TierList.FindTier(tiers, id);
      if tierToDelete.Some? && |tierToDelete.value.items| > 0 {
        unrankedItems := unrankedItems + ClearErrors(tierToDelete.value.items);
      }
      tiers := TierList.DropTier(tiers, id);
      if TierList.TiersValid(b.tiers) {
        TierList.DeleteTierEffect(b, id);
      }
    }

    /** `handleItemError(itemId, isError)`, reported by a card whose image failed or loaded. */
    method HandleItemError(id: string, isError: bool)
      modifies this`tiers, this`unrankedItems
      ensures Board() == TierList.FlagItemError(old(Board()), id, isError)
      ensures old(Valid()) ==> Valid()
    {
      var b := Board();
      var update := TierList.Where(id, TierList.SetErrorOf(isError));
      tiers := TierList.MapAll(tiers, update);
      unrankedItems := update(unrankedItems);
      if TierList.TiersValid(b.tiers) {
        TierList.FlagItemErrorKeepsTiersValid(b, id, isError);
      }
    }

    /** `handleAddItemSubmit(newItemData)`, with `newId` the value of `generateId()`. */
    method HandleAddItemSubmit(newId: string, data: ItemData)
      modifies this`unrankedItems
      ensures Board() == TierList.AddItem(old(Board()), newId, data)
    {
      unrankedItems := unrankedItems + [TierList.NewItem(newId, data)];
    }

    /**
     * `handleUpdateItemSubmit(itemId, updatedProps)`. The tier updater sets `found`; the
     * model reads the flag after that updater has run (see `TierList.UpdateItemFlagIrrelevant`
     * for why the other order gives the same board).
     */
    method HandleUpdateItemSubmit(id: string, data: ItemData)
      modifies this`tiers, this`unrankedItems
      ensures Board() == TierList.UpdateItemFlagged(old(Board()), id, data)
      ensures TierList.Occurrences(old(Board()), id) <= 1 ==> Board() == TierList.UpdateItem(old(Board()), id, data)
      ensures old(Valid()) ==> Valid()
    {
      var b := Board();
      var found := Count(TierList.Flatten(tiers), id) > 0;
      tiers := TierList.MapAll(tiers, TierList.Where(id, TierList.UpdateOf(data)));
      if !found {
        unrankedItems := MapWhere(unrankedItems, id, TierList.UpdateOf(data));
      }
      assert Board() == TierList.UpdateItemFlagged(b, id, data);
      if TierList.TiersValid(b.tiers) {
        TierList.UpdateItemKeepsTiersValid(b, id, data);
      }
      if TierList.Occurrences(b, id) <= 1 {
        TierList.UpdateItemFlagIrrelevant(b, id, data);
      }
    }

    /**
     * `handleSaveItemFromModal(data, id)`: an update when `id` is a non-empty string, an
     * addition (under `newId`) otherwise; the form closes either way.
     */
    method HandleSaveItemFromModal(data: ItemData, id: Option<string>, newId: string)
      modifies this`tiers, this`unrankedItems, this`showAddItemModal, this`itemToEdit
      ensures id.Some? && id.value != "" ==> Board() == TierList.UpdateItemFlagged(old(Board()), id.value, data)
      ensures !(id.Some? && id.value != "") ==> Board() == TierList.AddItem(old(Board()), newId, data)
      ensures !showAddItemModal && itemToEdit.None?
      ensures old(Valid()) ==> Valid()
    {
      if id.Some? && id.value != "" {
        HandleUpdateItemSubmit(id.value, data);
      } else {
        HandleAddItemSubmit(newId, data);
      }
      showAddItemModal := false;
      itemToEdit := None;
    }

    /** `openEditItemModal(item)`. */
    method OpenEditItemModal(item: Item)
      modifies this`showAddItemModal, this`itemToEdit
      ensures showAddItemModal && itemToEdit == Some(item)
    {
      itemToEdit := Some(item);
      showAddItemModal := true;
    }

    /** `deleteItem(itemId)`; the flag `deletedInTiers` is read as `found` is above. */
    method DeleteItem(id: string)
      modifies this`tiers, this`unrankedItems
      ensures Board() == TierList.DeleteItemFlagged(old(Board()), id)
      ensures TierList.Occurrences(old(Board()), id) <= 1 ==> Board() == TierList.DeleteItem(old(Board()), id)
      ensures old(Valid()) ==> Valid()
    {
      var b := Board();
      var deletedInTiers := Count(TierList.Flatten(tiers), id) > 0;
      tiers := TierList.MapAll(tiers, TierList.Without(id));
      if !deletedInTiers {
        unrankedItems := WithoutId(unrankedItems, id);
      }
      assert Board() == TierList.DeleteItemFlagged(b, id);
      if TierList.TiersValid(b.tiers) {
        TierList.DeleteItemKeepsTiersValid(b, id);
      }
      if TierList.Occurrences(b, id) <= 1 {
        TierList.DeleteItemFlagIrrelevant(b, id);
      }
    }

    /**
     * `onDragStartItem(item, sourceTierId, sourceIndex)`: outside edit mode the drag is
     * recorded, replacing any drag recorded before.
     */
    method OnDragStartItem(item: Item, source: CollectionId, sourceIndex: int)
      modifies this`draggedItem, this`isDraggingGlobal
      ensures old(isEditMode) ==> unchanged(this)
      ensures !old(isEditMode) ==>
        draggedItem == Some(DraggedItemInfo(item, source, sourceIndex)) && isDraggingGlobal
    {
      if !isEditMode {
        draggedItem := Some(DraggedItemInfo(item, source, sourceIndex));
        isDraggingGlobal := true;
      }
    }

    /** `onDragEndItem()`, the handler of the page's `dragend`: every trace of the drag goes. */
    method OnDragEndItem()
      modifies this`isDraggingGlobal, this`draggedOverTierId, this`dropPreviewIndex, this`draggedItem
      ensures !isDraggingGlobal && draggedOverTierId.None? && dropPreviewIndex.None? && draggedItem.None?
      ensures forall c :: !Container.ShowsPreview(c, View())
    {
      isDraggingGlobal := false;
      draggedOverTierId := None;
      dropPreviewIndex := None;
      draggedItem := None;
    }

    /**
     * `handleDragOverTier(tierId, index)`: during a drag outside edit mode the hovered
     * collection and the index (or none) are recorded.
     */
    method HandleDragOverTier(target: CollectionId, index: Option<int>)
      modifies this`draggedOverTierId, this`dropPreviewIndex
      ensures (!old(isDraggingGlobal) || old(isEditMode)) ==> unchanged(this)
      ensures (old(isDraggingGlobal) && !old(isEditMode)) ==>
        draggedOverTierId == Some(target) && dropPreviewIndex == index
    {
      if !isDraggingGlobal || isEditMode {
        return;
      }
      draggedOverTierId := Some(target);
      dropPreviewIndex := index;
    }

    /**
     * `onDropItem(targetTierId, targetIndexInput)`: with a drag recorded outside edit mode,
     * the item leaves its source and is spliced into the target at the given index, or
     * last; the drag record and the preview are cleared, `isDraggingGlobal` is left to
     * `onDragEndItem`.
     */
    method OnDropItem(target: CollectionId, indexInput: Option<int>)
      modifies this`tiers, this`unrankedItems, this`draggedItem, this`draggedOverTierId, this`dropPreviewIndex
      ensures (old(draggedItem).None? || old(isEditMode)) ==> unchanged(this)
      ensures (old(draggedItem).Some? && !old(isEditMode)) ==>
        Board() == TierList.Commit(old(Board()), old(draggedItem).value, target, indexInput) &&
        draggedItem.None? && draggedOverTierId.None? && dropPreviewIndex.None?
      ensures old(Valid()) ==> Valid()
    {
      if draggedItem.None? || isEditMode {
        return;
      }
      var b := Board();
      var d := draggedItem.value;
      var placed := TierList.Commit(b, d, target, indexInput);
      if TierList.TiersValid(b.tiers) {
        TierList.CommitKeepsTiersValid(b, d, target, indexInput);
      }
      tiers, unrankedItems := placed.tiers, placed.unranked;
      draggedItem := None;
      draggedOverTierId := None;
      dropPreviewIndex := None;
    }

    /**
     * `resetAll()`, with `confirmed` the answer of `window.confirm`: the initial data come
     * back and edit mode is switched on; the drag state is left as it is.
     */
    method ResetAll(confirmed: bool)
      modifies this`tiers, this`unrankedItems, this`isEditMode
      ensures !confirmed ==> unchanged(this)
      ensures confirmed ==> Board() == TierList.ResetBoard() && isEditMode
    {
      if confirmed {
        var initial := TierList.ResetBoard();
        tiers := initial.tiers;
        unrankedItems := initial.unranked;
        isEditMode := true;
      }
    }
  }
}
