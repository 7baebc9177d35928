/**
 * The name editor in the header of a tier row (app/components/TierRow.tsx and the copy in
 * app/page.tsx): a draft name and whether the text field is shown. Saving hands a patch
 * to `updateTier` instead of calling it; the row's tier is a parameter.
 */
module TierName {
  import opened Wrappers
  import opened Types
  import opened JsString
  import TierList
  import Contrast

  class NameEditor {
    var tempName: string
    var isEditingName: bool

    /** `useState(false)` and `useState(tier.name)`. */
    constructor(name: string)
      ensures tempName == name && !isEditingName
    {
      tempName := name;
      isEditingName := false;
    }

    /** The effect on `[tier.name]`: the draft follows the saved name. */
    method SyncName(name: string)
      modifies this
      ensures tempName == name && isEditingName == old(isEditingName)
    {
      tempName := name;
    }

    /** The click on the heading: it opens the field in edit mode only. */
    method StartEditing(isEditMode: bool)
      modifies this
      ensures isEditingName == (old(isEditingName) || isEditMode)
      ensures tempName == old(tempName)
    {
      if isEditMode {
        isEditingName := true;
      }
    }

    /** The text field is rendered in place of the heading. */
    predicate ShowsField(isEditMode: bool)
      reads this
    {
      isEditMode && isEditingName
    }

    /** `handleNameChange`. */
    method HandleNameChange(value: string)
      modifies this
      ensures tempName == value && isEditingName == old(isEditingName)
    {
      tempName := value;
    }

    /**
     * `saveName()`: a draft with some non-space character is saved trimmed; a blank draft
     * is replaced by the saved name. The field closes either way.
     */
    method SaveName(tier: Tier) returns (update: Option<TierPatch>)
      modifies this
      ensures update.Some? <==> !IsBlank(old(tempName))
      ensures update.Some? ==> update.value == TierPatch(Some(Trim(old(tempName))), None)
      ensures update.Some? ==> tempName == old(tempName)
      ensures update.None? ==> tempName == tier.name
      ensures !isEditingName
    {
      if !IsBlank(tempName) {
        update := Some(TierPatch(Some(Trim(tempName)), None));
      } else {
        update := None;
        tempName := tier.name;
      }
      isEditingName := false;
    }

    /** `handleKeyDown`: Enter saves, Escape discards the draft; other keys do nothing. */
    method HandleKeyDown(key: string, tier: Tier) returns (update: Option<TierPatch>)
      modifies this
      ensures key == "Enter" ==> (update.Some? <==> !IsBlank(old(tempName))) && !isEditingName
      ensures key == "Enter" && update.Some? ==> update.value == TierPatch(Some(Trim(old(tempName))), None)
      ensures key == "Escape" ==> update.None? && tempName == tier.name && !isEditingName
      ensures key != "Enter" && key != "Escape" ==> update.None? && unchanged(this)
    {
      update := None;
      if key == "Enter" {
        update := SaveName(tier);
      }
      if key == "Escape" {
        tempName := tier.name;
        isEditingName := false;
      }
    }
  }

  /** `handleColor`: the picked value becomes the tier's colour. */
  function ColorPatch(value: string): (p: TierPatch)
    ensures p.name.None? && p.color == Some(value)
  {
    TierPatch(None, Some(value))
  }

  /**
   * A name saved from the editor is never blank and has no white space at either end,
   * whatever the draft was.
   */
  lemma SavedNameIsClean(t: Tier, draft: string)
    requires !IsBlank(draft)
    ensures var n := TierList.PatchTier(t, TierPatch(Some(Trim(draft)), None)).name;
      n == Trim(draft) && n != "" && !IsSpace(n[0]) && !IsSpace(n[|n| - 1]) && !IsBlank(n)
  {
    TrimShape(draft);
    TrimIdempotent(draft);
  }

  /** A colour patch recomputes the text colour and keeps the name. */
  lemma ColorPatchRecolours(t: Tier, value: string)
    ensures var r := TierList.PatchTier(t, ColorPatch(value));
      r.name == t.name && r.color == value && r.textColor == Contrast.LengthOnly(Some(value))
      && r.id == t.id && r.items == t.items
  {
  }
}
