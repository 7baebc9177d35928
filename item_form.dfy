/**
 * The form of app/components/AddItemModal.tsx: a name, an image given as a URL or as an
 * uploaded file, a preview and an error line. The file itself, `FileReader` and the
 * browser's image loading are left to the caller, which reports their outcome by calling
 * the matching method.
 */
module ItemForm {
  import opened Wrappers
  import opened Types
  import opened JsString

  /** The two tabs of the image input. */
  datatype ImageMode = UrlMode | UploadMode

  /** `MAX_FILE_SIZE_MB` and `MAX_FILE_SIZE_BYTES`. */
  const MaxFileSizeMB: nat := 2
  const MaxFileSizeBytes: nat := MaxFileSizeMB * 1024 * 1024

  /** The four errors the form can show. */
  datatype FormError = FileTooLarge | ReadFailed | NameRequired | PreviewFailed

  /** The text shown for each error. */
  function Message(e: FormError): (text: string)
    ensures text != ""
  {
    match e
    case FileTooLarge => "File is too large. Max size: " + NatToString(MaxFileSizeMB) + "MB."
    case ReadFailed => "Error reading file. Please try again."
    case NameRequired => "Item name is required."
    case PreviewFailed => "Could not load image preview. Check URL or file."
  }

  /** JavaScript truthiness of a string that may be absent. */
  predicate Truthy(s: Option<string>) {
    s.Some? && s.value != ""
  }

  /**
   * The image `handleSubmit` saves: the cached upload on the upload tab, the trimmed URL
   * field on the URL tab, else none. A saved URL is never the empty string.
   */
  function FinalImageUrl(mode: ImageMode, cache: Option<string>, urlInput: string): (url: Option<string>)
    ensures url.Some? ==> url.value != ""
    ensures mode == UrlMode ==> url == TrimmedOrNull(urlInput)
    ensures mode == UploadMode ==> (url.Some? <==> Truthy(cache)) && (url.Some? ==> url == cache)
  {
    if mode == UploadMode && Truthy(cache) then cache
    else if mode == UrlMode && !IsBlank(urlInput) then Some(Trim(urlInput))
    else None
  }

  /** The item the form was opened for, if any, and whether it holds an uploaded image. */
  predicate IsUploadedImage(url: Option<string>) {
    Truthy(url) && StartsWith(url.value, "data:image")
  }

  class Form {
    var name: string
    var imageUrlInput: string
    var imagePreview: Option<string>
    var imageInputMode: ImageMode
    var errorMessage: Option<FormError>
    var uploadedImageCache: Option<string>

    /** The preview shows exactly the image a submit would save. */
    predicate PreviewMatchesSave()
      reads this
    {
      imagePreview == FinalImageUrl(imageInputMode, uploadedImageCache, imageUrlInput)
    }

    /** The initial `useState` values. */
    constructor()
      ensures name == "" && imageUrlInput == "" && imagePreview.None? && imageInputMode == UrlMode
      ensures errorMessage.None? && uploadedImageCache.None?
      ensures PreviewMatchesSave()
    {
      name := "";
      imageUrlInput := "";
      imagePreview := None;
      imageInputMode := UrlMode;
      errorMessage := None;
      uploadedImageCache := None;
    }

    /**
     * The effect on `[itemToEdit, isOpen]`: opening clears the error and loads the item
     * to edit (an image that is a `data:image` URL goes to the upload tab, any other to the
     * URL tab), or empties the form for a new item.
     */
    method OnOpen(isOpen: bool, itemToEdit: Option<Item>)
      modifies this
      ensures !isOpen ==> unchanged(this)
      ensures isOpen ==> errorMessage.None?
      ensures isOpen && itemToEdit.None? ==>
        name == "" && imageUrlInput == "" && imagePreview.None? && uploadedImageCache.None? &&
        imageInputMode == UrlMode
      ensures isOpen && itemToEdit.Some? ==> name == itemToEdit.value.name
      ensures isOpen && itemToEdit.Some? && IsUploadedImage(itemToEdit.value.imageUrl) ==>
        imageInputMode == UploadMode && imagePreview == itemToEdit.value.imageUrl &&
        uploadedImageCache == itemToEdit.value.imageUrl && imageUrlInput == ""
      ensures isOpen && itemToEdit.Some? && !IsUploadedImage(itemToEdit.value.imageUrl) ==>
        imageInputMode == UrlMode && uploadedImageCache.None? &&
        imageUrlInput == (if Truthy(itemToEdit.value.imageUrl) then itemToEdit.value.imageUrl.value else "") &&
        imagePreview == (if Truthy(itemToEdit.value.imageUrl) then itemToEdit.value.imageUrl else None)
      ensures isOpen && (itemToEdit.None? || IsUploadedImage(itemToEdit.value.imageUrl)) ==> PreviewMatchesSave()
    {
      if isOpen {
        errorMessage := None;
        if itemToEdit.Some? {
          var item := itemToEdit.value;
          name := item.name;
          if IsUploadedImage(item.imageUrl) {
            imageInputMode := UploadMode;
            imagePreview := item.imageUrl;
            uploadedImageCache := item.imageUrl;
            imageUrlInput := "";
          } else {
            imageInputMode := UrlMode;
            imageUrlInput := if Truthy(item.imageUrl) then item.imageUrl.value else "";
            imagePreview := if Truthy(item.imageUrl) then item.imageUrl else None;
            uploadedImageCache := None;
          }
        } else {
          name := "";
          imageUrlInput := "";
          imagePreview := None;
          uploadedImageCache := None;
          imageInputMode := UrlMode;
        }
      }
    }

    /** `handleNameChange`: a non-blank name clears the error line. */
    method HandleNameChange(value: string)
      modifies this
      ensures name == value
      ensures errorMessage == if !IsBlank(value) then None else old(errorMessage)
      ensures imageUrlInput == old(imageUrlInput) && imagePreview == old(imagePreview)
      ensures imageInputMode == old(imageInputMode) && uploadedImageCache == old(uploadedImageCache)
    {
      name := value;
      if errorMessage.Some? && !IsBlank(value) {
        errorMessage := None;
      }
    }

    /**
     * `handleImageUrlInputChange`: the preview shows the trimmed URL, a cached upload is
     * dropped and the error line is cleared.
     */
    method HandleImageUrlInputChange(url: string)
      modifies this
      ensures imageUrlInput == url && imagePreview == TrimmedOrNull(url) && uploadedImageCache.None?
      ensures errorMessage.None?
      ensures name == old(name) && imageInputMode == old(imageInputMode)
      ensures imageInputMode == UrlMode ==> PreviewMatchesSave()
    {
      imageUrlInput := url;
      imagePreview := TrimmedOrNull(url);
      if errorMessage.Some? {
        errorMessage := None;
      }
      uploadedImageCache := None;
    }

    /**
     * `handleFileChange` with the chosen file's size, or none when no file was chosen:
     * too large a file sets the error; otherwise reading starts (`reading`).
     */
    method HandleFileChange(fileSize: Option<nat>) returns (reading: bool)
      modifies this
      ensures reading <==> fileSize.Some? && fileSize.value <= MaxFileSizeBytes
      ensures errorMessage == if fileSize.Some? && fileSize.value > MaxFileSizeBytes then Some(FileTooLarge) else None
      ensures name == old(name) && imageUrlInput == old(imageUrlInput) && imagePreview == old(imagePreview)
      ensures imageInputMode == old(imageInputMode) && uploadedImageCache == old(uploadedImageCache)
    {
      errorMessage := None;
      reading := false;
      if fileSize.Some? {
        if fileSize.value > MaxFileSizeBytes {
          errorMessage := Some(FileTooLarge);
          return;
        }
        reading := true;
      }
    }

    /**
     * `reader.onloadend`, which fires after every read: the reader's result becomes the
     * preview and the cached upload. It is the data URL after a successful read and none
     * (JavaScript's `null`) after a failed one.
     */
    method OnLoadEnd(result: Option<string>)
      modifies this
      ensures imagePreview == result && uploadedImageCache == result
      ensures name == old(name) && imageUrlInput == old(imageUrlInput)
      ensures imageInputMode == old(imageInputMode) && errorMessage == old(errorMessage)
      ensures imageInputMode == UploadMode && result != Some("") ==> PreviewMatchesSave()
    {
      imagePreview := result;
      uploadedImageCache := result;
    }

    /** `reader.onerror`, which runs before the `onloadend` of the same read. */
    method OnFileReadError()
      modifies this
      ensures errorMessage == Some(ReadFailed)
      ensures name == old(name) && imageUrlInput == old(imageUrlInput) && imagePreview == old(imagePreview)
      ensures imageInputMode == old(imageInputMode) && uploadedImageCache == old(uploadedImageCache)
    {
      errorMessage := Some(ReadFailed);
    }

    /**
     * A failed read as the browser delivers it: `onerror`, then `onloadend` with no result.
     * The error is shown and both the preview and the cached upload are cleared.
     */
    method ReadFails()
      modifies this
      ensures errorMessage == Some(ReadFailed) && imagePreview == None && uploadedImageCache == None
      ensures name == old(name) && imageUrlInput == old(imageUrlInput) && imageInputMode == old(imageInputMode)
      ensures imageInputMode == UploadMode ==> PreviewMatchesSave()
    {
      OnFileReadError();
      OnLoadEnd(None);
    }

    /**
     * `handleSubmit`: a blank name sets the error and saves nothing; otherwise the trimmed
     * name and the image of `FinalImageUrl` are saved, with the edited item's id if any.
     */
    method HandleSubmit(itemToEdit: Option<Item>) returns (save: Option<(ItemData, Option<string>)>)
      modifies this
      ensures save.None? <==> IsBlank(old(name))
      ensures save.None? ==> errorMessage == Some(NameRequired)
      ensures save.Some? ==> errorMessage.None?
      ensures save.Some? ==> save.value.0.name == Trim(old(name)) && save.value.0.name != ""
      ensures save.Some? ==>
        save.value.0.imageUrl == FinalImageUrl(old(imageInputMode), old(uploadedImageCache), old(imageUrlInput))
      ensures save.Some? ==> save.value.1 == (if itemToEdit.Some? then Some(itemToEdit.value.id) else None)
      ensures name == old(name) && imageUrlInput == old(imageUrlInput) && imagePreview == old(imagePreview)
      ensures imageInputMode == old(imageInputMode) && uploadedImageCache == old(uploadedImageCache)
    {
      if IsBlank(name) {
        errorMessage := Some(NameRequired);
        return None;
      }
      errorMessage := None;
      var finalImageUrl := FinalImageUrl(imageInputMode, uploadedImageCache, imageUrlInput);
      var id := if itemToEdit.Some? then Some(itemToEdit.value.id) else None;
      save := Some((ItemData(Trim(name), finalImageUrl), id));
    }

    /**
     * `switchImageInputMode(mode)`: the preview shows what that tab would save, the
     * trimmed URL or the cached upload, and the error line is cleared.
     */
    method SwitchImageInputMode(mode: ImageMode)
      modifies this
      ensures imageInputMode == mode && errorMessage.None? && PreviewMatchesSave()
      ensures name == old(name) && imageUrlInput == old(imageUrlInput)
      ensures uploadedImageCache == old(uploadedImageCache)
    {
      PreviewOfTab(mode, uploadedImageCache, imageUrlInput);
      imageInputMode := mode;
      errorMessage := None;
      if mode == UrlMode {
        imagePreview := TrimmedOrNull(imageUrlInput);
      } else {
        imagePreview := if Truthy(uploadedImageCache) then uploadedImageCache else None;
      }
    }

    /**
     * The preview's `onError`: the error line says so and the preview goes away, while
     * the URL field and the cached upload, and so the image a submit saves, stay.
     */
    method PreviewError()
      modifies this
      ensures errorMessage == Some(PreviewFailed) && imagePreview.None?
      ensures name == old(name) && imageUrlInput == old(imageUrlInput)
      ensures imageInputMode == old(imageInputMode) && uploadedImageCache == old(uploadedImageCache)
    {
      errorMessage := Some(PreviewFailed);
      imagePreview := None;
    }
  }

  /** The preview each tab shows on a switch is the image that tab would save. */
  lemma PreviewOfTab(mode: ImageMode, cache: Option<string>, urlInput: string)
    ensures FinalImageUrl(mode, cache, urlInput) ==
      if mode == UrlMode then TrimmedOrNull(urlInput) else if Truthy(cache) then cache else None
  {
  }

  /**
   * A URL that failed to preview is still saved: after the preview error the form shows
   * no image, but a submit on the URL tab saves the trimmed field.
   */
  lemma FailedPreviewStillSaved(urlInput: string, cache: Option<string>)
    requires !IsBlank(urlInput)
    ensures FinalImageUrl(UrlMode, cache, urlInput) == Some(Trim(urlInput))
  {
  }

  /**
   * Opening an item for editing and submitting it untouched saves the image it had: an
   * uploaded image exactly, a URL image trimmed, and none for a missing or blank URL.
   */
  lemma ResubmitKeepsImage(url: Option<string>)
    ensures IsUploadedImage(url) ==> FinalImageUrl(UploadMode, url, "") == url
    ensures !IsUploadedImage(url) ==>
      FinalImageUrl(UrlMode, None, if Truthy(url) then url.value else "") ==
      (if url.Some? && !IsBlank(url.value) then Some(Trim(url.value)) else None)
  {
    if url.Some? && url.value == "" {
      assert Trim("") == "";
    }
  }
}
