/**
 * The `AiChat` component's handlers as methods that update its state in place,
 * each proved to perform the transition of the same name in `ChatState` and to
 * keep that module's invariant.
 */
module ChatComponent {
  import opened Wrappers
  import opened JsString
  import opened ChatState

  /** `Staged` grows one file at a time, as the `forEach` in `handleAddImages` does. */
  lemma StagedSnoc(files: seq<File>, f: File, uuid: Uuid, handle: Handle)
    ensures var a := Staged(files, uuid, handle);
            Staged(files + [f], uuid, handle)
              == a + (if IsImage(f) then [PendingImage(uuid + |a|, f, handle + |a|)] else [])
  {
    var a := Staged(files, uuid, handle);
    var b := Staged(files + [f], uuid, handle);
    var images := ImageFiles(files + [f]);
    ImageFilesAppend(files, [f]);
    assert [f][1..] == [];
    assert ImageFiles([f]) == if IsImage(f) then [f] else [];
    assert forall k :: 0 <= k < |a| ==> images[k] == ImageFiles(files)[k];
    assert forall k :: 0 <= k < |a| ==> b[k] == a[k];
    if IsImage(f) {
      assert images[|a|] == f;
      assert b == a + [PendingImage(uuid + |a|, f, handle + |a|)];
    } else {
      assert b == a;
    }
  }

  /**
   * The `forEach`/`push` loop of `handleAddImages`: one entry per image file, in
   * order, each taking the next id and the next object URL from the allocators,
   * which stand at `uuid` and `handle` when the loop starts.
   */
  method CollectImages(files: seq<File>, uuid: Uuid, handle: Handle) returns (images: seq<PendingImage>)
    ensures images == Staged(files, uuid, handle)
  {
    images := [];
    var nextId, nextUrl := uuid, handle;
    var i := 0;
    while i < |files|
      invariant 0 <= i <= |files|
      invariant images == Staged(files[..i], uuid, handle)
      invariant nextId == uuid + |images| && nextUrl == handle + |images|
    {
      var file := files[i];
      StagedSnoc(files[..i], file, uuid, handle);
      assert files[..i + 1] == files[..i] + [file];
      if StartsWith(file.mimeType, ImageTypePrefix) {
        images := images + [PendingImage(nextId, file, nextUrl)];
        nextId, nextUrl := nextId + 1, nextUrl + 1;
      }
      i := i + 1;
    }
    assert files[..|files|] == files;
  }

  /** The `forEach` of `handlePaste` over the clipboard items. */
  method CollectPastedFiles(items: seq<ClipboardItem>) returns (files: seq<File>)
    ensures files == PastedFiles(items)
  {
    files := [];
    var i := 0;
    while i < |items|
      invariant 0 <= i <= |items|
      invariant files == PastedFiles(items[..i])
    {
      var item := items[i];
      assert items[..i + 1][..i] == items[..i];
      if item.kind == "file" {
        var file := item.asFile;
        if file.Some? {
          files := files + [file.value];
        }
      }
      i := i + 1;
    }
    assert items[..|items|] == items;
  }

  /** The `forEach` of `resetComposer`: one `URL.revokeObjectURL` per staged image, in order. */
  method RevokeAll(log: seq<Handle>, images: seq<PendingImage>) returns (log': seq<Handle>)
    ensures log' == log + Urls(images)
  {
    log' := log;
    var i := 0;
    while i < |images|
      invariant 0 <= i <= |images|
      invariant log' == log + Urls(images[..i])
    {
      assert Urls(images[..i + 1]) == Urls(images[..i]) + [images[i].previewUrl];
      log' := log' + [images[i].previewUrl];
      i := i + 1;
    }
    assert images[..|images|] == images;
  }

  class AiChat {
    var messages: seq<ChatMessage>
    var inputValue: string
    var pendingImages: seq<PendingImage>
    var isSubmitting: bool
    var isDragOver: bool
    var nextUuid: Uuid       // crypto.randomUUID
    var nextHandle: Handle   // URL.createObjectURL
    var revoked: seq<Handle> // URL.revokeObjectURL, in call order

    /** The component's state as a value. */
    function State(): Composer
      reads this
    {
      Composer(messages, inputValue, pendingImages, isSubmitting, isDragOver,
               nextUuid, nextHandle, revoked)
    }

    constructor ()
      ensures State() == Initial() && Valid(State())
    {
      messages, inputValue, pendingImages := [], "", [];
      isSubmitting, isDragOver := false, false;
      nextUuid, nextHandle, revoked := 0, 0, [];
    }

    /** The textarea's `onChange`: `setInputValue`. */
    method SetInputValue(value: string)
      requires Valid(State())
      modifies this
      ensures State() == old(State()).(inputValue := value) && Valid(State())
    {
      inputValue := value;
    }

    method HandleAddImages(files: seq<File>)
      requires Valid(State())
      modifies this
      ensures State() == AddImages(old(State()), files) && Valid(State())
    {
      AddImagesKeepsValid(State(), files);
      var images := CollectImages(files, nextUuid, nextHandle);
      if |images| == 0 {
        return;
      }
      pendingImages := pendingImages + images;
      nextUuid, nextHandle := nextUuid + |images|, nextHandle + |images|;
    }

    method HandleDrop(files: seq<File>)
      requires Valid(State())
      modifies this
      ensures State() == DropFiles(old(State()), files) && Valid(State())
    {
      HandleAddImages(files);
      isDragOver := false;
    }

    /** `items` is `event.clipboardData?.items`. */
    method HandlePaste(items: Option<seq<ClipboardItem>>)
      requires Valid(State())
      modifies this
      ensures State() == PasteItems(old(State()), items) && Valid(State())
    {
      if items.None? {
        return;
      }
      var files := CollectPastedFiles(items.value);
      if |files| > 0 {
        HandleAddImages(files);
      }
    }

    method HandleDragOver()
      requires Valid(State())
      modifies this
      ensures State() == DragOver(old(State())) && Valid(State())
    {
      if !isDragOver {
        isDragOver := true;
      }
    }

    /** `relatedInside` is `event.currentTarget.contains(event.relatedTarget)`. */
    method HandleDragLeave(relatedInside: bool)
      requires Valid(State())
      modifies this
      ensures State() == DragLeave(old(State()), relatedInside) && Valid(State())
    {
      if !relatedInside {
        isDragOver := false;
      }
    }

    method ClearPendingImage(imageId: Uuid)
      requires Valid(State())
      modifies this
      ensures State() == ChatState.ClearPendingImage(old(State()), imageId) && Valid(State())
    {
      ClearKeepsValid(State(), imageId);
      pendingImages := WithoutImage(pendingImages, imageId);
    }

    method ResetComposer()
      requires Valid(State())
      modifies this
      ensures State() == ChatState.ResetComposer(old(State())) && Valid(State())
    {
      ResetRevokesEachOnce(State());
      inputValue := "";
      revoked := RevokeAll(revoked, pendingImages);
      pendingImages := [];
    }

    /** The unmount cleanup; the component is gone afterwards, so the staged list is left as it is. */
    method Teardown()
      requires Valid(State())
      modifies this
      ensures revoked == ChatState.Teardown(old(State()))
      ensures State() == old(State()).(revoked := revoked)
    {
      revoked := RevokeAll(revoked, pendingImages);
    }

    /**
     * `handleSubmit` up to its `await`. `started` is whether it got past its guard;
     * `trimmed` is the trimmed draft the second half needs.
     */
    method HandleSubmit() returns (started: bool, trimmed: string)
      requires Valid(State())
      modifies this
      ensures started == HasContent(old(State())) && trimmed == Trim(old(inputValue))
      ensures State() == SubmitStart(old(State())) && Valid(State())
    {
      SubmitStartKeepsValid(State());
      trimmed := Trim(inputValue);
      if trimmed == [] && |pendingImages| == 0 {
        return false, trimmed;
      }
      isSubmitting := true;
      var newMessage := ChatMessage(nextUuid, User, trimmed, Refs(pendingImages));
      nextUuid := nextUuid + 1;
      messages := messages + [newMessage];
      ResetComposer();
      started := true;
    }

    /** `handleSubmit` after its `await` resolves. */
    method CompleteSubmit(trimmed: string)
      requires Valid(State())
      modifies this
      ensures State() == SubmitReply(old(State()), trimmed) && Valid(State())
    {
      SubmitReplyKeepsValid(State(), trimmed);
      var content := if |trimmed| > 0 then ReplyPrefix + trimmed + ReplySuffix else ImagesOnlyReply;
      messages := messages + [ChatMessage(nextUuid, Assistant, content, [])];
      nextUuid := nextUuid + 1;
      isSubmitting := false;
    }

    method HandleKeyDown(key: string, shiftKey: bool) returns (started: bool, trimmed: string)
      requires Valid(State())
      modifies this
      ensures started ==> trimmed == Trim(old(inputValue))
      ensures State() == KeyDown(old(State()), key, shiftKey) && Valid(State())
    {
      started, trimmed := false, "";
      if key == "Enter" && !shiftKey {
        started, trimmed := HandleSubmit();
      }
    }

    /** The Send button: a click reaches `handleSubmit` only while the button is enabled. */
    method HandleSendClick() returns (started: bool, trimmed: string)
      requires Valid(State())
      modifies this
      ensures started ==> trimmed == Trim(old(inputValue))
      ensures State() == (if CanSend(old(State())) then SubmitStart(old(State())) else old(State()))
      ensures Valid(State())
    {
      started, trimmed := false, "";
      if !isSubmitting && (Trim(inputValue) != [] || |pendingImages| > 0) {
        started, trimmed := HandleSubmit();
      }
    }
  }
}
