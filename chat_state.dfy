/**
 * The `AiChat` composer of `ai-chat.tsx` as a state machine: its React state
 * (message log, draft, staged images, `isSubmitting`, `isDragOver`) together with
 * the browser resources it touches. `crypto.randomUUID` and `URL.createObjectURL`
 * are fresh-value allocators (counters); `URL.revokeObjectURL` appends to a
 * revocation log, so that "revoked exactly once" can be stated.
 *
 * Each handler is a transition function here; the class in `ChatComponent`
 * performs the same steps in place and is proved to agree with these functions.
 */
module ChatState {
  import opened Wrappers
  import opened JsString
  import opened Seqs

  /** A value returned by `crypto.randomUUID()`. */
  type Uuid = nat
  /** An object URL returned by `URL.createObjectURL(file)`. */
  type Handle = nat

  datatype Role = User | Assistant

  /** A browser `File`; only its MIME `type` matters to the composer. */
  datatype File = File(name: string, mimeType: string)

  /** A `DataTransferItem` of the clipboard: its `kind` and what `getAsFile()` returns. */
  datatype ClipboardItem = ClipboardItem(kind: string, asFile: Option<File>)

  /** An image as a message keeps it: `{ id, previewUrl }`. */
  datatype ImageRef = ImageRef(id: Uuid, previewUrl: Handle)

  /** A staged attachment (`PendingImage`). */
  datatype PendingImage = PendingImage(id: Uuid, file: File, previewUrl: Handle)

  /** A chat turn; an absent `images` field is the empty sequence. `createdAt` is not modelled. */
  datatype ChatMessage = ChatMessage(id: Uuid, role: Role, content: string, images: seq<ImageRef>)

  datatype Composer = Composer(
    messages: seq<ChatMessage>,
    inputValue: string,
    pendingImages: seq<PendingImage>,
    isSubmitting: bool,
    isDragOver: bool,
    nextUuid: Uuid,         // next value of the id allocator
    nextHandle: Handle,     // next value of the object-URL allocator
    revoked: seq<Handle>)   // every URL.revokeObjectURL call, in order

  const ImageTypePrefix := "image/"
  const ReplyPrefix := "I received your message: \""
  const ReplySuffix := "\" and will update the requested Shadcn component."
  const ImagesOnlyReply := "I received your images." + " Let me know which component we should adjust."

  /** The state right after mounting: every `useState` initialiser. */
  function Initial(): Composer
  {
    Composer([], "", [], false, false, 0, 0, [])
  }

  // ---------------------------------------------------------------------------
  // Views of the staged list

  function Urls(ps: seq<PendingImage>): seq<Handle>
  {
    seq(|ps|, k requires 0 <= k < |ps| => ps[k].previewUrl)
  }

  function Files(ps: seq<PendingImage>): seq<File>
  {
    seq(|ps|, k requires 0 <= k < |ps| => ps[k].file)
  }

  /** `pendingImages.map(({ id, previewUrl }) => ({ id, previewUrl }))`. */
  function Refs(ps: seq<PendingImage>): seq<ImageRef>
  {
    seq(|ps|, k requires 0 <= k < |ps| => ImageRef(ps[k].id, ps[k].previewUrl))
  }

  // ---------------------------------------------------------------------------
  // Ingestion: handleAddImages, handleDrop, handlePaste

  predicate IsImage(f: File)
  {
    StartsWith(f.mimeType, ImageTypePrefix)
  }

  /** The files of a batch that `handleAddImages` keeps, in input order. */
  function ImageFiles(files: seq<File>): (r: seq<File>)
  {
    if files == [] then []
    else (if IsImage(files[0]) then [files[0]] else []) + ImageFiles(files[1..])
  }

  /** The kept files are exactly the image files of the batch. */
  lemma {:induction false} ImageFilesMembers(files: seq<File>)
    ensures |ImageFiles(files)| <= |files|
    ensures forall f :: f in ImageFiles(files) <==> f in files && IsImage(f)
  {
    if files != [] {
      ImageFilesMembers(files[1..]);
      assert files == [files[0]] + files[1..];
    }
  }

  /** Filtering distributes over concatenation, so the order of arrival is kept. */
  lemma {:induction false} ImageFilesAppend(a: seq<File>, b: seq<File>)
    ensures ImageFiles(a + b) == ImageFiles(a) + ImageFiles(b)
  {
    if a == [] {
      assert a + b == b;
    } else {
      assert (a + b)[1..] == a[1..] + b;
      ImageFilesAppend(a[1..], b);
    }
  }

  /**
   * The entries `handleAddImages` builds from `files` when the allocators stand at
   * `uuid` and `handle`: one per image file, in order, each with the next fresh id
   * and the next fresh object URL.
   */
  function Staged(files: seq<File>, uuid: Uuid, handle: Handle): (staged: seq<PendingImage>)
  {
    var images := ImageFiles(files);
    seq(|images|, k requires 0 <= k < |images| => PendingImage(uuid + k, images[k], handle + k))
  }

  /** `handleAddImages(files)`: only the staged list and the allocators change. */
  function AddImages(s: Composer, files: seq<File>): (r: Composer)
    ensures r.(pendingImages := s.pendingImages, nextUuid := s.nextUuid, nextHandle := s.nextHandle) == s
  {
    var images := Staged(files, s.nextUuid, s.nextHandle);
    if |images| == 0 then s
    else s.(pendingImages := s.pendingImages + images,
            nextUuid := s.nextUuid + |images|,
            nextHandle := s.nextHandle + |images|)
  }

  /**
   * Adding a batch appends exactly its image files, in input order, after the
   * existing staged list, each under a fresh object URL; nothing else changes,
   * and a batch without images changes nothing at all.
   */
  lemma AddImagesAppendsImages(s: Composer, files: seq<File>)
    ensures var r := AddImages(s, files);
            && r.pendingImages[..|s.pendingImages|] == s.pendingImages
            && Files(r.pendingImages[|s.pendingImages|..]) == ImageFiles(files)
            && (forall p :: p in r.pendingImages[|s.pendingImages|..] ==>
                  s.nextHandle <= p.previewUrl < r.nextHandle)
            && r.(pendingImages := s.pendingImages, nextUuid := s.nextUuid,
                  nextHandle := s.nextHandle) == s
    ensures ImageFiles(files) == [] ==> AddImages(s, files) == s
  {
    var images := Staged(files, s.nextUuid, s.nextHandle);
    var r := AddImages(s, files);
    if |images| > 0 {
      assert r.pendingImages[|s.pendingImages|..] == images;
    }
  }

  /** The files staged after a batch are the files staged before, then the batch's images. */
  lemma AddImagesFiles(s: Composer, files: seq<File>)
    ensures Files(AddImages(s, files).pendingImages) == Files(s.pendingImages) + ImageFiles(files)
  {
    var images := Staged(files, s.nextUuid, s.nextHandle);
    assert Files(images) == ImageFiles(files);
    if |images| > 0 {
      assert Files(s.pendingImages + images) == Files(s.pendingImages) + Files(images);
    }
  }

  /**
   * Two batches, from any two sources, stage the image files of both in arrival
   * order.
   */
  lemma AddImagesTwice(s: Composer, a: seq<File>, b: seq<File>)
    ensures Files(AddImages(AddImages(s, a), b).pendingImages)
         == Files(s.pendingImages) + ImageFiles(a + b)
  {
    AddImagesFiles(s, a);
    AddImagesFiles(AddImages(s, a), b);
    ImageFilesAppend(a, b);
  }

  /** `handleDrop`: all dropped files go to `handleAddImages`, then the drag highlight is cleared. */
  function DropFiles(s: Composer, files: seq<File>): (r: Composer)
    ensures !r.isDragOver
    ensures r.pendingImages == AddImages(s, files).pendingImages
  {
    AddImages(s, files).(isDragOver := false)
  }

  /** What `getAsFile()` contributes for one clipboard item. */
  function PastedFile(item: ClipboardItem): seq<File>
  {
    if item.kind == "file" && item.asFile.Some? then [item.asFile.value] else []
  }

  /** The files the `handlePaste` loop collects, in clipboard order. */
  function PastedFiles(items: seq<ClipboardItem>): (r: seq<File>)
  {
    if items == [] then []
    else PastedFiles(items[..|items| - 1]) + PastedFile(items[|items| - 1])
  }

  /** The collected files are exactly those of the items of kind "file" whose `getAsFile()` is not null. */
  lemma {:induction false} PastedFilesMembers(items: seq<ClipboardItem>)
    ensures forall f :: f in PastedFiles(items) <==>
              exists item :: item in items && item.kind == "file" && item.asFile == Some(f)
  {
    if items != [] {
      var front := items[..|items| - 1];
      PastedFilesMembers(front);
      assert items == front + [items[|items| - 1]];
      assert forall item :: item in items <==> item in front || item == items[|items| - 1];
    }
  }

  /**
   * `handlePaste`: with no clipboard data, or no file items, nothing happens;
   * otherwise the collected files go to `handleAddImages`.
   */
  function PasteItems(s: Composer, items: Option<seq<ClipboardItem>>): (r: Composer)
    ensures items.None? ==> r == s
    ensures items.Some? && |PastedFiles(items.value)| > 0 ==> r == AddImages(s, PastedFiles(items.value))
    ensures items.Some? && PastedFiles(items.value) == [] ==> r == s
  {
    match items
    case None => s
    case Some(list) =>
      var files := PastedFiles(list);
      if |files| > 0 then AddImages(s, files) else s
  }

  // ---------------------------------------------------------------------------
  // Drag highlight

  /** `handleDragOver`: the highlight is on afterwards; nothing else changes. */
  function DragOver(s: Composer): (r: Composer)
    ensures r.isDragOver
    ensures r.(isDragOver := s.isDragOver) == s
  {
    if !s.isDragOver then s.(isDragOver := true) else s
  }

  /**
   * `handleDragLeave`: `relatedInside` is `currentTarget.contains(relatedTarget)`.
   * Leaving towards a child of the drop zone keeps the flag; leaving the zone clears it.
   */
  function DragLeave(s: Composer, relatedInside: bool): (r: Composer)
    ensures r.isDragOver <==> s.isDragOver && relatedInside
    ensures r.(isDragOver := s.isDragOver) == s
  {
    if !relatedInside then s.(isDragOver := false) else s
  }

  // ---------------------------------------------------------------------------
  // Removal and reset

  /** `prev.filter((image) => image.id !== imageId)`. */
  function WithoutImage(ps: seq<PendingImage>, id: Uuid): (r: seq<PendingImage>)
  {
    if ps == [] then []
    else (if ps[0].id == id then [] else [ps[0]]) + WithoutImage(ps[1..], id)
  }

  /**
   * Removal drops every entry with the id and keeps every other one; when the id
   * is absent it changes nothing.
   */
  lemma {:induction false} WithoutImageMembers(ps: seq<PendingImage>, id: Uuid)
    ensures forall p :: p in WithoutImage(ps, id) <==> p in ps && p.id != id
    ensures (forall p :: p in ps ==> p.id != id) ==> WithoutImage(ps, id) == ps
  {
    if ps != [] {
      WithoutImageMembers(ps[1..], id);
      assert ps == [ps[0]] + ps[1..];
    }
  }

  /** The removal keeps the surviving entries in their original relative order. */
  lemma {:induction false} WithoutImageAppend(a: seq<PendingImage>, b: seq<PendingImage>, id: Uuid)
    ensures WithoutImage(a + b, id) == WithoutImage(a, id) + WithoutImage(b, id)
  {
    if a == [] {
      assert a + b == b;
    } else {
      assert (a + b)[1..] == a[1..] + b;
      WithoutImageAppend(a[1..], b, id);
    }
  }

  /** `clearPendingImage(imageId)`: drops the entry from staging and revokes nothing. */
  function ClearPendingImage(s: Composer, id: Uuid): (r: Composer)
    ensures r.revoked == s.revoked
    ensures r.(pendingImages := s.pendingImages) == s
  {
    s.(pendingImages := WithoutImage(s.pendingImages, id))
  }

  /** `resetComposer`: clear the draft and revoke then drop every staged preview URL. */
  function ResetComposer(s: Composer): (r: Composer)
    ensures r.messages == s.messages && r.nextUuid == s.nextUuid && r.nextHandle == s.nextHandle
    ensures r.isSubmitting == s.isSubmitting && r.isDragOver == s.isDragOver
  {
    s.(inputValue := "", pendingImages := [], revoked := s.revoked + Urls(s.pendingImages))
  }

  /**
   * The unmount cleanup: every preview URL still staged is revoked. The result is
   * the final revocation log.
   */
  function Teardown(s: Composer): seq<Handle>
  {
    s.revoked + Urls(s.pendingImages)
  }

  // ---------------------------------------------------------------------------
  // Submission: handleSubmit, split at its `await`

  /** Whether `handleSubmit` gets past its guard. */
  predicate HasContent(s: Composer)
  {
    Trim(s.inputValue) != [] || |s.pendingImages| > 0
  }

  /** The user message `handleSubmit` appends. */
  function UserMessage(s: Composer): ChatMessage
  {
    ChatMessage(s.nextUuid, User, Trim(s.inputValue), Refs(s.pendingImages))
  }

  /** `handleSubmit` up to the `await`. The reply step needs `Trim(s.inputValue)` of the state before. */
  function SubmitStart(s: Composer): (r: Composer)
  {
    if !HasContent(s) then s
    else ResetComposer(s.(isSubmitting := true,
                          messages := s.messages + [UserMessage(s)],
                          nextUuid := s.nextUuid + 1))
  }

  /** The assistant's canned reply to the trimmed draft. */
  function ReplyText(trimmed: string): string
  {
    if |trimmed| > 0 then ReplyPrefix + trimmed + ReplySuffix else ImagesOnlyReply
  }

  /** `handleSubmit` after the `await`: the reply is appended, then `isSubmitting` is cleared. */
  function SubmitReply(s: Composer, trimmed: string): (r: Composer)
  {
    s.(messages := s.messages + [ChatMessage(s.nextUuid, Assistant, ReplyText(trimmed), [])],
       nextUuid := s.nextUuid + 1,
       isSubmitting := false)
  }

  /** `handleKeyDown`: Enter without Shift submits, whatever `isSubmitting` says. */
  function KeyDown(s: Composer, key: string, shiftKey: bool): (r: Composer)
  {
    if key == "Enter" && !shiftKey then SubmitStart(s) else s
  }

  /** The Send button is enabled (`disabled={isSubmitting || (!inputValue.trim() && !pendingImages.length)}` negated). */
  predicate CanSend(s: Composer)
  {
    !s.isSubmitting && HasContent(s)
  }

  // ---------------------------------------------------------------------------
  // Resource discipline

  /** No two messages share an id. */
  predicate UniqueMessageIds(ms: seq<ChatMessage>)
  {
    forall i, j :: 0 <= i < j < |ms| ==> ms[i].id != ms[j].id
  }

  /** No two staged entries share an id or an object URL. */
  predicate UniqueStaging(ps: seq<PendingImage>)
  {
    forall i, j :: 0 <= i < j < |ps| ==> ps[i].id != ps[j].id && ps[i].previewUrl != ps[j].previewUrl
  }

  /**
   * What every reachable state satisfies: ids and object URLs come from their
   * allocators, no URL is revoked twice, and a staged URL has not been revoked.
   */
  predicate Valid(s: Composer)
  {
    && UniqueMessageIds(s.messages)
    && UniqueStaging(s.pendingImages)
    && Distinct(s.revoked)
    && (forall m :: m in s.messages ==> m.id < s.nextUuid)
    && (forall p :: p in s.pendingImages ==>
          p.id < s.nextUuid && p.previewUrl < s.nextHandle && p.previewUrl !in s.revoked)
    && (forall h :: h in s.revoked ==> h < s.nextHandle)
  }

  lemma RevokeStaged(s: Composer)
    requires Valid(s)
    ensures Distinct(s.revoked + Urls(s.pendingImages))
    ensures forall h :: h in s.revoked + Urls(s.pendingImages) ==> h < s.nextHandle
  {
    var ps := s.pendingImages;
    var log := s.revoked + Urls(ps);
    var n := |s.revoked|;
    forall i, j | 0 <= i < j < |log| ensures log[i] != log[j] {
      if i >= n {
        assert log[i] == ps[i - n].previewUrl && log[j] == ps[j - n].previewUrl;
      } else if j >= n {
        assert log[j] == ps[j - n].previewUrl && ps[j - n] in ps;
      }
    }
    forall h | h in log ensures h < s.nextHandle {
      if h !in s.revoked {
        var k :| 0 <= k < |log| && log[k] == h;
        assert ps[k - n] in ps;
      }
    }
  }

  /**
   * `resetComposer` leaves the draft and the staged list empty and revokes each
   * previously staged preview URL exactly once, and never one revoked before.
   */
  lemma ResetRevokesEachOnce(s: Composer)
    requires Valid(s)
    ensures var r := ResetComposer(s);
            && r.inputValue == [] && r.pendingImages == []
            && Valid(r)
            && (forall p :: p in s.pendingImages ==> multiset(r.revoked)[p.previewUrl] == 1)
            && (forall h :: h in r.revoked ==> h in s.revoked || h in Urls(s.pendingImages))
  {
    var r := ResetComposer(s);
    RevokeStaged(s);
    forall p | p in s.pendingImages ensures multiset(r.revoked)[p.previewUrl] == 1 {
      var k :| 0 <= k < |s.pendingImages| && s.pendingImages[k] == p;
      assert r.revoked[|s.revoked| + k] == p.previewUrl;
      DistinctOnce(r.revoked, p.previewUrl);
    }
  }

  /** The unmount cleanup revokes each staged URL exactly once and no URL twice. */
  lemma TeardownRevokesEachOnce(s: Composer)
    requires Valid(s)
    ensures Distinct(Teardown(s))
    ensures forall p :: p in s.pendingImages ==> multiset(Teardown(s))[p.previewUrl] == 1
  {
    ResetRevokesEachOnce(s);
  }

  /** The survivors of a removal form a subsequence, so uniqueness survives. */
  lemma {:induction false} WithoutImageUnique(ps: seq<PendingImage>, id: Uuid)
    requires UniqueStaging(ps)
    ensures UniqueStaging(WithoutImage(ps, id))
  {
    if ps != [] {
      var rest := WithoutImage(ps[1..], id);
      WithoutImageUnique(ps[1..], id);
      if ps[0].id != id {
        var r := [ps[0]] + rest;
        forall i, j | 0 <= i < j < |r| ensures r[i].id != r[j].id && r[i].previewUrl != r[j].previewUrl {
          if i == 0 {
            HeadSurvivorDiffers(ps, id, r[j]);
          } else {
            assert r[i] == rest[i - 1] && r[j] == rest[j - 1];
          }
        }
      }
    }
  }

  /** The head of a uniquely staged list shares neither id nor URL with a survivor of its tail. */
  lemma HeadSurvivorDiffers(ps: seq<PendingImage>, id: Uuid, x: PendingImage)
    requires UniqueStaging(ps) && ps != []
    requires x in WithoutImage(ps[1..], id)
    ensures ps[0].id != x.id && ps[0].previewUrl != x.previewUrl
  {
    WithoutImageMembers(ps[1..], id);
    var k :| 0 <= k < |ps[1..]| && ps[1..][k] == x;
    assert ps[k + 1] == x;
  }

  /** Removing a staged image keeps the invariant; a later reset will not revoke its URL. */
  lemma ClearKeepsValid(s: Composer, id: Uuid)
    requires Valid(s)
    ensures Valid(ClearPendingImage(s, id))
  {
    WithoutImageUnique(s.pendingImages, id);
    WithoutImageMembers(s.pendingImages, id);
  }

  /** A batch takes its ids and URLs from the allocators, so they are new and pairwise different. */
  lemma StagedFresh(files: seq<File>, uuid: Uuid, handle: Handle)
    ensures var st := Staged(files, uuid, handle);
            && UniqueStaging(st)
            && (forall p :: p in st ==> uuid <= p.id < uuid + |st| && handle <= p.previewUrl < handle + |st|)
  {
    var st := Staged(files, uuid, handle);
    forall p | p in st ensures uuid <= p.id < uuid + |st| && handle <= p.previewUrl < handle + |st| {
      var k :| 0 <= k < |st| && st[k] == p;
    }
  }

  lemma AppendUnique(a: seq<PendingImage>, b: seq<PendingImage>)
    requires UniqueStaging(a) && UniqueStaging(b)
    requires forall p, q :: p in a && q in b ==> p.id != q.id && p.previewUrl != q.previewUrl
    ensures UniqueStaging(a + b)
  {
    var ab := a + b;
    forall i, j | 0 <= i < j < |ab| ensures ab[i].id != ab[j].id && ab[i].previewUrl != ab[j].previewUrl {
      if i < |a| && j >= |a| {
        assert ab[i] in a && ab[j] in b;
      } else if i >= |a| {
        assert ab[i] == b[i - |a|] && ab[j] == b[j - |a|];
      }
    }
  }

  /** Staging a batch keeps the invariant: its ids and URLs are fresh. */
  lemma AddImagesKeepsValid(s: Composer, files: seq<File>)
    requires Valid(s)
    ensures Valid(AddImages(s, files))
  {
    var images := Staged(files, s.nextUuid, s.nextHandle);
    if |images| > 0 {
      StagedFresh(files, s.nextUuid, s.nextHandle);
      AppendUnique(s.pendingImages, images);
      var r := AddImages(s, files);
      assert r.pendingImages == s.pendingImages + images;
      forall p | p in r.pendingImages ensures p.id < r.nextUuid && p.previewUrl < r.nextHandle && p.previewUrl !in r.revoked {
        if p !in s.pendingImages {
          assert p in images;
        }
      }
    }
  }

  /** Submitting keeps the invariant: the new message id is fresh and the reset is sound. */
  lemma SubmitStartKeepsValid(s: Composer)
    requires Valid(s)
    ensures Valid(SubmitStart(s))
  {
    if HasContent(s) {
      var t := s.(isSubmitting := true,
                  messages := s.messages + [UserMessage(s)],
                  nextUuid := s.nextUuid + 1);
      forall i, j | 0 <= i < j < |t.messages| ensures t.messages[i].id != t.messages[j].id {
        if j == |s.messages| {
          assert t.messages[i] in s.messages;
        }
      }
      assert Valid(t);
      ResetRevokesEachOnce(t);
    }
  }

  /** The reply keeps the invariant: its id is fresh too. */
  lemma SubmitReplyKeepsValid(s: Composer, trimmed: string)
    requires Valid(s)
    ensures Valid(SubmitReply(s, trimmed))
  {
    var r := SubmitReply(s, trimmed);
    forall i, j | 0 <= i < j < |r.messages| ensures r.messages[i].id != r.messages[j].id {
      if j == |s.messages| {
        assert r.messages[i] in s.messages;
      }
    }
  }

  // ---------------------------------------------------------------------------
  // Properties of submission

  /** A blank draft with nothing staged: Send does nothing. */
  lemma SubmitBlankIsNoop(s: Composer)
    requires AllWhitespace(s.inputValue) && s.pendingImages == []
    ensures SubmitStart(s) == s
  {
    TrimEmptyIff(s.inputValue);
  }

  /**
   * Otherwise submission raises `isSubmitting`, keeps the log as a prefix and
   * appends one user message carrying the trimmed draft and the staged
   * `(id, previewUrl)` pairs in order, then resets the composer.
   */
  lemma SubmitStartAppendsUserMessage(s: Composer)
    requires HasContent(s)
    ensures var r := SubmitStart(s);
            && r.isSubmitting
            && |r.messages| == |s.messages| + 1
            && r.messages[..|s.messages|] == s.messages
            && r.messages[|s.messages|].role == User
            && r.messages[|s.messages|].content == Trim(s.inputValue)
            && |r.messages[|s.messages|].images| == |s.pendingImages|
            && (forall k :: 0 <= k < |s.pendingImages| ==>
                  r.messages[|s.messages|].images[k].id == s.pendingImages[k].id &&
                  r.messages[|s.messages|].images[k].previewUrl == s.pendingImages[k].previewUrl)
            && r.inputValue == [] && r.pendingImages == []
            && r.revoked == s.revoked + Urls(s.pendingImages)
            && r.isDragOver == s.isDragOver
  {
    assert SubmitStart(s).messages[..|s.messages|] == s.messages;
  }

  /**
   * As written, the URLs of the message just committed are all revoked by the
   * reset that follows, although the message still displays them.
   */
  lemma SubmitRevokesCommittedUrls(s: Composer)
    requires HasContent(s)
    ensures var r := SubmitStart(s);
            forall img :: img in r.messages[|r.messages| - 1].images ==> img.previewUrl in r.revoked
  {
    var r := SubmitStart(s);
    forall img | img in r.messages[|r.messages| - 1].images ensures img.previewUrl in r.revoked {
      var k :| 0 <= k < |s.pendingImages| && Refs(s.pendingImages)[k] == img;
      assert r.revoked[|s.revoked| + k] == img.previewUrl;
    }
  }

  /** The reply quotes a non-empty draft verbatim, and it is the fixed text exactly for an empty one. */
  lemma ReplyTextQuotes(trimmed: string)
    ensures ReplyText(trimmed) == ImagesOnlyReply <==> trimmed == []
    ensures trimmed != [] ==>
              ReplyText(trimmed)[|ReplyPrefix|..|ReplyPrefix| + |trimmed|] == trimmed
  {
    if trimmed != [] {
      var r := ReplyPrefix + trimmed + ReplySuffix;
      assert r[16] == 'm';
      assert ImagesOnlyReply[16] == 'i';
      assert r[|ReplyPrefix|..|ReplyPrefix| + |trimmed|] == trimmed;
    }
  }

  /**
   * A whole accepted round trip: the log grows by exactly the user message and
   * then one image-less assistant reply, and `isSubmitting` ends false.
   */
  lemma SubmitRoundTrip(s: Composer)
    requires HasContent(s)
    ensures var r := SubmitReply(SubmitStart(s), Trim(s.inputValue));
            && r.messages == s.messages + [UserMessage(s),
                 ChatMessage(s.nextUuid + 1, Assistant, ReplyText(Trim(s.inputValue)), [])]
            && !r.isSubmitting
            && r.inputValue == [] && r.pendingImages == []
  {
  }

  /** Sending "hello" with nothing staged. */
  lemma HelloRoundTrip(s: Composer)
    requires s.inputValue == "hello" && s.pendingImages == []
    ensures var r := SubmitReply(SubmitStart(s), Trim(s.inputValue));
            && r.messages[|s.messages|] == ChatMessage(s.nextUuid, User, "hello", [])
            && r.messages[|s.messages| + 1].role == Assistant
            && r.messages[|s.messages| + 1].content == ReplyPrefix + "hello" + ReplySuffix
  {
    TrimUnpadded("hello");
  }

  /** Sending one staged image with an empty draft. */
  lemma ImageOnlyRoundTrip(s: Composer, p: PendingImage)
    requires s.inputValue == "" && s.pendingImages == [p]
    ensures var r := SubmitReply(SubmitStart(s), Trim(s.inputValue));
            && r.messages[|s.messages|] == ChatMessage(s.nextUuid, User, "", [ImageRef(p.id, p.previewUrl)])
            && r.messages[|s.messages| + 1].content == ImagesOnlyReply
  {
    TrimUnpadded("");
    assert |s.pendingImages| == 1;
    var refs := Refs(s.pendingImages);
    assert |refs| == 1 && refs[0] == ImageRef(p.id, p.previewUrl);
    assert refs == [ImageRef(p.id, p.previewUrl)];
    assert Trim(s.inputValue) == "";
    SubmitRoundTrip(s);
  }

  /** Send is enabled iff nothing is in flight and the draft has a non-blank character or an image is staged. */
  lemma CanSendIff(s: Composer)
    ensures CanSend(s) <==> !s.isSubmitting && (!AllWhitespace(s.inputValue) || s.pendingImages != [])
    ensures CanSend(s) ==> |SubmitStart(s).messages| == |s.messages| + 1
    ensures !s.isSubmitting && !CanSend(s) ==> SubmitStart(s) == s
  {
    TrimEmptyIff(s.inputValue);
  }

  /**
   * As written, Enter submits even while a reply is pending, so a second user
   * message can be appended while `isSubmitting` holds; Shift+Enter never submits.
   */
  lemma EnterSubmitsWhileSubmitting(s: Composer)
    requires s.isSubmitting && HasContent(s)
    ensures |KeyDown(s, "Enter", false).messages| == |s.messages| + 1
    ensures KeyDown(s, "Enter", true) == s
  {
  }

  // ---------------------------------------------------------------------------
  // Runs of events

  /** The events the rendered component forwards to its handlers. */
  datatype Event =
    | Typed(value: string)                              // textarea onChange
    | FilesChosen(files: seq<File>)                     // file input onChange
    | FilesDropped(files: seq<File>)
    | ClipboardPasted(items: Option<seq<ClipboardItem>>)
    | DraggedOver
    | DragLeft(relatedInside: bool)
    | ImageRemoved(id: Uuid)
    | ResetClicked                                      // Clear or Reset button
    | KeyPressed(key: string, shiftKey: bool)
    | SendClicked
    | ReplyArrived(trimmed: string)                     // the `await` resolves

  function Apply(s: Composer, e: Event): Composer
  {
    match e
    case Typed(v) => s.(inputValue := v)
    case FilesChosen(files) => if |files| == 0 then s else AddImages(s, files)
    case FilesDropped(files) => DropFiles(s, files)
    case ClipboardPasted(items) => PasteItems(s, items)
    case DraggedOver => DragOver(s)
    case DragLeft(inside) => DragLeave(s, inside)
    case ImageRemoved(id) => ClearPendingImage(s, id)
    case ResetClicked => ResetComposer(s)
    case KeyPressed(key, shift) => KeyDown(s, key, shift)
    case SendClicked => if CanSend(s) then SubmitStart(s) else s
    case ReplyArrived(trimmed) => SubmitReply(s, trimmed)
  }

  function Run(s: Composer, es: seq<Event>): Composer
    decreases |es|
  {
    if es == [] then s else Run(Apply(s, es[0]), es[1..])
  }

  /** The invariant does not look at the draft or the two flags. */
  lemma ValidFrame(s: Composer, t: Composer)
    requires Valid(s)
    requires t.messages == s.messages && t.pendingImages == s.pendingImages && t.revoked == s.revoked
    requires t.nextUuid == s.nextUuid && t.nextHandle == s.nextHandle
    ensures Valid(t)
  {
  }

  lemma EditKeepsValid(s: Composer, e: Event)
    requires Valid(s) && (e.Typed? || e.DraggedOver? || e.DragLeft?)
    ensures Valid(Apply(s, e))
  {
    ValidFrame(s, Apply(s, e));
  }

  lemma IngestKeepsValid(s: Composer, e: Event)
    requires Valid(s) && (e.FilesChosen? || e.FilesDropped? || e.ClipboardPasted?)
    ensures Valid(Apply(s, e))
  {
    match e
    case FilesChosen(files) => AddImagesKeepsValid(s, files);
    case FilesDropped(files) =>
      AddImagesKeepsValid(s, files);
      ValidFrame(AddImages(s, files), Apply(s, e));
    case ClipboardPasted(items) =>
      if items.Some? { AddImagesKeepsValid(s, PastedFiles(items.value)); }
  }

  lemma RemoveKeepsValid(s: Composer, id: Uuid)
    requires Valid(s)
    ensures Valid(Apply(s, ImageRemoved(id)))
  {
    ClearKeepsValid(s, id);
  }

  lemma ResetKeepsValid(s: Composer)
    requires Valid(s)
    ensures Valid(Apply(s, ResetClicked))
  {
    ResetRevokesEachOnce(s);
  }

  lemma KeyKeepsValid(s: Composer, key: string, shiftKey: bool)
    requires Valid(s)
    ensures Valid(Apply(s, KeyPressed(key, shiftKey)))
  {
    SubmitStartKeepsValid(s);
  }

  lemma SendKeepsValid(s: Composer)
    requires Valid(s)
    ensures Valid(Apply(s, SendClicked))
  {
    SubmitStartKeepsValid(s);
  }

  lemma ReplyKeepsValid(s: Composer, trimmed: string)
    requires Valid(s)
    ensures Valid(Apply(s, ReplyArrived(trimmed)))
  {
    SubmitReplyKeepsValid(s, trimmed);
  }

  lemma CommandKeepsValid(s: Composer, e: Event)
    requires Valid(s) && (e.ImageRemoved? || e.ResetClicked? || e.KeyPressed? || e.SendClicked? || e.ReplyArrived?)
    ensures Valid(Apply(s, e))
  {
    match e
    case ImageRemoved(id) => RemoveKeepsValid(s, id);
    case ResetClicked => ResetKeepsValid(s);
    case KeyPressed(key, shiftKey) => KeyKeepsValid(s, key, shiftKey);
    case SendClicked => SendKeepsValid(s);
    case ReplyArrived(trimmed) => ReplyKeepsValid(s, trimmed);
  }

  /** Every event keeps the invariant. */
  lemma ApplyKeepsValid(s: Composer, e: Event)
    requires Valid(s)
    ensures Valid(Apply(s, e))
  {
    if e.Typed? || e.DraggedOver? || e.DragLeft? {
      EditKeepsValid(s, e);
    } else if e.FilesChosen? || e.FilesDropped? || e.ClipboardPasted? {
      IngestKeepsValid(s, e);
    } else {
      CommandKeepsValid(s, e);
    }
  }

  /** No event removes or alters a message already in the log. */
  lemma ApplyExtendsLog(s: Composer, e: Event)
    ensures |s.messages| <= |Apply(s, e).messages|
    ensures Apply(s, e).messages[..|s.messages|] == s.messages
  {
    var r := Apply(s, e);
    match e
    case KeyPressed(_, _) =>
      assert r.messages == s.messages || r.messages == s.messages + [UserMessage(s)];
    case SendClicked =>
      assert r.messages == s.messages || r.messages == s.messages + [UserMessage(s)];
    case ReplyArrived(trimmed) =>
      assert r.messages == s.messages + [ChatMessage(s.nextUuid, Assistant, ReplyText(trimmed), [])];
    case FilesDropped(files) =>
      assert r.messages == AddImages(s, files).messages;
    case ClipboardPasted(items) =>
      if items.Some? {
        assert r.messages == s.messages || r.messages == AddImages(s, PastedFiles(items.value)).messages;
      }
    case _ =>
      assert r.messages == s.messages;
  }

  /**
   * From mounting, whatever the user does: message ids stay unique, no object URL
   * is revoked twice, and no staged preview URL has been revoked.
   */
  lemma {:induction false} RunKeepsValid(s: Composer, es: seq<Event>)
    requires Valid(s)
    ensures Valid(Run(s, es))
    decreases |es|
  {
    if es != [] {
      ApplyKeepsValid(s, es[0]);
      RunKeepsValid(Apply(s, es[0]), es[1..]);
    }
  }

  /** The message log is append-only: no event removes or alters a message. */
  lemma {:induction false} RunAppendsOnly(s: Composer, es: seq<Event>)
    ensures |s.messages| <= |Run(s, es).messages|
    ensures Run(s, es).messages[..|s.messages|] == s.messages
    decreases |es|
  {
    if es != [] {
      var t := Apply(s, es[0]);
      ApplyExtendsLog(s, es[0]);
      RunAppendsOnly(t, es[1..]);
      var log := Run(t, es[1..]).messages;
      assert log[..|t.messages|][..|s.messages|] == log[..|s.messages|];
    }
  }

  lemma InitialIsValid()
    ensures Valid(Initial())
  {
  }
}
