# Componentcn state machines in Dafny

Most of the repository is styling and layout. Three components hold state that changes over time:

- **`AiChat`** (`my-app/src/components/chat/ai-chat.tsx`), the chat composer. Its state is:
  - a message log,
  - a draft,
  - a list of staged images with object-URL previews,
  - an `isSubmitting` flag,
  - an `isDragOver` highlight.

  Its handlers stage images from the file picker, from a drop or from a paste. They also remove a staged image, reset the composer, and submit in two halves around a simulated delay.
- **`Calendar`** (`my-app/src/components/ui/calendar.tsx`), whose time-slot picker can be controlled or uncontrolled. It chooses a first selection and re-reconciles it when the slot list changes.
- **`TeamMembers`** (`my-app/src/components/team/team-members.tsx`), a set of open groups flipped by `toggleGroup`. Each group card stacks up to four avatars and shows a "+N" overflow badge.

The project files:

| file | module | contents |
|---|---|---|
| `wrappers.dfy` | `Wrappers` | `Option`: an omitted prop, `null` or `undefined` |
| `jsstring.dfy` | `JsString` | JavaScript `trim`, `startsWith` and whitespace |
| `chat_state.dfy` | `ChatState` | the composer as transition functions over a `Composer` value, with its invariant and properties |
| `chat_component.dfy` | `ChatComponent` | class `AiChat`: the handlers as methods that update fields in place, with the source's loops; each is proved to perform the matching `ChatState` transition, and every method except `Teardown` to keep the invariant |
| `calendar.dfy` | `Calendar` | selection functions and class `TimeSlotPicker` (the state and the two effects) |
| `team.dfy` | `Team` | the open-set functions, class `TeamMembers`, avatar overflow |

Browser services are modelled as follows:
- `crypto.randomUUID()` is a counter that hands out fresh ids.
- `URL.createObjectURL(file)` is a counter that hands out fresh handles.
- `URL.revokeObjectURL(url)` appends the handle to a revocation log. With a log, "revoked exactly once" and "never revoked twice" can be stated.

The `await` in `handleSubmit` splits it into two transitions. `SubmitStart` runs before the await. `SubmitReply(trimmed)` runs after it and gets the trimmed draft captured by the first half.

The model follows the code as written, including these behaviours a reader may not expect:
- `clearPendingImage` itself revokes nothing (`ai-chat.tsx:133-135`). In the running component the cleanup effect does the revoking; see `ChatState.RunKeepsValid` under "Left out".
- The Enter key submits without looking at `isSubmitting` (`ai-chat.tsx:183-191`). Only the Send button is disabled while a reply is pending, so a second submission can start while the first is in flight (`EnterSubmitsWhileSubmitting`).
- Submitting revokes the preview URLs that the new user message still displays (`SubmitRevokesCommittedUrls`).
- The drag highlight is raised on every `dragover` event (`ai-chat.tsx:118-124`); there is no `dragenter` handler.

## Model

| member | source | states |
|---|---|---|
| `JsString.TrimIsStrippedInfix` | my-app/src/components/chat/ai-chat.tsx:149 | the trimmed draft is the infix left after removing a whitespace-only head and tail, and it neither starts nor ends with whitespace |
| `JsString.TrimEmptyIff` | my-app/src/components/chat/ai-chat.tsx:149-150 | the trimmed draft is empty exactly when the draft is all whitespace |
| `JsString.TrimIdempotent` | my-app/src/components/chat/ai-chat.tsx:149 | trimming twice equals trimming once |
| `JsString.TrimUnpadded` | my-app/src/components/chat/ai-chat.tsx:149 | a string without whitespace at either end is its own trim |
| `JsString.LeadingSpaceMaximal` | my-app/src/components/chat/ai-chat.tsx:149 | the stripped head is the longest whitespace prefix |
| `JsString.TrailingSpaceMaximal` | my-app/src/components/chat/ai-chat.tsx:149 | the stripped tail is the longest whitespace suffix |
| `ChatState.ImageFilesMembers` | my-app/src/components/chat/ai-chat.tsx:81-86 | the kept files are exactly the batch's files whose type starts with "image/" |
| `ChatState.ImageFilesAppend` | my-app/src/components/chat/ai-chat.tsx:81-86 | the filter distributes over concatenation, so files keep their input order |
| `ChatState.AddImages` | my-app/src/components/chat/ai-chat.tsx:79-89 | adding images changes only the staged list and the two allocators |
| `ChatState.AddImagesAppendsImages` | my-app/src/components/chat/ai-chat.tsx:79-89 | the old staged list is kept as a prefix; after it come exactly the batch's image files in order, each under a fresh URL; a batch with no images changes nothing |
| `ChatState.AddImagesFiles` | my-app/src/components/chat/ai-chat.tsx:79-89 | the staged files afterwards are the files before, then the batch's image files |
| `ChatState.AddImagesTwice` | my-app/src/components/chat/ai-chat.tsx:79-116 | two batches from any sources stage the image files of both, in arrival order |
| `ChatState.DropFiles` | my-app/src/components/chat/ai-chat.tsx:91-100 | a drop stages as `handleAddImages` does with all dropped files, and always ends with `isDragOver` false |
| `ChatState.PastedFilesMembers` | my-app/src/components/chat/ai-chat.tsx:106-112 | the pasted files are exactly those of the items of kind "file" whose `getAsFile()` is not null |
| `ChatState.PasteItems` | my-app/src/components/chat/ai-chat.tsx:102-116 | with no clipboard data or no file items a paste changes nothing; otherwise the collected files are staged |
| `ChatState.DragOver` | my-app/src/components/chat/ai-chat.tsx:118-124 | drag-over leaves the highlight on and changes nothing else |
| `ChatState.DragLeave` | my-app/src/components/chat/ai-chat.tsx:126-131 | drag-leave keeps the highlight only if it was on and the pointer moved to a node inside the drop zone; it changes nothing else |
| `ChatState.WithoutImageMembers` | my-app/src/components/chat/ai-chat.tsx:133-135 | removal drops every entry with the id and keeps every other; an absent id changes nothing |
| `ChatState.WithoutImageAppend` | my-app/src/components/chat/ai-chat.tsx:134 | removal keeps the surviving entries in their original order |
| `ChatState.ClearPendingImage` | my-app/src/components/chat/ai-chat.tsx:133-135 | the handler itself changes only the staged list and revokes no URL |
| `ChatState.ResetComposer` | my-app/src/components/chat/ai-chat.tsx:137-146 | reset leaves the log, the allocators and both flags alone |
| `ChatState.ResetRevokesEachOnce` | my-app/src/components/chat/ai-chat.tsx:137-146 | reset empties the draft and the staged list and revokes each staged URL exactly once, revoking nothing else |
| `ChatState.TeardownRevokesEachOnce` | my-app/src/components/chat/ai-chat.tsx:73-77 | the unmount cleanup revokes each staged URL exactly once and no URL twice |
| `ChatState.SubmitBlankIsNoop` | my-app/src/components/chat/ai-chat.tsx:149-150 | submitting an all-whitespace draft with nothing staged changes nothing |
| `ChatState.SubmitStartAppendsUserMessage` | my-app/src/components/chat/ai-chat.tsx:148-163 | otherwise submission sets `isSubmitting`, keeps the log as a prefix and appends one user message; its content is the trimmed draft and its images are the staged `(id, previewUrl)` pairs in order; then the composer is reset |
| `ChatState.SubmitRevokesCommittedUrls` | my-app/src/components/chat/ai-chat.tsx:159-163 | after submission every preview URL of the new user message has been revoked, as written |
| `ChatState.ReplyTextQuotes` | my-app/src/components/chat/ai-chat.tsx:172-175 | the reply quotes a non-empty trimmed draft verbatim, and it is the fixed "received your images" text exactly when the draft is empty |
| `ChatState.SubmitRoundTrip` | my-app/src/components/chat/ai-chat.tsx:148-181 | a full accepted submission appends exactly the user message and then one image-less assistant reply, and ends with `isSubmitting` false |
| `ChatState.HelloRoundTrip` | my-app/src/components/chat/ai-chat.tsx:148-181 | "hello" with nothing staged yields the user message "hello" with no images, then a reply quoting "hello" |
| `ChatState.ImageOnlyRoundTrip` | my-app/src/components/chat/ai-chat.tsx:148-181 | an empty draft with one staged image yields a user message with empty content and that image, then the fixed images reply |
| `ChatState.CanSendIff` | my-app/src/components/chat/ai-chat.tsx:466-469 | Send is enabled iff no reply is pending and the draft has a non-whitespace character or an image is staged; an enabled Send appends a message, and a disabled Send while idle is a no-op |
| `ChatState.EnterSubmitsWhileSubmitting` | my-app/src/components/chat/ai-chat.tsx:183-191 | Enter without Shift submits even while `isSubmitting` holds; Shift+Enter never submits |
| `ChatState.AddImagesKeepsValid` | my-app/src/components/chat/ai-chat.tsx:83-88 | staging keeps ids and URLs unique and unrevoked |
| `ChatState.ClearKeepsValid` | my-app/src/components/chat/ai-chat.tsx:133-135 | removal keeps the invariant |
| `ChatState.SubmitStartKeepsValid` | my-app/src/components/chat/ai-chat.tsx:148-163 | submission keeps message ids unique and the revocation log free of repeats |
| `ChatState.SubmitReplyKeepsValid` | my-app/src/components/chat/ai-chat.tsx:167-180 | the reply keeps message ids unique |
| `ChatState.ApplyKeepsValid` | my-app/src/components/chat/ai-chat.tsx:79-191 | every handler keeps the invariant |
| `ChatState.InitialIsValid` | my-app/src/components/chat/ai-chat.tsx:51-57 | the initial state satisfies the invariant |
| `ChatState.RunKeepsValid` | my-app/src/components/chat/ai-chat.tsx:79-191 | after any run of events, message ids are unique, no URL is revoked twice and no staged URL is revoked |
| `ChatState.ApplyExtendsLog` | my-app/src/components/chat/ai-chat.tsx:162-178 | no handler removes or alters a logged message |
| `ChatState.RunAppendsOnly` | my-app/src/components/chat/ai-chat.tsx:162-178 | over any run of events the message log only grows at its end |
| `ChatComponent.CollectImages` | my-app/src/components/chat/ai-chat.tsx:80-86 | the `forEach`/`push` loop builds exactly the staged entries: the image files in order, with consecutive fresh ids and URLs |
| `ChatComponent.CollectPastedFiles` | my-app/src/components/chat/ai-chat.tsx:106-112 | the paste loop collects exactly the non-null files of the "file" items, in order |
| `ChatComponent.RevokeAll` | my-app/src/components/chat/ai-chat.tsx:140 | the revoke loop appends every staged URL to the revocation log, in order |
| `ChatComponent.AiChat.constructor` | my-app/src/components/chat/ai-chat.tsx:51-57 | the component starts in the initial state, which satisfies the invariant |
| `ChatComponent.AiChat.SetInputValue` | my-app/src/components/chat/ai-chat.tsx:235 | typing replaces the draft only |
| `ChatComponent.AiChat.HandleAddImages` | my-app/src/components/chat/ai-chat.tsx:79-89 | the method performs `AddImages` in place and keeps the invariant |
| `ChatComponent.AiChat.HandleDrop` | my-app/src/components/chat/ai-chat.tsx:91-100 | the method performs `DropFiles` in place |
| `ChatComponent.AiChat.HandlePaste` | my-app/src/components/chat/ai-chat.tsx:102-116 | the method performs `PasteItems` in place |
| `ChatComponent.AiChat.HandleDragOver` | my-app/src/components/chat/ai-chat.tsx:118-124 | the method performs `DragOver` in place |
| `ChatComponent.AiChat.HandleDragLeave` | my-app/src/components/chat/ai-chat.tsx:126-131 | the method performs `DragLeave` in place |
| `ChatComponent.AiChat.ClearPendingImage` | my-app/src/components/chat/ai-chat.tsx:133-135 | the method performs the removal in place |
| `ChatComponent.AiChat.ResetComposer` | my-app/src/components/chat/ai-chat.tsx:137-146 | the method performs the reset in place, revoking in a loop |
| `ChatComponent.AiChat.Teardown` | my-app/src/components/chat/ai-chat.tsx:73-77 | the cleanup revokes the staged URLs and changes nothing else |
| `ChatComponent.AiChat.HandleSubmit` | my-app/src/components/chat/ai-chat.tsx:148-163 | the first half of `handleSubmit`: it reports whether the guard passed, returns the trimmed draft and performs `SubmitStart` |
| `ChatComponent.AiChat.CompleteSubmit` | my-app/src/components/chat/ai-chat.tsx:165-180 | the second half performs `SubmitReply` |
| `ChatComponent.AiChat.HandleKeyDown` | my-app/src/components/chat/ai-chat.tsx:183-191 | Enter without Shift runs the first half of `handleSubmit`; other keys change nothing |
| `ChatComponent.AiChat.HandleSendClick` | my-app/src/components/chat/ai-chat.tsx:463-472 | a Send click submits only while the button is enabled |
| `Calendar.Reconcile` | my-app/src/components/ui/calendar.tsx:71-85 | after uncontrolled reconciliation the selection is none iff there are no slots, and otherwise it is one of the slots |
| `Calendar.ReconcilePreference` | my-app/src/components/ui/calendar.tsx:77-83 | a non-empty selection that is still listed is kept (the empty string counts as no selection); otherwise a listed `initialTimeSlot` is chosen; otherwise the first slot |
| `Calendar.ReconcileIdempotent` | my-app/src/components/ui/calendar.tsx:77-83 | reconciling twice equals reconciling once |
| `Calendar.InitialSlotAfterMount` | my-app/src/components/ui/calendar.tsx:56-85 | uncontrolled, the first selection survives the mount effect iff it is none or listed; an unlisted `initialTimeSlot` gives way to the first slot |
| `Calendar.DefaultInitialSlot` | my-app/src/components/ui/calendar.tsx:20-63 | with no props the picker starts on "09:00 AM" |
| `Calendar.ControlledSelectionIsProp` | my-app/src/components/ui/calendar.tsx:94-96 | controlled, the displayed selection is the `selectedTimeSlot` prop whatever the internal state; uncontrolled, it is the internal state |
| `Calendar.AtMostOneMarked` | my-app/src/components/ui/calendar.tsx:221-227 | with distinct slots no two buttons are marked selected |
| `Calendar.ExactlyOneMarkedAfterReconcile` | my-app/src/components/ui/calendar.tsx:71-85 | uncontrolled, after reconciliation over distinct non-empty slots, exactly one button is marked selected |
| `Calendar.DefaultSlotsDistinct` | my-app/src/components/ui/calendar.tsx:20-31 | the default slots are pairwise different |
| `Calendar.TimeSlotPicker.constructor` | my-app/src/components/ui/calendar.tsx:56-63 | the internal selection starts as the initial-slot choice |
| `Calendar.TimeSlotPicker.SyncControlled` | my-app/src/components/ui/calendar.tsx:65-69 | controlled, the internal selection becomes the prop; uncontrolled, it is untouched |
| `Calendar.TimeSlotPicker.ReconcileUncontrolled` | my-app/src/components/ui/calendar.tsx:71-85 | uncontrolled, the internal selection becomes the reconciled one; it is then none iff there are no slots, and otherwise listed; controlled, it is untouched |
| `Calendar.TimeSlotPicker.HandleTimeSlotSelect` | my-app/src/components/ui/calendar.tsx:87-92 | uncontrolled, the clicked slot becomes the selection; controlled, the state is untouched and the display stays the prop; in both modes the slot is passed to the callback when one is given |
| `Team.InitialOpenGroupsIff` | my-app/src/components/team/team-members.tsx:36-38 | the initial open set is exactly the ids of the teams with `defaultOpen` |
| `Team.Toggled` | my-app/src/components/team/team-members.tsx:40-50 | toggling flips the membership of the id and leaves every other id's membership unchanged |
| `Team.ToggleTwice` | my-app/src/components/team/team-members.tsx:40-50 | toggling the same id twice restores the open set |
| `Team.InitiallyOpenIff` | my-app/src/components/team/team-members.tsx:36-58 | before any toggle a group renders open iff some team with its id has `defaultOpen` |
| `Team.ToggleAffectsOnlyItsGroup` | my-app/src/components/team/team-members.tsx:40-58 | a toggle flips the rendered state of the groups with that id only |
| `Team.VisibleAvatars` | my-app/src/components/team/team-members.tsx:73 | the visible avatars are the first min(4, n) members in order |
| `Team.RemainingCount` | my-app/src/components/team/team-members.tsx:74 | visible plus remaining is n, and the remaining members are exactly those after the visible ones |
| `Team.OverflowBadgeIff` | my-app/src/components/team/team-members.tsx:184 | the "+N" badge shows iff a group has more than four members; without it every member is visible |
| `Team.TeamMembers.constructor` | my-app/src/components/team/team-members.tsx:36-38 | the open set starts as the `defaultOpen` ids |
| `Team.TeamMembers.ToggleGroup` | my-app/src/components/team/team-members.tsx:40-50 | the copy-flip-store of `toggleGroup` stores the toggled set |

## Left out

- Rendering and styling are not modelled. This covers all JSX, class names, `MessageBubble`, `MessageTimeline`, the `Composer` markup, `CalendarDayButton`, `AvatarStack` and `MemberRow`, and the framer-motion animation values.
- Timestamps are not modelled: `createdAt` and the `date-fns` formatting of it are omitted.
- Ids and preview URLs are natural numbers from counters, not UUID or `blob:` strings. The model relies only on their freshness.
- The auto-scroll (`requestAnimationFrame`) and the 1200 ms timer are not modelled. The timer is the boundary between `SubmitStart` and `SubmitReply`. Any events may arrive between the two halves.
- React effect scheduling is not modelled. In React the cleanup at `ai-chat.tsx:73-77` also runs whenever `pendingImages` changes, and then it revokes the previous list's URLs. Those URLs include some that are still staged. The model only has the explicit `Teardown` on unmount. Likewise the two calendar effects are methods that the caller runs; the model does not say when React runs them.
- `ChatState.RunKeepsValid` and `ChatState.ClearPendingImage` describe the handlers alone; the running component does revoke staged URLs and does revoke some URLs twice. Because every change of `pendingImages` re-runs the cleanup at `ai-chat.tsx:73-77` over the previous list, several things follow. A removal revokes every URL staged before it, even for an absent id, since `filter` at `ai-chat.tsx:134` always yields a new array. A second batch revokes the first batch's URLs while they stay staged (`ai-chat.tsx:88`). A later reset or submit revokes those URLs again (`ai-chat.tsx:140`). The model has no per-render effect, so its invariant says nothing about these revocations.
- Stale closures and batched state updates are not modelled. Each handler reads the current state, and its setter calls take effect in source order.
- The file input's `value = ""` reset, `preventDefault` and `stopPropagation` are not modelled.
- The `disabled` predicates of the Clear and Reset buttons (`ai-chat.tsx:445`, `457-459`) are not modelled. A `ResetClicked` event always runs `resetComposer`.
- The never-set `uploading` flag of `PendingImage` is not modelled. A message without `images` is given an empty sequence.
- Characters are Unicode code points, whereas JavaScript strings are UTF-16 code units. The whitespace set used by `trim` is the ECMAScript one.
- The calendar's date grid (`react-day-picker`), navigation and `CalendarCaption` are not modelled. `onTimeSlotSelect` is modelled by the value it receives.
- `button-sefyu.tsx` is not part of this model. It computes the confetti origin in floating point from the element's bounding box, and it calls the canvas-confetti and class-variance libraries.
- `page.tsx`, `paramSelector.tsx`, `motion-wrapper.tsx` and `test-component.tsx` are not part of this model. They only lay out markup and forward props.
