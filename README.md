# Navigation and action dispatch of the loungy launcher, in Dafny

This project models the navigation and command-dispatch core of the loungy
launcher (`src/state.rs`). The reactive UI framework and all rendering are
left out. The core has three parts:

- **Navigation stack** (`Navigation.State`): a sequence of frames that starts
  with one root frame. `Push` appends a frame, and `Pop` removes the top frame
  only when more than one frame is left. Each frame has its own query input,
  an opaque view and its own action registry.
- **Action registry** (`Registry.Actions`): a `global` list, a `local` list,
  the popup's `show` flag, the popup's own query input and the filtered list
  `items`.
  - The combined list (`ActionLists.CombinedOf`) is local followed by global.
    When that is non-empty, the first entry's shortcut is forced to plain
    "enter" and a hidden "Actions" toggle bound to command+k is appended.
  - `Check` returns the first entry of the combined list whose shortcut equals
    the keystroke exactly. Hidden entries are included.
  - `ListActions` hands the non-hidden entries to the fuzzy ranker.
  - The toggle flips `show`. Blur, back and escape on the popup's query input
    set `show` to false.
- **Shortcuts** (`Shortcuts`): a keystroke is four modifier flags, a key token
  and an optional input-method key. `Simple` and `Cmd` build shortcuts, and
  matching is structural equality.

Naming. The source's action fields `label` and `hide` are `title` and
`hidden` here, because `label` and `hide` are reserved words in Dafny.
Commands are tags: `TogglePopup` is the registry's own toggle, and
`User(id)` stands for any command a view supplies. The fuzzy matcher is a
function parameter of type `Ranker`, so the model says what the matcher is
given, not how it ranks.

Files: `wrappers.dfy` (Option), `shortcut.dfy`, `action.dfy` (the action
value type and the pure list logic), `registry.dfy`, `navigation.dfy`.

## Model

| member | source | states |
|---|---|---|
| Shortcuts.Simple | src/state.rs:123-131 | the shortcut has no modifier, the given key and no input-method key |
| Shortcuts.Cmd | src/state.rs:132-143 | the shortcut has only the command modifier, the given key and no input-method key |
| Shortcuts.New | src/state.rs:144-146 | the shortcut is matched by the given keystroke and by no other |
| Shortcuts.MatchesIsExact | src/state.rs:476 | a keystroke matches a shortcut iff all four modifiers, the key and the input-method key agree |
| Shortcuts.ExtraModifierNeverMatches | src/state.rs:476 | a keystroke holding a modifier the shortcut lacks never matches it |
| Shortcuts.CmdShiftKDoesNotMatchCmdK | src/state.rs:132-143 | command+shift+k does not match the command+k shortcut |
| Shortcuts.SimpleIsNeverCmd | src/state.rs:122-143 | a plain shortcut never equals a command shortcut, whatever the keys |
| Shortcuts.SimpleInjective | src/state.rs:123-131 | two plain shortcuts are equal iff their keys are equal |
| ActionLists.NewAction | src/state.rs:257-271 | the action holds exactly the given label, shortcut, image, command and hide flag |
| ActionLists.CombinedOf | src/state.rs:284-298 | empty iff local and global are both empty; otherwise its length is the lengths of local and global plus one, entry 0 is the first of local++global with shortcut "enter", entries 1..n-2 are local++global unchanged, and the last entry is the hidden command+k toggle |
| ActionLists.FirstMatch | src/state.rs:472-482 | none iff no entry's shortcut equals the keystroke; otherwise the result is an entry whose shortcut equals it and no earlier entry's does |
| ActionLists.Candidates | src/state.rs:332-356 | every item carries one non-hidden action of the input and is keyed by its label; every non-hidden action of the input gives an item |
| ActionLists.CandidatesAppend | src/state.rs:332-356 | filtering distributes over concatenation, so candidates keep the input's order |
| ActionLists.CandidatesSingle | src/state.rs:335-338 | one action gives one item if visible and none if hidden |
| ActionLists.CandidatesAreVisible | src/state.rs:336-338 | no candidate carries a hidden action |
| ActionLists.CandidatesOfCombined | src/state.rs:330-356 | the candidates of the combined list are those of the primary entry followed by those of local++global after its first entry; the toggle adds nothing |
| ActionLists.ToggleNeverCandidate | src/state.rs:289-295 | the toggle entry is never among the candidates of a combined list |
| ActionLists.FirstMatchBindsExactly | src/state.rs:474-479 | a dispatched action is bound to exactly the pressed keystroke |
| ActionLists.EnterDispatchesPrimary | src/state.rs:287-288 | on a non-empty combined list, "enter" dispatches the rewritten first entry |
| ActionLists.CmdKDispatch | src/state.rs:284-298 | command+k dispatches something iff local++global is non-empty; it dispatches the toggle when no entry after the first is bound to command+k |
| ActionLists.ToggleNeedsExactKeystroke | src/state.rs:289-295 | the toggle is dispatched only by exactly command+k |
| ActionLists.WorkedExampleCombined | src/state.rs:284-298 | local [A] and global [B on command+b] combine to [A on enter, B, toggle] |
| ActionLists.WorkedExampleDispatch | src/state.rs:472-482 | on that list, enter, command+b and command+k dispatch A, B and the toggle, and escape dispatches nothing |
| ActionLists.WorkedExampleCandidates | src/state.rs:330-356 | on that list the candidates are A and B only |
| Registry.Actions.constructor | src/state.rs:393-446 | a new registry has empty lists, the popup closed, an empty list and a fresh, empty query input |
| Registry.Actions.Combined | src/state.rs:284-298 | the list built step by step is the combined list of the current local and global lists |
| Registry.Actions.Get | src/state.rs:465-471 | returns the combined list of the current lists |
| Registry.Actions.Check | src/state.rs:472-482 | the linear scan returns the first-match dispatch over the combined list |
| Registry.Actions.ListActions | src/state.rs:330-363 | the filtered list becomes the ranker's result for the popup's query text and the non-hidden combined entries |
| Registry.Actions.UpdateGlobal | src/state.rs:447-455 | global is replaced wholesale, local and show are kept, and the list is re-filtered with the new global list |
| Registry.Actions.UpdateLocal | src/state.rs:456-464 | local is replaced wholesale, global and show are kept, and the list is re-filtered with the new local list |
| Registry.Actions.Toggle | src/state.rs:405-410 | the popup's visibility is flipped |
| Registry.Actions.ToggleTwice | src/state.rs:405-410 | toggling twice restores the visibility |
| Registry.Actions.OnQueryEvent | src/state.rs:420-438 | blur, back and a press of escape (whatever modifiers are held) close the popup, and other keys leave it as it was; typed input re-filters and nothing else changes the list |
| Navigation.PopRootIsNoOp | src/state.rs:72-79 | popping a one-frame stack leaves it unchanged |
| Navigation.PopRemovesTop | src/state.rs:72-79 | popping a deeper stack removes exactly the top frame and keeps all earlier ones |
| Navigation.PushAddsTop | src/state.rs:80-86 | pushing adds one frame, last, and keeps all earlier ones |
| Navigation.PushThenPopRestores | src/state.rs:72-86 | on a non-empty stack, a push followed by a pop restores the stack |
| Navigation.RunKeepsRoot | src/state.rs:66-86 | after any sequence of pushes and pops the stack is non-empty and its root is the original root |
| Navigation.State.NewFrame | src/state.rs:20-50 | a frame has the given view, a fresh empty query input and a fresh empty registry with the popup closed |
| Navigation.State.Init | src/state.rs:67-71 | the stack holds exactly the root frame, and no hide has been requested |
| Navigation.State.Pop | src/state.rs:72-79 | the stack becomes its guarded pop, and stays non-empty with distinct registries |
| Navigation.State.Push | src/state.rs:80-86 | the stack grows by one fresh frame for the view, with earlier frames unchanged |
| Navigation.State.OnFrameQueryEvent | src/state.rs:24-43 | back pops the stack, escape records a hide request, and blur or other input change nothing |
| Navigation.State.PushThenPop | src/state.rs:72-86 | push then pop restores the stack and leaves every frame's query text and registry state unchanged |

## Left out

- Rendering is not modelled: `key_icon`, `RenderOnce` for `Shortcut` and `Action`, `Render for Actions` and `popup`. They only style the UI.
- The reactive framework is not modelled: `Model` and `View` handles, `cx.notify`, subscriptions and `Global`. Updates are direct field assignments, and event handlers are methods called with the event.
- `fuzzy_match` is not part of this model. It becomes a `Ranker` parameter, so the model fixes only the ranker's inputs.
- `CloneableFn` boxing and cloning are replaced by the `Command` tag. Invoking a user-supplied command is foreign code and is not modelled.
- The registry's toggle field starts as a no-op closure and is replaced before construction ends. The model has just the final toggle (`TogglePopup`, `Actions.Toggle`).
- `TextInput` internals are not modelled. `TextInput::new` and `List::new` are assumed to start empty. The popup's query is a `const` field, because the source sets it once during construction; the `Option` wrapping of the query and list fields, and the `unwrap` calls on them, are dropped.
- `StateView::build`, `RootBuilder`, `List`, `ListItem` and `Item` construction are foreign code. A built view is an opaque `View`, and an `Item` keeps only its search keys and actions. Any registry updates a view makes while it is built are separate `UpdateLocal`/`UpdateGlobal` calls.
- Escape on a frame's own query input calls `cx.hide()` on the window. The model records this as the `hideRequested` flag. The blur policy that is commented out in the source is not modelled.
- Modifiers are the four flags control, alt, shift and command. The windowing library's own `Modifiers` type is not part of this model.
