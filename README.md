# Undo/redo editing sessions, modelled in Dafny

This project models the two editing-session engines of the SwiftUI package
`Context`. Both are generic over the edited value `V`.

- `Undoer` sits on top of a binding. It keeps the values that edits replaced in
  a `past` stack and the values that undos stepped back over in a `future`
  stack. The live value is the bound storage itself.
- `Context` keeps a working copy apart from its source binding. The copy lives
  in an `UndoManaged` container, and every assignment to the container
  registers one undo action on its undo manager. `save` writes the copy to the
  source. `reset` assigns the source's value to the copy through the ordinary
  setter. `rollback` does the same and then removes all undo actions. `child`
  opens a new context whose source is this context's working copy.

`UndoHistory.History(past, current, future)` is the reference definition both
engines are proved against. It has `Assign`, `Undo`, `Redo` and `Clear`.
`Undoer` stores the triple directly. For `Context`, the triple is the container's
value together with the undo manager's two stacks.

The two engines differ only when there is nothing to undo or redo. `Undoer`
must not be asked: its `removeLast` traps, which `UndoHistory.Step` models as a
refusal (`None`). The undo manager does nothing, which `UndoHistory.ManagedStep`
models by keeping the history. `Undoer.Perform` ties one request to `Step`, and
`Context.Perform` ties one request to `ManagedStep`. The lemmas of
`UndoHistory` are stated about the triple:
- undo and redo are inverse to each other (both engines);
- an edit forgets everything that could be redone (both engines);
- `n` undos followed by `n` redos come back to the same state (both engines:
  `ManagedRunAgrees` carries every successful `Run` over to `ManagedRun`);
- after `n` edits, `n + 1` undos are refused (`Undoer` only);
- after `n` edits, any number of further undos on a context leaves it at the
  starting value, and `n` redos then restore exactly the state after the edits
  (`ManagedExtraUndos`).

A writable key path is modelled as a `KeyPaths.Lens`, a get/put pair. A write
through it is one whole-value assignment. The host's `@State` storage behind a
binding is modelled as `Bindings.Storage`. A context's source is either such
storage (`Root`) or a parent context (`Parent`). Reading a `Parent` source reads
the parent's working copy. Writing it goes through the parent's registering
setter, so a child's `save` is one undoable edit of the parent.

Foundation's `UndoManager` is not part of this model. `UndoManaged.UndoManager`
stands in for it, under these assumed rules:
- an action registered outside an undo or redo goes on the undo stack and
  empties the redo stack;
- an action registered during an undo goes on the redo stack;
- an action registered during a redo goes on the undo stack and leaves the redo
  stack alone;
- there is one step per registration;
- undo or redo with an empty stack does nothing.

Every action this code registers restores a value of the container, so an
action is represented by that value.

Points where the code says more than its doc comments, or where the engines
behave differently:
- `reset` goes through the registering setter. It keeps the undo stack, as its
  doc comment at `Sources/Context/Context.swift:47-50` promises. But its
  registration is made outside an undo, so it empties the redo stack:
  after `reset` nothing can be redone (`Context.Context.Reset` ensures
  `!CanRedo()`).
- `Undoer.undo`/`redo` on an empty stack trap in `removeLast`. The model states
  this as a `requires`. `Context.undo`/`redo` on an empty stack do nothing,
  under the undo-manager assumption above.
- `save` on a context whose source is host storage sends no change
  notification. A child's `save` sends one from the parent's container.

`Sources/Context/Context.swift:70` declares the delegate property as
`UndoManager` but returns `$value`, which is an `UndoManaged`. The members used
through it (`canUndo`, `undo`, `canRedo`, `redo`, `removeAllActions`) are those
of `UndoManaged`. The model delegates to `UndoManaged`.

## Model

| member | source | states |
|---|---|---|
| UndoHistory.UndoThenRedo | Sources/Undoer/Undoer.swift:47-58 | After an undo a redo is possible, and it restores `past`, `current` and `future` exactly; the two stacks keep their total size |
| UndoHistory.RedoThenUndo | Sources/Undoer/Undoer.swift:47-58 | After a redo an undo is possible, and it restores all three exactly; the two stacks keep their total size |
| UndoHistory.EditThenUndo | Sources/Context/UndoManaged.swift:38-52 | After an assignment an undo is possible and a redo is not; the undo brings back the replaced value and the earlier remembered values, and a following redo reapplies the assignment |
| UndoHistory.ClearForgetsAll | Sources/Context/UndoManaged.swift:53 | Removing all actions keeps the value and leaves nothing to undo or redo |
| UndoHistory.RunEdits | Sources/Undoer/Undoer.swift:24-28 | Any sequence of assignments is accepted; afterwards the remembered values followed by the live one are the earlier ones followed by the assigned values, in order, and after at least one assignment nothing can be redone |
| UndoHistory.RunUndos | Sources/Undoer/Undoer.swift:47-51 | `n` undos with at least `n` remembered values all succeed and reach the `n`-th most recent remembered value, with `past` cut by `n` |
| UndoHistory.TooManyUndos | Sources/Undoer/Undoer.swift:47-48 | More undos than remembered values are refused, as `removeLast` traps in `Undoer`; a context does nothing instead (`ManagedExtraUndos`) |
| UndoHistory.UndosThenRedos | Sources/Undoer/Undoer.swift:47-58 | `n` undos followed by `n` redos restore the whole state |
| UndoHistory.EditAfterAnyRunForgetsRedo | Sources/Undoer/Undoer.swift:24-28 | An assignment after any successful sequence of assignments, undos and redos leaves nothing to redo and can be undone |
| UndoHistory.EditsAllUndone | Sources/Undoer/Undoer.swift:22-51 | Opened on `v0` and edited to each of the N values `vs` in turn: N undos all succeed, return to `v0` and leave nothing to undo |
| UndoHistory.EditsOneUndoTooMany | Sources/Undoer/Undoer.swift:22-51 | After N edits of a fresh session, N + 1 undos are refused by `Undoer` |
| UndoHistory.EditsUndoneAndRedone | Sources/Undoer/Undoer.swift:22-58 | After N edits of a fresh session, N undos followed by N redos restore exactly the state the last edit left |
| UndoHistory.ManagedRunAgrees | Sources/Context/UndoManaged.swift:51-52 | Whenever every command of a sequence is accepted, the undo manager's semantics reaches exactly the same history, so the lemmas about successful runs hold for contexts too |
| UndoHistory.ManagedExtraUndos | Sources/Context/UndoManaged.swift:51 | After N edits of a fresh session, N + k undos on the undo manager are not refused: the value is back at the start, nothing is left to undo, the redo stack holds N values, and N redos then restore exactly the state the last edit left |
| KeyPaths.UserKeyPaths | Example/Example/ContentView.swift:5-8 | The `firstName` and `lastName` key paths are lawful (read-back, write-back, overwrite), and writing one leaves the other unchanged |
| Undoer.Undoer.constructor | Sources/Undoer/Undoer.swift:16-20 | Binds to the source with empty `past` and `future`; neither undo nor redo is possible |
| Undoer.Undoer.Set | Sources/Undoer/Undoer.swift:24-28 | Assigning (the `wrappedValue` setter, and identically the `binding` setter at lines 39-43) appends the old value to `past`, empties `future` and writes the new value to the source; undo is then possible and redo is not |
| Undoer.Undoer.SetField | Sources/Undoer/Undoer.swift:33-44 | A key-path write makes the value the old one with that part replaced, and adds exactly one `past` entry, the whole previous value |
| Undoer.Undoer.CanUndo | Sources/Undoer/Undoer.swift:46 | True exactly when the history has something to undo (`past` non-empty) |
| Undoer.Undoer.Undo | Sources/Undoer/Undoer.swift:47-51 | Requires a non-empty `past`; pops its last value into the source and pushes the replaced value onto `future`; total stack size kept |
| Undoer.Undoer.CanRedo | Sources/Undoer/Undoer.swift:53 | True exactly when the history has something to redo (`future` non-empty) |
| Undoer.Undoer.Redo | Sources/Undoer/Undoer.swift:54-58 | Requires a non-empty `future`; pops its last value into the source and pushes the replaced value onto `past`; total stack size kept |
| Undoer.UndoRedoRoundTrip | Sources/Undoer/Undoer.swift:47-58 | On the class: undo then redo, or redo then undo, leave the source value and both stacks as they were |
| Undoer.SetLawfulField | Sources/Undoer/Undoer.swift:33-44 | A write through a lawful key path reads back as the part written, and one undo brings back the whole previous value |
| Undoer.Perform | Sources/Undoer/Undoer.swift:24-58 | An edit, or an undo or redo the stacks allow, changes the class's state by exactly one `Step` of the history |
| UndoManaged.UndoManager.constructor | Sources/Context/UndoManaged.swift:11 | A new undo manager has nothing registered and is not undoing or redoing |
| UndoManaged.UndoManager.RegisterUndo | Sources/Context/UndoManaged.swift:43 | Registration outside undo/redo pushes onto the undo stack and clears the redo stack; during undo it pushes onto the redo stack; during redo it pushes onto the undo stack and keeps the redo stack |
| UndoManaged.UndoManager.Undo | Sources/Context/UndoManaged.swift:51 | Performing the last undo action assigns the container, whose registration lands on the redo stack: the container's history takes exactly one `Undo` step with one notification, or nothing happens when the undo stack is empty |
| UndoManaged.UndoManager.Redo | Sources/Context/UndoManaged.swift:52 | Symmetric: exactly one `Redo` step with one notification, or nothing when the redo stack is empty |
| UndoManaged.UndoManager.RemoveAllActions | Sources/Context/UndoManaged.swift:53 | Both stacks are emptied |
| UndoManaged.Container.constructor | Sources/Context/UndoManaged.swift:31-34 | Stores the value and the undo manager; nothing is announced or registered |
| UndoManaged.Container.SetValue | Sources/Context/UndoManaged.swift:38-45 | Every assignment sends exactly one notification and registers exactly one action restoring the previous value; outside undo/redo this is one `Assign` step of the history |
| UndoManaged.UndoManaged.constructor | Sources/Context/UndoManaged.swift:10-13 | The given value in a fresh container with a fresh, empty undo manager, no notification sent |
| UndoManaged.UndoManaged.Set | Sources/Context/UndoManaged.swift:17-20 | Setting `wrappedValue` is one `Assign` step and one notification, so reading it back gives the value just set |
| UndoManaged.UndoManaged.CanUndo | Sources/Context/UndoManaged.swift:22-24 | The undo manager's `canUndo`: the history has something to undo |
| UndoManaged.UndoManaged.CanRedo | Sources/Context/UndoManaged.swift:22-24 | The undo manager's `canRedo`: the history has something to redo |
| UndoManaged.UndoManaged.Undo | Sources/Context/UndoManaged.swift:51 | One `Undo` step of the history with one notification when possible, otherwise no change |
| UndoManaged.UndoManaged.Redo | Sources/Context/UndoManaged.swift:52 | One `Redo` step of the history with one notification when possible, otherwise no change |
| UndoManaged.UndoManaged.RemoveAllActions | Sources/Context/UndoManaged.swift:53 | The value stays, the history is cleared, no notification |
| Context.Context.constructor | Sources/Context/Context.swift:12-15 | The working copy starts equal to the source with an empty history, so there are no changes and nothing to undo or redo |
| Context.Context.Set | Sources/Context/Context.swift:19-31 | Setting `wrappedValue`, or writing the whole-value binding, is one `Assign` step with one notification; redo is no longer possible and the source is untouched |
| Context.Context.SetField | Sources/Context/Context.swift:24-31 | A key-path write replaces only that part of the working copy via the single setter: one history step, one notification, source untouched |
| Context.HasChanges | Sources/Context/Context.swift:36-38 | Defined only for values with equality: true exactly when the working copy differs from the source |
| Context.Context.Save | Sources/Context/Context.swift:43-45 | Afterwards the source equals the working copy; the copy, its history and its notifications are unchanged; a parent source takes it as one `Assign` step with one notification |
| Context.Context.Reset | Sources/Context/Context.swift:51-53 | The working copy equals the unchanged source; the history is kept and gains one `Assign` step, so an undo brings back the pre-reset value; redo is no longer possible |
| Context.Context.Rollback | Sources/Context/Context.swift:60-63 | The working copy equals the unchanged source and neither undo nor redo is possible |
| Context.Context.CanUndo | Sources/Context/Context.swift:72 | Delegates to the session's own undo manager: the history has something to undo |
| Context.Context.Undo | Sources/Context/Context.swift:73 | Delegates to the session's own undo manager: one `Undo` step when possible, otherwise no change; the source is untouched |
| Context.Context.CanRedo | Sources/Context/Context.swift:75 | Delegates to the session's own undo manager: the history has something to redo |
| Context.Context.Redo | Sources/Context/Context.swift:76 | Delegates to the session's own undo manager: one `Redo` step when possible, otherwise no change; the source is untouched |
| Context.Context.Child | Sources/Context/Context.swift:83 | A fresh context whose source is this context's working copy, starting equal to it with an empty history of its own |
| Context.SetLawfulField | Sources/Context/Context.swift:24-31 | A write through a lawful key path reads back as the part written, leaves the source alone, and one undo brings back the whole previous working copy |
| Context.Perform | Sources/Context/Context.swift:19-76 | Any edit, undo or redo, possible or not, changes the context's state by exactly one `ManagedStep` of the history and leaves the source alone |
| ChildSession.ChildSaveUndoneByParent | Sources/Context/Context.swift:28-31 | For any parent and child: the child's save followed by the parent's undo gives the parent back its working copy, leaves the child's commit redoable, and touches neither the parent's source nor the child |
| ChildSession.NestedEditorSaveAndUndo | Sources/Context/Context.swift:43-83 | From `{A, B}`: first name set to C in the parent, last name set to D in a child and saved, parent undo, parent save: the host ends with `{C, B}` and the parent has no changes |

## Left out

- SwiftUI property-wrapper machinery (`DynamicProperty`, `@State`, `@StateObject`, `@Binding` lifetimes, `projectedValue`, view updates): fields and object references stand in for them.
- Foundation `UndoManager` internals (run-loop grouping, `groupsByEvent`, `levelsOfUndo`, undo groups, stored target closures): replaced by the abstract two-stack manager described above.
- UndoManaged.UndoManager.Undo: receives the container its actions target as a parameter instead of keeping it in stored closures.
- Combine's `objectWillChange` publisher: modelled only as a count of notifications sent.
- Undo and redo buttons and images (`Sources/Undoer/UndoButtons.swift`, `Sources/Context/UndoManager+Buttons.swift`, `undoButton`/`redoButton` in `Sources/Context/UndoManaged.swift:58-73`): user interface only.
- The example applications, apart from the `User` record and the editor's flow: user interface only.
- `Package.swift`: build metadata. It declares only the `Context` target, not `Undoer`.
- Concurrency: every operation is assumed to run to completion on one thread.
- Context.Context.constructor: the source is only host storage or a parent context's whole working copy. A field binding such as `$parent.firstName` (obtained through the key-path subscript), an `Undoer`'s binding or a hand-built `Binding(get:set:)` is not modelled, so the contracts about `save` rely on a source that stores exactly what is written to it.
- Undoer.Undoer.constructor: the binding an `Undoer` sits on is host storage only, not a context's working copy.
- Undoer.Undoer.SetField: the class contract states the rebuilt value `put(old, t)` for any key path. The read-back law is stated by `Undoer.SetLawfulField`, which needs reference-free type parameters, because `KeyPaths.Lawful` quantifies over all values. The laws themselves are proved for the `User` key paths only.
- Context.HasChanges: the value type's `Equatable` `!=` is modelled as Dafny's built-in equality on `V(==)`. This is exact only for conformances that are reflexive and equate only identical values. It differs for `Double.nan`, where Swift reports changes right after `init` or `save`, and for `String`, which Swift compares by canonical equivalence while the model compares the characters.
- Context.Context.SetField: same as `Undoer.Undoer.SetField`, with `Context.SetLawfulField` as the read-back statement.
- Context.Context.Child: in SwiftUI a computed `child` builds a new context on each access and the view keeps the first one; the model returns a fresh context per call.
