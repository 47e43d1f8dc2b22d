/**
 The editing flow of the repository's example editor, on its `User` record:
 a context over host storage, a first-name edit, a child context for a nested
 editor, a last-name edit saved from the child into the parent, an undo in the
 parent that takes back that save, and a final save to the host.
 */
module ChildSession {
  import opened UndoHistory
  import opened KeyPaths
  import opened Bindings
  import opened Context

  /**
   Saving a child is one undoable step of its parent: after the parent's undo
   and save the host holds the parent's own edit but not the child's.
   */
  method NestedEditorSaveAndUndo() returns (saved: User, parentDirty: bool)
    ensures saved == User("C", "B")
    ensures !parentDirty
  {
    var storage := new Storage(User("A", "B"));
    var parent := new Context(Root(storage));
    parent.SetField(FirstName(), "C");
    assert parent.Field(FirstName()) == "C" && parent.Field(LastName()) == "B";
    assert HasChanges(parent) && parent.CanUndo();

    var child := parent.Child();
    child.SetField(LastName(), "D");
    assert parent.Value() == User("C", "B");
    child.Save();
    assert parent.Value() == User("C", "D") && storage.value == User("A", "B");

    parent.Undo();
    assert parent.Value() == User("C", "B") && parent.CanRedo();
    parent.Save();
    saved := storage.value;
    parentDirty := HasChanges(parent);
  }

  /**
   For any parent and child: saving the child and then undoing in the parent
   gives the parent back the working copy it had, with the child's commit
   available for redo; the parent's own source and the child are untouched.
   */
  method ChildSaveUndoneByParent<V>(parent: Context<V>, child: Context<V>)
    requires parent.Valid() && child.Valid() && child.source == Parent(parent)
    modifies parent.Repr()
    ensures parent.Valid() && child.Valid()
    ensures parent.State() == old(parent.State()).Assign(old(child.Value())).Undo()
    ensures parent.Value() == old(parent.Value()) && parent.CanRedo()
    ensures parent.SourceValue() == old(parent.SourceValue())
    ensures child.State() == old(child.State())
  {
    child.Save();
    EditThenUndo(old(parent.State()), old(child.Value()));
    parent.Undo();
  }
}
