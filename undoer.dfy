/**
 `Undoer`: undo and redo kept in two explicit stacks over a value that lives
 in someone else's storage. The live value is the source binding itself, so
 every edit, undo and redo writes straight through to that storage.
 */
module Undoer {
  import opened UndoHistory
  import opened KeyPaths
  import opened Bindings

  class Undoer<V> {
    /** The binding `current` stands for; the live value is `source.value`. */
    const source: Storage<V>
    /** Values replaced by edits, most recent last. */
    var past: seq<V>
    /** Values stepped back over by undos, most recent last. */
    var future: seq<V>

    /** The history the two stacks and the bound value make up. */
    function State(): History<V>
      reads this, source
    {
      History(past, source.value, future)
    }

    /** Reading `wrappedValue`, or the whole-value binding. */
    function Value(): V
      reads source
    {
      source.value
    }

    /** Reading one part of the value through a key path. */
    function Field<T>(path: Lens<V, T>): T
      reads source
    {
      path.get(source.value)
    }

    /** Created from a binding with nothing to undo or redo. */
    constructor (source: Storage<V>)
      ensures this.source == source
      ensures State() == Fresh(source.value)
      ensures !CanUndo() && !CanRedo()
    {
      this.source := source;
      past := [];
      future := [];
    }

    /**
     Assigning `wrappedValue`, or writing through `binding`: the replaced value
     is remembered, nothing can be redone any more, and the new value is
     written to the source.
     */
    method Set(v: V)
      modifies this, source
      ensures State() == old(State()).Assign(v)
      ensures Value() == v && CanUndo() && !CanRedo()
    {
      past := past + [source.value];
      future := [];
      source.value := v;
    }

    /**
     Writing one part through a key path: the whole value is rebuilt with that
     part replaced and assigned as one edit, so the history gains exactly one
     entry, the whole value held before.
     */
    method SetField<T>(path: Lens<V, T>, t: T)
      modifies this, source
      ensures Value() == path.put(old(Value()), t)
      ensures State() == old(State()).Assign(path.put(old(Value()), t))
      ensures past == old(past) + [old(Value())] && future == []
    {
      Set(path.put(source.value, t));
    }

    /** An undo is allowed exactly when the history has an edit to undo. */
    function CanUndo(): (r: bool)
      reads this, source
      ensures r <==> State().CanUndo()
    {
      past != []
    }

    /** The last remembered value comes back; the value it replaces can be redone. */
    method Undo()
      requires CanUndo()
      modifies this, source
      ensures State() == old(State()).Undo()
      ensures CanRedo() && |past| + |future| == old(|past| + |future|)
    {
      var previous := past[|past| - 1];
      past := past[..|past| - 1];
      future := future + [source.value];
      source.value := previous;
    }

    /** A redo is allowed exactly when some undo has not been overwritten by an edit. */
    function CanRedo(): (r: bool)
      reads this, source
      ensures r <==> State().CanRedo()
    {
      future != []
    }

    /** The last undone value comes back; the value it replaces can be undone. */
    method Redo()
      requires CanRedo()
      modifies this, source
      ensures State() == old(State()).Redo()
      ensures CanUndo() && |past| + |future| == old(|past| + |future|)
    {
      var next := future[|future| - 1];
      future := future[..|future| - 1];
      past := past + [source.value];
      source.value := next;
    }
  }

  /**
   An undo followed by a redo, and a redo followed by an undo, leave the value
   and both stacks exactly as they were.
   */
  method UndoRedoRoundTrip<V>(u: Undoer<V>, undoFirst: bool)
    requires if undoFirst then u.CanUndo() else u.CanRedo()
    modifies u, u.source
    ensures u.State() == old(u.State())
  {
    if undoFirst {
      UndoThenRedo(u.State());
      u.Undo();
      u.Redo();
    } else {
      RedoThenUndo(u.State());
      u.Redo();
      u.Undo();
    }
  }

  /**
   A host's request to an `Undoer`: an edit is `Set`, an undo or redo is
   allowed only when `Step` accepts it, and then it is exactly that step.
   */
  method Perform<V>(u: Undoer<V>, cmd: Command<V>)
    requires Step(u.State(), cmd).Some?
    modifies u, u.source
    ensures u.State() == Step(old(u.State()), cmd).value
  {
    match cmd
    case Edit(v) => u.Set(v);
    case UndoCommand => u.Undo();
    case RedoCommand => u.Redo();
  }

  /**
   A write through a lawful key path: the part reads back as written, and one
   undo brings back the whole value held before.
   */
  method SetLawfulField<V(!new), T(!new)>(u: Undoer<V>, path: Lens<V, T>, t: T)
    requires Lawful(path)
    modifies u, u.source
    ensures u.Field(path) == t
    ensures u.CanUndo() && u.State().Undo().current == old(u.Value())
  {
    u.SetField(path, t);
  }
}
