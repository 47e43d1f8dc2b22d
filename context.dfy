/**
 `Context`: an editing session. It keeps a working copy of a source value in
 an `UndoManaged` container, so every change to the working copy is one undo
 step, and it can save the copy to the source, reset it to the source, or
 roll it back to the source and forget the history. A child context takes the
 parent's working copy as its source, so saving the child is an ordinary,
 undoable edit of the parent.
 */
module Context {
  import opened UndoHistory
  import opened KeyPaths
  import opened Bindings
  import UndoManaged

  /**
   Where a context's source binding leads: storage owned by the host, or the
   working copy of a parent context (read as its value, written through its
   undo-registering setter).
   */
  datatype Source<V> = Root(storage: Storage<V>) | Parent(context: Context<V>)

  class Context<V> {
    const source: Source<V>
    /** The working copy and its undo history. */
    const value: UndoManaged.UndoManaged<V>

    /** The objects the source binding reads and writes. */
    function SourceRepr(): set<object>
    {
      match source
      case Root(s) => {s}
      case Parent(p) => p.value.Repr()
    }

    /** The objects that hold the working copy and its history. */
    function Repr(): set<object>
    {
      value.Repr()
    }

    /**
     Between operations no undo manager involved is performing an action, and
     the source is not the context's own working copy.
     */
    ghost predicate Valid()
      reads SourceRepr(), Repr()
    {
      && value.Ready()
      && SourceRepr() !! Repr()
      && (source.Parent? ==> source.context.value.Ready())
    }

    /** Reading the source binding. */
    function SourceValue(): V
      reads SourceRepr()
    {
      match source
      case Root(s) => s.value
      case Parent(p) => p.value.Value()
    }

    /** Reading `wrappedValue`. */
    function Value(): V
      reads Repr()
    {
      value.Value()
    }

    /** Reading one part of the working copy through a key path. */
    function Field<T>(path: Lens<V, T>): T
      reads Repr()
    {
      path.get(value.Value())
    }

    function State(): History<V>
      reads Repr()
    {
      value.State()
    }

    /** How many change notifications the working copy has sent. */
    function Notifications(): nat
      reads Repr()
    {
      value.Notifications()
    }

    /** `init(_:)`: the working copy starts as the source's value, with no history. */
    constructor (source: Source<V>)
      requires source.Parent? ==> source.context.value.Ready()
      ensures this.source == source && Valid() && fresh(Repr())
      ensures State() == Fresh(SourceValue()) && Notifications() == 0
    {
      this.source := source;
      var initial := match source
        case Root(s) => s.value
        case Parent(p) => p.value.Value();
      value := new UndoManaged.UndoManaged(initial);
    }

    /**
     Assigning `wrappedValue`, or writing through the whole-value binding: one
     undo step and one notification; the source is untouched.
     */
    method Set(v: V)
      requires Valid()
      modifies Repr()
      ensures Valid()
      ensures State() == old(State()).Assign(v)
      ensures CanUndo() && !CanRedo()
      ensures Notifications() == old(Notifications()) + 1
      ensures SourceValue() == old(SourceValue())
    {
      value.Set(v);
    }

    /**
     Writing one part through a key path: the whole working copy is rebuilt
     with that part replaced and goes through `Set`, so it is one undo step.
     */
    method SetField<T>(path: Lens<V, T>, t: T)
      requires Valid()
      modifies Repr()
      ensures Valid()
      ensures Value() == path.put(old(Value()), t)
      ensures State() == old(State()).Assign(path.put(old(Value()), t))
      ensures Notifications() == old(Notifications()) + 1
      ensures SourceValue() == old(SourceValue())
    {
      Set(path.put(value.Value(), t));
    }

    /**
     `save()`: the working copy is written to the source; the copy, its
     history and its notifications are unchanged. Writing to a parent is one
     ordinary edit of the parent.
     */
    method Save()
      requires Valid()
      modifies SourceRepr()
      ensures Valid()
      ensures SourceValue() == Value()
      ensures State() == old(State()) && Notifications() == old(Notifications())
      ensures source.Root? ==> source.storage.value == old(Value())
      ensures source.Parent? ==>
                source.context.value.State() == old(source.context.value.State()).Assign(old(Value()))
                && source.context.value.Notifications() == old(source.context.value.Notifications()) + 1
    {
      match source
      case Root(s) =>
        s.value := value.Value();
      case Parent(p) =>
        p.value.Set(value.Value());
    }

    /**
     `reset()`: the working copy is assigned the source's value through the
     ordinary setter, so the history is kept and the reset is itself one undo
     step.
     */
    method Reset()
      requires Valid()
      modifies Repr()
      ensures Valid()
      ensures Value() == SourceValue() && SourceValue() == old(SourceValue())
      ensures State() == old(State()).Assign(old(SourceValue()))
      ensures CanUndo() && !CanRedo()
      ensures Notifications() == old(Notifications()) + 1
    {
      value.Set(SourceValue());
    }

    /** `rollback()`: the working copy is assigned the source's value and the history is forgotten. */
    method Rollback()
      requires Valid()
      modifies Repr()
      ensures Valid()
      ensures SourceValue() == old(SourceValue())
      ensures State() == Fresh(old(SourceValue()))
      ensures !CanUndo() && !CanRedo()
      ensures Notifications() == old(Notifications()) + 1
    {
      value.Set(SourceValue());
      value.RemoveAllActions();
    }

    /** `canUndo`, delegated to the working copy's undo manager. */
    function CanUndo(): (r: bool)
      reads Repr()
      ensures r <==> State().CanUndo()
    {
      value.CanUndo()
    }

    /** `undo()`, delegated to the working copy's undo manager. */
    method Undo()
      requires Valid()
      modifies Repr()
      ensures Valid()
      ensures State() == if old(CanUndo()) then old(State()).Undo() else old(State())
      ensures Notifications() == old(Notifications()) + if old(CanUndo()) then 1 else 0
      ensures SourceValue() == old(SourceValue())
    {
      value.Undo();
    }

    /** `canRedo`, delegated to the working copy's undo manager. */
    function CanRedo(): (r: bool)
      reads Repr()
      ensures r <==> State().CanRedo()
    {
      value.CanRedo()
    }

    /** `redo()`, delegated to the working copy's undo manager. */
    method Redo()
      requires Valid()
      modifies Repr()
      ensures Valid()
      ensures State() == if old(CanRedo()) then old(State()).Redo() else old(State())
      ensures Notifications() == old(Notifications()) + if old(CanRedo()) then 1 else 0
      ensures SourceValue() == old(SourceValue())
    {
      value.Redo();
    }

    /**
     `child`: a new context whose source is this context's working copy; it
     starts equal to it with a history of its own.
     */
    method Child() returns (c: Context<V>)
      requires Valid()
      ensures c.source == Parent(this) && c.Valid() && fresh(c.Repr())
      ensures c.SourceValue() == Value()
      ensures c.State() == Fresh(Value())
    {
      c := new Context(Parent(this));
    }
  }

  /**
   `hasChanges`, offered only for values that can be compared: the working
   copy differs from the source.
   */
  function HasChanges<V(==)>(c: Context<V>): (r: bool)
    reads c.SourceRepr(), c.Repr()
    ensures r <==> c.State().current != c.SourceValue()
  {
    c.SourceValue() != c.Value()
  }

  /**
   A host's request to a context, as the undo manager sees it: an edit is
   `Set`, an undo or redo is delegated, and one with nothing to move does
   nothing. Every request is one `ManagedStep` of the history.
   */
  method Perform<V>(c: Context<V>, cmd: Command<V>)
    requires c.Valid()
    modifies c.Repr()
    ensures c.Valid()
    ensures c.State() == ManagedStep(old(c.State()), cmd)
    ensures c.SourceValue() == old(c.SourceValue())
  {
    match cmd
    case Edit(v) => c.Set(v);
    case UndoCommand => c.Undo();
    case RedoCommand => c.Redo();
  }

  /**
   A write through a lawful key path: the part reads back as written, the
   source is untouched, and one undo brings back the whole working copy held
   before.
   */
  method SetLawfulField<V(!new), T(!new)>(c: Context<V>, path: Lens<V, T>, t: T)
    requires c.Valid() && Lawful(path)
    modifies c.Repr()
    ensures c.Valid()
    ensures c.Field(path) == t && c.SourceValue() == old(c.SourceValue())
    ensures c.CanUndo() && c.State().Undo().current == old(c.Value())
  {
    c.SetField(path, t);
  }
}
