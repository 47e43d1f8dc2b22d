/**
 `UndoManaged`: a value held in a reference-typed container whose every
 assignment registers, on the container's undo manager, one action that puts
 the replaced value back.

 Foundation's `UndoManager` is not part of this model. It is stood in for by
 `UndoManager` below, an abstract two-stack machine with these assumed rules:
 an action registered outside an undo or redo goes on the undo stack and
 empties the redo stack; one registered while undoing goes on the redo stack;
 one registered while redoing goes on the undo stack and leaves the redo stack
 alone; each registration is one step (no grouping); undo or redo with an
 empty stack does nothing. Every action this code registers sets the
 container's value, so an action is represented by the value it restores.
 */
module UndoManaged {
  import opened UndoHistory

  /** Whether the undo manager is in the middle of performing an action. */
  datatype Phase = Idle | Undoing | Redoing

  class UndoManager<V> {
    /** Values the registered undo actions restore, most recent last. */
    var undoStack: seq<V>
    /** Values the registered redo actions restore, most recent last. */
    var redoStack: seq<V>
    var phase: Phase

    /** `UndoManager()`: nothing registered. */
    constructor ()
      ensures undoStack == [] && redoStack == [] && phase == Idle
    {
      undoStack := [];
      redoStack := [];
      phase := Idle;
    }

    /**
     `registerUndo(withTarget:handler:)` for an action that restores `restore`:
     where it goes depends on whether an undo or a redo is running.
     */
    method RegisterUndo(restore: V)
      modifies this
      ensures phase == old(phase)
      ensures old(phase) == Idle ==> undoStack == old(undoStack) + [restore] && redoStack == []
      ensures old(phase) == Undoing ==> undoStack == old(undoStack) && redoStack == old(redoStack) + [restore]
      ensures old(phase) == Redoing ==> undoStack == old(undoStack) + [restore] && redoStack == old(redoStack)
    {
      match phase
      case Idle =>
        undoStack := undoStack + [restore];
        redoStack := [];
      case Undoing =>
        redoStack := redoStack + [restore];
      case Redoing =>
        undoStack := undoStack + [restore];
    }

    /**
     `undo()`: performs the most recent undo action, which assigns `target`'s
     value and so registers, on the redo stack, the action that reverses it.
     */
    method Undo(target: Container<V>)
      requires target.undoManager == this && phase == Idle
      modifies this, target
      ensures phase == Idle
      ensures target.State() == if old(target.State()).CanUndo() then old(target.State()).Undo() else old(target.State())
      ensures target.notifications == old(target.notifications) + if old(undoStack) != [] then 1 else 0
    {
      if undoStack != [] {
        var restore := undoStack[|undoStack| - 1];
        undoStack := undoStack[..|undoStack| - 1];
        phase := Undoing;
        target.SetValue(restore);
        phase := Idle;
      }
    }

    /**
     `redo()`: performs the most recent redo action, which assigns `target`'s
     value and so registers, on the undo stack, the action that reverses it.
     */
    method Redo(target: Container<V>)
      requires target.undoManager == this && phase == Idle
      modifies this, target
      ensures phase == Idle
      ensures target.State() == if old(target.State()).CanRedo() then old(target.State()).Redo() else old(target.State())
      ensures target.notifications == old(target.notifications) + if old(redoStack) != [] then 1 else 0
    {
      if redoStack != [] {
        var restore := redoStack[|redoStack| - 1];
        redoStack := redoStack[..|redoStack| - 1];
        phase := Redoing;
        target.SetValue(restore);
        phase := Idle;
      }
    }

    /** `removeAllActions()`: both stacks emptied. */
    method RemoveAllActions()
      modifies this
      ensures undoStack == [] && redoStack == [] && phase == old(phase)
    {
      undoStack := [];
      redoStack := [];
    }
  }

  /** The observable object holding the value and its undo manager. */
  class Container<V> {
    const undoManager: UndoManager<V>
    var value: V
    /** How many times `objectWillChange` has been sent. */
    var notifications: nat

    /** The history the value and the undo manager's stacks make up. */
    function State(): History<V>
      reads this, undoManager
    {
      History(undoManager.undoStack, value, undoManager.redoStack)
    }

    /** Initial assignments do not run the observers: nothing is sent or registered. */
    constructor (value: V, undoManager: UndoManager<V>)
      ensures this.value == value && this.undoManager == undoManager && notifications == 0
    {
      this.value := value;
      this.undoManager := undoManager;
      notifications := 0;
    }

    /**
     Assigning `value`: a change notification first, then one undo action that
     restores the replaced value.
     */
    method SetValue(v: V)
      modifies this, undoManager
      ensures value == v && notifications == old(notifications) + 1
      ensures undoManager.phase == old(undoManager.phase)
      ensures old(undoManager.phase) == Idle ==> State() == old(State()).Assign(v)
      ensures old(undoManager.phase) == Undoing ==>
                undoManager.undoStack == old(undoManager.undoStack)
                && undoManager.redoStack == old(undoManager.redoStack) + [old(value)]
      ensures old(undoManager.phase) == Redoing ==>
                undoManager.undoStack == old(undoManager.undoStack) + [old(value)]
                && undoManager.redoStack == old(undoManager.redoStack)
    {
      notifications := notifications + 1;
      var oldValue := value;
      value := v;
      undoManager.RegisterUndo(oldValue);
    }
  }

  /** The property wrapper: a value kept in a container with its own undo manager. */
  class UndoManaged<V> {
    const container: Container<V>

    /** The objects whose state this wrapper's value and history are. */
    function Repr(): set<object>
    {
      {container, container.undoManager}
    }

    /** No undo or redo is in progress. */
    ghost predicate Ready()
      reads container.undoManager
    {
      container.undoManager.phase == Idle
    }

    function State(): History<V>
      reads Repr()
    {
      container.State()
    }

    /** Reading `wrappedValue`. */
    function Value(): V
      reads container
    {
      container.value
    }

    function Notifications(): nat
      reads container
    {
      container.notifications
    }

    /** `init(wrappedValue:)`: the value in a new container with a new, empty undo manager. */
    constructor (value: V)
      ensures fresh(Repr()) && Ready()
      ensures State() == Fresh(value) && Notifications() == 0
    {
      var manager := new UndoManager();
      container := new Container(value, manager);
    }

    /** Assigning `wrappedValue`: one notification and one new undo step. */
    method Set(v: V)
      requires Ready()
      modifies Repr()
      ensures Ready()
      ensures State() == old(State()).Assign(v)
      ensures Notifications() == old(Notifications()) + 1
    {
      container.SetValue(v);
    }

    /** `canUndo`, read from the undo manager. */
    function CanUndo(): (r: bool)
      reads Repr()
      ensures r <==> State().CanUndo()
    {
      container.undoManager.undoStack != []
    }

    /** `canRedo`, read from the undo manager. */
    function CanRedo(): (r: bool)
      reads Repr()
      ensures r <==> State().CanRedo()
    {
      container.undoManager.redoStack != []
    }

    /** `undo()`: one step back, announced by one notification; nothing happens when there is nothing to undo. */
    method Undo()
      requires Ready()
      modifies Repr()
      ensures Ready()
      ensures State() == if old(CanUndo()) then old(State()).Undo() else old(State())
      ensures Notifications() == old(Notifications()) + if old(CanUndo()) then 1 else 0
    {
      container.undoManager.Undo(container);
    }

    /** `redo()`: one step forward, announced by one notification; nothing happens when there is nothing to redo. */
    method Redo()
      requires Ready()
      modifies Repr()
      ensures Ready()
      ensures State() == if old(CanRedo()) then old(State()).Redo() else old(State())
      ensures Notifications() == old(Notifications()) + if old(CanRedo()) then 1 else 0
    {
      container.undoManager.Redo(container);
    }

    /** `removeAllActions()`: the value stays, the history is forgotten, nothing is announced. */
    method RemoveAllActions()
      modifies Repr()
      ensures Ready() == old(Ready())
      ensures State() == old(State()).Clear()
      ensures Notifications() == old(Notifications())
    {
      container.undoManager.RemoveAllActions();
    }
  }
}
