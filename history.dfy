/**
 The undo/redo history that both editing variants keep: the values replaced by
 earlier edits (`past`, most recent last), the live value (`current`) and the
 values an undo has stepped back over (`future`, most recent last).

 `Undoer` stores these three things directly; the `UndoManaged` container
 stores `current` itself and leaves the two stacks to its undo manager. Both
 are proved to move through the states below. They differ only when there is
 nothing to undo or redo: `Undoer` cannot be asked (`Step` refuses, `None`),
 while the undo manager does nothing (`ManagedStep` keeps the history). The
 lemmas about `Run` that assume every command succeeds carry over to the
 manager through `ManagedRunAgrees`; the refusal lemmas are about `Undoer`
 only, and `ManagedExtraUndos` is their counterpart for the manager.
 */
module UndoHistory {

  datatype Option<T> = None | Some(value: T)

  datatype History<V> = History(past: seq<V>, current: V, future: seq<V>)
  {
    /** An undo is possible exactly when some edit is remembered. */
    predicate CanUndo() { past != [] }

    /** A redo is possible exactly when some undo has not been overwritten. */
    predicate CanRedo() { future != [] }

    /** A new edit to `v`: remember the value it replaces, forget what could be redone. */
    function Assign(v: V): History<V>
    {
      History(past + [current], v, [])
    }

    /** Step back: the most recent remembered value comes back, the live one can be redone. */
    function Undo(): History<V>
      requires CanUndo()
    {
      History(past[..|past| - 1], past[|past| - 1], future + [current])
    }

    /** Step forward: the most recently undone value comes back, the live one can be undone. */
    function Redo(): History<V>
      requires CanRedo()
    {
      History(past + [current], future[|future| - 1], future[..|future| - 1])
    }

    /** Forget every remembered step, keeping the live value. */
    function Clear(): History<V>
    {
      History([], current, [])
    }

    /** How many values the two stacks hold together. */
    function Depth(): nat
    {
      |past| + |future|
    }
  }

  /** The history of a session that has just been opened on `v`. */
  function Fresh<V>(v: V): History<V>
  {
    History([], v, [])
  }

  /** One request a host makes of a session. */
  datatype Command<V> = Edit(v: V) | UndoCommand | RedoCommand

  /** The effect of one command; an undo or redo with nothing to move is refused. */
  function Step<V>(h: History<V>, c: Command<V>): Option<History<V>>
  {
    match c
    case Edit(v) => Some(h.Assign(v))
    case UndoCommand => if h.CanUndo() then Some(h.Undo()) else None
    case RedoCommand => if h.CanRedo() then Some(h.Redo()) else None
  }

  /** The effect of a sequence of commands, refused as soon as one of them is. */
  function Run<V>(h: History<V>, cs: seq<Command<V>>): Option<History<V>>
    decreases |cs|
  {
    if cs == [] then Some(h)
    else
      match Step(h, cs[0])
      case None => None
      case Some(g) => Run(g, cs[1..])
  }

  /** `n` copies of one command. */
  function Repeat<V>(c: Command<V>, n: nat): (cs: seq<Command<V>>)
    ensures |cs| == n
    ensures forall i :: 0 <= i < n ==> cs[i] == c
  {
    if n == 0 then [] else [c] + Repeat(c, n - 1)
  }

  /** One edit per value, in order. */
  function Edits<V>(vs: seq<V>): (cs: seq<Command<V>>)
    ensures |cs| == |vs|
  {
    if vs == [] then [] else [Edit(vs[0])] + Edits(vs[1..])
  }

  // ---------------------------------------------------------------------------
  // Single steps

  /** An undo is reversed by a redo, and the stacks keep their total size. */
  lemma UndoThenRedo<V>(h: History<V>)
    requires h.CanUndo()
    ensures h.Undo().CanRedo()
    ensures h.Undo().Redo() == h
    ensures h.Undo().Depth() == h.Depth()
  {
  }

  /** A redo is reversed by an undo, and the stacks keep their total size. */
  lemma RedoThenUndo<V>(h: History<V>)
    requires h.CanRedo()
    ensures h.Redo().CanUndo()
    ensures h.Redo().Undo() == h
    ensures h.Redo().Depth() == h.Depth()
  {
  }

  /**
   An edit can always be undone, the undo brings back the value the edit
   replaced with the earlier remembered values, and a redo then reapplies the
   edit; nothing that could be redone before the edit survives it.
   */
  lemma EditThenUndo<V>(h: History<V>, v: V)
    ensures h.Assign(v).CanUndo() && !h.Assign(v).CanRedo()
    ensures h.Assign(v).Undo() == History(h.past, h.current, [v])
    ensures h.Assign(v).Undo().Redo() == h.Assign(v)
  {
  }

  /** Clearing keeps the live value and leaves nothing to undo or redo. */
  lemma ClearForgetsAll<V>(h: History<V>)
    ensures h.Clear().current == h.current
    ensures !h.Clear().CanUndo() && !h.Clear().CanRedo() && h.Clear().Depth() == 0
  {
  }

  // ---------------------------------------------------------------------------
  // Sequences of commands

  /** Running two command sequences one after the other is running their concatenation. */
  lemma {:induction false} RunAppend<V>(h: History<V>, a: seq<Command<V>>, b: seq<Command<V>>)
    ensures Run(h, a + b) == match Run(h, a) case None => None case Some(g) => Run(g, b)
    decreases |a|
  {
    if a == [] {
      assert a + b == b;
    } else {
      assert (a + b)[0] == a[0];
      assert (a + b)[1..] == a[1..] + b;
      match Step(h, a[0])
      case None =>
      case Some(g) => RunAppend(g, a[1..], b);
    }
  }

  /**
   Edits applied to `h` are all accepted: afterwards the remembered values
   followed by the live one are the old ones followed by the edited values, in
   order, and after at least one edit nothing is left to redo.
   */
  lemma {:induction false} RunEdits<V>(h: History<V>, vs: seq<V>)
    ensures Run(h, Edits(vs)).Some?
    ensures Run(h, Edits(vs)).value.past + [Run(h, Edits(vs)).value.current] == h.past + [h.current] + vs
    ensures vs != [] ==> !Run(h, Edits(vs)).value.CanRedo()
    decreases |vs|
  {
    if vs == [] {
      assert Edits(vs) == [];
    } else {
      var g := h.Assign(vs[0]);
      assert Run(h, Edits(vs)) == Run(g, Edits(vs[1..])) by {
        assert Edits(vs)[0] == Edit(vs[0]) && Edits(vs)[1..] == Edits(vs[1..]);
      }
      RunEdits(g, vs[1..]);
      assert g.past + [g.current] + vs[1..] == h.past + [h.current] + vs by {
        assert vs == [vs[0]] + vs[1..];
      }
    }
  }

  /**
   `n` undos succeed while at least `n` edits are remembered; the value they
   reach is the `n`-th most recently remembered one.
   */
  lemma {:induction false} RunUndos<V>(h: History<V>, n: nat)
    requires 0 < n <= |h.past|
    ensures Run(h, Repeat<V>(UndoCommand, n)).Some?
    ensures Run(h, Repeat<V>(UndoCommand, n)).value.current == h.past[|h.past| - n]
    ensures Run(h, Repeat<V>(UndoCommand, n)).value.past == h.past[..|h.past| - n]
    decreases n
  {
    assert Repeat<V>(UndoCommand, n)[1..] == Repeat<V>(UndoCommand, n - 1);
    var g := h.Undo();
    if n > 1 {
      RunUndos(g, n - 1);
      assert g.past[..|g.past| - (n - 1)] == h.past[..|h.past| - n];
    }
  }

  /** Asking for more undos than there are remembered edits is refused. */
  lemma {:induction false} TooManyUndos<V>(h: History<V>, n: nat)
    requires n > |h.past|
    ensures Run(h, Repeat<V>(UndoCommand, n)) == None
    decreases n
  {
    assert Repeat<V>(UndoCommand, n)[1..] == Repeat<V>(UndoCommand, n - 1);
    if h.CanUndo() {
      TooManyUndos(h.Undo(), n - 1);
    }
  }

  /** `n` undos followed by `n` redos come back to exactly the same history. */
  lemma {:induction false} UndosThenRedos<V>(h: History<V>, n: nat)
    requires n <= |h.past|
    ensures Run(h, Repeat<V>(UndoCommand, n) + Repeat<V>(RedoCommand, n)) == Some(h)
    decreases n
  {
    if n == 0 {
      assert Repeat<V>(UndoCommand, 0) + Repeat<V>(RedoCommand, 0) == [];
    } else {
      var middle := Repeat<V>(UndoCommand, n - 1) + Repeat<V>(RedoCommand, n - 1);
      var all := Repeat<V>(UndoCommand, n) + Repeat<V>(RedoCommand, n);
      assert Repeat<V>(RedoCommand, n) == Repeat<V>(RedoCommand, n - 1) + [RedoCommand];
      assert all == [UndoCommand] + (middle + [RedoCommand]);
      assert all[1..] == middle + [RedoCommand];
      var g := h.Undo();
      UndosThenRedos(g, n - 1);
      RunAppend(g, middle, [RedoCommand]);
      UndoThenRedo(h);
    }
  }

  /**
   A new edit after any successful sequence of commands, undos included,
   leaves nothing to redo and can itself be undone.
   */
  lemma EditAfterAnyRunForgetsRedo<V>(h: History<V>, cs: seq<Command<V>>, v: V)
    requires Run(h, cs).Some?
    ensures Run(h, cs + [Edit(v)]) == Some(Run(h, cs).value.Assign(v))
    ensures !Run(h, cs + [Edit(v)]).value.CanRedo()
    ensures Run(h, cs + [Edit(v)]).value.CanUndo()
  {
    RunAppend(h, cs, [Edit(v)]);
  }

  /**
   For a session opened on `v0` and edited to each of `vs` in turn, undoing
   `|vs|` times returns to `v0` with nothing left to undo.
   */
  lemma EditsAllUndone<V>(v0: V, vs: seq<V>)
    ensures Run(Fresh(v0), Edits(vs) + Repeat<V>(UndoCommand, |vs|)).Some?
    ensures Run(Fresh(v0), Edits(vs) + Repeat<V>(UndoCommand, |vs|)).value.current == v0
    ensures !Run(Fresh(v0), Edits(vs) + Repeat<V>(UndoCommand, |vs|)).value.CanUndo()
  {
    var h0: History<V> := Fresh(v0);
    var undos := Repeat<V>(UndoCommand, |vs|);
    if vs == [] {
      assert Edits(vs) + undos == [];
      return;
    }
    RunEdits(h0, vs);
    var h := Run(h0, Edits(vs)).value;
    assert |h.past| == |vs| && h.past[0] == v0 by {
      assert h.past + [h.current] == [v0] + vs;
      assert (h.past + [h.current])[0] == h.past[0];
    }
    assert Run(h0, Edits(vs) + undos) == Run(h, undos) by {
      RunAppend(h0, Edits(vs), undos);
    }
    RunUndos(h, |vs|);
  }

  /** After `|vs|` edits of a fresh session, `|vs| + 1` undos are refused. */
  lemma EditsOneUndoTooMany<V>(v0: V, vs: seq<V>)
    ensures Run(Fresh(v0), Edits(vs) + Repeat<V>(UndoCommand, |vs| + 1)) == None
  {
    var h0: History<V> := Fresh(v0);
    RunAppend(h0, Edits(vs), Repeat<V>(UndoCommand, |vs| + 1));
    RunEdits(h0, vs);
    var h := Run(h0, Edits(vs)).value;
    assert |h.past| + 1 == |vs| + 1;
    TooManyUndos(h, |vs| + 1);
  }

  /**
   After `|vs|` edits of a fresh session, `|vs|` undos followed by `|vs|`
   redos restore the state the last edit left.
   */
  lemma EditsUndoneAndRedone<V>(v0: V, vs: seq<V>)
    ensures Run(Fresh(v0), Edits(vs)).Some?
    ensures Run(Fresh(v0), Edits(vs) + (Repeat<V>(UndoCommand, |vs|) + Repeat<V>(RedoCommand, |vs|)))
            == Run(Fresh(v0), Edits(vs))
  {
    var h0: History<V> := Fresh(v0);
    RunAppend(h0, Edits(vs), Repeat<V>(UndoCommand, |vs|) + Repeat<V>(RedoCommand, |vs|));
    RunEdits(h0, vs);
    var h := Run(h0, Edits(vs)).value;
    assert |h.past| + 1 == |vs| + 1;
    UndosThenRedos(h, |vs|);
  }

  // ---------------------------------------------------------------------------
  // The undo manager's semantics: nothing to undo or redo is not an error

  /** The effect of one command on the undo manager's history; an undo or redo with nothing to move does nothing. */
  function ManagedStep<V>(h: History<V>, c: Command<V>): History<V>
  {
    match c
    case Edit(v) => h.Assign(v)
    case UndoCommand => if h.CanUndo() then h.Undo() else h
    case RedoCommand => if h.CanRedo() then h.Redo() else h
  }

  /** The effect of a sequence of commands on the undo manager's history. */
  function ManagedRun<V>(h: History<V>, cs: seq<Command<V>>): History<V>
    decreases |cs|
  {
    if cs == [] then h else ManagedRun(ManagedStep(h, cs[0]), cs[1..])
  }

  /**
   Wherever `Undoer` accepts a sequence of commands, the undo manager reaches
   the same history, so every lemma above about a successful `Run` holds of
   the manager too.
   */
  lemma {:induction false} ManagedRunAgrees<V>(h: History<V>, cs: seq<Command<V>>)
    requires Run(h, cs).Some?
    ensures ManagedRun(h, cs) == Run(h, cs).value
    decreases |cs|
  {
    if cs != [] {
      ManagedRunAgrees(Step(h, cs[0]).value, cs[1..]);
    }
  }

  /** Running two command sequences on the manager one after the other is running their concatenation. */
  lemma {:induction false} ManagedRunAppend<V>(h: History<V>, a: seq<Command<V>>, b: seq<Command<V>>)
    ensures ManagedRun(h, a + b) == ManagedRun(ManagedRun(h, a), b)
    decreases |a|
  {
    if a == [] {
      assert a + b == b;
    } else {
      assert (a + b)[0] == a[0];
      assert (a + b)[1..] == a[1..] + b;
      ManagedRunAppend(ManagedStep(h, a[0]), a[1..], b);
    }
  }

  /** Undos asked of the manager with nothing to undo leave the history alone. */
  lemma {:induction false} ManagedUndosIdle<V>(h: History<V>, n: nat)
    requires !h.CanUndo()
    ensures ManagedRun(h, Repeat<V>(UndoCommand, n)) == h
    decreases n
  {
    if n > 0 {
      assert Repeat<V>(UndoCommand, n)[1..] == Repeat<V>(UndoCommand, n - 1);
      ManagedUndosIdle(h, n - 1);
    }
  }

  /** Undos asked of the manager never change how many values the two stacks hold together. */
  lemma {:induction false} ManagedUndosDepth<V>(h: History<V>, n: nat)
    ensures ManagedRun(h, Repeat<V>(UndoCommand, n)).Depth() == h.Depth()
    decreases n
  {
    if n > 0 {
      assert Repeat<V>(UndoCommand, n)[1..] == Repeat<V>(UndoCommand, n - 1);
      ManagedUndosDepth(ManagedStep(h, UndoCommand), n - 1);
    }
  }

  /**
   After `|vs|` edits of a fresh session, the manager takes any number `k` of
   extra undos without refusing: the value stays `v0`, nothing is left to
   undo, and `|vs|` redos then bring back exactly the state the last edit
   left.
   */
  lemma ManagedExtraUndos<V>(v0: V, vs: seq<V>, k: nat)
    ensures ManagedRun(Fresh(v0), Edits(vs) + Repeat<V>(UndoCommand, |vs| + k)).current == v0
    ensures !ManagedRun(Fresh(v0), Edits(vs) + Repeat<V>(UndoCommand, |vs| + k)).CanUndo()
    ensures |ManagedRun(Fresh(v0), Edits(vs) + Repeat<V>(UndoCommand, |vs| + k)).future| == |vs|
    ensures ManagedRun(Fresh(v0), Edits(vs) + Repeat<V>(UndoCommand, |vs| + k) + Repeat<V>(RedoCommand, |vs|))
            == ManagedRun(Fresh(v0), Edits(vs))
  {
    var h0: History<V> := Fresh(v0);
    var undos := Repeat<V>(UndoCommand, |vs|);
    var redos := Repeat<V>(RedoCommand, |vs|);
    var extra := Repeat<V>(UndoCommand, k);
    var all := Edits(vs) + Repeat<V>(UndoCommand, |vs| + k);
    // The state the edits leave, on which both semantics agree.
    RunEdits(h0, vs);
    ManagedRunAgrees(h0, Edits(vs));
    var e := ManagedRun(h0, Edits(vs));
    assert |e.past| == |vs| by {
      assert |e.past + [e.current]| == |h0.past + [h0.current] + vs|;
    }
    assert e.Depth() == |vs| by {
      if vs == [] {
        assert Edits(vs) == [];
      }
    }
    // The state the first `|vs|` undos reach; the extra ones leave it alone.
    ManagedRunAppend(h0, Edits(vs), undos);
    var h := ManagedRun(e, undos);
    assert ManagedRun(h0, Edits(vs) + undos) == h;
    EditsAllUndone(v0, vs);
    ManagedRunAgrees(h0, Edits(vs) + undos);
    ManagedUndosIdle(h, k);
    assert ManagedRun(h0, all) == h by {
      assert Repeat<V>(UndoCommand, |vs| + k) == undos + extra;
      assert all == (Edits(vs) + undos) + extra;
      ManagedRunAppend(h0, Edits(vs) + undos, extra);
    }
    ManagedUndosDepth(e, |vs|);
    // The redos retrace the undos.
    UndosThenRedos(e, |vs|);
    ManagedRunAgrees(e, undos + redos);
    ManagedRunAppend(e, undos, redos);
    ManagedRunAppend(h0, all, redos);
  }
}
