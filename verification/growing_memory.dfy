/**
 * Dynamic bounds under growth: the length is loaded in one step and the bytes are
 * copied in a later one, while other threads copy and the memory only grows.
 */
module GrowingMemory {
  import opened Results
  import opened Delivery

  type ThreadId = nat

  /** An access whose length check has been decided but whose bytes have not moved yet. */
  datatype Checked = Checked(address: nat, size: nat, bytes: Option<seq<Byte>>, accepted: bool)

  datatype Machine = Machine(mem: seq<Byte>, checked: map<ThreadId, Checked>)

  datatype Move =
    | Check(thread: ThreadId, address: nat, size: nat, bytes: Option<seq<Byte>>)   // bytes: what a write will store
    | Copy(thread: ThreadId)
    | Grow(zeros: seq<Byte>)

  ghost predicate Possible(m: Machine, move: Move) {
    match move
    case Check(_, address, size, bytes) => size > 0 && (bytes.Some? ==> |bytes.value| == size)
    case Copy(t) => t in m.checked
    case Grow(zeros) => |m.mem| + |zeros| < U64
  }

  /** The range a copying move touches, if it copies. */
  function Touched(m: Machine, move: Move): Option<(nat, nat)> {
    if move.Copy? && move.thread in m.checked && m.checked[move.thread].accepted then
      Some((m.checked[move.thread].address, m.checked[move.thread].size))
    else None
  }

  /** The copy itself checks nothing; where its range would not fit, the model leaves memory alone. */
  function Advance(m: Machine, move: Move): Machine
    requires |m.mem| < U64
  {
    match move
    case Check(t, address, size, bytes) =>
      m.(checked := m.checked[t := Checked(address, size, bytes, RangeIsValid(|m.mem|, address, size))])
    case Copy(t) =>
      if t !in m.checked then m
      else
        var c := m.checked[t];
        Machine(if c.accepted && c.bytes.Some? && c.address + |c.bytes.value| <= |m.mem| then
                  Splice(m.mem, c.address, c.bytes.value)
                else m.mem,
                m.checked - {t})
    case Grow(zeros) => m.(mem := m.mem + zeros)
  }

  /** Accepted ranges stay inside the memory as it now is. */
  ghost predicate Holds(m: Machine) {
    && |m.mem| < U64
    && forall t :: t in m.checked ==>
      var c := m.checked[t];
      && (c.accepted ==> c.address + c.size <= |m.mem|)
      && (c.bytes.Some? ==> |c.bytes.value| == c.size)
  }

  lemma AdvanceHolds(m: Machine, move: Move)
    requires Holds(m) && Possible(m, move)
    ensures Holds(Advance(m, move)) && |Advance(m, move).mem| >= |m.mem|
  {
    if move.Check? {
      RangeCheckIsExact(|m.mem|, move.address, move.size);
    }
  }

  /**
   * A check is passed iff the range is inside the memory as it then is, and moves nothing; a
   * copy stores what a passed write carries, and nothing otherwise; growth only appends.
   */
  lemma MovesAreExact(m: Machine, move: Move)
    requires Holds(m) && Possible(m, move)
    ensures var after := Advance(m, move);
      match move
      case Check(t, address, size, bytes) =>
        && after.mem == m.mem && t in after.checked && (after.checked[t].accepted <==> address + size <= |m.mem|)
        && after.checked[t].address == address && after.checked[t].size == size && after.checked[t].bytes == bytes
      case Copy(t) =>
        && t !in after.checked && (Touched(m, move).Some? <==> m.checked[t].accepted)
        && after.mem == (if m.checked[t].accepted && m.checked[t].bytes.Some? then
                           Splice(m.mem, m.checked[t].address, m.checked[t].bytes.value) else m.mem)
      case Grow(zeros) => after.mem == m.mem + zeros && after.checked == m.checked
  {
    if move.Check? {
      RangeCheckIsExact(|m.mem|, move.address, move.size);
    }
  }

  ghost predicate Runs(states: seq<Machine>, moves: seq<Move>) {
    && |states| == |moves| + 1
    && states[0].checked == map[] && |states[0].mem| < U64
    && forall i :: 0 <= i < |moves| ==>
      |states[i].mem| < U64 && Possible(states[i], moves[i]) && states[i + 1] == Advance(states[i], moves[i])
  }

  lemma {:induction false} RunHolds(states: seq<Machine>, moves: seq<Move>, i: nat)
    requires Runs(states, moves) && i <= |moves|
    ensures Holds(states[i])
    decreases i
  {
    if i > 0 {
      RunHolds(states, moves, i - 1);
      AdvanceHolds(states[i - 1], moves[i - 1]);
    }
  }

  /** Wherever growth falls, a copy touches only bytes the memory then has, and no write is lost. */
  lemma CopiesStayInside(states: seq<Machine>, moves: seq<Move>, i: nat)
    requires Runs(states, moves) && i < |moves| && Touched(states[i], moves[i]).Some?
    ensures var (address, size) := Touched(states[i], moves[i]).value;
      && address + size <= |states[i].mem|
      && (states[i].checked[moves[i].thread].bytes.Some? ==>
            var bytes := states[i].checked[moves[i].thread].bytes.value;
            |bytes| == size && states[i + 1].mem == Splice(states[i].mem, address, bytes))
  {
    RunHolds(states, moves, i);
  }

  /** A check against an earlier length accepts nothing a check now would refuse. */
  lemma EarlierCheckIsStricter(states: seq<Machine>, moves: seq<Move>, i: nat, j: nat, address: nat, size: nat)
    requires Runs(states, moves) && i <= j <= |moves|
    ensures |states[i].mem| < U64 && |states[j].mem| < U64
    ensures RangeIsValid(|states[i].mem|, address, size) ==> RangeIsValid(|states[j].mem|, address, size)
  {
    RunHolds(states, moves, i);
    RunHolds(states, moves, j);
    Grows(states, moves, i, j);
    RangeCheckIsExact(|states[i].mem|, address, size);
    RangeCheckIsExact(|states[j].mem|, address, size);
  }

  lemma {:induction false} Grows(states: seq<Machine>, moves: seq<Move>, i: nat, j: nat)
    requires Runs(states, moves) && i <= j <= |moves|
    ensures |states[i].mem| <= |states[j].mem|
    decreases j
  {
    if i < j {
      Grows(states, moves, i, j - 1);
      RunHolds(states, moves, j - 1);
      AdvanceHolds(states[j - 1], moves[j - 1]);
    }
  }
}
