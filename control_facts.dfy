/** Properties of control flow: which branch of an if-statement runs, where the
    statement hands control back to the main loop (including the nested-if
    behaviour of the source), and how the main loop steps, ends or fails to. */
module ControlFacts {
  import opened Text
  import opened Values
  import opened Evaluator
  import opened Semantics
  import opened StatementFacts

  // ---------------------------------------------------------------------------
  // Which branch runs

  /** The conditions do not depend on the invocations logged so far. */
  ghost predicate TraceBlind(m: Machine) {
    forall st: State, cond: string :: m.test(st, cond) == m.test(st.(trace := []), cond)
  }

  /** The branch is passed over: it has a condition and the condition is false. */
  predicate Rejects(m: Machine, st: State, b: Branch) {
    b.cond != ElseMarker && m.test(st, b.cond).truth == Known(false)
  }

  /** The branch is taken: it is an `else` branch or its condition is true. */
  predicate Accepts(m: Machine, st: State, b: Branch) {
    b.cond == ElseMarker || m.test(st, b.cond).truth == Known(true)
  }

  /** The outcome of trying the conditions in order: the branch taken, none taken,
      or the condition whose comparison raised or depends on a float; with the
      invocations the conditions made. */
  datatype Pick = Take(index: nat, trace: seq<Invocation>)
                | Pass(trace: seq<Invocation>)
                | Abort(index: nat, halt: Halt, trace: seq<Invocation>)

  /** The first branch whose condition holds in `st`, every branch before it
      rejected. */
  function Select(m: Machine, st: State, bs: seq<Branch>): (r: Pick)
    ensures !r.Pass? ==> r.index < |bs|
    ensures r.Take? ==> Accepts(m, st, bs[r.index])
    ensures r.Abort? ==> bs[r.index].cond != ElseMarker
    ensures r.Abort? ==> (m.test(st, bs[r.index].cond).truth == Raises <==> r.halt == Raised)
    ensures r.Abort? ==> (m.test(st, bs[r.index].cond).truth == Unmodelled <==> r.halt == FloatComparison)
    ensures forall j :: 0 <= j < (if r.Pass? then |bs| else r.index) ==> Rejects(m, st, bs[j])
    decreases |bs|
  {
    if |bs| == 0 then Pass([])
    else if bs[0].cond == ElseMarker then Take(0, [])
    else
      var v := m.test(st, bs[0].cond);
      match v.truth
      case Known(b) =>
        if b then Take(0, v.trace)
        else
          var rest := Select(m, st, bs[1..]);
          assert forall j :: 1 <= j < |bs| ==> bs[j] == bs[1..][j - 1];
          (match rest
           case Take(i, t) => Take(i + 1, v.trace + t)
           case Pass(t) => Pass(v.trace + t)
           case Abort(i, halt, t) => Abort(i + 1, halt, v.trace + t))
      case Raises => Abort(0, Raised, v.trace)
      case Unmodelled => Abort(0, FloatComparison, v.trace)
  }

  /** What the if-statement does once the conditions have been tried. */
  function Perform(p: Program, m: Machine, st: State, entry: nat, bs: seq<Branch>, end: nat, fuel: nat, pick: Pick): IfOut
    requires forall i :: 0 <= i < |bs| ==> bs[i].end <= |p.lines|
    requires !pick.Pass? ==> pick.index < |bs|
  {
    var st1 := st.(trace := st.trace + pick.trace);
    match pick
    case Take(i, _) => RunBody(p, m, st1, entry, bs[i].start, bs[i].end, end, fuel)
    case Pass(_) => IfOut(st1, Next(end))
    case Abort(_, halt, _) => IfOut(st1, Stop(halt))
  }

  /** Phase 2 of the if-statement runs exactly the first branch whose condition
      holds, after the conditions of the branches before it (and its own) were
      evaluated; with no branch taken the statement ends after its last block; a
      comparison that raises stops everything. */
  lemma {:induction false} ChooseRunsFirstMatch(p: Program, m: Machine, st: State, entry: nat, bs: seq<Branch>, end: nat, fuel: nat)
    requires forall i :: 0 <= i < |bs| ==> bs[i].end <= |p.lines|
    requires TraceBlind(m)
    ensures Choose(p, m, st, entry, bs, end, fuel) == Perform(p, m, st, entry, bs, end, fuel, Select(m, st, bs))
    decreases |bs|
  {
    assert st.(trace := st.trace + []) == st;
    if |bs| > 0 && bs[0].cond != ElseMarker {
      var v := m.test(st, bs[0].cond);
      var st1 := st.(trace := st.trace + v.trace);
      if v.truth == Known(false) {
        ChooseRunsFirstMatch(p, m, st1, entry, bs[1..], end, fuel);
        SelectTraceBlind(m, st, st1, bs[1..]);
        var rest := Select(m, st, bs[1..]);
        assert Choose(p, m, st, entry, bs, end, fuel) == Perform(p, m, st1, entry, bs[1..], end, fuel, rest);
        assert st1.trace + rest.trace == st.trace + (v.trace + rest.trace);
        match rest
        case Take(i, t) =>
          assert Select(m, st, bs) == Take(i + 1, v.trace + t);
          assert bs[i + 1] == bs[1..][i];
        case Pass(t) =>
          assert Select(m, st, bs) == Pass(v.trace + t);
        case Abort(i, halt, t) =>
          assert Select(m, st, bs) == Abort(i + 1, halt, v.trace + t);
      }
    }
  }

  lemma {:induction false} SelectTraceBlind(m: Machine, st: State, st': State, bs: seq<Branch>)
    requires TraceBlind(m) && st'.(trace := []) == st.(trace := [])
    ensures Select(m, st', bs) == Select(m, st, bs)
    decreases |bs|
  {
    if |bs| > 0 && bs[0].cond != ElseMarker {
      assert m.test(st', bs[0].cond) == m.test(st, bs[0].cond) by {
        assert m.test(st', bs[0].cond) == m.test(st'.(trace := []), bs[0].cond);
        assert m.test(st, bs[0].cond) == m.test(st.(trace := []), bs[0].cond);
      }
      SelectTraceBlind(m, st, st', bs[1..]);
    }
  }

  // ---------------------------------------------------------------------------
  // Where the if-statement hands control back

  /** The block loop either runs to the end of its block, with the cursor where it
      was on entry, and hands back the end of the whole statement, or stops at the
      first statement that moved the cursor and hands back that cursor. */
  lemma {:induction false} RunBodyExit(p: Program, m: Machine, st: State, entry: nat, idx: nat, bend: nat, end: nat, fuel: nat)
    requires bend <= |p.lines| && st.cursor == entry
    ensures var r := RunBody(p, m, st, entry, idx, bend, end, fuel);
            r.sig.Next? ==> (r.st.cursor == entry && r.sig.n == end) || (r.sig.n == r.st.cursor && r.st.cursor != entry)
    decreases fuel, bend - idx, 1
  {
    if idx + 1 < bend {
      if StartsWith(Strip(p.lines[idx]), "if ") {
        RunBodyExitAtIf(p, m, st, entry, idx, bend, end, fuel);
      } else {
        RunBodyExitAtStatement(p, m, st, entry, idx, bend, end, fuel);
      }
    }
  }

  lemma {:induction false} RunBodyExitAtIf(p: Program, m: Machine, st: State, entry: nat, idx: nat, bend: nat, end: nat, fuel: nat)
    requires bend <= |p.lines| && st.cursor == entry && idx + 1 < bend && StartsWith(Strip(p.lines[idx]), "if ")
    ensures var r := RunBody(p, m, st, entry, idx, bend, end, fuel);
            r.sig.Next? ==> (r.st.cursor == entry && r.sig.n == end) || (r.sig.n == r.st.cursor && r.st.cursor != entry)
    decreases fuel, bend - idx, 0
  {
    if fuel > 0 {
      var r := HandleIf(p, m, st.(cursor := idx), idx, fuel - 1);
      if r.sig.Next? && r.st.cursor == entry {
        RunBodyExit(p, m, r.st, entry, r.sig.n, bend, end, fuel - 1);
      }
    }
  }

  lemma {:induction false} RunBodyExitAtStatement(p: Program, m: Machine, st: State, entry: nat, idx: nat, bend: nat, end: nat, fuel: nat)
    requires bend <= |p.lines| && st.cursor == entry && idx + 1 < bend && !StartsWith(Strip(p.lines[idx]), "if ")
    ensures var r := RunBody(p, m, st, entry, idx, bend, end, fuel);
            r.sig.Next? ==> (r.st.cursor == entry && r.sig.n == end) || (r.sig.n == r.st.cursor && r.st.cursor != entry)
    decreases fuel, bend - idx, 0
  {
    var e := m.exec(st, Strip(p.lines[idx]));
    if e.st.cursor == entry {
      RunBodyExit(p, m, e.st, entry, idx + 1, bend, end, fuel);
    }
  }

  /** The same for the branches tried in turn. */
  lemma {:induction false} ChooseExit(p: Program, m: Machine, st: State, entry: nat, bs: seq<Branch>, end: nat, fuel: nat)
    requires forall i :: 0 <= i < |bs| ==> bs[i].end <= |p.lines|
    requires st.cursor == entry
    ensures var r := Choose(p, m, st, entry, bs, end, fuel);
            r.sig.Next? ==> (r.st.cursor == entry && r.sig.n == end) || (r.sig.n == r.st.cursor && r.st.cursor != entry)
    decreases |bs|
  {
    if |bs| > 0 {
      if bs[0].cond == ElseMarker {
        RunBodyExit(p, m, st, entry, bs[0].start, bs[0].end, end, fuel);
      } else {
        var v := m.test(st, bs[0].cond);
        var st1 := st.(trace := st.trace + v.trace);
        if v.truth == Known(true) {
          RunBodyExit(p, m, st1, entry, bs[0].start, bs[0].end, end, fuel);
        } else if v.truth == Known(false) {
          ChooseExit(p, m, st1, entry, bs[1..], end, fuel);
        }
      }
    }
  }

  /** `_handle_if_statement` hands back either the line after its last block, with
      the cursor unchanged, or, when a statement in the taken branch moved the
      cursor, that cursor. */
  lemma HandleIfExit(p: Program, m: Machine, st: State, s: nat, fuel: nat)
    ensures var r := HandleIf(p, m, st, s, fuel);
            r.sig.Next? ==>
              (r.st.cursor == st.cursor && r.sig.n == ParseFrom(p.lines, s, s).end) ||
              (r.sig.n == r.st.cursor && r.st.cursor != st.cursor)
  {
    match ParseFrom(p.lines, s, s)
    case Unclosed =>
    case Parsed(bs, end) => ChooseExit(p, m, st, st.cursor, bs, end, fuel);
  }

  /** An unclosed block anywhere in the statement's own headers stops it before any
      condition is evaluated: nothing changes. */
  lemma UnclosedBlockHalts(p: Program, m: Machine, st: State, s: nat, fuel: nat)
    requires ParseFrom(p.lines, s, s).Unclosed?
    ensures HandleIf(p, m, st, s, fuel) == IfOut(st, Stop(MalformedIf))
  {
  }

  /** A first line that is no `if [...] then [` header makes no branch at all: the
      statement hands back its own line and changes nothing. */
  lemma NoHeaderReturnsOwnLine(p: Program, m: Machine, st: State, s: nat, fuel: nat)
    requires s < |p.lines| && Header(Strip(p.lines[s]), true).None?
    ensures HandleIf(p, m, st, s, fuel) == IfOut(st, Next(s))
  {
    assert ParseFrom(p.lines, s, s) == Parsed([], s);
  }

  /** The nested-if behaviour of the source: the block loop moves the cursor to a
      nested `if ` line before handling it, so afterwards the cursor differs from the
      outer entry and the enclosing statement stops at once, handing back the cursor
      the nested call left. When the nested call leaves the cursor on the nested
      `if ` line (its taken branch neither jumped nor ran a deeper nested `if `),
      that is the nested line itself, not the line after the nested statement: the
      main loop then runs the nested statement again and goes on with the rest of
      the enclosing block as top-level lines. */
  lemma {:induction false} NestedIfReturnsOwnIndex(p: Program, m: Machine, st: State, entry: nat, idx: nat, bend: nat, end: nat, fuel: nat)
    requires bend <= |p.lines| && idx + 1 < bend && idx != entry && fuel > 0
    requires StartsWith(Strip(p.lines[idx]), "if ")
    requires var nested := HandleIf(p, m, st.(cursor := idx), idx, fuel - 1);
             nested.sig.Next? && nested.st.cursor == idx
    ensures var nested := HandleIf(p, m, st.(cursor := idx), idx, fuel - 1);
            RunBody(p, m, st, entry, idx, bend, end, fuel) == IfOut(nested.st, Next(idx)) &&
            nested.sig.n == ParseFrom(p.lines, idx, idx).end
  {
    HandleIfExit(p, m, st.(cursor := idx), idx, fuel - 1);
  }

  // ---------------------------------------------------------------------------
  // One step of the main loop

  /** At an `if ` line the main loop hands the line to the if-statement, stops when
      the statement stops, and otherwise goes on at the line the statement hands
      back. */
  lemma RunAtIf(p: Program, m: Machine, st: State, fuel: nat, rest: nat, r: IfOut)
    requires st.cursor < |p.lines| && rest + 1 == fuel
    requires !StartsWith(Strip(p.lines[st.cursor]), "@") && StartsWith(Strip(p.lines[st.cursor]), "if ")
    requires r == HandleIf(p, m, st, st.cursor, rest)
    ensures r.sig.Stop? ==> RunFrom(p, m, st, fuel) == RunOut(r.st, Halted(r.sig.halt))
    ensures r.sig.Next? ==> RunFrom(p, m, st, fuel) == RunFrom(p, m, r.st.(cursor := r.sig.n), rest)
  {
  }

  /** At any other line the main loop runs the statement and goes on at the next
      line, or at the line the statement moved the cursor to. */
  lemma RunAtStatement(p: Program, m: Machine, st: State, fuel: nat, rest: nat, e: Exec)
    requires st.cursor < |p.lines| && rest + 1 == fuel
    requires !StartsWith(Strip(p.lines[st.cursor]), "@") && !StartsWith(Strip(p.lines[st.cursor]), "if ")
    requires e == m.exec(st, Strip(p.lines[st.cursor]))
    ensures e.st.cursor == st.cursor ==> RunFrom(p, m, st, fuel) == RunFrom(p, m, e.st.(cursor := st.cursor + 1), rest)
    ensures e.st.cursor != st.cursor ==> RunFrom(p, m, st, fuel) == RunFrom(p, m, e.st, rest)
  {
  }

  /** In a block, a nested `if ` line is handled with the cursor on it: the block
      stops when the nested statement stops or moved the cursor off `entry`, and
      otherwise goes on at the line the nested statement hands back. */
  lemma RunBodyAtIf(p: Program, m: Machine, st: State, entry: nat, idx: nat, bend: nat, end: nat, fuel: nat,
                    after: State, sig: Signal, rest: nat)
    requires bend <= |p.lines| && idx + 1 < bend && rest + 1 == fuel
    requires StartsWith(Strip(p.lines[idx]), "if ")
    requires IfOut(after, sig) == HandleIf(p, m, st.(cursor := idx), idx, rest)
    ensures sig.Stop? ==> RunBody(p, m, st, entry, idx, bend, end, fuel) == IfOut(after, sig)
    ensures sig.Next? && after.cursor != entry ==> RunBody(p, m, st, entry, idx, bend, end, fuel) == IfOut(after, Next(after.cursor))
    ensures sig.Next? && after.cursor == entry ==>
              RunBody(p, m, st, entry, idx, bend, end, fuel) == RunBody(p, m, after, entry, sig.n, bend, end, rest)
  {
  }

  /** In a block, any other line is run as a statement: the block stops when the
      statement moved the cursor off `entry` and otherwise goes on at the next line. */
  lemma RunBodyAtStatement(p: Program, m: Machine, st: State, entry: nat, idx: nat, bend: nat, end: nat, fuel: nat, e: Exec)
    requires bend <= |p.lines| && idx + 1 < bend
    requires !StartsWith(Strip(p.lines[idx]), "if ")
    requires e == m.exec(st, Strip(p.lines[idx]))
    ensures e.st.cursor != entry ==> RunBody(p, m, st, entry, idx, bend, end, fuel) == IfOut(e.st, Next(e.st.cursor))
    ensures e.st.cursor == entry ==> RunBody(p, m, st, entry, idx, bend, end, fuel) == RunBody(p, m, e.st, entry, idx + 1, bend, end, fuel)
  {
  }

  // ---------------------------------------------------------------------------
  // The main loop

  /** The main loop finishes only by running past the last line. */
  lemma {:induction false} FinishedMeansPastEnd(p: Program, m: Machine, st: State, fuel: nat)
    ensures RunFrom(p, m, st, fuel).status == Finished ==> RunFrom(p, m, st, fuel).st.cursor >= |p.lines|
    decreases fuel, 1
  {
    if st.cursor < |p.lines| && fuel > 0 {
      var line := Strip(p.lines[st.cursor]);
      if StartsWith(line, "@") {
        FinishedMeansPastEnd(p, m, st.(cursor := st.cursor + 1), fuel - 1);
      } else if StartsWith(line, "if ") {
        FinishedAtIf(p, m, st, fuel);
      } else {
        FinishedAtStatement(p, m, st, fuel);
      }
    }
  }

  lemma {:induction false} FinishedAtIf(p: Program, m: Machine, st: State, fuel: nat)
    requires st.cursor < |p.lines| && fuel > 0
    requires !StartsWith(Strip(p.lines[st.cursor]), "@") && StartsWith(Strip(p.lines[st.cursor]), "if ")
    ensures RunFrom(p, m, st, fuel).status == Finished ==> RunFrom(p, m, st, fuel).st.cursor >= |p.lines|
    decreases fuel, 0
  {
    var r := HandleIf(p, m, st, st.cursor, fuel - 1);
    if r.sig.Next? {
      FinishedMeansPastEnd(p, m, r.st.(cursor := r.sig.n), fuel - 1);
    }
  }

  lemma {:induction false} FinishedAtStatement(p: Program, m: Machine, st: State, fuel: nat)
    requires st.cursor < |p.lines| && fuel > 0
    requires !StartsWith(Strip(p.lines[st.cursor]), "@") && !StartsWith(Strip(p.lines[st.cursor]), "if ")
    ensures RunFrom(p, m, st, fuel).status == Finished ==> RunFrom(p, m, st, fuel).st.cursor >= |p.lines|
    decreases fuel, 0
  {
    var e := m.exec(st, Strip(p.lines[st.cursor]));
    var next := if e.st.cursor == st.cursor then st.cursor + 1 else e.st.cursor;
    FinishedMeansPastEnd(p, m, e.st.(cursor := next), fuel - 1);
  }

  /** A line that starts with `if ` but is no `if [...] then [` header sends the
      main loop back to itself forever: whatever the budget, it runs out, and
      nothing else happens. */
  lemma {:induction false} UnparsableIfLoopsForever(p: Program, m: Machine, st: State, fuel: nat)
    requires st.cursor < |p.lines|
    requires StartsWith(Strip(p.lines[st.cursor]), "if ") && Header(Strip(p.lines[st.cursor]), true).None?
    ensures RunFrom(p, m, st, fuel) == RunOut(st, Halted(OutOfFuel))
    decreases fuel
  {
    if fuel > 0 {
      var line := Strip(p.lines[st.cursor]);
      assert line[0] == 'i';
      NoHeaderReturnsOwnLine(p, m, st, st.cursor, fuel - 1);
      assert st.(cursor := st.cursor) == st;
      UnparsableIfLoopsForever(p, m, st, fuel - 1);
    }
  }

  /** A label line is skipped: the loop goes on at the next line. */
  lemma LabelLineSkipped(p: Program, m: Machine, st: State, fuel: nat, rest: nat)
    requires st.cursor < |p.lines| && rest + 1 == fuel && StartsWith(Strip(p.lines[st.cursor]), "@")
    ensures RunFrom(p, m, st, fuel) == RunFrom(p, m, st.(cursor := st.cursor + 1), rest)
  {
  }

  /** Only `jump` statements move the cursor. */
  ghost predicate OnlyJumpsMove(m: Machine) {
    forall st: State, line: string :: m.exec(st, line).st.cursor != st.cursor ==> StartsWith(line, "jump ")
  }

  /** A statement other than `jump` leaves the cursor alone, so the loop goes on at
      the next line. */
  lemma StatementAdvances(p: Program, m: Machine, st: State, fuel: nat)
    requires OnlyJumpsMove(m)
    requires st.cursor < |p.lines| && fuel > 0
    requires var line := Strip(p.lines[st.cursor]);
             !StartsWith(line, "@") && !StartsWith(line, "if ") && !StartsWith(line, "jump ")
    ensures RunFrom(p, m, st, fuel) ==
              RunFrom(p, m, m.exec(st, Strip(p.lines[st.cursor])).st.(cursor := st.cursor + 1), fuel - 1)
  {
    RunAtStatement(p, m, st, fuel, fuel - 1, m.exec(st, Strip(p.lines[st.cursor])));
  }

  /** The interpreter's own statements and conditions have both properties the
      lemmas above ask of a machine. */
  lemma InterpreterMachine(p: Program, h: Host)
    ensures TraceBlind(MachineOf(p, h))
    ensures OnlyJumpsMove(MachineOf(p, h))
  {
    var m := MachineOf(p, h);
    forall st: State, cond: string ensures m.test(st, cond) == m.test(st.(trace := []), cond) {
      assert EnvOf(h, st) == EnvOf(h, st.(trace := []));
    }
    forall st: State, line: string ensures m.exec(st, line).st.cursor != st.cursor ==> StartsWith(line, "jump ") {
      OnlyJumpMovesCursor(p, h, st, line);
    }
  }
}
