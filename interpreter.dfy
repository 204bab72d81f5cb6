/** The interpreter object `ELInterpreter`: its namespaces, label table, program
    lines and cursor are fields that its methods update in place, as the source's
    do. Each method is proved to leave the object in the state the functions of
    `Semantics` and `Loader` prescribe, so every property proved of those functions
    holds of the object.

    Beside the source's fields the object keeps `trace`, the extension invocations
    made so far, which is how the model observes what extension calls do. */
module Interpreter {
  import opened Text
  import opened Values
  import opened Evaluator
  import Loader
  import opened Semantics
  import opened StatementFacts
  import opened ControlFacts

  /** The branches in front of a parse. */
  ghost function PrependAll(bs: seq<Branch>, r: Parse): Parse {
    match r
    case Unclosed => Unclosed
    case Parsed(rs, end) => Parsed(bs + rs, end)
  }

  lemma PrependAllStep(bs: seq<Branch>, b: Branch, r: Parse)
    ensures PrependAll(bs, Prepend(b, r)) == PrependAll(bs + [b], r)
  {
    if r.Parsed? {
      assert bs + ([b] + r.branches) == (bs + [b]) + r.branches;
    }
  }

  class ELInterpreter {
    var globals: map<string, Value>
    var locals: map<string, Value>
    var labels: map<string, nat>
    var programLines: seq<string>
    var cursor: nat
    var extensions: Registry
    var trace: seq<Invocation>
    /** The general-expression fallback and the `.include` loader. */
    const host: Host

    /** The part of the object statements read and change. */
    function Snapshot(): State
      reads this`locals, this`globals, this`extensions, this`cursor, this`trace
    {
      State(locals, globals, extensions, cursor, trace)
    }

    /** The loaded program. */
    function Loaded(): Program
      reads this`programLines, this`labels
    {
      Program(programLines, labels)
    }

    /** `__init__`: empty namespaces, label table and program, cursor at 0, nothing
        loaded. */
    constructor(host: Host)
      ensures this.host == host
      ensures Snapshot() == State(map[], map[], map[], 0, [])
      ensures Loaded() == Program([], map[])
    {
      this.host := host;
      globals := map[];
      locals := map[];
      labels := map[];
      programLines := [];
      cursor := 0;
      extensions := map[];
      trace := [];
    }

    // -------------------------------------------------------------------------
    // Loading

    /** `load_program`: splits the code at newlines, keeps the stripped lines that
        are labels or neither empty nor comments, and maps the labels on top of the
        existing table. */
    method LoadProgram(code: string)
      modifies this`programLines, this`labels
      ensures programLines == Loader.ProgramLines(Split(code, '\n'))
      ensures labels == Loader.MapLabels(old(labels), programLines)
    {
      ghost var base := labels;
      var raw := Split(code, '\n');
      var processed: seq<string> := [];
      for i := 0 to |raw|
        modifies {}
        invariant processed == Loader.ProgramLines(raw[..i])
      {
        var stripped := Strip(raw[i]);
        Loader.ProgramLinesStep(raw, i);
        if StartsWith(stripped, "@") || (!StartsWith(stripped, ";") && stripped != "") {
          processed := processed + [stripped];
        }
      }
      assert raw[..|raw|] == raw;
      programLines := processed;
      assert labels == base;
      MapLabels();
      assert labels == Loader.MapLabels(base, processed);
    }

    /** `_map_labels`: each `@name` line maps `name` to its index, later lines
        overwriting earlier ones; the table is not cleared first. */
    method MapLabels()
      modifies this`labels
      ensures labels == Loader.MapLabels(old(labels), programLines)
    {
      for i := 0 to |programLines|
        invariant labels == Loader.MapLabels(old(labels), programLines[..i])
      {
        var line := programLines[i];
        Loader.MapLabelsStep(old(labels), programLines, i);
        if StartsWith(line, "@") {
          labels := labels[line[1..] := i];
        }
      }
      assert programLines[..|programLines|] == programLines;
    }

    // -------------------------------------------------------------------------
    // Blocks

    /** `_find_block_end(start)`: with the balance starting at the header's open
        bracket, succeeds with one past the first line that brings it to zero, and
        fails with -1 when no line does. */
    method FindBlockEnd(start: nat) returns (end: int, success: bool)
      ensures success ==> start < end <= |programLines| && Depth(programLines, start, end) == 0
      ensures success ==> forall j :: start < j < end ==> Depth(programLines, start, j) != 0
      ensures !success ==> end == -1 && forall j :: start < j <= |programLines| ==> Depth(programLines, start, j) != 0
      ensures success <==> BlockEnd(programLines, start).Some?
      ensures success ==> end == BlockEnd(programLines, start).value
    {
      var lines := programLines;
      ghost var target := BlockEnd(lines, start);
      var balance := 1;
      var i := start;
      while i < |lines|
        invariant ScanClose(lines, i, balance) == target
        decreases |lines| - i
      {
        var line := Strip(lines[i]);
        var next := balance + (Count(line, '[') - Count(line, ']'));
        if next == 0 {
          ScanCloseStop(lines, i, balance);
          end, success := i + 1, true;
          break;
        }
        ScanCloseContinue(lines, i, balance, next);
        balance := next;
        i := i + 1;
      }
      if i >= |lines| {
        end, success := -1, false;
      }
      if start <= |lines| {
        BlockEndIsFirstZero(lines, start, if success then end else 0);
      }
    }

    // -------------------------------------------------------------------------
    // Statements

    /** `_assign_variable`: rebinds the local name if there is one, else the global
        one; a name in neither namespace is reported and nothing changes. */
    method AssignVariable(name: string, v: Value) returns (report: Report)
      modifies this`locals, this`globals
      ensures Exec(Snapshot(), report) == AssignVar(old(Snapshot()), name, v)
    {
      if name in locals {
        locals := locals[name := v];
        report := Done;
      } else if name in globals {
        globals := globals[name := v];
        report := Done;
      } else {
        report := UndeclaredVariable;
      }
    }

    /** `_execute_single_statement(line)`: the first statement form the line starts
        with; what it printed comes back as the report. */
    method ExecuteSingleStatement(line: string, ghost m: Machine) returns (report: Report)
      requires Realizes(m, Loaded(), host)
      modifies this`locals, this`globals, this`extensions, this`cursor, this`trace
      ensures Exec(Snapshot(), report) == m.exec(old(Snapshot()), line)
    {
      ghost var spec := ExecStmt(Loaded(), host, Snapshot(), line);
      if StartsWith(line, "local ") {
        report := DefineLocal(line);
      } else if StartsWith(line, "global ") {
        report := DefineGlobal(line);
      } else if StartsWith(line, "set ") {
        report := SetVariable(line);
      } else if MatchCall(line).Some? {
        var o := Eval(EnvOf(host, Snapshot()), Strip(line), Unhinted);
        trace := trace + o.trace;
        report := Done;
      } else if StartsWith(line, "jump ") {
        var argument := Strip(line[5..]);
        var target := if |argument| >= 1 then argument[1..] else "";
        if target in labels {
          cursor := labels[target];
          report := Done;
        } else {
          cursor := |programLines|;
          report := UnknownLabel;
        }
      } else if StartsWith(line, ".include ") {
        extensions := extensions + host.includer(line[9..]);
        report := Done;
      } else if StartsWith(line, "]") {
        report := Ignored;
      } else {
        report := UnknownCommand;
      }
      assert Exec(Snapshot(), report) == spec;
    }

    /** `local NAME = EXPR`. */
    method DefineLocal(line: string) returns (report: Report)
      modifies this`locals, this`trace
      ensures Exec(Snapshot(), report) == DeclareLocal(host, old(Snapshot()), line)
    {
      match LastAssign(line, 6) {
        case None =>
          report := SyntaxError;
        case Some(k) =>
          var o := Eval(EnvOf(host, Snapshot()), Strip(line[k + 3..]), LocalHint);
          locals := locals[Strip(line[6..k]) := o.value];
          trace := trace + o.trace;
          report := Done;
      }
    }

    /** `global NAME = EXPR`. */
    method DefineGlobal(line: string) returns (report: Report)
      modifies this`globals, this`trace
      ensures Exec(Snapshot(), report) == DeclareGlobal(host, old(Snapshot()), line)
    {
      match LastAssign(line, 7) {
        case None =>
          report := SyntaxError;
        case Some(k) =>
          var o := Eval(EnvOf(host, Snapshot()), Strip(line[k + 3..]), GlobalHint);
          globals := globals[Strip(line[7..k]) := o.value];
          trace := trace + o.trace;
          report := Done;
      }
    }

    /** `set NAME = ...`: the extension-call form first, then the general form. */
    method SetVariable(line: string) returns (report: Report)
      modifies this`locals, this`globals, this`trace
      ensures Exec(Snapshot(), report) == SetVar(host, old(Snapshot()), line)
    {
      ghost var before := Snapshot();
      match LastCallAssign(line) {
        case Some(k) =>
          SetVarByCall(host, before, line, k);
          report := CallForAssignment(Strip(line[4..k]), MatchCall(line[k + 3..]).value, |line|);
        case None =>
          match LastAssign(line, 4) {
            case None =>
              SetVarMalformed(host, before, line);
              report := SyntaxError;
            case Some(k) =>
              SetVarByValue(host, before, line, k);
              report := AssignEvaluated(Strip(line[4..k]), Strip(line[k + 3..]));
          }
      }
    }

    /** The general form of `set`: evaluates `expr` without a hint, then assigns its
        value to an existing name. */
    method AssignEvaluated(name: string, expr: string) returns (report: Report)
      modifies this`locals, this`globals, this`trace
      ensures var o := Eval(EnvOf(host, old(Snapshot())), expr, Unhinted);
        Exec(Snapshot(), report) == AssignVar(old(Snapshot()).(trace := old(trace) + o.trace), name, o.value)
    {
      var o := Eval(EnvOf(host, Snapshot()), expr, Unhinted);
      trace := trace + o.trace;
      report := AssignVariable(name, o.value);
    }

    /** `set NAME = LIB:FUNC(ARGS)`: looks the function up, evaluates the arguments,
        calls it and assigns what it returned. `bound` only bounds the length of the
        argument text, for the evaluator's termination. */
    method CallForAssignment(name: string, c: CallSyntax, bound: nat) returns (report: Report)
      requires |c.argText| < bound
      modifies this`locals, this`globals, this`trace
      ensures Exec(Snapshot(), report) == SetFromCall(host, old(Snapshot()), name, c, bound)
    {
      if c.lib !in extensions {
        return UnknownExtension;
      }
      if c.fn !in extensions[c.lib] {
        return UnknownFunction;
      }
      var args := ArgValues(EnvOf(host, Snapshot()), c.argText, bound);
      var result := extensions[c.lib][c.fn](args.values);
      trace := trace + args.trace + [Invocation(c.lib, c.fn, args.values)];
      if result.Failed? {
        report := CallFailed;
      } else {
        report := AssignVariable(name, result.v);
      }
    }

    // -------------------------------------------------------------------------
    // The if-statement

    /** `_evaluate_condition(cond)` on the current namespaces and extensions: a
        condition of neither one nor three words is false and calls nothing; an
        unsupported operator, or a left word that is no variable and evaluates to
        itself, makes it false; a left variable is compared, after coercion, with
        the right side's value; one word is tested for truth. */
    method EvaluateCondition(cond: string, ghost m: Machine) returns (verdict: Verdict)
      requires Realizes(m, Loaded(), host)
      ensures verdict == m.test(Snapshot(), cond)
      ensures |Split(cond, ' ')| != 1 && |Split(cond, ' ')| != 3 ==> verdict == Verdict(Known(false), [])
      ensures |Split(cond, ' ')| == 3 && Split(cond, ' ')[1] !in {"=", "!=", ">", "<", ">=", "<="} ==>
                verdict.truth == Known(false)
      ensures var parts := Split(cond, ' ');
              |parts| == 3 && parts[0] !in locals && parts[0] !in globals &&
              Eval(EnvOf(host, Snapshot()), parts[0], Unhinted).value == Str(parts[0]) ==>
                verdict.truth == Known(false)
      ensures var parts := Split(cond, ' ');
              |parts| == 3 && parts[0] in locals ==>
                verdict.truth == Compare(parts[1], Coerce(locals[parts[0]], Eval(EnvOf(host, Snapshot()), parts[2], Unhinted).value).0,
                                         Coerce(locals[parts[0]], Eval(EnvOf(host, Snapshot()), parts[2], Unhinted).value).1)
      ensures |Split(cond, ' ')| == 1 ==> verdict.truth == Truthy(Eval(EnvOf(host, Snapshot()), Split(cond, ' ')[0], Unhinted).value)
    {
      verdict := EvalCondition(EnvOf(host, Snapshot()), cond);
    }

    /** `_handle_if_statement(s)`: parses the branches from line `s`, then runs the
        first whose condition holds; hands back the line to go on at, or why to
        stop. The step budget `fuel` bounds the nesting of if-statements run. */
    method HandleIfStatement(s: nat, fuel: nat, ghost m: Machine) returns (sig: Signal)
      requires Realizes(m, Loaded(), host)
      modifies this`locals, this`globals, this`extensions, this`cursor, this`trace
      ensures IfOut(Snapshot(), sig) == HandleIf(Loaded(), m, old(Snapshot()), s, fuel)
      decreases fuel, 4
    {
      var parse := ParseBranches(s);
      if parse.Unclosed? {
        return Stop(MalformedIf);
      }
      sig := RunFirstMatch(parse.branches, parse.end, fuel, m);
    }

    /** Phase 1 of `_handle_if_statement(s)`: collects the headers and their blocks
        from line `s` until a line that is no header, the end of the program or an
        `else` branch; an unclosed block fails the whole statement. */
    method ParseBranches(s: nat) returns (parse: Parse)
      ensures parse == ParseFrom(programLines, s, s)
    {
      var lines := programLines;
      ghost var target := ParseFrom(lines, s, s);
      var branches: seq<Branch> := [];
      var current := s;
      while current < |lines|
        invariant target == PrependAll(branches, ParseFrom(lines, s, current))
        decreases |lines| - current
      {
        var condition := Header(Strip(lines[current]), current == s);
        if condition.None? {
          ParseFromNoHeader(lines, s, current);
          break;
        }
        var blockEnd, success := FindBlockEnd(current + 1);
        if !success {
          ParseFromUnclosed(lines, s, current);
          return Unclosed;
        }
        var b := Branch(condition.value, current + 1, blockEnd);
        if condition.value == ElseMarker {
          ParseFromElse(lines, s, current, blockEnd);
          branches := branches + [b];
          current := blockEnd;
          break;
        }
        ParseFromBranch(lines, s, current, condition.value, blockEnd);
        PrependAllStep(branches, b, ParseFrom(lines, s, blockEnd));
        branches := branches + [b];
        current := blockEnd;
      }
      parse := Parsed(branches, current);
    }

    /** Phase 2 of `_handle_if_statement`: tries the conditions in order and runs
        the block of the first branch taken; with none taken, goes on at `end`. */
    method RunFirstMatch(branches: seq<Branch>, end: nat, fuel: nat, ghost m: Machine) returns (sig: Signal)
      requires forall i :: 0 <= i < |branches| ==> branches[i].end <= |programLines|
      requires Realizes(m, Loaded(), host)
      modifies this`locals, this`globals, this`extensions, this`cursor, this`trace
      ensures IfOut(Snapshot(), sig) == Choose(Loaded(), m, old(Snapshot()), old(cursor), branches, end, fuel)
      decreases fuel, 3
    {
      ghost var p := Loaded();
      var entry := cursor;
      for i := 0 to |branches|
        invariant Choose(p, m, Snapshot(), entry, branches[i..], end, fuel) ==
                  Choose(p, m, old(Snapshot()), entry, branches, end, fuel)
      {
        var b := branches[i];
        if b.cond == ElseMarker {
          sig := ExecuteBlock(entry, b.start, b.end, end, fuel, m);
          return;
        }
        var verdict := EvaluateCondition(b.cond, m);
        trace := trace + verdict.trace;
        match verdict.truth {
          case Known(holds) =>
            if holds {
              sig := ExecuteBlock(entry, b.start, b.end, end, fuel, m);
              return;
            }
          case Raises =>
            return Stop(Raised);
          case Unmodelled =>
            return Stop(FloatComparison);
        }
        assert branches[i..][1..] == branches[i + 1..];
      }
      sig := Next(end);
    }

    /** The block loop of a taken branch over lines `start .. bend-2`: a nested
        `if ` line sets the cursor to itself and is handled recursively; whenever
        the cursor then differs from `entry`, the statement ends there. */
    method ExecuteBlock(entry: nat, start: nat, bend: nat, end: nat, fuel: nat, ghost m: Machine) returns (sig: Signal)
      requires bend <= |programLines|
      requires Realizes(m, Loaded(), host)
      modifies this`locals, this`globals, this`extensions, this`cursor, this`trace
      ensures IfOut(Snapshot(), sig) == RunBody(Loaded(), m, old(Snapshot()), entry, start, bend, end, fuel)
      decreases fuel, 2
    {
      ghost var p := Loaded();
      var idx: nat := start;
      var budget: nat := fuel;
      while idx + 1 < bend
        invariant budget <= fuel
        invariant RunBody(p, m, Snapshot(), entry, idx, bend, end, budget) ==
                  RunBody(p, m, old(Snapshot()), entry, start, bend, end, fuel)
        decreases budget, bend - idx
      {
        var out, nextIdx, nextBudget := BlockStep(entry, idx, bend, end, budget, p, m);
        if out.Some? {
          return out.value;
        }
        idx, budget := nextIdx, nextBudget;
      }
      sig := Next(end);
    }

    /** One pass of the block loop at line `idx`: either the signal the statement
        ends with, or the line and budget to go on with. */
    method BlockStep(entry: nat, idx: nat, bend: nat, end: nat, budget: nat, ghost p: Program, ghost m: Machine)
      returns (out: Option<Signal>, nextIdx: nat, nextBudget: nat)
      requires bend <= |programLines| && idx + 1 < bend
      requires p == Loaded() && Realizes(m, p, host)
      modifies this`locals, this`globals, this`extensions, this`cursor, this`trace
      ensures out.Some? ==> RunBody(p, m, old(Snapshot()), entry, idx, bend, end, budget) == IfOut(Snapshot(), out.value)
      ensures out.None? ==> nextBudget < budget || (nextBudget == budget && nextIdx == idx + 1)
      ensures out.None? ==> RunBody(p, m, old(Snapshot()), entry, idx, bend, end, budget) ==
                            RunBody(p, m, Snapshot(), entry, nextIdx, bend, end, nextBudget)
      decreases budget, 1
    {
      if StartsWith(Strip(programLines[idx]), "if ") {
        out, nextIdx, nextBudget := BlockIf(entry, idx, bend, end, budget, p, m);
      } else {
        out := BlockStatement(entry, idx, bend, end, budget, p, m);
        nextIdx, nextBudget := idx + 1, budget;
      }
    }

    /** The pass of the block loop at a nested `if ` line: the cursor is set to the
        line and the if-statement is handled with one step less. */
    method BlockIf(entry: nat, idx: nat, bend: nat, end: nat, budget: nat, ghost p: Program, ghost m: Machine)
      returns (out: Option<Signal>, nextIdx: nat, nextBudget: nat)
      requires bend <= |programLines| && idx + 1 < bend
      requires StartsWith(Strip(programLines[idx]), "if ")
      requires p == Loaded() && Realizes(m, p, host)
      modifies this`locals, this`globals, this`extensions, this`cursor, this`trace
      ensures out.Some? ==> RunBody(p, m, old(Snapshot()), entry, idx, bend, end, budget) == IfOut(Snapshot(), out.value)
      ensures out.None? ==> nextBudget < budget
      ensures out.None? ==> RunBody(p, m, old(Snapshot()), entry, idx, bend, end, budget) ==
                            RunBody(p, m, Snapshot(), entry, nextIdx, bend, end, nextBudget)
      decreases budget, 0
    {
      if budget == 0 {
        return Some(Stop(OutOfFuel)), idx, budget;
      }
      ghost var before := Snapshot();
      nextBudget := budget - 1;
      cursor := idx;
      var nested := HandleIfStatement(idx, nextBudget, m);
      RunBodyAtIf(p, m, before, entry, idx, bend, end, budget, Snapshot(), nested, nextBudget);
      if nested.Stop? {
        return Some(nested), idx, budget;
      }
      if cursor != entry {
        return Some(Next(cursor)), idx, budget;
      }
      out, nextIdx := None, nested.n;
    }

    /** The pass of the block loop at a statement line: the block ends when the
        statement moved the cursor off `entry`. */
    method BlockStatement(entry: nat, idx: nat, bend: nat, end: nat, budget: nat, ghost p: Program, ghost m: Machine)
      returns (out: Option<Signal>)
      requires bend <= |programLines| && idx + 1 < bend
      requires !StartsWith(Strip(programLines[idx]), "if ")
      requires p == Loaded() && Realizes(m, p, host)
      modifies this`locals, this`globals, this`extensions, this`cursor, this`trace
      ensures out.Some? ==> RunBody(p, m, old(Snapshot()), entry, idx, bend, end, budget) == IfOut(Snapshot(), out.value)
      ensures out.None? ==> RunBody(p, m, old(Snapshot()), entry, idx, bend, end, budget) ==
                            RunBody(p, m, Snapshot(), entry, idx + 1, bend, end, budget)
    {
      ghost var before := Snapshot();
      var report := ExecuteSingleStatement(Strip(programLines[idx]), m);
      RunBodyAtStatement(p, m, before, entry, idx, bend, end, budget, Exec(Snapshot(), report));
      if cursor != entry {
        return Some(Next(cursor));
      }
      out := None;
    }

    // -------------------------------------------------------------------------
    // The main loop

    /** `run`: from the first line, skips labels, hands `if ` lines to the
        if-statement and runs other lines as single statements, advancing by one
        unless the statement moved the cursor; stops past the last line or when an
        if-statement stops. `fuel` bounds the number of steps. */
    method Run(fuel: nat, ghost m: Machine) returns (status: Status)
      requires Realizes(m, Loaded(), host)
      modifies this`locals, this`globals, this`extensions, this`cursor, this`trace
      ensures RunOut(Snapshot(), status) == Semantics.Run(Loaded(), m, old(Snapshot()), fuel)
    {
      ghost var p := Loaded();
      ghost var target := Semantics.Run(p, m, Snapshot(), fuel);
      cursor := 0;
      var budget: nat := fuel;
      while cursor < |programLines|
        invariant p == Loaded()
        invariant RunFrom(p, m, Snapshot(), budget) == target
        decreases budget
      {
        if budget == 0 {
          return Halted(OutOfFuel);
        }
        var rest := budget - 1;
        var halt := RunStep(budget, rest, p, m);
        if halt.Some? {
          return Halted(halt.value);
        }
        budget := rest;
      }
      status := Finished;
    }

    /** One pass of the loop of `run` at the line under the cursor. */
    method RunStep(budget: nat, rest: nat, ghost p: Program, ghost m: Machine) returns (halt: Option<Halt>)
      requires cursor < |programLines| && rest + 1 == budget
      requires p == Loaded() && Realizes(m, p, host)
      modifies this`locals, this`globals, this`extensions, this`cursor, this`trace
      ensures halt.Some? ==> RunFrom(p, m, old(Snapshot()), budget) == RunOut(Snapshot(), Halted(halt.value))
      ensures halt.None? ==> RunFrom(p, m, old(Snapshot()), budget) == RunFrom(p, m, Snapshot(), rest)
    {
      var line := Strip(programLines[cursor]);
      if StartsWith(line, "@") {
        LabelLineSkipped(p, m, Snapshot(), budget, rest);
        cursor := cursor + 1;
        halt := None;
      } else if StartsWith(line, "if ") {
        halt := StepIf(budget, rest, p, m);
      } else {
        StepStatement(budget, rest, p, m);
        halt := None;
      }
    }

    /** The pass of `run` at an `if ` line. */
    method StepIf(budget: nat, rest: nat, ghost p: Program, ghost m: Machine) returns (halt: Option<Halt>)
      requires cursor < |programLines| && rest + 1 == budget
      requires !StartsWith(Strip(programLines[cursor]), "@") && StartsWith(Strip(programLines[cursor]), "if ")
      requires p == Loaded() && Realizes(m, p, host)
      modifies this`locals, this`globals, this`extensions, this`cursor, this`trace
      ensures halt.Some? ==> RunFrom(p, m, old(Snapshot()), budget) == RunOut(Snapshot(), Halted(halt.value))
      ensures halt.None? ==> RunFrom(p, m, old(Snapshot()), budget) == RunFrom(p, m, Snapshot(), rest)
    {
      ghost var before := Snapshot();
      var next := HandleIfStatement(cursor, rest, m);
      RunAtIf(p, m, before, budget, rest, IfOut(Snapshot(), next));
      if next.Stop? {
        return Some(next.halt);
      }
      cursor := next.n;
      halt := None;
    }

    /** The pass of `run` at a statement line: the cursor advances by one unless the
        statement moved it. */
    method StepStatement(budget: nat, rest: nat, ghost p: Program, ghost m: Machine)
      requires cursor < |programLines| && rest + 1 == budget
      requires !StartsWith(Strip(programLines[cursor]), "@") && !StartsWith(Strip(programLines[cursor]), "if ")
      requires p == Loaded() && Realizes(m, p, host)
      modifies this`locals, this`globals, this`extensions, this`cursor, this`trace
      ensures RunFrom(p, m, old(Snapshot()), budget) == RunFrom(p, m, Snapshot(), rest)
    {
      ghost var before := Snapshot();
      var original := cursor;
      var report := ExecuteSingleStatement(Strip(programLines[cursor]), m);
      RunAtStatement(p, m, before, budget, rest, Exec(Snapshot(), report));
      if cursor == original {
        cursor := cursor + 1;
      }
    }
  }
}
