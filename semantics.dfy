/** The execution engine of the interpreter as a big-step semantics over plain values:
    one statement (`_execute_single_statement`, `_assign_variable`), the block scanner
    (`_find_block_end`), the multi-line if/or/else statement (`_handle_if_statement`)
    and the main loop (`run`). Each function here is the specification that a method
    of the interpreter class is proved to follow.

    The source can run forever (a jump back, or an `if ` line that is no header), so
    the if-statement and the main loop take a step budget `fuel`; running out of it is
    reported as `OutOfFuel` and is not a behaviour of the source. */
module Semantics {
  import opened Text
  import opened Values
  import opened Evaluator

  /** Loads the extensions of an `.include` directive, given its argument text: the
      classes the file defines, or nothing when the file cannot be read or run. */
  type Includer = string -> Registry

  /** What the interpreter takes from its surroundings. */
  datatype Host = Host(fallback: Fallback, includer: Includer)

  /** The loaded program: its lines and the label table. */
  datatype Program = Program(lines: seq<string>, labels: map<string, nat>)

  /** The mutable state of the interpreter: both namespaces, the loaded extensions,
      the index of the current line, and the extension invocations made so far. */
  datatype State = State(locals: map<string, Value>, globals: map<string, Value>, ext: Registry,
                         cursor: nat, trace: seq<Invocation>)

  function EnvOf(h: Host, st: State): Env {
    Env(st.locals, st.globals, st.ext, h.fallback)
  }

  /** What a statement reported: done, or the error message it printed (or, for a
      stray `]` line, that it was silently ignored). */
  datatype Report = Done | SyntaxError | UndeclaredVariable | UnknownLabel | UnknownExtension
                  | UnknownFunction | CallFailed | Ignored | UnknownCommand

  datatype Exec = Exec(st: State, report: Report)

  // ---------------------------------------------------------------------------
  // Assignment

  /** The names bound in either namespace are the same, and the extensions, cursor
      and trace did not move. */
  ghost predicate SameShape(st: State, st': State) {
    st'.locals.Keys == st.locals.Keys && st'.globals.Keys == st.globals.Keys &&
    st'.ext == st.ext && st'.cursor == st.cursor && st'.trace == st.trace
  }

  /** `_assign_variable`: rebinds an existing name, the local one when both exist;
      assigning to a name neither namespace holds is an error and changes nothing. */
  function AssignVar(st: State, name: string, v: Value): (r: Exec)
    ensures SameShape(st, r.st)
    ensures r.report == Done <==> name in st.locals || name in st.globals
    ensures r.report != Done ==> r.st == st && r.report == UndeclaredVariable
    ensures r.report == Done ==> Lookup(Env(r.st.locals, r.st.globals, r.st.ext, (t, ns) => None), name, Unhinted) == v
    ensures forall n :: n != name && n in st.locals ==> r.st.locals[n] == st.locals[n]
    ensures forall n :: n != name && n in st.globals ==> r.st.globals[n] == st.globals[n]
    ensures name in st.locals ==> r.st.globals == st.globals
  {
    if name in st.locals then Exec(st.(locals := st.locals[name := v]), Done)
    else if name in st.globals then Exec(st.(globals := st.globals[name := v]), Done)
    else Exec(st, UndeclaredVariable)
  }

  // ---------------------------------------------------------------------------
  // Statement syntax

  /** `" = "` at `k` splits `line` into a non-empty left part after the first `lo`
      characters and a non-empty right part. */
  predicate AssignAt(line: string, lo: nat, k: nat) {
    lo < k && k + 3 < |line| && line[k..k + 3] == " = "
  }

  /** The largest such split at or below `hi`. */
  function LastAssignBelow(line: string, lo: nat, hi: nat): (r: Option<nat>)
    ensures r.Some? ==> r.value <= hi && AssignAt(line, lo, r.value)
    ensures r.Some? ==> forall j :: r.value < j <= hi ==> !AssignAt(line, lo, j)
    ensures r.None? ==> forall j: nat :: j <= hi ==> !AssignAt(line, lo, j)
    decreases hi
  {
    if hi <= lo then None
    else if AssignAt(line, lo, hi) then Some(hi)
    else LastAssignBelow(line, lo, hi - 1)
  }

  /** `re.match(r"KW(.+) = (.+)", line)` for a keyword of length `lo` that `line`
      starts with: the greedy first group ends at the last `" = "` that leaves the
      second group non-empty. */
  function LastAssign(line: string, lo: nat): (r: Option<nat>)
    ensures r.Some? ==> AssignAt(line, lo, r.value) && forall j :: r.value < j ==> !AssignAt(line, lo, j)
    ensures r.None? ==> forall j :: !AssignAt(line, lo, j)
  {
    LastAssignBelow(line, lo, |line|)
  }

  /** `" = "` at `k` of a `set` line, followed by an extension call. */
  predicate CallAssignAt(line: string, k: nat) {
    4 < k && k + 3 <= |line| && line[k..k + 3] == " = " && MatchCall(line[k + 3..]).Some?
  }

  function LastCallAssignBelow(line: string, hi: nat): (r: Option<nat>)
    ensures r.Some? ==> r.value <= hi && CallAssignAt(line, r.value)
    ensures r.Some? ==> forall j :: r.value < j <= hi ==> !CallAssignAt(line, j)
    ensures r.None? ==> forall j: nat :: j <= hi ==> !CallAssignAt(line, j)
    decreases hi
  {
    if hi <= 4 then None
    else if CallAssignAt(line, hi) then Some(hi)
    else LastCallAssignBelow(line, hi - 1)
  }

  /** `re.match(r"set (.+) = LIB:FUNC\((.*)\)", line)`: the greedy target group ends at
      the last `" = "` after which an extension call follows. */
  function LastCallAssign(line: string): (r: Option<nat>)
    ensures r.Some? ==> CallAssignAt(line, r.value) && forall j :: r.value < j ==> !CallAssignAt(line, j)
    ensures r.None? ==> forall j :: !CallAssignAt(line, j)
  {
    LastCallAssignBelow(line, |line|)
  }

  /** The label named by a `jump` line: its argument without the first character. */
  function JumpTarget(line: string): string
    requires |line| >= 5
  {
    var arg := Strip(line[5..]);
    if |arg| >= 1 then arg[1..] else ""
  }

  // ---------------------------------------------------------------------------
  // One statement

  /** `set NAME = LIB:FUNC(ARGS)`: the call is made only when the library and the
      function are registered; its result is assigned unless it raised. */
  function SetFromCall(h: Host, st: State, name: string, c: CallSyntax, bound: nat): (r: Exec)
    requires |c.argText| < bound
  {
    if c.lib !in st.ext then Exec(st, UnknownExtension)
    else if c.fn !in st.ext[c.lib] then Exec(st, UnknownFunction)
    else
      var args := ArgValues(EnvOf(h, st), c.argText, bound);
      var result := st.ext[c.lib][c.fn](args.values);
      var st1 := st.(trace := st.trace + args.trace + [Invocation(c.lib, c.fn, args.values)]);
      if result.Failed? then Exec(st1, CallFailed) else AssignVar(st1, name, result.v)
  }

  /** `local NAME = EXPR`: binds the stripped name in the locals to the value of the
      stripped expression, looked up with the local hint. */
  function DeclareLocal(h: Host, st: State, line: string): (r: Exec)
  {
    match LastAssign(line, 6)
    case None => Exec(st, SyntaxError)
    case Some(k) =>
      var o := Eval(EnvOf(h, st), Strip(line[k + 3..]), LocalHint);
      Exec(st.(locals := st.locals[Strip(line[6..k]) := o.value], trace := st.trace + o.trace), Done)
  }

  /** `global NAME = EXPR`: binds the stripped name in the globals, looked up with
      the global hint. */
  function DeclareGlobal(h: Host, st: State, line: string): (r: Exec)
  {
    match LastAssign(line, 7)
    case None => Exec(st, SyntaxError)
    case Some(k) =>
      var o := Eval(EnvOf(h, st), Strip(line[k + 3..]), GlobalHint);
      Exec(st.(globals := st.globals[Strip(line[7..k]) := o.value], trace := st.trace + o.trace), Done)
  }

  /** `set NAME = ...`: the extension-call form when the right side is a call,
      otherwise the general form, which evaluates without a hint; both assign to an
      existing name only. */
  function SetVar(h: Host, st: State, line: string): (r: Exec)
  {
    match LastCallAssign(line)
    case Some(k) => SetFromCall(h, st, Strip(line[4..k]), MatchCall(line[k + 3..]).value, |line|)
    case None =>
      match LastAssign(line, 4)
      case None => Exec(st, SyntaxError)
      case Some(k) =>
        var o := Eval(EnvOf(h, st), Strip(line[k + 3..]), Unhinted);
        AssignVar(st.(trace := st.trace + o.trace), Strip(line[4..k]), o.value)
  }

  lemma SetVarByCall(h: Host, st: State, line: string, k: nat)
    requires LastCallAssign(line) == Some(k)
    ensures |MatchCall(line[k + 3..]).value.argText| < |line|
    ensures SetVar(h, st, line) == SetFromCall(h, st, Strip(line[4..k]), MatchCall(line[k + 3..]).value, |line|)
  { }

  lemma SetVarByValue(h: Host, st: State, line: string, k: nat)
    requires LastCallAssign(line).None? && LastAssign(line, 4) == Some(k)
    ensures var o := Eval(EnvOf(h, st), Strip(line[k + 3..]), Unhinted);
      SetVar(h, st, line) == AssignVar(st.(trace := st.trace + o.trace), Strip(line[4..k]), o.value)
  { }

  lemma SetVarMalformed(h: Host, st: State, line: string)
    requires LastCallAssign(line).None? && LastAssign(line, 4).None?
    ensures SetVar(h, st, line) == Exec(st, SyntaxError)
  { }

  /** A line that is an extension call: evaluated for its effect, the value dropped. */
  function CallStmt(h: Host, st: State, line: string): (r: Exec)
  {
    var o := Eval(EnvOf(h, st), Strip(line), Unhinted);
    Exec(st.(trace := st.trace + o.trace), Done)
  }

  /** `jump @NAME`: to the label's line, or past the last line for an unknown label. */
  function Jump(p: Program, st: State, line: string): (r: Exec)
    requires |line| >= 5
  {
    var target := JumpTarget(line);
    if target in p.labels then Exec(st.(cursor := p.labels[target]), Done)
    else Exec(st.(cursor := |p.lines|), UnknownLabel)
  }

  /** `.include FILE`: the extensions the file defines join (and override) the
      loaded ones. */
  function Include(h: Host, st: State, line: string): (r: Exec)
    requires |line| >= 9
  {
    Exec(st.(ext := st.ext + h.includer(line[9..])), Done)
  }

  /** `_execute_single_statement`: the first statement form the line starts with;
      a stray closing bracket is ignored, anything else is an unknown command. */
  function ExecStmt(p: Program, h: Host, st: State, line: string): (r: Exec)
  {
    if StartsWith(line, "local ") then DeclareLocal(h, st, line)
    else if StartsWith(line, "global ") then DeclareGlobal(h, st, line)
    else if StartsWith(line, "set ") then SetVar(h, st, line)
    else if MatchCall(line).Some? then CallStmt(h, st, line)
    else if StartsWith(line, "jump ") then Jump(p, st, line)
    else if StartsWith(line, ".include ") then Include(h, st, line)
    else if StartsWith(line, "]") then Exec(st, Ignored)
    else Exec(st, UnknownCommand)
  }

  // ---------------------------------------------------------------------------
  // Blocks

  /** What a line adds to the bracket balance. */
  function Delta(line: string): int {
    Count(Strip(line), '[') - Count(Strip(line), ']')
  }

  /** The bracket balance after the lines `start .. j-1`, starting from the one open
      bracket of the header. */
  function Depth(lines: seq<string>, start: nat, j: nat): int
    requires start <= j <= |lines|
    decreases j
  {
    if j == start then 1 else Depth(lines, start, j - 1) + Delta(lines[j - 1])
  }

  /** The scan of `_find_block_end` from line `i` with balance `balance`. */
  function ScanClose(lines: seq<string>, i: nat, balance: int): (r: Option<nat>)
    ensures r.Some? ==> i < r.value <= |lines|
    decreases |lines| - i
  {
    if i >= |lines| then None
    else
      var b := balance + Delta(lines[i]);
      if b == 0 then Some(i + 1) else ScanClose(lines, i + 1, b)
  }

  /** A line that leaves the balance non-zero: the scan goes on after it. */
  lemma ScanCloseContinue(lines: seq<string>, i: nat, balance: int, next: int)
    requires i < |lines| && next == balance + Delta(lines[i]) && next != 0
    ensures ScanClose(lines, i + 1, next) == ScanClose(lines, i, balance)
  {
  }

  /** A line that brings the balance to zero: the scan ends just after it. */
  lemma ScanCloseStop(lines: seq<string>, i: nat, balance: int)
    requires i < |lines| && balance + Delta(lines[i]) == 0
    ensures ScanClose(lines, i, balance) == Some(i + 1)
  {
  }

  /** `_find_block_end(start)`: one past the line where the balance first reaches
      zero, or nothing when it never does. */
  function BlockEnd(lines: seq<string>, start: nat): (r: Option<nat>)
    ensures r.Some? ==> start < r.value <= |lines|
  {
    ScanClose(lines, start, 1)
  }

  // ---------------------------------------------------------------------------
  // The if/or/else statement

  /** The condition of a branch, `ElseMarker` for an `else` branch. */
  const ElseMarker := "ELSE"

  /** A branch: its condition and its lines `start .. end-1`, the last being the
      closing bracket. */
  datatype Branch = Branch(cond: string, start: nat, end: nat)

  datatype Parse = Unclosed | Parsed(branches: seq<Branch>, end: nat)

  /** `re.match(r"if \[(.+?)\] then \[", line)` (or with `or`): the lazy group ends at
      the first `"] then ["` that leaves it non-empty. */
  function HeaderCondition(line: string, keyword: string): (r: Option<string>)
    requires |keyword| == 4
  {
    if !StartsWith(line, keyword) then None
    else match FindFirst(line, "] then [", 5)
      case None => None
      case Some(k) => Some(Strip(line[4..k]))
  }

  /** The condition a header line introduces: `if [...] then [` on the first line,
      `or [...] then [` afterwards, `else [` on any line. */
  function Header(line: string, first: bool): Option<string> {
    match HeaderCondition(line, if first then "if [" else "or [")
    case Some(c) => Some(c)
    case None => if StartsWith(line, "else [") then Some(ElseMarker) else None
  }

  /** The branches are laid out one after the other from the header at `cur` to
      `end`, each one starting right after its header and ending with its closing
      bracket, and only the last may be an `else` branch. */
  predicate Consecutive(bs: seq<Branch>, cur: nat, end: nat, n: nat) {
    (|bs| == 0 ==> end == cur) &&
    (|bs| > 0 ==> bs[0].start == cur + 1 && bs[|bs| - 1].end == end) &&
    (forall i :: 0 <= i < |bs| ==> 1 <= bs[i].start < bs[i].end <= n) &&
    (forall i :: 0 <= i < |bs| - 1 ==> bs[i + 1].start == bs[i].end + 1 && bs[i].cond != ElseMarker)
  }

  /** A branch in front of the rest of a parse. */
  function Prepend(b: Branch, r: Parse): (r': Parse)
    ensures r'.Parsed? <==> r.Parsed?
    ensures r'.Parsed? ==> r'.end == r.end && |r'.branches| == |r.branches| + 1 && r'.branches[0] == b
    ensures r'.Parsed? ==> forall i :: 0 <= i < |r.branches| ==> r'.branches[i + 1] == r.branches[i]
  {
    match r
    case Unclosed => Unclosed
    case Parsed(bs, e) => Parsed([b] + bs, e)
  }

  /** Phase 1 of `_handle_if_statement` from line `cur` of the statement that starts
      at `s`: headers and their blocks until a line that is no header, the end of the
      program or an `else` branch; an unclosed block fails the whole statement. */
  function ParseFrom(lines: seq<string>, s: nat, cur: nat): (r: Parse)
    ensures r.Parsed? ==> forall i :: 0 <= i < |r.branches| ==> r.branches[i].end <= |lines|
    decreases |lines| - cur
  {
    if cur >= |lines| then Parsed([], cur)
    else match Header(Strip(lines[cur]), cur == s)
      case None => Parsed([], cur)
      case Some(c) =>
        match BlockEnd(lines, cur + 1)
        case None => Unclosed
        case Some(e) =>
          var b := Branch(c, cur + 1, e);
          if c == ElseMarker then Parsed([b], e) else Prepend(b, ParseFrom(lines, s, e))
  }

  /** A line that is no header ends the parse there. */
  lemma ParseFromNoHeader(lines: seq<string>, s: nat, cur: nat)
    requires cur < |lines| && Header(Strip(lines[cur]), cur == s).None?
    ensures ParseFrom(lines, s, cur) == Parsed([], cur)
  {
  }

  /** A header whose block is unclosed fails the parse. */
  lemma ParseFromUnclosed(lines: seq<string>, s: nat, cur: nat)
    requires cur < |lines| && Header(Strip(lines[cur]), cur == s).Some?
    requires BlockEnd(lines, cur + 1).None?
    ensures ParseFrom(lines, s, cur) == Unclosed
  {
  }

  /** An `else` header with a closed block is the last branch. */
  lemma ParseFromElse(lines: seq<string>, s: nat, cur: nat, e: nat)
    requires cur < |lines| && Header(Strip(lines[cur]), cur == s) == Some(ElseMarker)
    requires BlockEnd(lines, cur + 1) == Some(e)
    ensures ParseFrom(lines, s, cur) == Parsed([Branch(ElseMarker, cur + 1, e)], e)
  {
  }

  /** Any other header with a closed block is followed by the parse after it. */
  lemma ParseFromBranch(lines: seq<string>, s: nat, cur: nat, c: string, e: nat)
    requires cur < |lines| && Header(Strip(lines[cur]), cur == s) == Some(c) && c != ElseMarker
    requires BlockEnd(lines, cur + 1) == Some(e)
    ensures ParseFrom(lines, s, cur) == Prepend(Branch(c, cur + 1, e), ParseFrom(lines, s, e))
  {
  }

  /** The parse lays the branches out one after the other from the header at `cur`
      to the end of the statement, and only the last may be an `else` branch. */
  lemma {:induction false} ParseFromLayout(lines: seq<string>, s: nat, cur: nat)
    ensures var r := ParseFrom(lines, s, cur);
            r.Parsed? ==> Consecutive(r.branches, cur, r.end, |lines|)
    decreases |lines| - cur
  {
    if cur < |lines| && Header(Strip(lines[cur]), cur == s).Some? && BlockEnd(lines, cur + 1).Some? {
      var c, e := Header(Strip(lines[cur]), cur == s).value, BlockEnd(lines, cur + 1).value;
      if c != ElseMarker {
        ParseFromLayout(lines, s, e);
        PrependConsecutive(Branch(c, cur + 1, e), ParseFrom(lines, s, e), cur, |lines|);
      }
    }
  }

  /** A non-`else` branch just after the header at `cur`, in front of branches laid
      out from its end, gives branches laid out from `cur`. */
  lemma {:induction false} PrependConsecutive(b: Branch, r: Parse, cur: nat, n: nat)
    requires b.start == cur + 1 && b.start < b.end <= n && b.cond != ElseMarker
    requires r.Parsed? ==> Consecutive(r.branches, b.end, r.end, n)
    ensures Prepend(b, r).Parsed? ==> Consecutive(Prepend(b, r).branches, cur, Prepend(b, r).end, n)
  {
    if r.Parsed? {
      var rs := r.branches;
      var bs := [b] + rs;
      assert Prepend(b, r) == Parsed(bs, r.end);
      assert forall i :: 0 <= i < |rs| ==> bs[i + 1] == rs[i];
    }
  }

  /** Each parsed branch is introduced by a header line carrying its condition, and
      its block is closed where the bracket balance first returns to zero. */
  lemma {:induction false} ParseFromHeaders(lines: seq<string>, s: nat, cur: nat)
    ensures var r := ParseFrom(lines, s, cur);
            r.Parsed? ==> forall i :: 0 <= i < |r.branches| ==> IntroducedAt(lines, s, r.branches[i])
    decreases |lines| - cur
  {
    if cur < |lines| && Header(Strip(lines[cur]), cur == s).Some? && BlockEnd(lines, cur + 1).Some? {
      var c, e := Header(Strip(lines[cur]), cur == s).value, BlockEnd(lines, cur + 1).value;
      var b := Branch(c, cur + 1, e);
      assert IntroducedAt(lines, s, b);
      if c == ElseMarker {
        ParseFromElse(lines, s, cur, e);
      } else {
        ParseFromHeaders(lines, s, e);
        ParseFromBranch(lines, s, cur, c, e);
        PrependIntroduced(lines, s, b, ParseFrom(lines, s, e));
      }
    }
  }

  /** A branch introduced by its header in front of branches introduced by theirs. */
  lemma {:induction false} PrependIntroduced(lines: seq<string>, s: nat, b: Branch, r: Parse)
    requires IntroducedAt(lines, s, b)
    requires r.Parsed? ==> forall i :: 0 <= i < |r.branches| ==> IntroducedAt(lines, s, r.branches[i])
    ensures Prepend(b, r).Parsed? ==> forall i :: 0 <= i < |Prepend(b, r).branches| ==> IntroducedAt(lines, s, Prepend(b, r).branches[i])
  {
    if r.Parsed? {
      var r' := Prepend(b, r);
      forall i | 0 <= i < |r'.branches| ensures IntroducedAt(lines, s, r'.branches[i]) {
        if i > 0 {
          assert r'.branches[i] == r.branches[i - 1];
        }
      }
    }
  }

  /** The branch is introduced by the header line just before its block, which
      carries its condition, and the block closes where the bracket balance first
      returns to zero. */
  predicate IntroducedAt(lines: seq<string>, s: nat, b: Branch) {
    1 <= b.start <= |lines| &&
    BlockEnd(lines, b.start) == Some(b.end) &&
    Header(Strip(lines[b.start - 1]), b.start - 1 == s) == Some(b.cond)
  }

  /** Parsing stops only at an `else` branch, at the end of the program, or at a line
      that is no header. */
  lemma {:induction false} ParseFromStops(lines: seq<string>, s: nat, cur: nat)
    ensures var r := ParseFrom(lines, s, cur);
            r.Parsed? && r.end < |lines| && (r.branches == [] || r.branches[|r.branches| - 1].cond != ElseMarker) ==>
              Header(Strip(lines[r.end]), r.end == s).None?
    decreases |lines| - cur
  {
    if cur < |lines| && Header(Strip(lines[cur]), cur == s).Some? && BlockEnd(lines, cur + 1).Some? {
      var c, e := Header(Strip(lines[cur]), cur == s).value, BlockEnd(lines, cur + 1).value;
      if c != ElseMarker {
        ParseFromStops(lines, s, e);
      }
    }
  }

  /** Why execution stopped early: an unclosed block, a `TypeError` from a comparison
      (it escapes the interpreter and ends the program), a comparison whose answer
      depends on a float, or the step budget. */
  datatype Halt = MalformedIf | Raised | FloatComparison | OutOfFuel

  /** Where the main loop goes on after an if-statement, or why it stops. */
  datatype Signal = Next(n: nat) | Stop(halt: Halt)

  datatype IfOut = IfOut(st: State, sig: Signal)

  /** What the if-statement and the main loop call: `_execute_single_statement` on
      one line and `_evaluate_condition` on one condition, each on the current
      state. The control flow below is written over these two, so its properties
      hold whatever the statements do; `MachineOf` plugs in the interpreter's own. */
  datatype Machine = Machine(exec: (State, string) -> Exec, test: (State, string) -> Verdict)

  /** The interpreter's statements and conditions, over the loaded program and the
      host. */
  function MachineOf(p: Program, h: Host): (m: Machine)
    ensures forall st, line :: m.exec(st, line) == ExecStmt(p, h, st, line)
    ensures forall st, cond :: m.test(st, cond) == EvalCondition(EnvOf(h, st), cond)
  {
    Machine((st: State, line: string) => ExecStmt(p, h, st, line),
            (st: State, cond: string) => EvalCondition(EnvOf(h, st), cond))
  }

  /** `m` runs the interpreter's statements and conditions over `p` and `h`. Each
      half is used only where the statement or condition it names is in view. */
  ghost predicate Realizes(m: Machine, p: Program, h: Host) {
    (forall st: State, line: string {:trigger ExecStmt(p, h, st, line)} :: m.exec(st, line) == ExecStmt(p, h, st, line)) &&
    (forall st: State, cond: string {:trigger EvalCondition(EnvOf(h, st), cond)} :: m.test(st, cond) == EvalCondition(EnvOf(h, st), cond))
  }

  lemma MachineOfRealizes(p: Program, h: Host)
    ensures Realizes(MachineOf(p, h), p, h)
  {
  }

  /** `_handle_if_statement(s)`: parse, then run the first branch whose condition
      holds. The cursor on entry is what the block execution compares against to
      notice a jump. */
  function HandleIf(p: Program, m: Machine, st: State, s: nat, fuel: nat): IfOut
    decreases fuel, 2
  {
    match ParseFrom(p.lines, s, s)
    case Unclosed => IfOut(st, Stop(MalformedIf))
    case Parsed(bs, end) => Choose(p, m, st, st.cursor, bs, end, fuel)
  }

  /** Phase 2: the branches are tried in order; an `else` branch is always taken,
      another one when its condition is true. With none taken, the statement ends at
      `end`. */
  function Choose(p: Program, m: Machine, st: State, entry: nat, bs: seq<Branch>, end: nat, fuel: nat): IfOut
    requires forall i :: 0 <= i < |bs| ==> bs[i].end <= |p.lines|
    decreases fuel, 1, |bs|
  {
    if |bs| == 0 then IfOut(st, Next(end))
    else if bs[0].cond == ElseMarker then RunBody(p, m, st, entry, bs[0].start, bs[0].end, end, fuel)
    else
      var v := m.test(st, bs[0].cond);
      var st1 := st.(trace := st.trace + v.trace);
      match v.truth
      case Known(b) =>
        if b then RunBody(p, m, st1, entry, bs[0].start, bs[0].end, end, fuel)
        else Choose(p, m, st1, entry, bs[1..], end, fuel)
      case Raises => IfOut(st1, Stop(Raised))
      case Unmodelled => IfOut(st1, Stop(FloatComparison))
  }

  /** The block loop of a taken branch, at line `idx` of a block ending at `bend`
      (whose closing bracket line is not run). A nested `if ` line first moves the
      cursor to itself and is handled recursively; any statement or nested statement
      after which the cursor differs from `entry` ends the whole statement at the
      cursor. Otherwise the statement ends at `end`. */
  function RunBody(p: Program, m: Machine, st: State, entry: nat, idx: nat, bend: nat, end: nat, fuel: nat): IfOut
    requires bend <= |p.lines|
    decreases fuel, 0, bend - idx
  {
    if idx + 1 >= bend then IfOut(st, Next(end))
    else
      var line := Strip(p.lines[idx]);
      if StartsWith(line, "if ") then
        if fuel == 0 then IfOut(st, Stop(OutOfFuel))
        else
          var r := HandleIf(p, m, st.(cursor := idx), idx, fuel - 1);
          if r.sig.Stop? then r
          else if r.st.cursor != entry then IfOut(r.st, Next(r.st.cursor))
          else RunBody(p, m, r.st, entry, r.sig.n, bend, end, fuel - 1)
      else
        var e := m.exec(st, line);
        if e.st.cursor != entry then IfOut(e.st, Next(e.st.cursor))
        else RunBody(p, m, e.st, entry, idx + 1, bend, end, fuel)
  }

  // ---------------------------------------------------------------------------
  // The main loop

  datatype Status = Finished | Halted(halt: Halt)

  datatype RunOut = RunOut(st: State, status: Status)

  /** The loop of `run` from the current cursor: label lines are skipped, `if ` lines
      go to the if-statement, other lines are single statements after which the
      cursor advances by one unless the statement moved it. */
  function RunFrom(p: Program, m: Machine, st: State, fuel: nat): RunOut
    decreases fuel, 1
  {
    if st.cursor >= |p.lines| then RunOut(st, Finished)
    else if fuel == 0 then RunOut(st, Halted(OutOfFuel))
    else
      var line := Strip(p.lines[st.cursor]);
      if StartsWith(line, "@") then RunFrom(p, m, st.(cursor := st.cursor + 1), fuel - 1)
      else if StartsWith(line, "if ") then RunIf(p, m, st, fuel)
      else
        var e := m.exec(st, line);
        var next := if e.st.cursor == st.cursor then st.cursor + 1 else e.st.cursor;
        RunFrom(p, m, e.st.(cursor := next), fuel - 1)
  }

  /** The loop at an `if ` line: the if-statement runs, and the loop stops when it
      stops and otherwise goes on at the line it hands back. */
  function RunIf(p: Program, m: Machine, st: State, fuel: nat): RunOut
    requires fuel > 0
    decreases fuel, 0
  {
    var r := HandleIf(p, m, st, st.cursor, fuel - 1);
    match r.sig
    case Stop(halt) => RunOut(r.st, Halted(halt))
    case Next(n) => RunFrom(p, m, r.st.(cursor := n), fuel - 1)
  }

  /** `run`: the loop from the first line; the interpreter runs
      `Run(p, MachineOf(p, h), st, fuel)`. */
  function Run(p: Program, m: Machine, st: State, fuel: nat): RunOut {
    RunFrom(p, m, st.(cursor := 0), fuel)
  }
}
