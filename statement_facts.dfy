/** Properties of single statements and of the block scanner: which statements may
    touch which part of the state, what `jump` does with the label table the loader
    built, and where `_find_block_end` stops. */
module StatementFacts {
  import opened Text
  import opened Values
  import opened Evaluator
  import opened Loader
  import opened Semantics

  /** Nothing is lost: every bound name, every loaded extension and every logged
      invocation survives, in order. */
  ghost predicate Extends(st: State, st': State) {
    st.locals.Keys <= st'.locals.Keys && st.globals.Keys <= st'.globals.Keys &&
    st.ext.Keys <= st'.ext.Keys && st.trace <= st'.trace
  }

  /** The part of the state a statement leaves alone, and what it may add. */
  ghost predicate OnlyAdds(st: State, st': State, locals: bool, globals: bool, ext: bool) {
    (if locals then st.locals.Keys <= st'.locals.Keys else st'.locals.Keys == st.locals.Keys) &&
    (if globals then st.globals.Keys <= st'.globals.Keys else st'.globals.Keys == st.globals.Keys) &&
    (if ext then st.ext.Keys <= st'.ext.Keys else st'.ext == st.ext) &&
    st'.cursor == st.cursor && st.trace <= st'.trace
  }

  /** A `local` line may add a local name and leaves the globals as they were. */
  lemma DeclareLocalShape(h: Host, st: State, line: string)
    ensures OnlyAdds(st, DeclareLocal(h, st, line).st, true, false, false)
    ensures DeclareLocal(h, st, line).st.globals == st.globals
  {
    if LastAssign(line, 6).Some? {
      var k := LastAssign(line, 6).value;
      var o := Eval(EnvOf(h, st), Strip(line[k + 3..]), LocalHint);
      assert st.trace <= st.trace + o.trace;
    }
  }

  /** A `global` line may add a global name and leaves the locals as they were. */
  lemma DeclareGlobalShape(h: Host, st: State, line: string)
    ensures OnlyAdds(st, DeclareGlobal(h, st, line).st, false, true, false)
    ensures DeclareGlobal(h, st, line).st.locals == st.locals
  {
    if LastAssign(line, 7).Some? {
      var k := LastAssign(line, 7).value;
      var o := Eval(EnvOf(h, st), Strip(line[k + 3..]), GlobalHint);
      assert st.trace <= st.trace + o.trace;
    }
  }

  /** `set NAME = LIB:FUNC(ARGS)` binds no new name, loads nothing and only adds to
      the trace. */
  lemma SetFromCallShape(h: Host, st: State, name: string, c: CallSyntax, bound: nat)
    requires |c.argText| < bound
    ensures OnlyAdds(st, SetFromCall(h, st, name, c, bound).st, false, false, false)
  {
    if c.lib in st.ext && c.fn in st.ext[c.lib] {
      var args := ArgValues(EnvOf(h, st), c.argText, bound);
      assert st.trace <= st.trace + args.trace + [Invocation(c.lib, c.fn, args.values)];
    }
  }

  /** `set` binds no new name in either namespace, whichever form the line takes and
      whether or not it succeeds. */
  lemma SetVarShape(h: Host, st: State, line: string)
    ensures OnlyAdds(st, SetVar(h, st, line).st, false, false, false)
  {
    match LastCallAssign(line)
    case Some(k) =>
      var c := MatchCall(line[k + 3..]).value;
      assert SetVar(h, st, line) == SetFromCall(h, st, Strip(line[4..k]), c, |line|);
      SetFromCallShape(h, st, Strip(line[4..k]), c, |line|);
    case None =>
      if LastAssign(line, 4).Some? {
        var k := LastAssign(line, 4).value;
        var o := Eval(EnvOf(h, st), Strip(line[k + 3..]), Unhinted);
        assert st.trace <= st.trace + o.trace;
      }
  }

  /** An extension call on its own line only adds to the trace. */
  lemma CallStmtShape(h: Host, st: State, line: string)
    ensures var r := CallStmt(h, st, line);
            r.st == st.(trace := r.st.trace) && st.trace <= r.st.trace
  {
    var o := Eval(EnvOf(h, st), Strip(line), Unhinted);
    assert st.trace <= st.trace + o.trace;
  }

  /** A statement never unbinds a name, unloads an extension or forgets a call; only
      a `local` line binds a new local name, only a `global` line a new global name,
      only an `.include` line changes the extensions, and only a `jump` line moves
      the cursor. */
  lemma StatementScopes(p: Program, h: Host, st: State, line: string)
    ensures Extends(st, ExecStmt(p, h, st, line).st)
    ensures ExecStmt(p, h, st, line).st.locals.Keys != st.locals.Keys ==> StartsWith(line, "local ")
    ensures ExecStmt(p, h, st, line).st.globals.Keys != st.globals.Keys ==> StartsWith(line, "global ")
    ensures ExecStmt(p, h, st, line).st.ext != st.ext ==> StartsWith(line, ".include ")
    ensures ExecStmt(p, h, st, line).st.cursor != st.cursor ==> StartsWith(line, "jump ")
  {
    var r := ExecStmt(p, h, st, line);
    if StartsWith(line, "local ") {
      DeclareLocalShape(h, st, line);
    } else if StartsWith(line, "global ") {
      DeclareGlobalShape(h, st, line);
      assert !StartsWith(line, "local ") && r == DeclareGlobal(h, st, line);
    } else if StartsWith(line, "set ") {
      SetVarShape(h, st, line);
      assert r == SetVar(h, st, line);
    } else if MatchCall(line).Some? {
      CallStmtShape(h, st, line);
      assert r == CallStmt(h, st, line);
    } else if StartsWith(line, "jump ") {
      assert r == Jump(p, st, line);
    } else if StartsWith(line, ".include ") {
      assert r == Include(h, st, line);
    } else {
      assert r.st == st;
    }
  }

  /** Only `jump` moves the cursor. */
  lemma OnlyJumpMovesCursor(p: Program, h: Host, st: State, line: string)
    ensures ExecStmt(p, h, st, line).st.cursor != st.cursor ==> StartsWith(line, "jump ")
  {
    StatementScopes(p, h, st, line);
  }

  /** `set` never declares: the bound names, the extensions and the cursor stay as
      they were, whichever form the line takes and whether or not it succeeds. */
  lemma SetNeverDeclares(p: Program, h: Host, st: State, line: string)
    requires StartsWith(line, "set ")
    ensures var r := ExecStmt(p, h, st, line);
            r.st.locals.Keys == st.locals.Keys && r.st.globals.Keys == st.globals.Keys &&
            r.st.ext == st.ext && r.st.cursor == st.cursor
  {
    assert ExecStmt(p, h, st, line) == SetVar(h, st, line) by {
      StatementForms(p, h, st, line);
    }
    SetVarShape(h, st, line);
  }

  /** A `local NAME = EXPR` line binds the stripped name in the locals to the value of
      the stripped expression, evaluated with the local hint, and leaves the globals
      alone; without a `" = "` splitting it into two non-empty parts it is a syntax
      error that changes nothing. */
  lemma LocalDeclarationBindsLocal(h: Host, st: State, line: string)
    ensures var r := DeclareLocal(h, st, line);
            match LastAssign(line, 6)
            case None => r == Exec(st, SyntaxError)
            case Some(k) =>
              var name, o := Strip(line[6..k]), Eval(EnvOf(h, st), Strip(line[k + 3..]), LocalHint);
              r.report == Done && name in r.st.locals && r.st.locals[name] == o.value &&
              r.st.globals == st.globals && r.st.locals.Keys == st.locals.Keys + {name} &&
              r.st.trace == st.trace + o.trace
  {
  }

  /** A `global NAME = EXPR` line binds the stripped name in the globals, evaluating
      with the global hint, and leaves the locals alone. */
  lemma GlobalDeclarationBindsGlobal(h: Host, st: State, line: string)
    ensures var r := DeclareGlobal(h, st, line);
            match LastAssign(line, 7)
            case None => r == Exec(st, SyntaxError)
            case Some(k) =>
              var name, o := Strip(line[7..k]), Eval(EnvOf(h, st), Strip(line[k + 3..]), GlobalHint);
              r.report == Done && name in r.st.globals && r.st.globals[name] == o.value &&
              r.st.locals == st.locals && r.st.globals.Keys == st.globals.Keys + {name} &&
              r.st.trace == st.trace + o.trace
  {
  }

  /** Which form a line takes: the statement keyword it starts with decides, before
      the extension-call pattern is tried. */
  lemma StatementForms(p: Program, h: Host, st: State, line: string)
    ensures StartsWith(line, "local ") ==> ExecStmt(p, h, st, line) == DeclareLocal(h, st, line)
    ensures StartsWith(line, "global ") ==> ExecStmt(p, h, st, line) == DeclareGlobal(h, st, line)
    ensures StartsWith(line, "set ") ==> ExecStmt(p, h, st, line) == SetVar(h, st, line)
    ensures StartsWith(line, "jump ") ==> ExecStmt(p, h, st, line) == Jump(p, st, line)
  {
    KeywordInitial(line, "local ");
    KeywordInitial(line, "global ");
    KeywordInitial(line, "set ");
    KeywordInitial(line, "jump ");
    if StartsWith(line, "jump ") {
      JumpIsNoCall(line);
    }
  }

  /** A line starting with a keyword starts with the keyword's first character; the
      four statement keywords have different first characters. */
  lemma KeywordInitial(line: string, kw: string)
    requires |kw| >= 1
    ensures StartsWith(line, kw) ==> |line| >= 1 && line[0] == kw[0]
  {
  }

  /** In `set NAME = LIB:FUNC(ARGS)`, a library or function that is not registered
      is reported and nothing is evaluated or called. */
  lemma SetFromCallFailures(h: Host, st: State, name: string, c: CallSyntax, bound: nat)
    requires |c.argText| < bound
    ensures c.lib !in st.ext ==> SetFromCall(h, st, name, c, bound) == Exec(st, UnknownExtension)
    ensures c.lib in st.ext && c.fn !in st.ext[c.lib] ==> SetFromCall(h, st, name, c, bound) == Exec(st, UnknownFunction)
  {
  }

  /** A call that raised assigns nothing; it is logged as the last invocation. */
  lemma SetFromFailedCall(h: Host, st: State, name: string, c: CallSyntax, bound: nat)
    requires |c.argText| < bound
    ensures var r := SetFromCall(h, st, name, c, bound);
            r.report == CallFailed ==>
              r.st.locals == st.locals && r.st.globals == st.globals &&
              |r.st.trace| > |st.trace| && r.st.trace[|r.st.trace| - 1].lib == c.lib &&
              r.st.trace[|r.st.trace| - 1].fn == c.fn
  {
  }

  /** A `jump` line is no extension call. */
  lemma JumpIsNoCall(line: string)
    requires StartsWith(line, "jump ")
    ensures MatchCall(line).None?
  {
    assert line[..5] == "jump ";
    assert line[4] == ' ' && IsIdentChar(line[0]) && IsIdentChar(line[1]) && IsIdentChar(line[2]) && IsIdentChar(line[3]);
    IdentRunExact(line, 0, 4);
  }

  /** A `jump` moves the cursor to the label's line when the label is known,
      otherwise past the last line, which ends the program. Nothing else changes. */
  lemma JumpSemantics(p: Program, h: Host, st: State, line: string)
    ensures StartsWith(line, "jump ") ==>
              ExecStmt(p, h, st, line) ==
                if JumpTarget(line) in p.labels then Exec(st.(cursor := p.labels[JumpTarget(line)]), Done)
                else Exec(st.(cursor := |p.lines|), UnknownLabel)
  {
    StatementForms(p, h, st, line);
  }

  /** With the label table the loader builds, a jump to a label that some line
      declares lands on a line declaring that label. */
  lemma JumpReachesDeclaredLabel(base: map<string, nat>, lines: seq<string>, h: Host, st: State, line: string)
    requires StartsWith(line, "jump ") && Declares(lines, JumpTarget(line))
    ensures var r := ExecStmt(Program(lines, MapLabels(base, lines)), h, st, line);
            r.report == Done && r.st.cursor < |lines| && IsLabelOf(lines[r.st.cursor], JumpTarget(line)) &&
            r.st == st.(cursor := r.st.cursor)
  {
    var name := JumpTarget(line);
    var i :| 0 <= i < |lines| && IsLabelOf(lines[i], name);
    LabelTableIsLastDeclaration(base, lines);
    assert StartsWith(lines[i], "@") && lines[i][1..] == name;
    assert name in MapLabels(base, lines);
    JumpSemantics(Program(lines, MapLabels(base, lines)), h, st, line);
  }

  /** The scan of `_find_block_end` from line `i`, with the balance of the lines
      before it, stops at the first later line where the balance is zero. */
  lemma {:induction false} ScanCloseFirstZero(lines: seq<string>, start: nat, i: nat, balance: int)
    requires start <= i <= |lines| && balance == Depth(lines, start, i)
    ensures ScanClose(lines, i, balance).Some? ==>
              var e := ScanClose(lines, i, balance).value;
              Depth(lines, start, e) == 0 && forall j :: i < j < e ==> Depth(lines, start, j) != 0
    ensures ScanClose(lines, i, balance).None? ==> forall j :: i < j <= |lines| ==> Depth(lines, start, j) != 0
    decreases |lines| - i
  {
    if i < |lines| {
      var b := balance + Delta(lines[i]);
      assert Depth(lines, start, i + 1) == b;
      if b != 0 {
        ScanCloseFirstZero(lines, start, i + 1, b);
        assert ScanClose(lines, i, balance) == ScanClose(lines, i + 1, b);
        forall j | i < j <= i + 1 ensures Depth(lines, start, j) != 0 {
        }
      }
    }
  }

  /** `_find_block_end(start)` succeeds with `e` exactly when `e` is the first line
      boundary after `start` where the bracket balance, starting from the header's
      open bracket, comes back to zero; it fails exactly when there is none. */
  lemma BlockEndIsFirstZero(lines: seq<string>, start: nat, e: nat)
    requires start <= |lines|
    ensures BlockEnd(lines, start) == Some(e) <==>
              start < e <= |lines| && Depth(lines, start, e) == 0 && forall j :: start < j < e ==> Depth(lines, start, j) != 0
    ensures BlockEnd(lines, start).None? <==> forall j :: start < j <= |lines| ==> Depth(lines, start, j) != 0
  {
    ScanCloseFirstZero(lines, start, start, 1);
  }
}
