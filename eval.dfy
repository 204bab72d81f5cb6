/** The expression and condition evaluators (`_evaluate_expression`,
    `_evaluate_condition`). Both only read the interpreter's state; the one thing they
    do to the outside world is invoke extension functions, which they report as a
    trace of invocations. Extension functions and the general-expression fallback are
    supplied from outside as functions. All text reaching these matchers comes from
    program lines, which hold no newline, so the regular expressions' `.` is "any
    character" here. */
module Evaluator {
  import opened Text
  import opened Values

  /** What an extension function did: returned a value, or raised an exception
      (caught by the interpreter, which then uses `None`). */
  datatype CallResult = Returned(v: Value) | Failed

  type ExtFunction = seq<Value> -> CallResult

  /** Extension name -> function name -> function. */
  type Registry = map<string, map<string, ExtFunction>>

  /** The general-expression evaluator used as the last resort, given the token and
      the combined namespace (globals overridden by locals). `None` stands for the
      `NameError`, `SyntaxError` or `TypeError` the interpreter catches. */
  type Fallback = (string, map<string, Value>) -> Option<Value>

  /** One call made into an extension, with its evaluated arguments. */
  datatype Invocation = Invocation(lib: string, fn: string, args: seq<Value>)

  /** The read-only view the evaluators work on. */
  datatype Env = Env(locals: map<string, Value>, globals: map<string, Value>, ext: Registry, fallback: Fallback)

  /** The optional scope hint of `_evaluate_expression`. */
  datatype Scope = Unhinted | LocalHint | GlobalHint

  datatype Outcome = Outcome(value: Value, trace: seq<Invocation>)
  datatype Outcomes = Outcomes(values: seq<Value>, trace: seq<Invocation>)

  /** The pieces of a match of `LIB:FUNC(ARGS)`. */
  datatype CallSyntax = CallSyntax(lib: string, fn: string, argText: string)

  function CallText(c: CallSyntax): string {
    c.lib + ":" + c.fn + "(" + c.argText + ")"
  }

  /** `re.match(r"([a-zA-Z_][a-zA-Z0-9_]*):([a-zA-Z_][a-zA-Z0-9_]*)\((.*)\)", s)`: the
      match is anchored at the start only, and the greedy `(.*)` runs to the last `)`. */
  function MatchCall(s: string): (r: Option<CallSyntax>)
    ensures r.Some? ==> |r.value.argText| < |s|
  {
    var n1 := IdentRun(s, 0);
    if n1 == 0 || !IsIdentStart(s[0]) || n1 >= |s| || s[n1] != ':' then None
    else
      var p := n1 + 1;
      var n2 := IdentRun(s, p);
      if n2 == 0 || !IsIdentStart(s[p]) || p + n2 >= |s| || s[p + n2] != '(' then None
      else
        var q := p + n2 + 1;
        match LastIndex(s, ')', q)
        case None => None
        case Some(k) =>
          Some(CallSyntax(s[..n1], s[p..p + n2], s[q..k]))
  }

  /** What the matcher finds is a call written out: two identifiers, the argument
      text, and no `)` after the closing one. */
  lemma MatchCallSound(s: string)
    requires MatchCall(s).Some?
    ensures IsIdentifier(MatchCall(s).value.lib) && IsIdentifier(MatchCall(s).value.fn)
    ensures StartsWith(s, CallText(MatchCall(s).value))
    ensures forall j :: |CallText(MatchCall(s).value)| <= j < |s| ==> s[j] != ')'
  {
    var n1 := IdentRun(s, 0);
    var p := n1 + 1;
    var n2 := IdentRun(s, p);
    var q := p + n2 + 1;
    var k := LastIndex(s, ')', q).value;
    var c := CallSyntax(s[..n1], s[p..p + n2], s[q..k]);
    assert MatchCall(s) == Some(c);
    assert IsIdentifier(c.lib) by {
      IdentRunChars(s, 0);
      assert forall i :: 0 <= i < n1 ==> c.lib[i] == s[i];
    }
    assert IsIdentifier(c.fn) by {
      IdentRunChars(s, p);
      assert forall i :: 0 <= i < n2 ==> c.fn[i] == s[p + i];
    }
    assert forall j :: k < j < |s| ==> s[j] != ')' by {
      LastIndexShape(s, ')', q);
    }
    assert s[..k + 1] == CallText(c) by {
      CallTextOfSlices(s, n1, n2, k);
    }
  }

  /** The text up to a closing `)` is the call its slices spell. */
  lemma CallTextOfSlices(s: string, n1: nat, n2: nat, k: nat)
    requires n1 + n2 + 2 <= k < |s| && s[n1] == ':' && s[n1 + 1 + n2] == '(' && s[k] == ')'
    ensures s[..k + 1] == CallText(CallSyntax(s[..n1], s[n1 + 1..n1 + 1 + n2], s[n1 + n2 + 2..k]))
  {
    var p, q := n1 + 1, n1 + n2 + 2;
    assert s[..k + 1] == s[..n1] + s[n1..p] + s[p..q - 1] + s[q - 1..q] + s[q..k] + s[k..k + 1];
  }

  /** The matcher finds every call written out: two identifiers, the argument text,
      and no `)` after the closing one. Together with the contract of `MatchCall` this
      makes the match exactly the decomposition `CallText(c) + tail`. */
  lemma MatchCallComplete(c: CallSyntax, tail: string)
    requires IsIdentifier(c.lib) && IsIdentifier(c.fn)
    requires ')' !in tail
    ensures MatchCall(CallText(c) + tail) == Some(c)
  {
    CallTextPieces(c, tail);
    CallTextTail(c, tail);
    MatchCallOfPieces(CallText(c) + tail, c, |CallText(c)| - 1);
  }

  /** The matcher finds a call in any text laid out as that call's pieces with no
      `)` after the closing one. */
  lemma MatchCallOfPieces(s: string, c: CallSyntax, k: nat)
    requires IsIdentifier(c.lib) && IsIdentifier(c.fn)
    requires var n1, n2 := |c.lib|, |c.fn|;
             n1 + n2 + 2 <= k < |s| && s[..n1] == c.lib && s[n1] == ':' && s[n1 + 1..n1 + 1 + n2] == c.fn &&
             s[n1 + 1 + n2] == '(' && s[n1 + n2 + 2..k] == c.argText && s[k] == ')'
    requires forall j :: k < j < |s| ==> s[j] != ')'
    ensures MatchCall(s) == Some(c)
  {
    var n1, n2 := |c.lib|, |c.fn|;
    assert s[0..n1] == c.lib;
    IdentRunOfName(s, 0, c.lib);
    IdentRunOfName(s, n1 + 1, c.fn);
    LastIndexIs(s, ')', n1 + n2 + 2, k);
    MatchCallAt(s, n1, n2, k);
  }

  /** An identifier written at `off` and followed by a non-identifier character is the
      identifier run there. */
  lemma IdentRunOfName(s: string, off: nat, name: string)
    requires IsIdentifier(name) && off + |name| < |s| && s[off..off + |name|] == name
    requires !IsIdentChar(s[off + |name|])
    ensures IdentRun(s, off) == |name| && IsIdentStart(s[off])
  {
    assert forall j :: off <= j < off + |name| ==> s[j] == name[j - off];
    IdentRunExact(s, off, |name|);
  }

  /** Where the pieces of a written-out call sit in its text. */
  lemma CallTextPieces(c: CallSyntax, tail: string)
    ensures var s, n1, n2 := CallText(c) + tail, |c.lib|, |c.fn|;
            var q, k := n1 + n2 + 2, |CallText(c)| - 1;
            k < |s| && s[..n1] == c.lib && s[n1] == ':' && s[n1 + 1..n1 + 1 + n2] == c.fn &&
            s[n1 + 1 + n2] == '(' && s[q..k] == c.argText && s[k] == ')'
  {
    var s := CallText(c) + tail;
    var n1, n2 := |c.lib|, |c.fn|;
    var p, q, k := n1 + 1, n1 + n2 + 2, |CallText(c)| - 1;
    assert s == c.lib + [':'] + c.fn + ['('] + c.argText + [')'] + tail;
    assert s[..n1] == c.lib;
    assert s[p..p + n2] == c.fn;
    assert s[q..k] == c.argText;
  }

  /** Past the closing `)` of a written-out call comes the tail. */
  lemma CallTextTail(c: CallSyntax, tail: string)
    requires ')' !in tail
    ensures forall j :: |CallText(c)| <= j < |CallText(c) + tail| ==> (CallText(c) + tail)[j] != ')'
  {
    var s := CallText(c) + tail;
    assert forall j :: |CallText(c)| <= j < |s| ==> s[j] == tail[j - |CallText(c)|];
  }

  /** One unfolding of `MatchCall` once the two identifier runs and the last `)`
      are known. */
  lemma MatchCallAt(s: string, n1: nat, n2: nat, k: nat)
    requires 1 <= n1 < |s| && IdentRun(s, 0) == n1 && IsIdentStart(s[0]) && s[n1] == ':'
    requires 1 <= n2 && n1 + 1 + n2 < |s| && IdentRun(s, n1 + 1) == n2
    requires IsIdentStart(s[n1 + 1]) && s[n1 + 1 + n2] == '('
    requires LastIndex(s, ')', n1 + n2 + 2) == Some(k)
    ensures MatchCall(s) == Some(CallSyntax(s[..n1], s[n1 + 1..n1 + 1 + n2], s[n1 + n2 + 2..k]))
  {
  }

  /** Quoted with double or single quotes at both ends. */
  predicate IsQuoted(t: string) {
    (StartsWith(t, "\"") && EndsWith(t, "\"")) || (StartsWith(t, "'") && EndsWith(t, "'"))
  }

  /** `t[1:-1]`, which is empty for a lone quote character. */
  function Unquote(t: string): string {
    if |t| >= 2 then t[1..|t| - 1] else ""
  }

  function StripAll(ps: seq<string>): (r: seq<string>)
    ensures |r| == |ps|
    ensures forall i :: 0 <= i < |ps| ==> r[i] == Strip(ps[i])
  {
    if |ps| == 0 then [] else [Strip(ps[0])] + StripAll(ps[1..])
  }

  /** The library and function of a call are both registered. */
  predicate Resolves(env: Env, c: CallSyntax) {
    c.lib in env.ext && c.fn in env.ext[c.lib]
  }

  /** Calls a registered function on evaluated arguments; an exception becomes `None`.
      The invocation is recorded after the arguments' own invocations. */
  function Apply(env: Env, c: CallSyntax, args: Outcomes): (o: Outcome)
    requires Resolves(env, c)
    ensures o.trace == args.trace + [Invocation(c.lib, c.fn, args.values)]
  {
    var result := env.ext[c.lib][c.fn](args.values);
    Outcome(if result.Returned? then result.v else Absent, args.trace + [Invocation(c.lib, c.fn, args.values)])
  }

  /** Variable lookup (the scope hint is tried first, then locals, then globals), then
      the general-expression fallback, then the token itself as a string. */
  function Lookup(env: Env, t: string, scope: Scope): Value {
    if scope == LocalHint && t in env.locals then env.locals[t]
    else if scope == GlobalHint && t in env.globals then env.globals[t]
    else if t in env.locals then env.locals[t]
    else if t in env.globals then env.globals[t]
    else match env.fallback(t, env.globals + env.locals)
      case Some(v) => v
      case None => Str(t)
  }

  /** `_evaluate_expression`: int literal, float literal, quoted string, extension
      call, then variable lookup and fallback. */
  function Eval(env: Env, t: string, scope: Scope): (o: Outcome)
    decreases |t|, 2
  {
    if IsIntLiteral(t) then Outcome(Int(IntLiteralValue(t)), [])
    else if IsFloatLiteral(t) then Outcome(Float, [])
    else if IsQuoted(t) then Outcome(Str(Unquote(t)), [])
    else match MatchCall(t)
      case Some(c) =>
        if Resolves(env, c) then Apply(env, c, ArgValues(env, c.argText, |t|))
        else Outcome(Absent, [])
      case None => Outcome(Lookup(env, t, scope), [])
  }

  /** The argument list of a call: nothing when the stripped text is empty, otherwise
      the comma-separated pieces, each stripped and evaluated left to right. */
  function ArgValues(env: Env, argText: string, bound: nat): (o: Outcomes)
    requires |argText| < bound
    decreases bound, 1
  {
    var text := Strip(argText);
    if text == "" then Outcomes([], [])
    else EvalArgs(env, StripAll(Split(text, ',')), bound)
  }

  /** The arguments evaluated left to right without a scope hint: one value per
      argument, each the value of that argument alone (`EvalArgsCons` states how
      the invocations follow one another). */
  function EvalArgs(env: Env, args: seq<string>, bound: nat): (o: Outcomes)
    requires forall i :: 0 <= i < |args| ==> |args[i]| < bound
    ensures |o.values| == |args|
    ensures forall i :: 0 <= i < |args| ==> o.values[i] == Eval(env, args[i], Unhinted).value
    decreases bound, 0, |args|
  {
    if |args| == 0 then Outcomes([], [])
    else
      var first := Eval(env, args[0], Unhinted);
      var rest := EvalArgs(env, args[1..], bound);
      Outcomes([first.value] + rest.values, first.trace + rest.trace)
  }

  /** The invocations of a list of arguments are the first argument's followed by the
      rest's, so they appear argument by argument, left to right. (The values follow
      the arguments one by one by `EvalArgs`'s own contract.) */
  lemma EvalArgsCons(env: Env, args: seq<string>, bound: nat)
    requires forall i :: 0 <= i < |args| ==> |args[i]| < bound
    requires |args| > 0
    ensures EvalArgs(env, args, bound).trace == Eval(env, args[0], Unhinted).trace + EvalArgs(env, args[1..], bound).trace
  {
  }

  /** One argument alone: its own value and its own invocations. */
  lemma EvalArgsSingle(env: Env, arg: string, bound: nat)
    requires |arg| < bound
    ensures EvalArgs(env, [arg], bound) == Outcomes([Eval(env, arg, Unhinted).value], Eval(env, arg, Unhinted).trace)
  {
    assert [arg][1..] == [];
  }

  /** The result of a condition and the extension invocations made to reach it. */
  datatype Verdict = Verdict(truth: Truth, trace: seq<Invocation>)

  /** The comparison of a condition, after numeric-string coercion. */
  function CompareCoerced(op: string, l: Value, r: Value): Truth {
    var p := Coerce(l, r);
    Compare(op, p.0, p.1)
  }

  /** `_evaluate_condition`: `LHS OP RHS` (right side evaluated first; the left side is
      a variable, else an expression that must not come back as its own text), a lone
      token under truthiness, anything else false. */
  function EvalCondition(env: Env, c: string): Verdict {
    var parts := Split(c, ' ');
    if |parts| == 3 then
      var rhs := Eval(env, parts[2], Unhinted);
      if parts[0] in env.locals then
        Verdict(CompareCoerced(parts[1], env.locals[parts[0]], rhs.value), rhs.trace)
      else if parts[0] in env.globals then
        Verdict(CompareCoerced(parts[1], env.globals[parts[0]], rhs.value), rhs.trace)
      else
        var lhs := Eval(env, parts[0], Unhinted);
        if lhs.value == Str(parts[0]) then Verdict(Known(false), rhs.trace + lhs.trace)
        else Verdict(CompareCoerced(parts[1], lhs.value, rhs.value), rhs.trace + lhs.trace)
    else if |parts| == 1 then
      var v := Eval(env, parts[0], Unhinted);
      Verdict(Truthy(v.value), v.trace)
    else Verdict(Known(false), [])
  }

  // ---------------------------------------------------------------------------
  // Properties of the evaluators

  /** A token that starts like a word (letter or underscore) is neither a number nor
      a quoted string, so evaluation goes on to the call pattern and the lookup. */
  lemma WordIsNoLiteral(t: string)
    requires |t| >= 1 && IsIdentStart(t[0])
    ensures !IsIntLiteral(t) && !IsFloatLiteral(t) && !IsQuoted(t)
  {
    assert !IsSpace(t[0]);
    assert StripLeft(t) == t;
    StripRightShape(t);
    assert Strip(t)[0] == t[0];
    assert !IsDigit(t[0]);
    var u := Strip(t);
    assert u[0] != '.';
    assert WithoutFirstDot(u)[0] == u[0];
  }

  /** A quoted string evaluates to its text between the quotes, makes no calls, and
      ignores the namespaces. */
  lemma QuotedStringIsLiteral(env: Env, t: string, scope: Scope)
    requires |t| >= 2 && t[0] == t[|t| - 1] && (t[0] == '"' || t[0] == '\'')
    ensures Eval(env, t, scope) == Outcome(Str(t[1..|t| - 1]), [])
  {
    StripUnpadded(t);
    assert !IsDigit(t[0]);
    assert !IsIntLiteral(t);
    assert WithoutFirstDot(t)[0] == t[0];
    assert !IsFloatLiteral(t);
    assert IsQuoted(t);
  }

  /** A call to an extension or function that is not registered yields `None`, and no
      argument is evaluated. */
  lemma UnresolvedCallIsAbsent(env: Env, c: CallSyntax, tail: string, scope: Scope)
    requires IsIdentifier(c.lib) && IsIdentifier(c.fn) && ')' !in tail
    requires !Resolves(env, c)
    ensures Eval(env, CallText(c) + tail, scope) == Outcome(Absent, [])
  {
    MatchCallComplete(c, tail);
    WordIsNoLiteral(CallText(c) + tail);
  }

  /** A call to a registered function returns what the function returned (`None` if it
      raised), and its invocation is the last one in the trace. */
  lemma ResolvedCallInvokes(env: Env, c: CallSyntax, tail: string, scope: Scope)
    requires IsIdentifier(c.lib) && IsIdentifier(c.fn) && ')' !in tail
    requires Resolves(env, c)
    ensures var o := Eval(env, CallText(c) + tail, scope);
            var args := ArgValues(env, c.argText, |CallText(c) + tail|);
            o.trace == args.trace + [Invocation(c.lib, c.fn, args.values)] &&
            o.value == match env.ext[c.lib][c.fn](args.values) { case Returned(v) => v case Failed => Absent }
  {
    MatchCallComplete(c, tail);
    WordIsNoLiteral(CallText(c) + tail);
  }

  /** The scope hint only biases the first lookup: the `local` hint changes nothing,
      and the `global` hint matters only for a name bound in both namespaces. */
  lemma ScopeHintOnlyBiasesGlobals(env: Env, t: string)
    ensures Eval(env, t, LocalHint) == Eval(env, t, Unhinted)
    ensures Eval(env, t, GlobalHint) != Eval(env, t, Unhinted) ==> t in env.locals && t in env.globals
  {
  }

  /** A bare word that is no literal, no call, no variable, and that the fallback
      cannot evaluate passes through as its own text. */
  lemma UnresolvedWordPassesThrough(env: Env, t: string, scope: Scope)
    requires |t| >= 1 && IsIdentStart(t[0]) && MatchCall(t).None?
    requires t !in env.locals && t !in env.globals
    requires env.fallback(t, env.globals + env.locals).None?
    ensures Eval(env, t, scope) == Outcome(Str(t), [])
  {
    WordIsNoLiteral(t);
  }

  /** A condition that is neither one token nor three is false and calls nothing. */
  lemma MalformedConditionIsFalse(env: Env, c: string)
    requires |Split(c, ' ')| != 1 && |Split(c, ' ')| != 3
    ensures EvalCondition(env, c) == Verdict(Known(false), [])
  {
  }

  /** An operator outside `= != > < >= <=` makes a three-token condition false, after
      its operands have been evaluated. */
  lemma UnsupportedOperatorIsFalse(env: Env, c: string)
    requires |Split(c, ' ')| == 3
    requires Split(c, ' ')[1] !in {"=", "!=", ">", "<", ">=", "<="}
    ensures EvalCondition(env, c).truth == Known(false)
  {
  }

  /** A left operand bound to a number, compared with a right operand that evaluates
      to a digit string, compares as two ints. */
  lemma NumericStringOperandCoerced(env: Env, c: string, n: int, digits: string)
    requires |Split(c, ' ')| == 3
    requires Split(c, ' ')[1] in {"=", "!=", ">", "<", ">=", "<="}
    requires Split(c, ' ')[0] in env.locals && env.locals[Split(c, ' ')[0]] == Int(n)
    requires Eval(env, Split(c, ' ')[2], Unhinted).value == Str(digits)
    requires |digits| >= 1 && AllDigits(digits)
    ensures EvalCondition(env, c).truth == Compare(Split(c, ' ')[1], Int(n), Int(DigitsValue(digits)))
  {
    CoercedDigitsCompareAsInts(Split(c, ' ')[1], n, digits);
  }

  /** A left operand that is no variable and evaluates to its own text is an error:
      the condition is false whatever the operator and the right side. */
  lemma UnresolvedLeftOperandIsFalse(env: Env, c: string)
    requires |Split(c, ' ')| == 3
    requires Split(c, ' ')[0] !in env.locals && Split(c, ' ')[0] !in env.globals
    requires Eval(env, Split(c, ' ')[0], Unhinted).value == Str(Split(c, ' ')[0])
    ensures EvalCondition(env, c).truth == Known(false)
  {
  }
}
