/** The program loader (`load_program`, `_map_labels`) as specification functions:
    which raw lines survive, in what order, and what the label table holds. The
    interpreter's methods that build them step by step are proved equal to these. */
module Loader {
  import opened Text

  /** A stripped line is kept when it is a label, or non-empty and not a comment. */
  predicate Kept(t: string) {
    StartsWith(t, "@") || (!StartsWith(t, ";") && t != "")
  }

  /** The program lines made from raw lines: each stripped, the kept ones in order. */
  function ProgramLines(raw: seq<string>): seq<string>
    decreases |raw|
  {
    if |raw| == 0 then []
    else
      var t := Strip(raw[|raw| - 1]);
      ProgramLines(raw[..|raw| - 1]) + (if Kept(t) then [t] else [])
  }

  /** One more raw line: it joins the program, stripped, when it is kept. */
  lemma ProgramLinesStep(raw: seq<string>, i: nat)
    requires i < |raw|
    ensures ProgramLines(raw[..i + 1]) ==
              ProgramLines(raw[..i]) + (if Kept(Strip(raw[i])) then [Strip(raw[i])] else [])
  {
    assert raw[..i + 1][..i] == raw[..i];
  }

  /** The positions of the raw lines that are kept, in increasing order. */
  function KeptIndices(raw: seq<string>): seq<nat>
    decreases |raw|
  {
    if |raw| == 0 then []
    else KeptIndices(raw[..|raw| - 1]) + (if Kept(Strip(raw[|raw| - 1])) then [|raw| - 1] else [])
  }

  /** The loader keeps exactly the raw lines whose stripped text is `Kept`, stripped,
      in their original relative order, and nothing else: program line `j` is raw
      line `KeptIndices(raw)[j]`, those indices increase, and an index appears among
      them exactly when its line is kept. */
  lemma {:induction false} ProgramLinesAreKeptLinesInOrder(raw: seq<string>)
    ensures KeptLinesInOrder(raw, KeptIndices(raw), ProgramLines(raw))
    decreases |raw|
  {
    if |raw| > 0 {
      var n := |raw| - 1;
      var init := raw[..n];
      ProgramLinesAreKeptLinesInOrder(init);
      var k0, p0 := KeptIndices(init), ProgramLines(init);
      var t := Strip(raw[n]);
      assert KeptIndices(raw) == k0 + (if Kept(t) then [n] else []);
      assert ProgramLines(raw) == p0 + (if Kept(t) then [t] else []);
      KeptLinesExtend(raw, k0, p0);
    }
  }

  /** `lines` is `raw` filtered through `Kept` after stripping, `indices` telling
      where each line came from. */
  ghost predicate KeptLinesInOrder(raw: seq<string>, indices: seq<nat>, lines: seq<string>) {
    |lines| == |indices| &&
    (forall j :: 0 <= j < |indices| ==> indices[j] < |raw| && lines[j] == Strip(raw[indices[j]])) &&
    (forall j, k :: 0 <= j < k < |indices| ==> indices[j] < indices[k]) &&
    (forall i :: 0 <= i < |raw| ==> (i in indices <==> Kept(Strip(raw[i]))))
  }

  lemma KeptLinesExtend(raw: seq<string>, k0: seq<nat>, p0: seq<string>)
    requires |raw| > 0 && KeptLinesInOrder(raw[..|raw| - 1], k0, p0)
    ensures var n, t := |raw| - 1, Strip(raw[|raw| - 1]);
            KeptLinesInOrder(raw, k0 + (if Kept(t) then [n] else []), p0 + (if Kept(t) then [t] else []))
  {
    var n, t := |raw| - 1, Strip(raw[|raw| - 1]);
    var k, p := k0 + (if Kept(t) then [n] else []), p0 + (if Kept(t) then [t] else []);
    ExtendOrigins(raw, k0, p0, k, p);
    ExtendIncreasing(raw, k0, p0, k);
    ExtendMembership(raw, k0, p0, k);
  }

  lemma ExtendOrigins(raw: seq<string>, k0: seq<nat>, p0: seq<string>, k: seq<nat>, p: seq<string>)
    requires |raw| > 0 && KeptLinesInOrder(raw[..|raw| - 1], k0, p0)
    requires var n, t := |raw| - 1, Strip(raw[|raw| - 1]);
             k == k0 + (if Kept(t) then [n] else []) && p == p0 + (if Kept(t) then [t] else [])
    ensures |p| == |k| && forall j :: 0 <= j < |k| ==> k[j] < |raw| && p[j] == Strip(raw[k[j]])
  {
    var init := raw[..|raw| - 1];
    forall j | 0 <= j < |k| ensures k[j] < |raw| && p[j] == Strip(raw[k[j]]) {
      if j < |k0| {
        assert k[j] == k0[j] && p[j] == p0[j] && init[k0[j]] == raw[k0[j]];
      }
    }
  }

  lemma ExtendIncreasing(raw: seq<string>, k0: seq<nat>, p0: seq<string>, k: seq<nat>)
    requires |raw| > 0 && KeptLinesInOrder(raw[..|raw| - 1], k0, p0)
    requires k == k0 + (if Kept(Strip(raw[|raw| - 1])) then [|raw| - 1] else [])
    ensures forall j, j' :: 0 <= j < j' < |k| ==> k[j] < k[j']
  {
    forall j, j' | 0 <= j < j' < |k| ensures k[j] < k[j'] {
      if j' < |k0| {
        assert k[j] == k0[j] && k[j'] == k0[j'];
      } else {
        assert k[j] == k0[j] < |raw| - 1;
      }
    }
  }

  lemma ExtendMembership(raw: seq<string>, k0: seq<nat>, p0: seq<string>, k: seq<nat>)
    requires |raw| > 0 && KeptLinesInOrder(raw[..|raw| - 1], k0, p0)
    requires k == k0 + (if Kept(Strip(raw[|raw| - 1])) then [|raw| - 1] else [])
    ensures forall i :: 0 <= i < |raw| ==> (i in k <==> Kept(Strip(raw[i])))
  {
    var n := |raw| - 1;
    var init := raw[..n];
    forall i | 0 <= i < |raw| ensures i in k <==> Kept(Strip(raw[i])) {
      if i < n {
        assert init[i] == raw[i];
        assert i in k <==> i in k0;
      } else {
        assert n !in k0;
      }
    }
  }

  /** Every program line is kept text: nothing else enters the program. */
  lemma {:induction false} ProgramLinesAreKept(raw: seq<string>)
    ensures forall j :: 0 <= j < |ProgramLines(raw)| ==> Kept(ProgramLines(raw)[j])
    decreases |raw|
  {
    if |raw| > 0 {
      ProgramLinesAreKept(raw[..|raw| - 1]);
    }
  }

  /** Lines split from the source text hold no newline, and neither do the stripped
      program lines made from them. */
  lemma {:induction false} ProgramLinesHaveNoNewline(code: string)
    ensures forall j, k :: 0 <= j < |ProgramLines(Split(code, '\n'))| && 0 <= k < |ProgramLines(Split(code, '\n'))[j]| ==>
              ProgramLines(Split(code, '\n'))[j][k] != '\n'
  {
    var raw := Split(code, '\n');
    SplitPiecesLackSeparator(code, '\n');
    ProgramLinesAreKeptLinesInOrder(raw);
    forall j, k | 0 <= j < |ProgramLines(raw)| && 0 <= k < |ProgramLines(raw)[j]|
      ensures ProgramLines(raw)[j][k] != '\n'
    {
      assert KeptIndices(raw)[j] < |raw|;
      var piece := raw[KeptIndices(raw)[j]];
      StripSlice(piece);
      assert ProgramLines(raw)[j][k] == piece[LeadingSpace(piece) + k];
    }
  }

  /** `line` declares the label `name`: it is `"@" + name`. */
  predicate IsLabelOf(line: string, name: string) {
    StartsWith(line, "@") && line[1..] == name
  }

  /** The label table after scanning `lines` on top of `base` (the table is never
      cleared): each `@name` line maps `name` to its index, later lines overwriting
      earlier ones. */
  function MapLabels(base: map<string, nat>, lines: seq<string>): map<string, nat>
    decreases |lines|
  {
    if |lines| == 0 then base
    else
      var m := MapLabels(base, lines[..|lines| - 1]);
      var last := lines[|lines| - 1];
      if StartsWith(last, "@") then m[last[1..] := |lines| - 1] else m
  }

  /** One more program line: a label line enters the table at its index. */
  lemma MapLabelsStep(base: map<string, nat>, lines: seq<string>, i: nat)
    requires i < |lines|
    ensures MapLabels(base, lines[..i + 1]) ==
              if StartsWith(lines[i], "@") then MapLabels(base, lines[..i])[lines[i][1..] := i] else MapLabels(base, lines[..i])
  {
    assert lines[..i + 1][..i] == lines[..i];
  }

  /** Some line declares `name`. */
  predicate Declares(lines: seq<string>, name: string) {
    exists i :: 0 <= i < |lines| && IsLabelOf(lines[i], name)
  }

  /** The label table is complete and sound, and the last declaration wins: every
      declared name maps to a line declaring it, at or after each of its declarations;
      a name no line declares keeps its earlier entry. */
  lemma {:induction false} LabelTableIsLastDeclaration(base: map<string, nat>, lines: seq<string>)
    ensures forall i :: 0 <= i < |lines| && StartsWith(lines[i], "@") ==>
              var m := MapLabels(base, lines);
              lines[i][1..] in m && i <= m[lines[i][1..]] < |lines| && IsLabelOf(lines[m[lines[i][1..]]], lines[i][1..])
    ensures forall n :: n in MapLabels(base, lines) && Declares(lines, n) ==>
              MapLabels(base, lines)[n] < |lines| && IsLabelOf(lines[MapLabels(base, lines)[n]], n)
    ensures forall n :: n in MapLabels(base, lines) && !Declares(lines, n) ==> n in base && MapLabels(base, lines)[n] == base[n]
    ensures forall n :: n in base ==> n in MapLabels(base, lines)
  {
    LabelTableLastWins(base, lines);
    LabelTableSound(base, lines);
    LabelTableKeepsBase(base, lines);
  }

  /** Every declaration is in the table, pointing at it or at a later declaration of
      the same name. */
  lemma {:induction false} LabelTableLastWins(base: map<string, nat>, lines: seq<string>)
    ensures forall i :: 0 <= i < |lines| && StartsWith(lines[i], "@") ==>
              var m := MapLabels(base, lines);
              lines[i][1..] in m && i <= m[lines[i][1..]] < |lines| && IsLabelOf(lines[m[lines[i][1..]]], lines[i][1..])
    decreases |lines|
  {
    if |lines| > 0 {
      var init := lines[..|lines| - 1];
      LabelTableLastWins(base, init);
      assert forall i :: 0 <= i < |init| ==> lines[i] == init[i];
    }
  }

  /** A declared name maps to a line that declares it. */
  lemma {:induction false} LabelTableSound(base: map<string, nat>, lines: seq<string>)
    ensures forall n :: n in MapLabels(base, lines) && Declares(lines, n) ==>
              MapLabels(base, lines)[n] < |lines| && IsLabelOf(lines[MapLabels(base, lines)[n]], n)
    ensures forall n :: n in MapLabels(base, lines) && !Declares(lines, n) ==> n in base && MapLabels(base, lines)[n] == base[n]
    decreases |lines|
  {
    if |lines| > 0 {
      var init := lines[..|lines| - 1];
      LabelTableSound(base, init);
      assert forall i :: 0 <= i < |init| ==> lines[i] == init[i];
      forall n | Declares(init, n) ensures Declares(lines, n) {
        var i :| 0 <= i < |init| && IsLabelOf(init[i], n);
        assert IsLabelOf(lines[i], n);
      }
      forall n | Declares(lines, n) && !IsLabelOf(lines[|lines| - 1], n) ensures Declares(init, n) {
        var i :| 0 <= i < |lines| && IsLabelOf(lines[i], n);
        assert IsLabelOf(init[i], n);
      }
    }
  }

  /** The table is never cleared: every earlier entry keeps a place. */
  lemma {:induction false} LabelTableKeepsBase(base: map<string, nat>, lines: seq<string>)
    ensures forall n :: n in base ==> n in MapLabels(base, lines)
    decreases |lines|
  {
    if |lines| > 0 {
      LabelTableKeepsBase(base, lines[..|lines| - 1]);
    }
  }
}
