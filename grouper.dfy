/** The grouper of the configuration language (build.py, ConfigRead.split): it walks the
    tokens once and partitions them into statements, each a pair of groups (the flags
    group and the values group). Four variables drive it: the group being written, a
    pending dash, an armed escape, and whether the previous token is to be appended. */
module Grouper {
  import opened Lexer

  /** One statement: the two groups, `[[...], [...]]` in the source. */
  datatype Statement = Statement(flags: seq<Token>, values: seq<Token>) {

    /** The group with index `g` (0 for flags, anything else for values). */
    function Group(g: nat): seq<Token> { if g == 0 then flags else values }

    /** This statement with `t` appended to group `g`. */
    function Append(g: nat, t: Token): (s: Statement)
      ensures s.Group(g) == Group(g) + [t]
      ensures g < 2 ==> s.Group(1 - g) == Group(1 - g)
    {
      if g == 0 then this.(flags := flags + [t]) else this.(values := values + [t])
    }

    /** This statement with every token of `ts` appended to group `g`, in order. */
    function Extend(g: nat, ts: seq<Token>): Statement
      decreases |ts|
    {
      if ts == [] then this else Extend(g, ts[..|ts| - 1]).Append(g, ts[|ts| - 1])
    }
  }

  const EmptyStatement: Statement := Statement([], [])

  /** The grouper's variables other than `put`: the statements so far (`out`), the group
      being written (`write_to`), a dash waiting for its partner (`dash`) and the armed
      escape (`skipped`). */
  datatype State = State(out: seq<Statement>, writeTo: nat, dash: bool, skipped: bool)

  /** The state before the first token; the escape starts armed. */
  const Start: State := State([EmptyStatement], 0, false, true)

  predicate WellFormed(st: State) { st.out != [] && st.writeTo < 2 }

  /** The three token kinds that steer the grouper. */
  predicate IsControl(k: Category) { k == Dash || k == Backslash || k == NLine }

  /** A token is kept (appended as a literal) unless it is a control token that the armed
      escape does not absorb. */
  predicate Keeps(st: State, x: Token) { !IsControl(x.kind) || st.skipped }

  /** What processing `x` does to the state, leaving aside whether `x` is appended. */
  function Advance(st: State, x: Token): (r: State)
    ensures WellFormed(st) ==> WellFormed(r)
    ensures |r.out| == |st.out| + (if x.kind == NLine && !st.skipped then 1 else 0)
    ensures r.out[..|st.out|] == st.out
    ensures r.writeTo != st.writeTo ==> x.kind == Dash && st.dash && !st.skipped
  {
    if IsControl(x.kind) && st.skipped then st.(skipped := false)
    else if x.kind == Dash then
      if st.dash then st.(writeTo := (st.writeTo + 1) % 2, dash := false) else st.(dash := true)
    else if x.kind == Backslash then st.(skipped := true)
    else if x.kind == NLine then st.(out := st.out + [EmptyStatement])
    else st.(dash := false)
  }

  /** Appends `x` to the group being written in the last statement. */
  function Emit(st: State, x: Token): State
    requires st.out != []
  {
    var n := |st.out| - 1;
    st.(out := st.out[..n] + [st.out[n].Append(st.writeTo, x)])
  }

  /** One token, processed and appended at once if it is kept. */
  function Step(st: State, x: Token): State
    requires st.out != []
  {
    if Keeps(st, x) then Emit(Advance(st, x), x) else Advance(st, x)
  }

  /** The grouper with every kept token appended as soon as it is seen. */
  function Run(st: State, tokens: seq<Token>): (r: State)
    requires WellFormed(st)
    ensures WellFormed(r)
    decreases |tokens|
  {
    if tokens == [] then st else Step(Run(st, tokens[..|tokens| - 1]), tokens[|tokens| - 1])
  }

  function Scan(tokens: seq<Token>): State { Run(Start, tokens) }

  /** The statements as the source's `split` returns them: each kept token is appended
      only when the next token is processed, so the last token is never appended. */
  function Split(tokens: seq<Token>): seq<Statement>
  {
    if tokens == [] then Start.out
    else Advance(Scan(tokens[..|tokens| - 1]), tokens[|tokens| - 1]).out
  }

  /** The statements with the pending last token appended after the loop. */
  function SplitFlushed(tokens: seq<Token>): seq<Statement> { Scan(tokens).out }

  // ---------------------------------------------------------------------------
  // Reference definitions, each independent of the grouper's state.

  /** Whether the escape is armed after `tokens`: a control token disarms an armed escape;
      an unabsorbed backslash arms it; other tokens leave it alone. */
  function EscapeArmed(tokens: seq<Token>): bool
    decreases |tokens|
  {
    if tokens == [] then true
    else
      var init, x := tokens[..|tokens| - 1], tokens[|tokens| - 1];
      if !IsControl(x.kind) then EscapeArmed(init)
      else if EscapeArmed(init) then false
      else x.kind == Backslash
  }

  /** The number of newline tokens that the escape does not absorb. */
  function Breaks(tokens: seq<Token>): nat
    decreases |tokens|
  {
    if tokens == [] then 0
    else
      var init, x := tokens[..|tokens| - 1], tokens[|tokens| - 1];
      Breaks(init) + if x.kind == NLine && !EscapeArmed(init) then 1 else 0
  }

  /** The tokens that are kept as literals, in input order. */
  function KeptTokens(tokens: seq<Token>): seq<Token>
    decreases |tokens|
  {
    if tokens == [] then []
    else
      var init, x := tokens[..|tokens| - 1], tokens[|tokens| - 1];
      KeptTokens(init) + if !IsControl(x.kind) || EscapeArmed(init) then [x] else []
  }

  /** All tokens held by the statements, counted with multiplicity. */
  function Bag(out: seq<Statement>): multiset<Token>
    decreases |out|
  {
    if out == [] then multiset{}
    else Bag(out[..|out| - 1]) + multiset(out[|out| - 1].flags) + multiset(out[|out| - 1].values)
  }

  /** `a` can be obtained from `b` by deleting elements. */
  predicate IsSubseq(a: seq<Token>, b: seq<Token>)
    decreases |b|
  {
    if a == [] then true
    else if b == [] then false
    else
      (a[|a| - 1] == b[|b| - 1] && IsSubseq(a[..|a| - 1], b[..|b| - 1]))
      || IsSubseq(a, b[..|b| - 1])
  }

  /** Every group of every statement is an in-order subsequence of `kept`. */
  predicate GroupsWithin(out: seq<Statement>, kept: seq<Token>)
  {
    forall i, g :: 0 <= i < |out| && 0 <= g < 2 ==> IsSubseq(out[i].Group(g), kept)
  }

  // ---------------------------------------------------------------------------
  // The grouper against the references.

  lemma SubseqExtend(a: seq<Token>, b: seq<Token>, x: Token)
    requires IsSubseq(a, b)
    ensures IsSubseq(a, b + [x])
    ensures IsSubseq(a + [x], b + [x])
  {
    assert (b + [x])[..|b|] == b;
    assert (a + [x])[..|a|] == a;
  }

  lemma BagEmit(st: State, x: Token)
    requires st.out != []
    ensures Bag(Emit(st, x).out) == Bag(st.out) + multiset{x}
    ensures |Emit(st, x).out| == |st.out|
  {
    var n := |st.out| - 1;
    var out' := Emit(st, x).out;
    assert out'[..n] == st.out[..n];
    if st.writeTo == 0 {
      assert out'[n].flags == st.out[n].flags + [x] && out'[n].values == st.out[n].values;
    } else {
      assert out'[n].values == st.out[n].values + [x] && out'[n].flags == st.out[n].flags;
    }
  }

  lemma WithinEmit(st: State, x: Token, kept: seq<Token>)
    requires WellFormed(st) && GroupsWithin(st.out, kept)
    ensures GroupsWithin(Emit(st, x).out, kept + [x])
  {
    var n := |st.out| - 1;
    var out' := Emit(st, x).out;
    forall i, g | 0 <= i < |out'| && 0 <= g < 2
      ensures IsSubseq(out'[i].Group(g), kept + [x])
    {
      SubseqExtend(st.out[i].Group(g), kept, x);
      if i == n && g != st.writeTo {
        assert out'[i].Group(g) == st.out[i].Group(g);
      }
    }
  }

  lemma WithinExtend(out: seq<Statement>, kept: seq<Token>, x: Token)
    requires GroupsWithin(out, kept)
    ensures GroupsWithin(out, kept + [x])
    ensures GroupsWithin(out + [EmptyStatement], kept)
  {
    forall i, g | 0 <= i < |out| && 0 <= g < 2 ensures IsSubseq(out[i].Group(g), kept + [x]) {
      SubseqExtend(out[i].Group(g), kept, x);
    }
  }

  /** What one step does to the counted quantities. */
  lemma StepFacts(st: State, x: Token, kept: seq<Token>)
    requires WellFormed(st) && GroupsWithin(st.out, kept)
    ensures Advance(st, x).skipped == (if !IsControl(x.kind) then st.skipped
                                       else if st.skipped then false else x.kind == Backslash)
    ensures |Advance(st, x).out| == |st.out| + if x.kind == NLine && !st.skipped then 1 else 0
    ensures Bag(Advance(st, x).out) == Bag(st.out)
    ensures Bag(Step(st, x).out) == Bag(st.out) + if Keeps(st, x) then multiset{x} else multiset{}
    ensures GroupsWithin(Advance(st, x).out, kept)
    ensures GroupsWithin(Step(st, x).out, kept + if Keeps(st, x) then [x] else [])
  {
    var a := Advance(st, x);
    if x.kind == NLine && !st.skipped {
      assert a.out[..|st.out|] == st.out;
      WithinExtend(st.out, kept, x);
    }
    if Keeps(st, x) {
      assert a.out == st.out && a.writeTo == st.writeTo;
      BagEmit(a, x);
      WithinEmit(a, x, kept);
    } else {
      assert kept + [] == kept;
    }
  }

  /** The grouper's escape flag, statement count and contents agree with the references:
      the statements hold exactly the kept tokens, each group in input order, and there
      is one statement more than there are unabsorbed newlines. */
  lemma {:induction false} ScanAgrees(tokens: seq<Token>)
    ensures Scan(tokens).skipped == EscapeArmed(tokens)
    ensures |Scan(tokens).out| == 1 + Breaks(tokens)
    ensures Bag(Scan(tokens).out) == multiset(KeptTokens(tokens))
    ensures GroupsWithin(Scan(tokens).out, KeptTokens(tokens))
    decreases |tokens|
  {
    if tokens == [] {
      assert Bag(Start.out) == multiset{} by {
        assert Start.out[..0] == [];
      }
    } else {
      var init, x := tokens[..|tokens| - 1], tokens[|tokens| - 1];
      ScanAgrees(init);
      StepFacts(Scan(init), x, KeptTokens(init));
    }
  }

  /** The tokens before the last one: those that the source's loop has processed when it
      ends, the last one still pending. */
  function AllButLast(tokens: seq<Token>): seq<Token>
  {
    if tokens == [] then [] else tokens[..|tokens| - 1]
  }

  /** The source's `split` appends exactly the kept tokens among all but the last one,
      each group in input order, and counts one statement per unabsorbed newline plus one;
      on no tokens it returns one empty statement. */
  lemma SplitContents(tokens: seq<Token>)
    ensures |Split(tokens)| == 1 + Breaks(tokens)
    ensures Bag(Split(tokens)) == multiset(KeptTokens(AllButLast(tokens)))
    ensures GroupsWithin(Split(tokens), KeptTokens(AllButLast(tokens)))
    ensures tokens == [] ==> Split(tokens) == [EmptyStatement]
  {
    if tokens == [] {
      ScanAgrees([]);
    } else {
      var init, x := tokens[..|tokens| - 1], tokens[|tokens| - 1];
      ScanAgrees(init);
      StepFacts(Scan(init), x, KeptTokens(init));
    }
  }

  /** The group index stays 0 or 1, and the state changes only as the rules say: a dash
      pair flips the group, a newline opens a statement and keeps the group and the
      pending dash. */
  lemma AdvanceRules(st: State, x: Token)
    requires WellFormed(st)
    ensures WellFormed(Advance(st, x))
    ensures x.kind == Dash && !st.skipped && st.dash ==>
      Advance(st, x) == st.(writeTo := 1 - st.writeTo, dash := false)
    ensures x.kind == Dash && !st.skipped && !st.dash ==> Advance(st, x) == st.(dash := true)
    ensures x.kind == NLine && !st.skipped ==> Advance(st, x) == st.(out := st.out + [EmptyStatement])
    ensures !IsControl(x.kind) ==> Advance(st, x) == st.(dash := false)
    ensures IsControl(x.kind) && st.skipped ==> Advance(st, x) == st.(skipped := false)
  {
  }

  // ---------------------------------------------------------------------------
  // Whole statements.

  lemma {:induction false} RunAppend(st: State, a: seq<Token>, b: seq<Token>)
    requires WellFormed(st)
    ensures Run(st, a + b) == Run(Run(st, a), b)
    decreases |b|
  {
    if b == [] {
      assert a + b == a;
    } else {
      var init := b[..|b| - 1];
      assert (a + b)[..|a + b| - 1] == a + init;
      RunAppend(st, a, init);
    }
  }

  /** Tokens without control tokens all go, in order, to the group being written. */
  lemma {:induction false} RunPlain(st: State, ts: seq<Token>)
    requires WellFormed(st)
    requires forall k :: 0 <= k < |ts| ==> !IsControl(ts[k].kind)
    ensures Run(st, ts) == st.(out := st.out[..|st.out| - 1] + [st.out[|st.out| - 1].Extend(st.writeTo, ts)],
                               dash := st.dash && ts == [])
    decreases |ts|
  {
    var n := |st.out| - 1;
    if ts == [] {
      assert st.out[..n] + [st.out[n]] == st.out;
    } else {
      var init := ts[..|ts| - 1];
      RunPlain(st, init);
      var mid := Run(st, init);
      assert mid.out[..n] == st.out[..n];
    }
  }

  /** A statement without control tokens: all tokens but the last land in the flags group. */
  lemma PlainStatement(tokens: seq<Token>)
    requires tokens != []
    requires forall k :: 0 <= k < |tokens| ==> !IsControl(tokens[k].kind)
    ensures Split(tokens) == [Statement(tokens[..|tokens| - 1], [])]
    ensures SplitFlushed(tokens) == [Statement(tokens, [])]
  {
    var init := tokens[..|tokens| - 1];
    ScanPlain(init);
    ScanPlain(tokens);
  }

  /** From the start, tokens without control tokens fill the flags group of the one statement. */
  lemma ScanPlain(ts: seq<Token>)
    requires forall k :: 0 <= k < |ts| ==> !IsControl(ts[k].kind)
    ensures Scan(ts) == State([Statement(ts, [])], 0, false, true)
  {
    RunPlain(Start, ts);
    ExtendAll(EmptyStatement, ts);
    assert Start.out[..0] == [];
    assert [] + ts == ts;
  }

  lemma {:induction false} ExtendAll(s: Statement, ts: seq<Token>)
    ensures s.Extend(0, ts) == s.(flags := s.flags + ts)
    ensures s.Extend(1, ts) == s.(values := s.values + ts)
    decreases |ts|
  {
    if ts == [] {
      assert s.flags + ts == s.flags && s.values + ts == s.values;
    } else {
      var init := ts[..|ts| - 1];
      ExtendAll(s, init);
      assert s.flags + init + [ts[|ts| - 1]] == s.flags + ts;
      assert s.values + init + [ts[|ts| - 1]] == s.values + ts;
    }
  }

  /** Because the escape starts armed, the first control token of the input, wherever
      it stands, is kept as a literal and only disarms the escape. */
  lemma FirstControlIsLiteral(prefix: seq<Token>, x: Token)
    requires forall k :: 0 <= k < |prefix| ==> !IsControl(prefix[k].kind)
    requires IsControl(x.kind)
    ensures Scan(prefix + [x]) == State([Statement(prefix + [x], [])], 0, false, false)
  {
    ScanPlain(prefix);
    assert (prefix + [x])[..|prefix|] == prefix;
    var st := Scan(prefix);
    assert Scan(prefix + [x]) == Step(st, x);
    assert Advance(st, x) == st.(skipped := false);
    assert st.out[..0] == [];
  }

  /** With the escape disarmed and no dash pending, `flags -- values` sends `flags` to the
      group being written and `values` to the other group, and leaves the other group
      selected. */
  lemma Delimiter(st: State, flags: seq<Token>, d1: Token, d2: Token, values: seq<Token>)
    requires WellFormed(st) && !st.skipped && !st.dash
    requires d1.kind == Dash && d2.kind == Dash
    requires forall k :: 0 <= k < |flags| ==> !IsControl(flags[k].kind)
    requires forall k :: 0 <= k < |values| ==> !IsControl(values[k].kind)
    ensures
      var n := |st.out| - 1;
      Run(st, flags + [d1, d2] + values)
      == st.(out := st.out[..n] + [st.out[n].Extend(st.writeTo, flags).Extend(1 - st.writeTo, values)],
             writeTo := 1 - st.writeTo)
  {
    var n := |st.out| - 1;
    RunAppend(st, flags + [d1, d2], values);
    RunAppend(st, flags, [d1, d2]);
    RunPlain(st, flags);
    var s1 := Run(st, flags);
    DashPair(s1, d1, d2);
    var s3 := Run(s1, [d1, d2]);
    RunPlain(s3, values);
    assert s3.out[..n] == st.out[..n];
  }

  /** Two dashes with the escape disarmed flip the group and leave no dash pending. */
  lemma DashPair(st: State, d1: Token, d2: Token)
    requires WellFormed(st) && !st.skipped && !st.dash
    requires d1.kind == Dash && d2.kind == Dash
    ensures Run(st, [d1, d2]) == st.(writeTo := 1 - st.writeTo, dash := false)
  {
    RunPair(st, d1, d2);
    var s1 := st.(dash := true);
    AdvanceRules(st, d1);
    assert Step(st, d1) == Advance(st, d1) == s1;
    AdvanceRules(s1, d2);
    assert Step(s1, d2) == Advance(s1, d2);
  }

  /** Two tokens are two steps. */
  lemma RunPair(st: State, a: Token, b: Token)
    requires WellFormed(st)
    ensures Step(st, a).out != []
    ensures Run(st, [a, b]) == Step(Step(st, a), b)
  {
    assert [a, b][..1] == [a];
    assert [a][..0] == [];
    assert Run(st, [a]) == Step(st, a);
  }

  // ---------------------------------------------------------------------------
  // The loop.

  /** The source's loop: every token but the first first appends the previous token if
      `put` allows it, then processes the current one. */
  method SplitTokens(tokens: seq<Token>) returns (out: seq<Statement>)
    ensures out == Split(tokens)
  {
    out := [EmptyStatement];
    var writeTo: nat, dash, skipped, put := 0, false, true, true;
    var pos := 0;
    while pos < |tokens|
      invariant 0 <= pos <= |tokens|
      invariant pos == 0 ==> State(out, writeTo, dash, skipped) == Start && put
      invariant pos > 0 ==> State(out, writeTo, dash, skipped) == Advance(Scan(tokens[..pos - 1]), tokens[pos - 1])
      invariant pos > 0 ==> put == Keeps(Scan(tokens[..pos - 1]), tokens[pos - 1])
    {
      var x := tokens[pos];
      if pos != 0 {
        ghost var before := Scan(tokens[..pos - 1]);
        AdvanceRules(before, tokens[pos - 1]);
        if put {
          out := out[..|out| - 1] + [out[|out| - 1].Append(writeTo, tokens[pos - 1])];
        }
        put := true;
        assert tokens[..pos][..pos - 1] == tokens[..pos - 1];
        assert State(out, writeTo, dash, skipped) == Scan(tokens[..pos]);
      } else {
        assert tokens[..pos] == [];
      }
      if x.kind == Dash {
        if skipped {
          skipped := false;
        } else {
          put := false;
          if dash {
            writeTo := (writeTo + 1) % 2;
            dash := false;
          } else {
            dash := true;
          }
        }
      } else if x.kind == Backslash {
        if skipped {
          skipped := false;
        } else {
          put := false;
          skipped := true;
        }
      } else if x.kind == NLine {
        if skipped {
          skipped := false;
        } else {
          put := false;
          out := out + [EmptyStatement];
        }
      } else if dash {
        dash := false;
      }
      pos := pos + 1;
      assert tokens[..pos][..pos - 1] == tokens[..pos - 1];
    }
    if pos > 0 {
      assert tokens[..pos - 1] == tokens[..|tokens| - 1];
    }
  }

  // ---------------------------------------------------------------------------
  // Finding: the last token is never appended.

  /** As written, `split` loses a kept last token: `ab` yields the flags group `a`. */
  lemma LastTokenDropped(a: Token, b: Token)
    requires a.kind == Letter && b.kind == Letter
    ensures Split([a, b]) == [Statement([a], [])]
    ensures SplitFlushed([a, b]) == [Statement([a, b], [])]
  {
    PlainStatement([a, b]);
    assert [a, b][..1] == [a];
  }

  /** With the pending token flushed after the loop, no kept token is lost: the statements
      hold exactly the kept tokens of the whole input, each group in input order. */
  lemma FlushedKeepsAll(tokens: seq<Token>)
    ensures Bag(SplitFlushed(tokens)) == multiset(KeptTokens(tokens))
    ensures GroupsWithin(SplitFlushed(tokens), KeptTokens(tokens))
    ensures |SplitFlushed(tokens)| == 1 + Breaks(tokens)
  {
    ScanAgrees(tokens);
  }
}
