/**
 * The L-system demo. Starting from the axiom "F", the program rewrites the
 * string a fixed number of times with a table of rules, then draws it every
 * frame with a turtle: `F` draws a step forward, `+` and `-` turn, `[` saves
 * the turtle's position and heading on a stack and `]` restores them.
 *
 * `cosf`/`sinf` (the heading of the turtle) and the colouring function are
 * parameters of the model; each `DrawLineEx` call is recorded as a segment.
 *
 * Strings are walked by prefix length: `F(w, k)` describes the first `k`
 * characters of `w`, and `F(w)` is `F(w, |w|)`.
 */
module LSystems {

  import opened Raylib
  import opened Conversions

  // ---------------------------------------------------------------------------
  // The rule table and the rewriting it specifies

  const F_RULE: string := "FF-[-F+F+F]+[+F-F-F]"

  /** The program's `rules` map: `F` grows, the four drawing symbols rewrite to themselves. */
  const RULES: map<char, string> := map['F' := F_RULE, '+' := "+", '-' := "-", ']' := "]", '[' := "["]

  const AXIOM: string := "F"
  const ITERATIONS: nat := 4

  /** What `rules[c]` yields: the rule of `c`, or the empty string `std::map::operator[]` inserts for a missing key. */
  function RuleOf(rules: map<char, string>, c: char): string {
    if c in rules then rules[c] else ""
  }

  /** The rules of the first `k` characters of `s`, concatenated in order. */
  function RewriteTo(rules: map<char, string>, s: string, k: nat): string
    requires k <= |s|
  {
    if k == 0 then "" else RewriteTo(rules, s, k - 1) + RuleOf(rules, s[k - 1])
  }

  /** One rewriting step. */
  function Rewrite(rules: map<char, string>, s: string): string {
    RewriteTo(rules, s, |s|)
  }

  /** `n` rewriting steps. */
  function Iterate(rules: map<char, string>, s: string, n: nat): string {
    if n == 0 then s else Rewrite(rules, Iterate(rules, s, n - 1))
  }

  /** Two tables that give every character the same rule, as `rules[c]` reads them. */
  ghost predicate SameRules(a: map<char, string>, b: map<char, string>) {
    forall c :: RuleOf(a, c) == RuleOf(b, c)
  }

  // ---------------------------------------------------------------------------
  // The rewriting loops

  /** `rules[c]`: reads the rule of `c`, inserting an empty rule when `c` has none. */
  method Lookup(rules0: map<char, string>, c: char) returns (rule: string, rules: map<char, string>)
    ensures rule == RuleOf(rules0, c)
    ensures rules == if c in rules0 then rules0 else rules0[c := ""]
    ensures c in rules && rules0.Keys <= rules.Keys && SameRules(rules0, rules)
  {
    rules := rules0;
    if c !in rules {
      rules := rules[c := ""];
    }
    rule := rules[c];
  }

  /** The inner loop: `new_axiom += rules[axiom[j]]` for every character, in order. */
  method RewriteOnce(rules0: map<char, string>, axiom: string) returns (next: string, rules: map<char, string>)
    ensures next == Rewrite(rules0, axiom)
    ensures rules0.Keys <= rules.Keys && SameRules(rules0, rules)
    ensures forall j :: 0 <= j < |axiom| ==> axiom[j] in rules
    ensures forall k :: k in rules && k !in rules0 ==> k in axiom && rules[k] == ""
  {
    next, rules := "", rules0;
    var j := 0;
    while j < |axiom|
      invariant 0 <= j <= |axiom|
      invariant next == RewriteTo(rules0, axiom, j)
      invariant rules0.Keys <= rules.Keys && SameRules(rules0, rules)
      invariant forall k :: 0 <= k < j ==> axiom[k] in rules
      invariant forall k :: k in rules && k !in rules0 ==> k in axiom[..j] && rules[k] == ""
    {
      var rule;
      rule, rules := Lookup(rules, axiom[j]);
      next := next + rule;
      j := j + 1;
    }
  }

  /** The outer loop: `iterations` rewriting steps, each replacing the axiom by its rewrite. */
  method Expand(rules0: map<char, string>, axiom0: string, iterations: nat) returns (axiom: string, rules: map<char, string>)
    ensures axiom == Iterate(rules0, axiom0, iterations)
    ensures rules0.Keys <= rules.Keys && SameRules(rules0, rules)
  {
    axiom, rules := axiom0, rules0;
    var i := 0;
    while i < iterations
      invariant 0 <= i <= iterations
      invariant axiom == Iterate(rules0, axiom0, i)
      invariant rules0.Keys <= rules.Keys && SameRules(rules0, rules)
    {
      ghost var before := rules;
      axiom, rules := RewriteOnce(rules, axiom);
      RewriteSameRules(rules0, before, Iterate(rules0, axiom0, i), |Iterate(rules0, axiom0, i)|);
      i := i + 1;
    }
  }

  /** Inserting empty rules for missing keys does not change what rewriting produces. */
  lemma {:induction false} RewriteSameRules(a: map<char, string>, b: map<char, string>, s: string, k: nat)
    requires SameRules(a, b) && k <= |s|
    ensures RewriteTo(a, s, k) == RewriteTo(b, s, k)
  {
    if k > 0 {
      RewriteSameRules(a, b, s, k - 1);
      assert RuleOf(a, s[k - 1]) == RuleOf(b, s[k - 1]);
    }
  }

  // ---------------------------------------------------------------------------
  // Properties of rewriting

  lemma {:induction false} RewritePrefix(rules: map<char, string>, u: string, v: string, k: nat)
    requires k <= |u|
    ensures RewriteTo(rules, u + v, k) == RewriteTo(rules, u, k)
  {
    if k > 0 {
      RewritePrefix(rules, u, v, k - 1);
      assert (u + v)[k - 1] == u[k - 1];
    }
  }

  lemma {:induction false} RewriteSuffix(rules: map<char, string>, u: string, v: string, k: nat)
    requires k <= |v|
    ensures RewriteTo(rules, u + v, |u| + k) == Rewrite(rules, u) + RewriteTo(rules, v, k)
  {
    if k == 0 {
      RewritePrefix(rules, u, v, |u|);
    } else {
      RewriteSuffix(rules, u, v, k - 1);
      assert (u + v)[|u| + k - 1] == v[k - 1];
      var x, y, z := Rewrite(rules, u), RewriteTo(rules, v, k - 1), RuleOf(rules, v[k - 1]);
      calc {
        RewriteTo(rules, u + v, |u| + k);
        RewriteTo(rules, u + v, |u| + k - 1) + z;
        (x + y) + z;
        x + (y + z);
        x + RewriteTo(rules, v, k);
      }
    }
  }

  /** Rewriting works character by character: the rewrite of a concatenation is the concatenation of the rewrites. */
  lemma RewriteAppend(rules: map<char, string>, u: string, v: string)
    ensures Rewrite(rules, u + v) == Rewrite(rules, u) + Rewrite(rules, v)
  {
    RewriteSuffix(rules, u, v, |v|);
  }

  lemma SymbolRule(c: char)
    requires c in "+-[]"
    ensures RuleOf(RULES, c) == [c]
  {
  }

  lemma {:induction false} SymbolsRewriteTo(s: string, k: nat)
    requires k <= |s| && forall j :: 0 <= j < |s| ==> s[j] in "+-[]"
    ensures RewriteTo(RULES, s, k) == s[..k]
  {
    if k > 0 {
      SymbolsRewriteTo(s, k - 1);
      SymbolRule(s[k - 1]);
      assert s[..k] == s[..k - 1] + [s[k - 1]];
    }
  }

  /** With the program's rules, strings of the four drawing symbols rewrite to themselves. */
  lemma SymbolsRewriteToThemselves(s: string)
    requires forall j :: 0 <= j < |s| ==> s[j] in "+-[]"
    ensures Rewrite(RULES, s) == s
  {
    SymbolsRewriteTo(s, |s|);
    assert s[..|s|] == s;
  }

  lemma {:induction false} UnruledRewriteTo(s: string, k: nat)
    requires k <= |s| && forall j :: 0 <= j < |s| ==> s[j] !in "F+-[]"
    ensures RewriteTo(RULES, s, k) == ""
  {
    if k > 0 {
      UnruledRewriteTo(s, k - 1);
      assert s[k - 1] !in RULES;
    }
  }

  /** With the program's rules, strings of characters that have no rule rewrite to the empty string. */
  lemma UnruledRewriteToEmpty(s: string)
    requires forall j :: 0 <= j < |s| ==> s[j] !in "F+-[]"
    ensures Rewrite(RULES, s) == ""
  {
    UnruledRewriteTo(s, |s|);
  }

  /** The number of `F`s of a string. */
  function CountF(s: string): nat {
    multiset(s)['F']
  }

  function Pow(b: nat, n: nat): nat {
    if n == 0 then 1 else b * Pow(b, n - 1)
  }

  lemma FRuleCountsF()
    ensures CountF(F_RULE) == 8
  {
  }

  /** The `F` rule holds eight `F`s, and each other rule none. */
  lemma RuleCountsF(c: char)
    ensures CountF(RuleOf(RULES, c)) == if c == 'F' then 8 else 0
  {
    if c == 'F' {
      FRuleCountsF();
      assert RuleOf(RULES, c) == F_RULE;
    } else if c in RULES {
      assert RULES[c] == [c];
    }
  }

  lemma CountAppend(x: string, y: string)
    ensures CountF(x + y) == CountF(x) + CountF(y)
  {
    assert multiset(x + y) == multiset(x) + multiset(y);
  }

  lemma CountPrefix(s: string, k: nat)
    requires 0 < k <= |s|
    ensures CountF(s[..k]) == CountF(s[..k - 1]) + if s[k - 1] == 'F' then 1 else 0
  {
    assert s[..k] == s[..k - 1] + [s[k - 1]];
    CountAppend(s[..k - 1], [s[k - 1]]);
  }

  lemma {:induction false} RewriteCountsFTo(s: string, k: nat)
    requires k <= |s|
    ensures CountF(RewriteTo(RULES, s, k)) == 8 * CountF(s[..k])
  {
    if k > 0 {
      RewriteCountsFTo(s, k - 1);
      RuleCountsF(s[k - 1]);
      CountAppend(RewriteTo(RULES, s, k - 1), RuleOf(RULES, s[k - 1]));
      CountPrefix(s, k);
    }
  }

  /** Each step turns every `F` into eight. */
  lemma RewriteCountsF(s: string)
    ensures CountF(Rewrite(RULES, s)) == 8 * CountF(s)
  {
    RewriteCountsFTo(s, |s|);
    assert s[..|s|] == s;
  }

  /** After `n` steps from the axiom "F" the string holds 8^n `F`s. */
  lemma {:induction false} IterateCountsF(n: nat)
    ensures CountF(Iterate(RULES, AXIOM, n)) == Pow(8, n)
  {
    if n == 0 {
      assert CountF(AXIOM) == 1;
    } else {
      IterateCountsF(n - 1);
      RewriteCountsF(Iterate(RULES, AXIOM, n - 1));
    }
  }

  // ---------------------------------------------------------------------------
  // Brackets

  /** How a character changes the depth of the turtle's stack. */
  function Delta(c: char): int {
    if c == '[' then 1 else if c == ']' then -1 else 0
  }

  /** The net change of the stack depth over the first `k` characters: `[`s less `]`s. */
  function DepthTo(w: string, k: nat): int
    requires k <= |w|
  {
    if k == 0 then 0 else DepthTo(w, k - 1) + Delta(w[k - 1])
  }

  /** The lowest relative stack depth reached over the first `k` characters, the start included. */
  function LowTo(w: string, k: nat): int
    requires k <= |w|
  {
    if k == 0 then 0 else Min(LowTo(w, k - 1), DepthTo(w, k))
  }

  function Depth(w: string): int {
    DepthTo(w, |w|)
  }

  function Low(w: string): int {
    LowTo(w, |w|)
  }

  /** A string whose `]`s all find an entry on a stack that starts `n` deep. */
  predicate Safe(w: string, n: int) {
    n + Low(w) >= 0
  }

  /** Every `]` closes an earlier `[`, and every `[` is closed. */
  predicate Balanced(w: string) {
    Safe(w, 0) && Depth(w) == 0
  }

  /** A string that returns to its starting depth without ever going below it. */
  predicate Level(w: string) {
    Depth(w) == 0 && Low(w) == 0
  }

  /** The lowest point lies at or below both ends. */
  lemma {:induction false} LowBounds(w: string, k: nat)
    requires k <= |w|
    ensures LowTo(w, k) <= 0 && LowTo(w, k) <= DepthTo(w, k)
  {
    if k > 0 {
      LowBounds(w, k - 1);
    }
  }

  /** The lowest point can only go down as the prefix grows. */
  lemma {:induction false} LowMono(w: string, j: nat, k: nat)
    requires j <= k <= |w|
    ensures LowTo(w, k) <= LowTo(w, j)
  {
    if j < k {
      LowMono(w, j, k - 1);
    }
  }

  /** The first `k` characters of `u + v` are those of `u`. */
  lemma {:induction false} PrefixTo(u: string, v: string, k: nat)
    requires k <= |u|
    ensures DepthTo(u + v, k) == DepthTo(u, k) && LowTo(u + v, k) == LowTo(u, k)
  {
    if k > 0 {
      PrefixTo(u, v, k - 1);
      assert (u + v)[k - 1] == u[k - 1];
    }
  }

  lemma {:induction false} SuffixTo(u: string, v: string, k: nat)
    requires k <= |v|
    ensures DepthTo(u + v, |u| + k) == Depth(u) + DepthTo(v, k)
    ensures LowTo(u + v, |u| + k) == Min(Low(u), Depth(u) + LowTo(v, k))
  {
    if k == 0 {
      PrefixTo(u, v, |u|);
      LowBounds(u, |u|);
    } else {
      SuffixTo(u, v, k - 1);
      assert (u + v)[|u| + k - 1] == v[k - 1];
      LowBounds(v, k - 1);
    }
  }

  /** Depth adds up over a concatenation; its lowest point is the first part's or the second's raised by the first's depth. */
  lemma LowAppend(u: string, v: string)
    ensures Depth(u + v) == Depth(u) + Depth(v)
    ensures Low(u + v) == Min(Low(u), Depth(u) + Low(v))
    ensures Low(u + v) <= Low(u) && Low(u + v) <= Depth(u) + Low(v)
  {
    SuffixTo(u, v, |v|);
  }

  lemma Single(c: char)
    ensures Depth([c]) == Delta(c) && Low([c]) == Min(0, Delta(c))
  {
    assert DepthTo([c], 0) == 0 && LowTo([c], 0) == 0;
    assert DepthTo([c], 1) == Delta(c);
  }

  lemma {:induction false} NoBracketsTo(w: string, k: nat)
    requires k <= |w| && forall j :: 0 <= j < |w| ==> w[j] != '[' && w[j] != ']'
    ensures DepthTo(w, k) == 0 && LowTo(w, k) == 0
  {
    if k > 0 {
      NoBracketsTo(w, k - 1);
    }
  }

  /** A string without brackets leaves the depth where it is. */
  lemma NoBrackets(w: string)
    requires forall j :: 0 <= j < |w| ==> w[j] != '[' && w[j] != ']'
    ensures Level(w)
  {
    NoBracketsTo(w, |w|);
  }

  /** Two level strings make a level string. */
  lemma LevelAppend(u: string, v: string)
    requires Level(u) && Level(v)
    ensures Level(u + v)
  {
    LowAppend(u, v);
  }

  /** The depth and lowest point of a string between brackets. */
  lemma Wrap(w: string)
    ensures Depth("[" + w + "]") == Depth(w)
    ensures Low("[" + w + "]") == Min(0, Min(1 + Low(w), Depth(w)))
  {
    Single('[');
    Single(']');
    LowAppend("[", w);
    LowAppend("[" + w, "]");
  }

  /** A balanced string between brackets is level again. */
  lemma WrapBalanced(w: string)
    requires Balanced(w)
    ensures Level("[" + w + "]")
  {
    Wrap(w);
  }

  lemma FRuleParts()
    ensures F_RULE == "FF-" + ("[" + "-F+F+F" + "]") + "+" + ("[" + "+F-F-F" + "]")
  {
  }

  /** The `F` rule is balanced. */
  lemma FRuleLevel()
    ensures Level(F_RULE)
  {
    var g1, g2 := "-F+F+F", "+F-F-F";
    NoBrackets("FF-");
    NoBrackets("+");
    NoBrackets(g1);
    NoBrackets(g2);
    WrapBalanced(g1);
    WrapBalanced(g2);
    LevelAppend("FF-", "[" + g1 + "]");
    LevelAppend("FF-" + ("[" + g1 + "]"), "+");
    LevelAppend("FF-" + ("[" + g1 + "]") + "+", "[" + g2 + "]");
    FRuleParts();
  }

  /**
   * A table whose rules move the depth as their character does, never dipping
   * below where the character itself would.
   */
  ghost predicate RespectsBrackets(rules: map<char, string>) {
    forall c :: Depth(RuleOf(rules, c)) == Delta(c) && Low(RuleOf(rules, c)) >= Min(0, Delta(c))
  }

  /** The program's rules respect brackets, since the `F` rule is balanced. */
  lemma RulesRespectBrackets()
    ensures RespectsBrackets(RULES)
  {
    forall c
      ensures Depth(RuleOf(RULES, c)) == Delta(c) && Low(RuleOf(RULES, c)) >= Min(0, Delta(c))
    {
      if c == 'F' {
        FRuleLevel();
        assert RuleOf(RULES, c) == F_RULE;
      } else if c in RULES {
        assert RuleOf(RULES, c) == [c];
        Single(c);
      } else {
        assert RuleOf(RULES, c) == "";
      }
    }
  }

  lemma MinStep(low: int, depth: int, delta: int, low': int, depth': int, lowRule: int)
    requires low <= depth && low <= low' && depth == depth' && Min(0, delta) <= lowRule
    ensures Min(low', depth' + lowRule) >= Min(low, depth + delta)
  {
  }

  /** Appending the rule of `s[k - 1]` keeps the rewrite's depth and lowest point in step with the prefix's. */
  lemma KeepsStep(x: string, y: string, s: string, k: nat)
    requires 0 < k <= |s|
    requires Depth(x) == DepthTo(s, k - 1) && Low(x) >= LowTo(s, k - 1)
    requires Depth(y) == Delta(s[k - 1]) && Low(y) >= Min(0, Delta(s[k - 1]))
    ensures Depth(x + y) == DepthTo(s, k) && Low(x + y) >= LowTo(s, k)
  {
    LowAppend(x, y);
    LowBounds(s, k - 1);
    MinStep(LowTo(s, k - 1), DepthTo(s, k - 1), Delta(s[k - 1]), Low(x), Depth(x), Low(y));
  }

  lemma {:induction false} RewriteKeepsBracketsTo(rules: map<char, string>, s: string, k: nat)
    requires RespectsBrackets(rules) && k <= |s|
    ensures Depth(RewriteTo(rules, s, k)) == DepthTo(s, k)
    ensures Low(RewriteTo(rules, s, k)) >= LowTo(s, k)
  {
    if k == 0 {
      assert RewriteTo(rules, s, 0) == "";
    } else {
      RewriteKeepsBracketsTo(rules, s, k - 1);
      var rule := RuleOf(rules, s[k - 1]);
      assert Depth(rule) == Delta(s[k - 1]) && Low(rule) >= Min(0, Delta(s[k - 1]));
      KeepsStep(RewriteTo(rules, s, k - 1), rule, s, k);
    }
  }

  /** Rewriting with a table that respects brackets keeps the depth and does not lower the lowest point. */
  lemma RewriteKeepsBrackets(rules: map<char, string>, s: string)
    requires RespectsBrackets(rules)
    ensures Depth(Rewrite(rules, s)) == Depth(s)
    ensures Low(Rewrite(rules, s)) >= Low(s)
  {
    RewriteKeepsBracketsTo(rules, s, |s|);
  }

  /** Every string the program expands from its axiom is balanced. */
  lemma {:induction false} IterateBalanced(n: nat)
    ensures Balanced(Iterate(RULES, AXIOM, n))
  {
    if n == 0 {
      NoBrackets(AXIOM);
    } else {
      IterateBalanced(n - 1);
      RulesRespectBrackets();
      RewriteKeepsBrackets(RULES, Iterate(RULES, AXIOM, n - 1));
    }
  }

  // ---------------------------------------------------------------------------
  // The turtle

  /** What `[` saves and `]` restores. */
  datatype State = State(pos: Vec, angle: real)

  /** One `DrawLineEx` call. */
  datatype Segment = Segment(from: Vec, to: Vec, thickness: real, color: Color)

  /** The turtle's own fields. */
  datatype Pen = Pen(pos: Vec, angle: real, color: Color, thickness: real)

  class Turtle {
    var pos: Vec
    var angle: real
    var color: Color
    var thickness: real
    /** The segments drawn so far, in order. */
    var drawn: seq<Segment>

    function Current(): Pen
      reads this
    {
      Pen(pos, angle, color, thickness)
    }

    /** The heading is given in degrees and kept in radians. */
    constructor(pos: Vec, angle: real, thickness: real, color: Color)
      ensures Current() == Pen(pos, angle * DEG2RAD, color, thickness) && drawn == []
    {
      this.pos := pos;
      this.angle := angle * DEG2RAD;
      this.thickness := thickness;
      this.color := color;
      this.drawn := [];
    }

    /** `forward`: draws a segment of `length` along the heading; `heading(a)` stands for `(cosf(-a), sinf(-a))`. */
    method Forward(length: real, heading: real -> Vec)
      modifies this`pos, this`drawn
      ensures pos == Add(old(pos), Scale(heading(angle), length))
      ensures drawn == old(drawn) + [Segment(old(pos), pos, thickness, color)]
    {
      var next := Add(pos, Scale(heading(angle), length));
      drawn := drawn + [Segment(pos, next, thickness, color)];
      pos := next;
    }

    /** `rotate`: turns by `a` degrees. */
    method Rotate(a: real)
      modifies this`angle
      ensures angle == old(angle) + a * DEG2RAD
    {
      angle := angle + a * DEG2RAD;
    }

    /** `set_pos`: places the turtle at `p` heading `a` degrees. */
    method SetPos(p: Vec, a: real)
      modifies this`pos, this`angle
      ensures pos == p && angle == a * DEG2RAD
    {
      pos := p;
      angle := a * DEG2RAD;
    }
  }

  // ---------------------------------------------------------------------------
  // Specification of the interpreter

  /** The turtle, the `states` stack (top last) and the segments drawn. */
  datatype Machine = Machine(pen: Pen, stack: seq<State>, drawn: seq<Segment>)

  /**
   * The drawing parameters: the heading function standing for `cosf`/`sinf`,
   * `coloring(x, 1, p)` as a function of `x` and `p`, and `shift_len` and
   * `shift_angle` (degrees).
   */
  datatype Style = Style(heading: real -> Vec, coloring: (int, real) -> Byte, len: real, turn: real)

  /** The colour of the `F` at index `j`. */
  function Paint(st: Style, j: int): Color {
    Color(st.coloring(j, 0.0), st.coloring(j, 120.0), st.coloring(j, 240.0), 255)
  }

  /** One case of the interpreter's `switch`, for the character `c` at index `j`. */
  function Apply(c: char, j: int, m: Machine, st: Style): Machine
    requires c == ']' ==> |m.stack| > 0
  {
    var p := m.pen;
    if c == 'F' then
      var p' := p.(color := Paint(st, j));
      var next := Add(p'.pos, Scale(st.heading(p'.angle), st.len));
      Machine(p'.(pos := next), m.stack, m.drawn + [Segment(p'.pos, next, p'.thickness, p'.color)])
    else if c == '+' then
      m.(pen := p.(angle := p.angle + st.turn * DEG2RAD))
    else if c == '-' then
      m.(pen := p.(angle := p.angle + -st.turn * DEG2RAD))
    else if c == '[' then
      m.(stack := m.stack + [State(p.pos, p.angle)])
    else if c == ']' then
      var top := m.stack[|m.stack| - 1];
      Machine(p.(pos := top.pos, angle := top.angle), m.stack[..|m.stack| - 1], m.drawn)
    else
      m
  }

  /**
   * What each case touches: `+` and `-` only the heading, `F` only the
   * position and colour (and it draws one segment), `[` and `]` only the
   * stack and the position and heading, any other character nothing.
   */
  lemma ApplyChanges(c: char, j: int, m: Machine, st: Style)
    requires c == ']' ==> |m.stack| > 0
    ensures var r := Apply(c, j, m, st);
      (c == '+' || c == '-' ==> r.stack == m.stack && r.drawn == m.drawn && r.pen == m.pen.(angle := r.pen.angle)) &&
      (c == 'F' ==> r.stack == m.stack && r.pen == m.pen.(pos := r.pen.pos, color := r.pen.color) &&
                    r.drawn == m.drawn + [Segment(m.pen.pos, r.pen.pos, m.pen.thickness, r.pen.color)]) &&
      (c == '[' ==> r.pen == m.pen && r.drawn == m.drawn && r.stack == m.stack + [State(m.pen.pos, m.pen.angle)]) &&
      (c == ']' ==> r.drawn == m.drawn && r.stack == m.stack[..|m.stack| - 1] &&
                    r.pen == m.pen.(pos := m.stack[|m.stack| - 1].pos, angle := m.stack[|m.stack| - 1].angle)) &&
      (c !in "F+-[]" ==> r == m)
  {
  }

  /** The interpreter over the first `k` characters of `w`, whose first character has index `base` in the axiom. */
  function RunTo(w: string, base: int, k: nat, m: Machine, st: Style): (r: Machine)
    requires k <= |w| && |m.stack| + LowTo(w, k) >= 0
    ensures |r.stack| == |m.stack| + DepthTo(w, k)
  {
    if k == 0 then m else Apply(w[k - 1], base + k - 1, RunTo(w, base, k - 1, m, st), st)
  }

  /** The interpreter over all of `w`. */
  function Run(w: string, base: int, m: Machine, st: Style): Machine
    requires Safe(w, |m.stack|)
  {
    RunTo(w, base, |w|, m, st)
  }

  // ---------------------------------------------------------------------------
  // Properties of the interpreter

  lemma {:induction false} RunPrefix(u: string, v: string, base: int, k: nat, m: Machine, st: Style)
    requires k <= |u| && |m.stack| + LowTo(u, k) >= 0
    ensures LowTo(u + v, k) == LowTo(u, k)
    ensures RunTo(u + v, base, k, m, st) == RunTo(u, base, k, m, st)
  {
    PrefixTo(u, v, k);
    if k > 0 {
      assert (u + v)[k - 1] == u[k - 1];
      RunPrefix(u, v, base, k - 1, m, st);
    }
  }

  lemma {:induction false} RunSuffix(u: string, v: string, base: int, k: nat, m: Machine, st: Style)
    requires k <= |v| && |m.stack| + LowTo(u + v, |u| + k) >= 0
    ensures Safe(u, |m.stack|) && |Run(u, base, m, st).stack| + LowTo(v, k) >= 0
    ensures RunTo(u + v, base, |u| + k, m, st) == RunTo(v, base + |u|, k, Run(u, base, m, st), st)
  {
    SuffixTo(u, v, k);
    LowBounds(v, k);
    if k == 0 {
      RunPrefix(u, v, base, |u|, m, st);
    } else {
      RunSuffix(u, v, base, k - 1, m, st);
      assert (u + v)[|u| + k - 1] == v[k - 1];
    }
  }

  /** Running a concatenation runs its parts one after the other. */
  lemma RunAppend(u: string, v: string, base: int, m: Machine, st: Style)
    requires Safe(u + v, |m.stack|)
    ensures Safe(u, |m.stack|) && Safe(v, |Run(u, base, m, st).stack|)
    ensures Run(u + v, base, m, st) == Run(v, base + |u|, Run(u, base, m, st), st)
  {
    RunSuffix(u, v, base, |v|, m, st);
  }

  /** On a prefix that never dips below its start, the stack it starts with stays underneath. */
  lemma {:induction false} RunKeepsStackTo(w: string, base: int, k: nat, m: Machine, st: Style)
    requires k <= |w| && LowTo(w, k) >= 0
    ensures RunTo(w, base, k, m, st).stack[..|m.stack|] == m.stack
  {
    if k > 0 {
      RunKeepsStackTo(w, base, k - 1, m, st);
    }
  }

  /** A balanced string leaves the stack as it found it: the stack does not grow from frame to frame. */
  lemma BalancedKeepsStack(w: string, base: int, m: Machine, st: Style)
    requires Balanced(w)
    ensures Run(w, base, m, st).stack == m.stack
  {
    RunKeepsStackTo(w, base, |w|, m, st);
  }

  /** `]` restores exactly the position and heading saved by its matching `[`. */
  lemma BracketRestores(w: string, base: int, m: Machine, st: Style)
    requires Balanced(w)
    ensures Safe("[" + w + "]", |m.stack|)
    ensures var r := Run("[" + w + "]", base, m, st);
      r.pen.pos == m.pen.pos && r.pen.angle == m.pen.angle && r.stack == m.stack
  {
    WrapBalanced(w);
    Single('[');
    LowAppend("[", w);
    RunAppend("[" + w, "]", base, m, st);
    RunAppend("[", w, base, m, st);
    var pushed := Run("[", base, m, st);
    assert RunTo("[", base, 0, m, st) == m && "["[0] == '[';
    assert pushed == m.(stack := m.stack + [State(m.pen.pos, m.pen.angle)]);
    BalancedKeepsStack(w, base + 1, pushed, st);
    var after := Run(w, base + 1, pushed, st);
    assert RunTo("]", base + 1 + |w|, 0, after, st) == after && "]"[0] == ']';
    assert after.stack[..|m.stack|] == m.stack;
  }

  lemma {:induction false} DrawsPerFTo(w: string, base: int, k: nat, m: Machine, st: Style)
    requires k <= |w| && |m.stack| + LowTo(w, k) >= 0
    ensures |RunTo(w, base, k, m, st).drawn| == |m.drawn| + CountF(w[..k])
  {
    if k > 0 {
      DrawsPerFTo(w, base, k - 1, m, st);
      CountPrefix(w, k);
    }
  }

  /** Each `F` draws exactly one segment and no other character draws. */
  lemma DrawsPerF(w: string, base: int, m: Machine, st: Style)
    requires Safe(w, |m.stack|)
    ensures |Run(w, base, m, st).drawn| == |m.drawn| + CountF(w)
  {
    DrawsPerFTo(w, base, |w|, m, st);
    assert w[..|w|] == w;
  }

  lemma {:induction false} UnknownIgnoredTo(w: string, base: int, k: nat, m: Machine, st: Style)
    requires k <= |w| && forall j :: 0 <= j < |w| ==> w[j] !in "F+-[]"
    ensures LowTo(w, k) == 0 && RunTo(w, base, k, m, st) == m
  {
    NoBracketsTo(w, k);
    if k > 0 {
      UnknownIgnoredTo(w, base, k - 1, m, st);
    }
  }

  /** Characters outside the `switch`'s cases leave the turtle, the stack and the drawing alone. */
  lemma UnknownIgnored(w: string, base: int, m: Machine, st: Style)
    requires forall j :: 0 <= j < |w| ==> w[j] !in "F+-[]"
    ensures Safe(w, |m.stack|) && Run(w, base, m, st) == m
  {
    UnknownIgnoredTo(w, base, |w|, m, st);
  }

  // ---------------------------------------------------------------------------
  // The interpreter, the frame and the program

  /** One pass of the `switch` in the frame loop: the character `c` at index `j` acts on the turtle and the `states` stack. */
  method Step(turtle: Turtle, states0: seq<State>, c: char, j: int, st: Style) returns (states: seq<State>)
    requires c == ']' ==> |states0| > 0
    modifies turtle`pos, turtle`angle, turtle`color, turtle`drawn
    ensures Machine(turtle.Current(), states, turtle.drawn) ==
            Apply(c, j, Machine(old(turtle.Current()), states0, old(turtle.drawn)), st)
  {
    states := states0;
    if c == 'F' {
      turtle.color := Paint(st, j);
      turtle.Forward(st.len, st.heading);
    } else if c == '+' {
      turtle.Rotate(st.turn);
    } else if c == '-' {
      turtle.Rotate(-st.turn);
    } else if c == '[' {
      states := states + [State(turtle.pos, turtle.angle)];
    } else if c == ']' {
      turtle.pos := states[|states| - 1].pos;
      turtle.angle := states[|states| - 1].angle;
      states := states[..|states| - 1];
    }
  }

  /** The loop over the axiom: the turtle and `states` end as the interpreter specification says. */
  method Interpret(turtle: Turtle, axiom: string, states0: seq<State>, st: Style) returns (states: seq<State>)
    requires Safe(axiom, |states0|)
    modifies turtle`pos, turtle`angle, turtle`color, turtle`drawn
    ensures Machine(turtle.Current(), states, turtle.drawn) ==
            Run(axiom, 0, Machine(old(turtle.Current()), states0, old(turtle.drawn)), st)
  {
    ghost var m0 := Machine(turtle.Current(), states0, turtle.drawn);
    states := states0;
    var j := 0;
    while j < |axiom|
      invariant 0 <= j <= |axiom|
      invariant |states0| + LowTo(axiom, j) >= 0
      invariant Machine(turtle.Current(), states, turtle.drawn) == RunTo(axiom, 0, j, m0, st)
    {
      LowMono(axiom, j + 1, |axiom|);
      states := Step(turtle, states, axiom[j], j, st);
      j := j + 1;
    }
  }

  const SCREEN_W: real := 800.0
  const SCREEN_H: real := 800.0

  /** One frame: the turtle is put back at the bottom centre heading up, then the axiom is drawn. */
  method Frame(turtle: Turtle, axiom: string, states0: seq<State>, st: Style) returns (states: seq<State>)
    requires Balanced(axiom)
    modifies turtle`pos, turtle`angle, turtle`color, turtle`drawn
    ensures states == states0
    ensures |turtle.drawn| == |old(turtle.drawn)| + CountF(axiom)
    ensures Machine(turtle.Current(), states, turtle.drawn) ==
            Run(axiom, 0, Machine(old(turtle.Current()).(pos := Vec(SCREEN_W / 2.0, SCREEN_H), angle := 90.0 * DEG2RAD),
                                  states0, old(turtle.drawn)), st)
  {
    turtle.SetPos(Vec(SCREEN_W / 2.0, SCREEN_H), 90.0);
    ghost var m0 := Machine(turtle.Current(), states0, turtle.drawn);
    states := Interpret(turtle, axiom, states0, st);
    BalancedKeepsStack(axiom, 0, m0, st);
    DrawsPerF(axiom, 0, m0, st);
  }

  const SHIFT_ANGLE: real := 15.0
  const SHIFT_LEN: real := 12.0

  /**
   * The whole program for `frames` frames (the window stays open that long):
   * the axiom is expanded four times, then every frame draws 8^4 segments and
   * leaves the stack empty.
   */
  method Demo(frames: nat, heading: real -> Vec, coloring: (int, real) -> Byte) returns (turtle: Turtle, axiom: string)
    ensures axiom == Iterate(RULES, AXIOM, ITERATIONS)
    ensures |turtle.drawn| == frames * Pow(8, ITERATIONS)
  {
    turtle := new Turtle(Vec(SCREEN_W / 2.0, SCREEN_H / 2.0), 90.0, 2.0, GREEN);
    var states: seq<State> := [];
    var rules;
    axiom, rules := Expand(RULES, AXIOM, ITERATIONS);
    IterateBalanced(ITERATIONS);
    IterateCountsF(ITERATIONS);
    var st := Style(heading, coloring, SHIFT_LEN, SHIFT_ANGLE);
    var i := 0;
    while i < frames
      invariant 0 <= i <= frames
      invariant states == []
      invariant |turtle.drawn| == i * Pow(8, ITERATIONS)
    {
      states := Frame(turtle, axiom, states, st);
      i := i + 1;
    }
  }
}
