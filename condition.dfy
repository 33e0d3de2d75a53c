/**
 * The predicate engine: the `WhereCondition` tree, its rendering to SQL text
 * (the `gc` renderer inside `Condition::build_conditions`), and the fold steps
 * of `whene` / `or_where` that combine a held condition with a new one.
 *
 * Leaf operands are strings that the caller has already rendered: the tree
 * holds no `SqlValue`s.
 */
module Condition {
  import opened Optional
  import opened Strings
  import Value

  datatype WhereCondition =
    | Native(sql: string)
    | Null(field: string)
    | NotNull(field: string)
    | And(left: WhereCondition, right: WhereCondition)
    | Or(left: WhereCondition, right: WhereCondition)
    | In(field: string, values: seq<string>)
    | NotIn(field: string, values: seq<string>)
    | Eq(field: string, value: string)
    | Neq(field: string, value: string)
    | Between(field: string, low: string, high: string)
    | Gt(field: string, value: string)
    | Gte(field: string, value: string)
    | Lt(field: string, value: string)
    | Lte(field: string, value: string)
    | Like(field: string, value: string)

  /** SQL text of a condition. Every AND/OR node is wrapped in parentheses; leaves are not. */
  function Render(c: WhereCondition): (r: string)
    ensures (c.And? || c.Or?) ==> |r| >= 2 && r[0] == '(' && r[|r| - 1] == ')'
    ensures r == [] ==> c.Native?
    decreases c
  {
    match c
    case Or(l, r) => "(" + Render(l) + " OR " + Render(r) + ")"
    case And(l, r) => "(" + Render(l) + " AND " + Render(r) + ")"
    case Null(f) => f + " IS NULL"
    case NotNull(f) => f + " IS NOT NULL"
    case In(f, vs) => f + " IN (" + Join(vs, ListSeparator) + ")"
    case NotIn(f, vs) => f + " NOT IN (" + Join(vs, ListSeparator) + ")"
    case Eq(f, v) => f + " = " + v
    case Neq(f, v) => f + " != " + v
    case Lt(f, v) => f + " < " + v
    case Lte(f, v) => f + " <= " + v
    case Gt(f, v) => f + " > " + v
    case Gte(f, v) => f + " >= " + v
    case Like(f, v) => f + " LIKE '" + v + "'"
    case Between(f, a, b) => f + " BETWEEN " + a + " AND " + b
    case Native(s) => s
  }

  // ----- Parenthesisation -----

  predicate ParenFree(s: string) {
    '(' !in s && ')' !in s
  }

  /** No field, value or native fragment of the tree contains a parenthesis. */
  predicate LeavesParenFree(c: WhereCondition)
    decreases c
  {
    match c
    case And(l, r) => LeavesParenFree(l) && LeavesParenFree(r)
    case Or(l, r) => LeavesParenFree(l) && LeavesParenFree(r)
    case Native(s) => ParenFree(s)
    case Null(f) => ParenFree(f)
    case NotNull(f) => ParenFree(f)
    case In(f, vs) => ParenFree(f) && forall i :: 0 <= i < |vs| ==> ParenFree(vs[i])
    case NotIn(f, vs) => ParenFree(f) && forall i :: 0 <= i < |vs| ==> ParenFree(vs[i])
    case Between(f, a, b) => ParenFree(f) && ParenFree(a) && ParenFree(b)
    case Eq(f, v) => ParenFree(f) && ParenFree(v)
    case Neq(f, v) => ParenFree(f) && ParenFree(v)
    case Gt(f, v) => ParenFree(f) && ParenFree(v)
    case Gte(f, v) => ParenFree(f) && ParenFree(v)
    case Lt(f, v) => ParenFree(f) && ParenFree(v)
    case Lte(f, v) => ParenFree(f) && ParenFree(v)
    case Like(f, v) => ParenFree(f) && ParenFree(v)
  }

  /** Number of AND/OR nodes in the tree. */
  function Combinators(c: WhereCondition): nat
    decreases c
  {
    match c
    case And(l, r) => 1 + Combinators(l) + Combinators(r)
    case Or(l, r) => 1 + Combinators(l) + Combinators(r)
    case _ => 0
  }

  /** Number of parenthesised groups the renderer writes: one per AND/OR node and one per IN/NOT IN list. */
  function ParenGroups(c: WhereCondition): nat
    decreases c
  {
    match c
    case And(l, r) => 1 + ParenGroups(l) + ParenGroups(r)
    case Or(l, r) => 1 + ParenGroups(l) + ParenGroups(r)
    case In(_, _) => 1
    case NotIn(_, _) => 1
    case _ => 0
  }

  /** Opening minus closing parentheses. */
  function Depth(s: string): int {
    Count(s, '(') as int - Count(s, ')') as int
  }

  /** Parentheses match: no prefix closes more than it opens, and the whole text closes all it opens. */
  ghost predicate Balanced(s: string) {
    Depth(s) == 0 && forall k :: 0 <= k <= |s| ==> Depth(s[..k]) >= 0
  }

  /** One parenthesised group: the opening parenthesis is closed only by the last character. */
  ghost predicate Wrapped(s: string) {
    |s| >= 2 && s[0] == '(' && Balanced(s) && forall k :: 1 <= k < |s| ==> Depth(s[..k]) >= 1
  }

  lemma DepthAppend(a: string, b: string)
    ensures Depth(a + b) == Depth(a) + Depth(b)
  {
    CountAppend(a, b, '(');
    CountAppend(a, b, ')');
  }

  lemma ParenFreeDepth(s: string)
    requires ParenFree(s)
    ensures Depth(s) == 0 && Count(s, '(') == 0 && Count(s, ')') == 0
  {
    CountAbsent(s, '(');
    CountAbsent(s, ')');
  }

  lemma ParenFreeBalanced(s: string)
    requires ParenFree(s)
    ensures Balanced(s)
  {
    ParenFreeDepth(s);
    forall k | 0 <= k <= |s|
      ensures Depth(s[..k]) == 0
    {
      assert s == s[..k] + s[k..];
      ParenFreeDepth(s[..k]);
    }
  }

  lemma BalancedAppend(a: string, b: string)
    requires Balanced(a) && Balanced(b)
    ensures Balanced(a + b)
  {
    var s := a + b;
    DepthAppend(a, b);
    forall k | 0 <= k <= |s|
      ensures Depth(s[..k]) >= 0
    {
      if k <= |a| {
        assert s[..k] == a[..k];
      } else {
        assert s[..k] == a + b[..k - |a|];
        DepthAppend(a, b[..k - |a|]);
      }
    }
  }

  lemma BalancedWrap(s: string)
    requires Balanced(s)
    ensures Wrapped("(" + s + ")")
  {
    var w := "(" + s + ")";
    DepthAppend("(", s);
    DepthAppend("(" + s, ")");
    forall k | 1 <= k < |w|
      ensures Depth(w[..k]) >= 1
    {
      assert w[..k] == "(" + s[..k - 1];
      DepthAppend("(", s[..k - 1]);
    }
    forall k | 0 <= k <= |w|
      ensures Depth(w[..k]) >= 0
    {
      if k == 0 {
        assert w[..k] == [];
      } else if k == |w| {
        assert w[..k] == w;
      }
    }
  }

  /** `"(" + l + sep + r + ")"` is one group when `l` and `r` are balanced and `sep` has no parenthesis. */
  lemma CombinatorWrapped(l: string, sep: string, r: string)
    requires Balanced(l) && Balanced(r) && ParenFree(sep)
    ensures Wrapped("(" + l + sep + r + ")")
  {
    ParenFreeBalanced(sep);
    BalancedAppend(l, sep);
    BalancedAppend(l + sep, r);
    BalancedWrap(l + sep + r);
    assert "(" + l + sep + r + ")" == "(" + (l + sep + r) + ")";
  }

  /** Counting a character in `"(" + l + sep + r + ")"` part by part. */
  lemma CombinatorCount(l: string, sep: string, r: string, ch: char)
    ensures Count("(" + l + sep + r + ")", ch) ==
            Count("(", ch) + Count(l, ch) + Count(sep, ch) + Count(r, ch) + Count(")", ch)
  {
    CountAppend("(", l, ch);
    CountAppend("(" + l, sep, ch);
    CountAppend("(" + l + sep, r, ch);
    CountAppend("(" + l + sep + r, ")", ch);
  }

  /** `f + kw + "(" + list + ")"`, with paren-free parts, is balanced, holds one pair, and does not open with `(`. */
  lemma ListLeafText(f: string, kw: string, kwOpen: string, list: string)
    requires ParenFree(f) && ParenFree(kw) && ParenFree(list)
    requires |kw| >= 1 && kw[0] == ' ' && kwOpen == kw + "("
    ensures Balanced(f + kwOpen + list + ")")
    ensures (f + kwOpen + list + ")")[0] != '('
    ensures Count(f + kwOpen + list + ")", '(') == 1
    ensures Count(f + kwOpen + list + ")", ')') == 1
  {
    var t := f + kwOpen + list + ")";
    assert t == (f + kw) + ("(" + list + ")");
    ParenFreeBalanced(f + kw);
    ParenFreeBalanced(list);
    BalancedWrap(list);
    BalancedAppend(f + kw, "(" + list + ")");
    ParenFreeDepth(f + kw);
    ParenFreeDepth(list);
    CountAppend("(", list, '(');
    CountAppend("(" + list, ")", '(');
    CountAppend(f + kw, "(" + list + ")", '(');
    CountAppend("(", list, ')');
    CountAppend("(" + list, ")", ')');
    CountAppend(f + kw, "(" + list + ")", ')');
    if f != [] {
      assert f[0] in f;
    }
  }

  lemma ListParenFree(vs: seq<string>)
    requires forall i :: 0 <= i < |vs| ==> ParenFree(vs[i])
    ensures ParenFree(Join(vs, ListSeparator))
  {
    JoinAvoids(vs, ListSeparator, '(');
    JoinAvoids(vs, ListSeparator, ')');
  }

  /** A leaf other than IN / NOT IN renders without any parenthesis of its own. */
  lemma SimpleLeafParenFree(c: WhereCondition)
    requires LeavesParenFree(c)
    requires !(c.And? || c.Or? || c.In? || c.NotIn?)
    ensures ParenFree(Render(c))
    ensures Count(Render(c), '(') == 0 && Count(Render(c), ')') == 0
  {
    ParenFreeDepth(Render(c));
  }

  lemma InRender(f: string, vs: seq<string>)
    requires LeavesParenFree(In(f, vs))
    ensures Balanced(Render(In(f, vs))) && Render(In(f, vs))[0] != '('
    ensures Count(Render(In(f, vs)), '(') == 1 && Count(Render(In(f, vs)), ')') == 1
  {
    ListParenFree(vs);
    ListLeafText(f, " IN ", " IN (", Join(vs, ListSeparator));
  }

  lemma NotInRender(f: string, vs: seq<string>)
    requires LeavesParenFree(NotIn(f, vs))
    ensures Balanced(Render(NotIn(f, vs))) && Render(NotIn(f, vs))[0] != '('
    ensures Count(Render(NotIn(f, vs)), '(') == 1 && Count(Render(NotIn(f, vs)), ')') == 1
  {
    ListParenFree(vs);
    ListLeafText(f, " NOT IN ", " NOT IN (", Join(vs, ListSeparator));
  }

  lemma CombinatorRender(c: WhereCondition)
    requires c.And? || c.Or?
    requires Balanced(Render(c.left)) && Balanced(Render(c.right))
    ensures Wrapped(Render(c))
  {
    var sep := if c.And? then " AND " else " OR ";
    assert Render(c) == "(" + Render(c.left) + sep + Render(c.right) + ")";
    CombinatorWrapped(Render(c.left), sep, Render(c.right));
  }

  lemma CombinatorParenCount(c: WhereCondition)
    requires c.And? || c.Or?
    requires Count(Render(c.left), '(') == ParenGroups(c.left) == Count(Render(c.left), ')')
    requires Count(Render(c.right), '(') == ParenGroups(c.right) == Count(Render(c.right), ')')
    ensures Count(Render(c), '(') == ParenGroups(c) == Count(Render(c), ')')
  {
    var sep := if c.And? then " AND " else " OR ";
    assert Render(c) == "(" + Render(c.left) + sep + Render(c.right) + ")";
    ParenFreeDepth(sep);
    CombinatorCount(Render(c.left), sep, Render(c.right), '(');
    CombinatorCount(Render(c.left), sep, Render(c.right), ')');
  }

  /**
   * Parenthesisation soundness: with paren-free leaves the rendered text is
   * balanced, and it is a single parenthesised group exactly when the root is
   * an AND or OR node.
   */
  lemma {:induction false} RenderBalanced(c: WhereCondition)
    requires LeavesParenFree(c)
    ensures Balanced(Render(c))
    ensures Wrapped(Render(c)) <==> (c.And? || c.Or?)
    decreases c
  {
    match c
    case And(l, r) =>
      RenderBalanced(l);
      RenderBalanced(r);
      CombinatorRender(c);
    case Or(l, r) =>
      RenderBalanced(l);
      RenderBalanced(r);
      CombinatorRender(c);
    case In(f, vs) =>
      InRender(f, vs);
    case NotIn(f, vs) =>
      NotInRender(f, vs);
    case _ =>
      SimpleLeafParenFree(c);
      ParenFreeBalanced(Render(c));
      if |Render(c)| > 0 {
        assert Render(c)[0] in Render(c);
      }
  }

  /**
   * The renderer writes exactly one `(` and one `)` per AND/OR node and per
   * IN/NOT IN list, when the leaves contain none of their own.
   */
  lemma {:induction false} RenderParenCount(c: WhereCondition)
    requires LeavesParenFree(c)
    ensures Count(Render(c), '(') == ParenGroups(c)
    ensures Count(Render(c), ')') == ParenGroups(c)
    decreases c
  {
    match c
    case And(l, r) =>
      RenderParenCount(l);
      RenderParenCount(r);
      CombinatorParenCount(c);
    case Or(l, r) =>
      RenderParenCount(l);
      RenderParenCount(r);
      CombinatorParenCount(c);
    case In(f, vs) =>
      InRender(f, vs);
    case NotIn(f, vs) =>
      NotInRender(f, vs);
    case _ =>
      SimpleLeafParenFree(c);
  }

  // ----- Raw operands -----

  /**
   * The parentheses the renderer adds fix the tree structure only when the
   * operands add no AND/OR of their own: two different trees whose NATIVE
   * operands hold a bare AND/OR render to the same text.
   */
  lemma NativeOperandsAmbiguous()
    ensures And(Native("a OR b"), Native("c")) != Or(Native("a"), Native("b AND c"))
    ensures Render(And(Native("a OR b"), Native("c"))) == Render(Or(Native("a"), Native("b AND c")))
  {
    assert "(" + "a OR b" + " AND " + "c" + ")" == "(a OR b AND c)";
    assert "(" + "a" + " OR " + "b AND c" + ")" == "(a OR b AND c)";
  }

  // ----- LIKE -----

  /**
   * LIKE wraps its value in quotes without escaping it: the text equals what
   * the SQL literal rendering of the value would give exactly when the value
   * holds no quote.
   */
  lemma LikeMatchesLiteralIffQuoteFree(f: string, v: string)
    ensures Render(Like(f, v)) == f + " LIKE " + Value.QuotedLiteral(v) <==> Value.Quote !in v
  {
    var plain := f + " LIKE '" + v + "'";
    assert plain == (f + " LIKE ") + ([Value.Quote] + v + [Value.Quote]);
    if Value.Quote !in v {
      Value.EscapeQuoteFree(v);
    }
    if plain == f + " LIKE " + Value.QuotedLiteral(v) {
      var pre := f + " LIKE ";
      var lit := Value.QuotedLiteral(v);
      var wrapped := [Value.Quote] + v + [Value.Quote];
      assert plain[|pre|..] == wrapped;
      assert (pre + lit)[|pre|..] == lit;
      assert wrapped == lit;
      assert wrapped[1..|wrapped| - 1] == v;
      assert lit[1..|lit| - 1] == Value.Escape(v);
      Value.EscapeCounts(v);
      assert multiset(v)[Value.Quote] == 0;
    }
  }

  // ----- Folding a new condition into the held one (`whene`, `or_where`) -----

  /** The condition `whene` stores: the new one alone, or `AND(held, new)` with the held tree as left operand. */
  function WheneStep(held: Option<WhereCondition>, c: WhereCondition): (r: WhereCondition)
    ensures SubtreeOf(c, r) && (held.Some? ==> SubtreeOf(held.value, r))
    ensures Render(r) == if held.Some? then "(" + Render(held.value) + " AND " + Render(c) + ")" else Render(c)
  {
    match held
    case None => c
    case Some(h) => And(h, c)
  }

  /** The condition `or_where` stores: the new one alone, or `OR(held, new)`. */
  function OrWhereStep(held: Option<WhereCondition>, c: WhereCondition): (r: WhereCondition)
    ensures SubtreeOf(c, r) && (held.Some? ==> SubtreeOf(held.value, r))
    ensures Render(r) == if held.Some? then "(" + Render(held.value) + " OR " + Render(c) + ")" else Render(c)
  {
    match held
    case None => c
    case Some(h) => Or(h, c)
  }

  /** One builder call: `whene(cond)` or `or_where(cond)`. */
  datatype FoldCall = WheneCall(cond: WhereCondition) | OrWhereCall(cond: WhereCondition)

  function Step(held: Option<WhereCondition>, call: FoldCall): WhereCondition {
    match call
    case WheneCall(c) => WheneStep(held, c)
    case OrWhereCall(c) => OrWhereStep(held, c)
  }

  /** The slot after making the given calls, in order, on a slot holding `held`. */
  function Accumulate(held: Option<WhereCondition>, calls: seq<FoldCall>): Option<WhereCondition>
    decreases |calls|
  {
    if calls == [] then held else Accumulate(Some(Step(held, calls[0])), calls[1..])
  }

  /** `a` occurs in `b` as the whole tree or under some chain of AND/OR operands. */
  predicate SubtreeOf(a: WhereCondition, b: WhereCondition)
    decreases b
  {
    a == b || ((b.And? || b.Or?) && (SubtreeOf(a, b.left) || SubtreeOf(a, b.right)))
  }

  lemma {:induction false} SubtreeTransitive(a: WhereCondition, b: WhereCondition, c: WhereCondition)
    requires SubtreeOf(a, b) && SubtreeOf(b, c)
    ensures SubtreeOf(a, c)
    decreases c
  {
    if b != c {
      if SubtreeOf(b, c.left) {
        SubtreeTransitive(a, b, c.left);
      } else {
        SubtreeTransitive(a, b, c.right);
      }
    }
  }

  lemma StepKeeps(held: Option<WhereCondition>, call: FoldCall)
    ensures SubtreeOf(call.cond, Step(held, call))
    ensures held.Some? ==> SubtreeOf(held.value, Step(held, call))
  {
  }

  /** Total number of AND/OR nodes in the conditions of a call sequence. */
  function CallCombinators(calls: seq<FoldCall>): nat
    decreases |calls|
  {
    if calls == [] then 0 else Combinators(calls[0].cond) + CallCombinators(calls[1..])
  }

  /**
   * Folding never loses structure: the slot is filled once any call is made,
   * and the held tree and every folded condition stay whole subtrees of the result.
   */
  lemma {:induction false} AccumulateKeepsEverything(held: Option<WhereCondition>, calls: seq<FoldCall>)
    ensures Accumulate(held, calls).Some? <==> (held.Some? || calls != [])
    ensures held.Some? ==> SubtreeOf(held.value, Accumulate(held, calls).value)
    ensures forall i :: 0 <= i < |calls| ==> SubtreeOf(calls[i].cond, Accumulate(held, calls).value)
    decreases |calls|
  {
    if calls != [] {
      var next := Step(held, calls[0]);
      var result := Accumulate(Some(next), calls[1..]);
      AccumulateKeepsEverything(Some(next), calls[1..]);
      StepKeeps(held, calls[0]);
      SubtreeTransitive(calls[0].cond, next, result.value);
      if held.Some? {
        SubtreeTransitive(held.value, next, result.value);
      }
      forall i | 1 <= i < |calls|
        ensures SubtreeOf(calls[i].cond, result.value)
      {
        assert calls[1..][i - 1] == calls[i];
      }
    }
  }

  /**
   * The last call makes the root: the slot after `calls + [call]` is the slot
   * after `calls` with `call` folded in, the earlier tree untouched as the left operand.
   */
  lemma {:induction false} AccumulateSnoc(held: Option<WhereCondition>, calls: seq<FoldCall>, call: FoldCall)
    ensures Accumulate(held, calls + [call]) == Some(Step(Accumulate(held, calls), call))
    decreases |calls|
  {
    if calls == [] {
      assert calls + [call] == [call];
    } else {
      assert (calls + [call])[1..] == calls[1..] + [call];
      AccumulateSnoc(Some(Step(held, calls[0])), calls[1..], call);
    }
  }

  /**
   * Each call adds one AND/OR node plus those of its own condition; a first
   * call into an empty slot adds no new node.
   */
  lemma {:induction false} AccumulateCombinators(held: Option<WhereCondition>, calls: seq<FoldCall>)
    requires held.Some? || calls != []
    ensures Accumulate(held, calls).Some?
    ensures Combinators(Accumulate(held, calls).value) + (if held.None? then 1 else 0) ==
            (if held.Some? then Combinators(held.value) else 0) + CallCombinators(calls) + |calls|
    decreases |calls|
  {
    if calls != [] {
      AccumulateCombinators(Some(Step(held, calls[0])), calls[1..]);
    }
  }

  // ----- Exact outputs from the source's tests -----

  lemma BasicLeafExamples()
    ensures Render(Null("anas")) == "anas IS NULL"
    ensures Render(NotNull("jaidi")) == "jaidi IS NOT NULL"
    ensures Render(Gt("age", "30")) == "age > 30"
    ensures Render(Lte("age", "30")) == "age <= 30"
  {
  }

  lemma ComparisonLeafExamples()
    ensures Render(Eq("id", "1")) == "id = 1"
    ensures Render(Neq("id", "1")) == "id != 1"
    ensures Render(Gte("age", "30")) == "age >= 30"
    ensures Render(Lt("age", "30")) == "age < 30"
  {
  }

  lemma ValueLeafExamples()
    ensures Render(Like("name", "John%")) == "name LIKE 'John%'"
    ensures Render(Between("id", "1", "10")) == "id BETWEEN 1 AND 10"
    ensures Render(Native("age BETWEEN 20 AND 30")) == "age BETWEEN 20 AND 30"
  {
  }

  lemma InExample()
    ensures Render(In("id", ["1", "2", "3"])) == "id IN (1, 2, 3)"
  {
    assert Join(["1", "2", "3"], ListSeparator) == "1, 2, 3" by {
      assert ["1", "2", "3"][1..] == ["2", "3"];
      assert ["2", "3"][1..] == ["3"];
    }
  }

  lemma NotInExample()
    ensures Render(NotIn("id", ["4", "5", "6"])) == "id NOT IN (4, 5, 6)"
  {
    assert Join(["4", "5", "6"], ListSeparator) == "4, 5, 6" by {
      assert ["4", "5", "6"][1..] == ["5", "6"];
      assert ["5", "6"][1..] == ["6"];
    }
  }

  lemma EmptyInExample()
    ensures Render(In("id", [])) == "id IN ()"
  {
  }

  lemma AndExample()
    ensures Render(And(Null("robin"), Null("hood"))) == "(robin IS NULL AND hood IS NULL)"
  {
    assert "(" + "robin IS NULL" + " AND " + "hood IS NULL" + ")" == "(robin IS NULL AND hood IS NULL)";
  }

  lemma OrExample()
    ensures Render(Or(Null("robin"), Null("hood"))) == "(robin IS NULL OR hood IS NULL)"
  {
    assert "(" + "robin IS NULL" + " OR " + "hood IS NULL" + ")" == "(robin IS NULL OR hood IS NULL)";
  }
}
