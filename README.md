# qrex-rs SQL predicate engine, modelled in Dafny

This project models the core of qrex-rs, a small Rust SQL query builder:

- **Condition** (`condition.dfy`): the `WhereCondition` tree and its renderer to SQL text (`build_conditions`).
  It also holds the `whene`/`or_where` fold, which combines a new condition with the one already held.
  The main proved properties, the first three for conditions in which no field, value or native fragment contains a parenthesis:
  - the rendered text is parenthesis-balanced;
  - it has exactly one `(`/`)` pair per AND/OR node and per IN/NOT IN leaf;
  - only AND/OR nodes are wrapped in parentheses;
  - a sequence of fold calls loses no condition; each call adds one AND/OR node plus those of its own condition, and a first call into an empty slot adds no new node.
- **ConditionExamples** (`condition_examples.dfy`): the exact texts the source's tests expect for conditions with one AND/OR node, proved about the renderer.
  It also proves the text of `MixedFoldExample`, a tree with two AND/OR nodes; that tree is the one the fold scenario of `QueryBuilder` builds, and no source test states its text.
- **Value** (`value.dfy`): `SqlValue::to_sql`.
  Text and dates become SQL character-string literals with every `'` doubled.
  This follows the literal rule of ISO/IEC 9075-2 (SQL Foundation), section 5.3.
  The escaping loop is an imperative method proved against the `Escape` function.
  The proved properties of `Escape` are the quote count, the length, the un-escape round trip and its converse.
  Integers render in Rust's canonical base-10 form (no leading zeros, `-` only for negatives) and parse back to the same value; that form is unique.
- **QueryBuilder** (`query_builder.dfy`): the `QueryActionBuilder` class that holds the condition slot.
  It implements `set_condition`/`get_condition`, and its `Whene`/`OrWhere` methods are specified by the fold steps of `Condition`.
- **GroupBy** (`group_by.dfy`) and **OrderBy** (`order_by.dfy`): the clause builders, as classes whose setters replace their lists.
- Support modules: `Optional` (the `Option` type), `Strings` (join/split on `", "` and character counts) and `Integers` (Rust's fixed-width integer ranges and decimal rendering).

The model follows the code, which differs from a `SqlValue`-based design in these ways:
- Condition operands (field names, values, IN lists) are already-rendered strings, not `SqlValue`s.
- `LIKE` wraps its operand in quotes without doubling embedded quotes.
  `Condition.LikeMatchesLiteralIffQuoteFree` proves that this agrees with the escaped literal exactly when the operand has no `'`.
- An empty IN list is accepted and renders as `f IN ()`.
- `value`, `group_by` and `order_by` are not declared as modules in `src/query_builder/mod.rs:1-3`, so they are not compiled.
  They are modelled as written.
- `group_by` uses the `Condition` trait as a value for its HAVING slot.
  The model stores that slot as an `Option<WhereCondition>` and renders it with the condition renderer.
  An absent holder and a holder with no condition both give `None`.

## Model

| member | source | states |
|---|---|---|
| Condition.RenderBalanced | src/query_builder/condition/mod.rs:44-72 | if no operand contains a parenthesis, the rendered condition is balanced (depth never negative, ends at zero), and it is wrapped in one outer pair exactly when the root is AND or OR |
| Condition.Render | src/query_builder/condition/mod.rs:42-75 | the renderer `gc`: an AND/OR node renders as text that opens with `(` and closes with `)`, and only a NATIVE leaf can render as the empty string |
| Condition.RenderParenCount | src/query_builder/condition/mod.rs:44-63 | when no field, value or native fragment contains a parenthesis, the numbers of `(` and of `)` in the rendered condition both equal the number of AND/OR nodes plus IN/NOT IN leaves |
| Condition.InRender | src/query_builder/condition/mod.rs:48-55 | when the field and every value are free of parentheses, an IN leaf renders balanced, does not start with `(`, and has exactly one `(` and one `)` |
| Condition.NotInRender | src/query_builder/condition/mod.rs:56-63 | when the field and every value are free of parentheses, a NOT IN leaf renders balanced, does not start with `(`, and has exactly one `(` and one `)` |
| Condition.CombinatorRender | src/query_builder/condition/mod.rs:44-45 | an AND/OR node over balanced operands renders as one wrapped parenthesised group |
| Condition.LikeMatchesLiteralIffQuoteFree | src/query_builder/condition/mod.rs:70 | the LIKE text equals the properly escaped SQL literal of its operand exactly when the operand contains no `'` |
| Condition.NativeOperandsAmbiguous | src/query_builder/condition/mod.rs:44-45 | two different trees, `And(NATIVE "a OR b", NATIVE "c")` and `Or(NATIVE "a", NATIVE "b AND c")`, render to the same text `(a OR b AND c)` |
| Condition.WheneStep | src/query_builder/condition/mod.rs:87-97 | the condition `whene` stores keeps both the new condition and the held one (if any) as subtrees, and renders as `(held AND new)`, or as the new condition alone when nothing was held |
| Condition.OrWhereStep | src/query_builder/condition/mod.rs:78-85 | the condition `or_where` stores keeps both the new condition and the held one (if any) as subtrees, and renders as `(held OR new)`, or as the new condition alone when nothing was held |
| Condition.AccumulateKeepsEverything | src/query_builder/condition/mod.rs:78-97 | folding calls into the slot yields a condition exactly when something was held or a call was made, and the held condition and every call's condition are subtrees of the result |
| Condition.AccumulateSnoc | src/query_builder/condition/mod.rs:78-97 | one more `whene`/`or_where` call applies one fold step to the previous result |
| Condition.AccumulateCombinators | src/query_builder/condition/mod.rs:78-97 | each call adds one AND/OR node plus those of its own condition; a first call into an empty slot adds no new node |
| Condition.SubtreeTransitive | src/query_builder/condition/mod.rs:18-19 | the subtree relation of the condition tree is transitive |
| Condition.BasicLeafExamples | src/query_builder/condition/mod.rs:46-69 | the NULL, NOT NULL, GT and LTE leaves render as in the tests (`anas IS NULL`, `age > 30`, ...) |
| Condition.ComparisonLeafExamples | src/query_builder/condition/mod.rs:64-69 | the EQ, NEQ, GTE and LT leaves render as in the tests (`id = 1`, `id != 1`, ...) |
| Condition.ValueLeafExamples | src/query_builder/condition/mod.rs:70-72 | the LIKE, BETWEEN and NATIVE test strings |
| Condition.InExample | src/query_builder/condition/mod.rs:750-762 | `id IN (1, 2, 3)` |
| Condition.NotInExample | src/query_builder/condition/mod.rs:764-776 | `id NOT IN (4, 5, 6)` |
| Condition.EmptyInExample | src/query_builder/condition/mod.rs:48-55 | an empty IN list renders as `id IN ()` |
| Condition.AndExample | src/query_builder/condition/mod.rs:722-734 | `(robin IS NULL AND hood IS NULL)` |
| Condition.OrExample | src/query_builder/condition/mod.rs:736-748 | `(robin IS NULL OR hood IS NULL)` |
| ConditionExamples.EqAndGtExample | src/query_builder/condition/mod.rs:542-553 | `(name = 1 AND age > 18)` |
| ConditionExamples.EqAndLtExample | src/query_builder/condition/mod.rs:556-567 | `(name = 1 AND age < 18)` |
| ConditionExamples.EqAndLteExample | src/query_builder/condition/mod.rs:570-581 | `(name = 1 AND age <= 18)` |
| ConditionExamples.EqAndGteExample | src/query_builder/condition/mod.rs:584-595 | `(name = 1 AND age >= 18)` |
| ConditionExamples.LikeAndBetweenExample | src/query_builder/condition/mod.rs:598-613 | `(name LIKE 'John%' AND age BETWEEN 20 AND 30)` |
| ConditionExamples.NotInAndNullExample | src/query_builder/condition/mod.rs:616-630 | `(id NOT IN (1, 2, 3) AND name IS NULL)` |
| ConditionExamples.InAndNotNullExample | src/query_builder/condition/mod.rs:633-647 | `(id IN (4, 5, 6) AND name IS NOT NULL)` |
| ConditionExamples.NeqAndGtExample | src/query_builder/condition/mod.rs:650-661 | `(id != 1 AND age > 20)` |
| ConditionExamples.BetweenAndInExample | src/query_builder/condition/mod.rs:664-682 | `(age BETWEEN 20 AND 30 AND id IN (4, 5, 6))` |
| ConditionExamples.LikeAndInExample | src/query_builder/condition/mod.rs:685-699 | `(name LIKE 'John%' AND id IN (1, 2, 3))` |
| ConditionExamples.MixedFoldExample | src/query_builder/condition/mod.rs:44-47 | the tree `whene(f1 IS NULL)`, `or_where(f2 IS NOT NULL)`, `whene(f3 IS NOT NULL)` builds renders as `((f1 IS NULL OR f2 IS NOT NULL) AND f3 IS NOT NULL)` |
| Value.ToSql | src/query_builder/value/mod.rs:21-39 | Null gives `NULL`; every integer variant gives canonical decimal text that parses back to its value (which by `Integers.CanonicalDecimalUnique` fixes the text); Bool gives `true` or `false` matching the value; Text and StringDate give a literal that un-quotes to the content; Bytes gives the empty string |
| Value.FromStringSlice | src/query_builder/value/mod.rs:40-42 | the result is a Text value whose literal un-quotes to the given string |
| Value.ParseQuotedSqlValue | src/query_builder/value/mod.rs:64-74 | the character loop produces the quoted literal: opening quote, escaped content, closing quote |
| Value.Escape | src/query_builder/value/mod.rs:66-72 | the escaped text is never shorter than the input and is empty only for the empty input; its exact counts are `Value.EscapeCounts` |
| Value.QuotedLiteral | src/query_builder/value/mod.rs:65-73 | the literal is at least two characters long and opens and closes with `'` |
| Value.EscapeCounts | src/query_builder/value/mod.rs:66-72 | escaping doubles the number of `'`, keeps the count of every other character, and adds one character per quote |
| Value.EscapeAppend | src/query_builder/value/mod.rs:66-72 | escaping works character by character: the escape of a concatenation is the concatenation of the escapes |
| Value.QuotedLiteralQuoteCount | src/query_builder/value/mod.rs:65-73 | the literal holds twice as many `'` as the input plus 2 |
| Value.QuotedLiteralLength | src/query_builder/value/mod.rs:65-73 | the literal's length is the input length plus its number of `'` plus 2 |
| Value.EscapeQuoteFree | src/query_builder/value/mod.rs:66-72 | escaping a string with no `'` leaves it unchanged |
| Value.EscapeRoundTrip | src/query_builder/value/mod.rs:66-72 | collapsing doubled quotes recovers the original string |
| Value.UnescapeOnlyEscaped | src/query_builder/value/mod.rs:66-72 | any text that un-escapes to `s` is the escape of `s` |
| Value.QuotedLiteralRoundTrip | src/query_builder/value/mod.rs:65-73 | stripping the outer quotes and collapsing `''` recovers the original string |
| Value.UnquoteOnlyLiterals | src/query_builder/value/mod.rs:65-73 | any text that un-quotes to `s` is the quoted literal of `s`, so the literal form is unique |
| Value.ToSqlNullExample | src/query_builder/value/mod.rs:87-91 | `NULL` |
| Value.ToSqlNegativeIntExample | src/query_builder/value/mod.rs:153-157 | `Int(-123)` renders `-123` |
| Value.ToSqlUnsignedExample | src/query_builder/value/mod.rs:200-204 | `U32(255)` renders `255` |
| Value.ToSqlBoolExample | src/query_builder/value/mod.rs:194-198 | `Bool(false)` renders `false` |
| Value.QuoteDoublingEscape | src/query_builder/value/mod.rs:212-216 | the quote in `Let's go` is doubled and nothing else changes: the escaped body is `Let''s go` |
| Value.QuoteDoublingExample | src/query_builder/value/mod.rs:212-216 | `from_string_slice("Let's go")` renders as `'Let''s go'` |
| Integers.NatToDecimal | src/query_builder/value/mod.rs:81 | the decimal text is non-empty and all digits, starts with `0` only for zero, and is one digit long exactly for values below 10 |
| Integers.IntToDecimal | src/query_builder/value/mod.rs:81 | the text is canonical (optional `-`, digits, no leading zero, no sign on zero), starts with `-` exactly for negative values, and its digits start with `0` exactly for zero |
| Integers.CanonicalDecimalUnique | src/query_builder/value/mod.rs:81 | every canonical numeral is the rendering of the integer it parses to, so canonical form plus the parsed value fix the text |
| Integers.NatToDecimalOfNumeral | src/query_builder/value/mod.rs:81 | every digit string without a leading zero is the decimal text of its own value |
| Integers.NatToDecimalRoundTrip | src/query_builder/value/mod.rs:81 | reading the decimal text back gives the original natural number |
| Integers.IntToDecimalRoundTrip | src/query_builder/value/mod.rs:81 | parsing the rendered integer gives the original integer |
| Integers.IntToDecimalInjective | src/query_builder/value/mod.rs:81 | distinct integers render to distinct texts |
| Strings.Join | src/query_builder/condition/mod.rs:49-53 | the joined text of a non-empty list starts with its first element |
| Strings.SplitJoinRoundTrip | src/query_builder/condition/mod.rs:49-53 | joining a non-empty list of comma-free values with `", "` and splitting again gives back the list, in order |
| Strings.JoinAvoids | src/query_builder/condition/mod.rs:49-53 | a character absent from every value and from the separator is absent from the joined text |
| QueryBuilder.QueryActionBuilder.constructor | src/query_builder/mod.rs:6-12 | a new builder has an empty table, no fields, no condition and `all` false |
| QueryBuilder.QueryActionBuilder.SetCondition | src/query_builder/mod.rs:14-16 | the slot holds exactly the given condition; table, fields and `all` are unchanged |
| QueryBuilder.QueryActionBuilder.GetCondition | src/query_builder/mod.rs:17-19 | returns the stored condition: present exactly when the slot is set, and equal to it |
| QueryBuilder.QueryActionBuilder.Whene | src/query_builder/condition/mod.rs:87-97 | an empty slot receives the condition; otherwise the slot becomes AND of the old condition (left, unchanged) and the new one; nothing else changes |
| QueryBuilder.QueryActionBuilder.OrWhere | src/query_builder/condition/mod.rs:78-85 | an empty slot receives the condition; otherwise the slot becomes OR of the old condition (left, unchanged) and the new one; nothing else changes |
| QueryBuilder.QueryActionBuilder.BuildConditions | src/query_builder/condition/mod.rs:36-41 | no text exactly when no condition is held; otherwise the rendering of the held condition |
| QueryBuilder.FreshBuilderScenario | src/query_builder/condition/mod.rs:118-122 | a fresh builder renders no condition, and after one `whene(c)` it renders exactly `c` |
| QueryBuilder.TwoWheneScenario | src/query_builder/condition/mod.rs:87-97 | two `whene` calls render as `(first AND second)` for every pair of conditions |
| QueryBuilder.OrWhereFirstScenario | src/query_builder/condition/mod.rs:78-85 | `or_where` on an empty builder stores its condition without error, and a following `whene` renders `(first AND second)` |
| QueryBuilder.MixedFoldScenario | src/query_builder/condition/mod.rs:78-97 | `whene`, `or_where`, `whene` fold left to right into `AND(OR(f1, f2), f3)`, which renders as `((f1 IS NULL OR f2 IS NOT NULL) AND f3 IS NOT NULL)`, leaving table, fields and `all` at their defaults |
| GroupBy.GroupByBuilder.GroupByField | src/query_builder/group_by/mod.rs:11-14 | the group list becomes exactly the one field; HAVING unchanged |
| GroupBy.GroupByBuilder.GroupByFields | src/query_builder/group_by/mod.rs:35-38 | the group list becomes the given list, in order; HAVING unchanged |
| GroupBy.GroupByBuilder.Having | src/query_builder/group_by/mod.rs:30-33 | the HAVING condition is set; the group list is unchanged |
| GroupBy.GroupByBuilder.BuildGroupBy | src/query_builder/group_by/mod.rs:16-28 | no clause exactly when HAVING is absent or the group list is empty; otherwise `GROUP BY` with the fields joined by `", "`, then `HAVING` and the rendered condition |
| GroupBy.GroupByScenario | src/query_builder/group_by/mod.rs:16-38 | fields without HAVING give no clause, adding HAVING gives `GROUP BY dept, year HAVING total > 10`, and an emptied field list gives no clause again |
| OrderBy.OrderByBuilder.OrderByExpression | src/query_builder/order_by/mod.rs:12-15 | the order list is left unchanged |
| OrderBy.OrderByBuilder.OrderByRowAsc | src/query_builder/order_by/mod.rs:22-25 | the order becomes the single pair (decimal text of the row, ascending), and that text reads back as the row number |
| OrderBy.OrderByBuilder.OrderByRow | src/query_builder/order_by/mod.rs:27-30 | the order becomes the single pair (decimal text of the row, given direction), and that text reads back as the row number |
| OrderBy.OrderByBuilder.OrderByRowDesc | src/query_builder/order_by/mod.rs:32-35 | the order becomes the single pair (decimal text of the row, descending), and that text reads back as the row number |
| OrderBy.OrderByBuilder.OrderByFieldAsc | src/query_builder/order_by/mod.rs:37-40 | the order becomes the single pair (field, ascending), replacing what was there |
| OrderBy.OrderByBuilder.OrderByFieldDesc | src/query_builder/order_by/mod.rs:42-45 | the order becomes the single pair (field, descending), replacing what was there |
| OrderBy.OrderByBuilder.OrderByField | src/query_builder/order_by/mod.rs:47-50 | the order becomes the single pair (field, given direction), replacing what was there |
| OrderBy.OrderByBuilder.OrderByFields | src/query_builder/order_by/mod.rs:52-55 | the order becomes the given list, in order |
| OrderBy.OrderByScenario | src/query_builder/order_by/mod.rs:12-55 | `order_by_expression` keeps the list, and `order_by_row_desc(2)` replaces it with `[("2", Desc)]` |

## Left out

- The `F64`, `F32` and `Float` variants of `SqlValue` (src/query_builder/value/mod.rs:9-10, 14, 30-31, 35) are not modelled, because their text comes from Rust's floating-point formatting.
- The `char` instance of the quoting parser (src/query_builder/value/mod.rs:79) is not modelled separately: a character is quoted like a one-character string.
- `raw_order` (src/query_builder/order_by/mod.rs:10) is a required trait method with no default body, so it has nothing to model.
- No type in the repository implements the `GroupBy` or `OrderBy` traits, so they have no initial state; the empty lists of the `GroupByBuilder` and `OrderByBuilder` constructors are the model's choice.
- The accessor methods `get_group`/`set_group`, `get_having_condition`/`set_having_condition` and `get_order`/`set_order` are abstract in their traits; they are modelled as the class fields `group`, `havingCondition` and `order`.
- The `ConditionImpl` test holder (src/query_builder/condition/mod.rs:104-116) stores and returns its slot exactly as `QueryActionBuilder` does, so the model has one holder class.
- The exact strings of the tests with two or more AND/OR nodes (src/query_builder/condition/mod.rs:124-445, 501-539) are not proved; `Condition.RenderBalanced` and `Condition.RenderParenCount` fix only their parenthesis structure. The single-leaf tests and every single-combinator test (541-699, 722-748) are restated as lemmas.
- `where_action_builder`, `join`, `select`, `tuto` and `lib.rs` are not part of this model: they are drafts or tutorial code outside the query core.
- The commented-out `fields`, `from_table`, `build` and `all_fields` of `QueryActionBuilder` (src/query_builder/mod.rs:26-69) are not live code.
- `QueryBuilder::new` (src/query_builder/mod.rs:71-78) builds a unit struct with no state.
- The renderer's parentheses are proved to fix only the structure of the AND/OR nodes it builds. Raw operands, such as a NATIVE fragment or a value that itself contains AND/OR, are pasted in unchanged and can change how the text parses; `Condition.NativeOperandsAmbiguous` shows two trees with the same text.
- Trait-object dispatch, `Box` allocation, the `&Self` return of the fold methods and lifetimes are Rust plumbing; the tree is a datatype and the holders are classes.
