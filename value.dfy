/**
 * SQL literal values and their rendering (`SqlValue::to_sql`). Integers and
 * booleans render in their Rust `Display` form; text and date strings are
 * wrapped in single quotes with every embedded quote doubled, the
 * character-string-literal rule of ISO/IEC 9075-2 (SQL Foundation), section 5.3.
 */
module Value {
  import opened Optional
  import opened Integers

  /** `SqlValue` without its three floating-point variants (see README). */
  datatype SqlValue =
    | I128(i128Value: i128)
    | I64(i64Value: i64)
    | I32(i32Value: i32)
    | U128(u128Value: u128)
    | U64(u64Value: u64)
    | U32(u32Value: u32)
    | Bool(boolValue: bool)
    | Text(text: string)
    | Int(intValue: i32)
    | Bytes(bytes: seq<u8>)
    | StringDate(date: string)
    | Null

  const Quote: char := '\''

  /** The quote-escaping transform: each `'` becomes `''`, every other character is copied in order. */
  function Escape(s: string): (r: string)
    ensures |r| >= |s|
    ensures r == [] <==> s == []
    decreases |s|
  {
    if s == [] then ""
    else (if s[0] == Quote then [Quote, Quote] else [s[0]]) + Escape(s[1..])
  }

  /** The complete quoted literal for a string: the text `parse_sql_value` builds for `String`, `&str` and `char`. */
  function QuotedLiteral(s: string): (r: string)
    ensures |r| >= 2 && r[0] == Quote && r[|r| - 1] == Quote
  {
    [Quote] + Escape(s) + [Quote]
  }

  /** Collapses each `''` back to `'`; a lone `'` means the text was not produced by `Escape`. */
  function Unescape(t: string): Option<string>
    decreases |t|
  {
    if t == [] then Some("")
    else if t[0] != Quote then
      match Unescape(t[1..])
      case Some(rest) => Some([t[0]] + rest)
      case None => None
    else if |t| >= 2 && t[1] == Quote then
      match Unescape(t[2..])
      case Some(rest) => Some([Quote] + rest)
      case None => None
    else None
  }

  /** Strips the outer quotes of a literal and un-escapes its content. */
  function Unquote(t: string): Option<string> {
    if |t| >= 2 && t[0] == Quote && t[|t| - 1] == Quote then Unescape(t[1..|t| - 1]) else None
  }

  lemma {:induction false} EscapeAppend(a: string, b: string)
    ensures Escape(a + b) == Escape(a) + Escape(b)
    decreases |a|
  {
    if a != [] {
      assert (a + b)[1..] == a[1..] + b;
      EscapeAppend(a[1..], b);
    } else {
      assert a + b == b;
    }
  }

  /**
   * Escaping doubles the quotes, keeps the count of every other character,
   * and so lengthens the text by the number of quotes.
   */
  lemma {:induction false} EscapeCounts(s: string)
    ensures multiset(Escape(s))[Quote] == 2 * multiset(s)[Quote]
    ensures forall ch :: ch != Quote ==> multiset(Escape(s))[ch] == multiset(s)[ch]
    ensures |Escape(s)| == |s| + multiset(s)[Quote]
    decreases |s|
  {
    if s != [] {
      EscapeCounts(s[1..]);
      assert s == [s[0]] + s[1..];
    }
  }

  /** The rendered literal holds twice the input's quotes plus the two that wrap it. */
  lemma QuotedLiteralQuoteCount(s: string)
    ensures multiset(QuotedLiteral(s))[Quote] == 2 * multiset(s)[Quote] + 2
  {
    EscapeCounts(s);
  }

  /** The rendered literal is longer than its input by the number of quotes plus the two wrapping quotes. */
  lemma QuotedLiteralLength(s: string)
    ensures |QuotedLiteral(s)| == |s| + multiset(s)[Quote] + 2
  {
    EscapeCounts(s);
  }

  /** A string without quotes is copied unchanged. */
  lemma {:induction false} EscapeQuoteFree(s: string)
    requires Quote !in s
    ensures Escape(s) == s
    decreases |s|
  {
    if s != [] {
      EscapeQuoteFree(s[1..]);
      assert s == [s[0]] + s[1..];
    }
  }

  lemma {:induction false} EscapeRoundTrip(s: string)
    ensures Unescape(Escape(s)) == Some(s)
    decreases |s|
  {
    if s != [] {
      EscapeRoundTrip(s[1..]);
      var e := Escape(s);
      if s[0] == Quote {
        assert e[2..] == Escape(s[1..]);
      } else {
        assert e[1..] == Escape(s[1..]);
      }
      assert s == [s[0]] + s[1..];
    }
  }

  lemma {:induction false} UnescapeOnlyEscaped(t: string, s: string)
    requires Unescape(t) == Some(s)
    ensures Escape(s) == t
    decreases |t|
  {
    if t != [] {
      if t[0] != Quote {
        UnescapeOnlyEscaped(t[1..], s[1..]);
        assert t == [t[0]] + t[1..];
      } else {
        UnescapeOnlyEscaped(t[2..], s[1..]);
        assert t == [Quote, Quote] + t[2..];
      }
    }
  }

  /** Stripping the outer quotes and collapsing `''` recovers exactly the original string. */
  lemma QuotedLiteralRoundTrip(s: string)
    ensures Unquote(QuotedLiteral(s)) == Some(s)
  {
    var q := QuotedLiteral(s);
    assert q[1..|q| - 1] == Escape(s);
    EscapeRoundTrip(s);
  }

  /** Conversely, every text that un-quotes to `s` is the quoted literal of `s`. */
  lemma UnquoteOnlyLiterals(t: string, s: string)
    requires Unquote(t) == Some(s)
    ensures t == QuotedLiteral(s)
  {
    var inner := t[1..|t| - 1];
    assert Unescape(inner) == Some(s);
    UnescapeOnlyEscaped(inner, s);
    assert t == [t[0]] + inner + [t[|t| - 1]];
  }

  /** The string arm of `parse_sql_value`: copies character by character, doubling quotes, then wraps the result. */
  method ParseQuotedSqlValue(s: string) returns (r: string)
    ensures r == QuotedLiteral(s)
  {
    var str := "";
    for i := 0 to |s|
      invariant str == Escape(s[..i])
    {
      var c := s[i];
      if c == Quote {
        str := str + [Quote, Quote];
      } else {
        str := str + [c];
      }
      assert s[..i + 1] == s[..i] + [c];
      EscapeAppend(s[..i], [c]);
    }
    assert s[..|s|] == s;
    r := [Quote] + str + [Quote];
  }

  /** The integer a numeric variant carries. */
  function IntegerOf(v: SqlValue): int
    requires v.I128? || v.I64? || v.I32? || v.U128? || v.U64? || v.U32? || v.Int?
  {
    match v
    case I128(n) => n
    case I64(n) => n
    case I32(n) => n
    case U128(n) => n
    case U64(n) => n
    case U32(n) => n
    case Int(n) => n
  }

  /** `SqlValue::to_sql`. */
  function ToSql(v: SqlValue): (r: string)
    ensures v.Null? ==> r == "NULL"
    ensures (v.I128? || v.I64? || v.I32? || v.U128? || v.U64? || v.U32? || v.Int?) ==>
              IsCanonicalDecimal(r) && ParseInt(r) == Some(IntegerOf(v))
    ensures v.Bool? ==> (r == "true" <==> v.boolValue) && (r == "false" <==> !v.boolValue)
    ensures v.Text? ==> Unquote(r) == Some(v.text)
    ensures v.StringDate? ==> Unquote(r) == Some(v.date)
    ensures v.Bytes? ==> r == ""
  {
    match v
    case Null => "NULL"
    case I128(n) => IntToDecimalRoundTrip(n); IntToDecimal(n)
    case I64(n) => IntToDecimalRoundTrip(n); IntToDecimal(n)
    case I32(n) => IntToDecimalRoundTrip(n); IntToDecimal(n)
    case U128(n) => IntToDecimalRoundTrip(n); IntToDecimal(n)
    case U64(n) => IntToDecimalRoundTrip(n); IntToDecimal(n)
    case U32(n) => IntToDecimalRoundTrip(n); IntToDecimal(n)
    case Bool(b) => if b then "true" else "false"
    case Text(s) => QuotedLiteralRoundTrip(s); QuotedLiteral(s)
    case Int(n) => IntToDecimalRoundTrip(n); IntToDecimal(n)
    case StringDate(s) => QuotedLiteralRoundTrip(s); QuotedLiteral(s)
    case Bytes(_) => ""
  }

  /** `SqlValue::from_string_slice`: a text value whose literal un-quotes to the given string. */
  function FromStringSlice(s: string): (r: SqlValue)
    ensures r.Text? && Unquote(ToSql(r)) == Some(s)
  {
    Text(s)
  }

  /** The exact strings of the source's value tests, one per lemma. */
  lemma ToSqlNullExample()
    ensures ToSql(Null) == "NULL"
  {
  }

  lemma ToSqlNegativeIntExample()
    ensures ToSql(Int(-123)) == "-123"
  {
    assert NatToDecimal(12) == "12" by {
      assert NatToDecimal(1) == "1";
    }
    assert NatToDecimal(123) == "123";
  }

  lemma ToSqlUnsignedExample()
    ensures ToSql(U32(255)) == "255"
  {
  }

  lemma ToSqlBoolExample()
    ensures ToSql(Bool(false)) == "false"
  {
  }

  /** The escaped body of the quote-doubling test's literal. */
  lemma QuoteDoublingEscape()
    ensures Escape("Let's go") == "Let''s go"
  {
    assert "o"[1..] == "";
    assert Escape("o") == "o";
    assert "go"[1..] == "o";
    assert Escape("go") == "go";
    assert " go"[1..] == "go";
    assert Escape(" go") == " go";
    assert "s go"[1..] == " go";
    assert Escape("s go") == "s go";
    assert "'s go"[1..] == "s go";
    assert Escape("'s go") == "''s go";
    assert "t's go"[1..] == "'s go";
    assert Escape("t's go") == "t''s go";
    assert "et's go"[1..] == "t's go";
    assert Escape("et's go") == "et''s go";
    assert "Let's go"[1..] == "et's go";
    assert Escape("Let's go") == "Let''s go";
  }

  lemma QuoteDoublingExample()
    ensures ToSql(FromStringSlice("Let's go")) == "'Let''s go'"
  {
    QuoteDoublingEscape();
    assert QuotedLiteral("Let's go") == "'Let''s go'";
    assert ToSql(Text("Let's go")) == QuotedLiteral("Let's go");
  }

}
