/**
  The pieces of Go's `strings`, `strconv` and `fmt` packages that the image
  proxy relies on, over strings modelled as sequences of characters.
*/
module GoStd {

  /** The number of occurrences of `c` in `s`. */
  function Count(s: string, c: char): nat
  {
    if s == [] then 0 else (if s[0] == c then 1 else 0) + Count(s[1..], c)
  }

  lemma {:induction false} CountPositive(s: string, c: char)
    requires Count(s, c) > 0
    ensures c in s
  {
    if s[0] != c {
      CountPositive(s[1..], c);
    }
  }

  // ---------------------------------------------------------------------
  // strings.Split and strings.Join with a one-character separator
  // ---------------------------------------------------------------------

  /** strings.Split(s, string(sep)): the pieces of `s` between the occurrences
      of `sep`, one more piece than there are separators, none holding `sep`. */
  function Split(s: string, sep: char): (pieces: seq<string>)
    ensures |pieces| == Count(s, sep) + 1
    ensures forall i :: 0 <= i < |pieces| ==> sep !in pieces[i]
    decreases |s|
  {
    if s == [] then [""]
    else if s[0] == sep then [""] + Split(s[1..], sep)
    else
      var rest := Split(s[1..], sep);
      [[s[0]] + rest[0]] + rest[1..]
  }

  /** The combined length of the pieces. */
  function TotalLength(pieces: seq<string>): nat
  {
    if pieces == [] then 0 else |pieces[0]| + TotalLength(pieces[1..])
  }

  /** strings.Join: the pieces with `sep` between consecutive ones, so one
      separator fewer than there are pieces. */
  function Join(pieces: seq<string>, sep: char): (r: string)
    ensures pieces != [] ==> |r| == TotalLength(pieces) + |pieces| - 1
  {
    if pieces == [] then ""
    else if |pieces| == 1 then pieces[0]
    else pieces[0] + [sep] + Join(pieces[1..], sep)
  }

  /** A join is empty when there are no pieces, and otherwise starts with the
      first piece and ends with the last. */
  lemma {:induction false} JoinEnds(pieces: seq<string>, sep: char)
    ensures pieces == [] ==> Join(pieces, sep) == ""
    ensures pieces != [] ==> |pieces[0]| <= |Join(pieces, sep)| && Join(pieces, sep)[..|pieces[0]|] == pieces[0]
    ensures pieces != [] ==> EndsWith(Join(pieces, sep), pieces[|pieces| - 1])
    decreases |pieces|
  {
    if |pieces| > 1 {
      var rest := Join(pieces[1..], sep);
      JoinEnds(pieces[1..], sep);
      var r := pieces[0] + [sep] + rest;
      assert r[..|pieces[0]|] == pieces[0];
      assert r[|r| - |rest|..] == rest;
      assert pieces[1..][|pieces[1..]| - 1] == pieces[|pieces| - 1];
    }
  }

  /** A join of at least four pieces starts with the first three, each
      followed by the separator. */
  lemma JoinFront(pieces: seq<string>, sep: char)
    requires |pieces| >= 4
    ensures Join(pieces, sep)
      == pieces[0] + [sep] + pieces[1] + [sep] + pieces[2] + [sep] + Join(pieces[3..], sep)
  {
    assert pieces[1..][1..] == pieces[2..];
    assert pieces[2..][1..] == pieces[3..];
    assert Join(pieces[1..], sep) == pieces[1] + [sep] + Join(pieces[2..], sep);
    assert Join(pieces[2..], sep) == pieces[2] + [sep] + Join(pieces[3..], sep);
  }

  /** Joining the pieces of a split gives back the string. */
  lemma {:induction false} JoinSplit(s: string, sep: char)
    ensures Join(Split(s, sep), sep) == s
    decreases |s|
  {
    if s == [] {
    } else if s[0] == sep {
      var rest := Split(s[1..], sep);
      JoinSplit(s[1..], sep);
      assert ([""] + rest)[1..] == rest;
    } else {
      var rest := Split(s[1..], sep);
      JoinSplit(s[1..], sep);
      var pieces := [[s[0]] + rest[0]] + rest[1..];
      if |rest| == 1 {
        assert pieces == [[s[0]] + rest[0]];
      } else {
        assert pieces[1..] == rest[1..];
        assert Join(rest, sep) == rest[0] + [sep] + Join(rest[1..], sep);
      }
    }
  }

  /** A string without the separator is a single piece. */
  lemma {:induction false} SplitWithoutSeparator(s: string, sep: char)
    requires sep !in s
    ensures Split(s, sep) == [s]
    decreases |s|
  {
    if s != [] {
      assert sep !in s[1..];
      SplitWithoutSeparator(s[1..], sep);
      assert [s[0]] + s[1..] == s;
    }
  }

  /** A separator between `a` and `b` splits exactly there. */
  lemma {:induction false} SplitConcat(a: string, b: string, sep: char)
    ensures Split(a + [sep] + b, sep) == Split(a, sep) + Split(b, sep)
    decreases |a|
  {
    if a == [] {
      var s := a + [sep] + b;
      assert s[0] == sep && s[1..] == b;
    } else {
      SplitConcat(a[1..], b, sep);
      SplitConcatStep(a, b, sep);
    }
  }

  /** Splitting off a first piece without the separator. */
  lemma SplitFirstPiece(first: string, rest: string, sep: char)
    requires sep !in first
    ensures Split(first + [sep] + rest, sep) == [first] + Split(rest, sep)
  {
    SplitConcat(first, rest, sep);
    SplitWithoutSeparator(first, sep);
  }

  /** The inductive step of SplitConcat: one more character in front of `a`. */
  lemma SplitConcatStep(a: string, b: string, sep: char)
    requires a != []
    requires Split(a[1..] + [sep] + b, sep) == Split(a[1..], sep) + Split(b, sep)
    ensures Split(a + [sep] + b, sep) == Split(a, sep) + Split(b, sep)
  {
    var s := a + [sep] + b;
    var t := a[1..] + [sep] + b;
    assert s != [] && s[0] == a[0] && s[1..] == t;
    if a[0] != sep {
      SplitCons(s, sep);
      SplitCons(a, sep);
      ExtendFirstPiece(a[0], Split(s, sep), Split(t, sep), Split(a, sep), Split(a[1..], sep), Split(b, sep));
    } else {
      SplitSeparatorFirst(s, sep);
      SplitSeparatorFirst(a, sep);
      PrependEmptyPiece(Split(s, sep), Split(t, sep), Split(a, sep), Split(a[1..], sep), Split(b, sep));
    }
  }

  /** The other half of SplitConcatStep's sequence reasoning. */
  lemma PrependEmptyPiece(whole: seq<string>, tail: seq<string>, first: seq<string>,
                          firstTail: seq<string>, second: seq<string>)
    requires tail == firstTail + second
    requires whole == [""] + tail
    requires first == [""] + firstTail
    ensures whole == first + second
  {
  }

  /** The sequence reasoning behind SplitConcatStep, with Split out of sight. */
  lemma ExtendFirstPiece(c: char, whole: seq<string>, tail: seq<string>, first: seq<string>,
                         firstTail: seq<string>, second: seq<string>)
    requires |firstTail| >= 1
    requires tail == firstTail + second
    requires whole == [[c] + tail[0]] + tail[1..]
    requires first == [[c] + firstTail[0]] + firstTail[1..]
    ensures whole == first + second
  {
    assert tail[0] == firstTail[0];
    assert tail[1..] == firstTail[1..] + second;
  }

  /** Unfolding Split once at a leading separator. */
  lemma SplitSeparatorFirst(s: string, sep: char)
    requires s != [] && s[0] == sep
    ensures Split(s, sep) == [""] + Split(s[1..], sep)
  {
  }

  /** Unfolding Split once at a first character that is not the separator. */
  lemma SplitCons(s: string, sep: char)
    requires s != [] && s[0] != sep
    ensures Split(s, sep) == [[s[0]] + Split(s[1..], sep)[0]] + Split(s[1..], sep)[1..]
  {
  }

  /** Splitting a join of separator-free pieces gives the pieces back. */
  lemma {:induction false} SplitJoin(pieces: seq<string>, sep: char)
    requires |pieces| >= 1
    requires forall i :: 0 <= i < |pieces| ==> sep !in pieces[i]
    ensures Split(Join(pieces, sep), sep) == pieces
    decreases |pieces|
  {
    SplitWithoutSeparator(pieces[0], sep);
    if |pieces| > 1 {
      SplitJoin(pieces[1..], sep);
      SplitConcat(pieces[0], Join(pieces[1..], sep), sep);
      assert [pieces[0]] + pieces[1..] == pieces;
    }
  }

  /** The first piece is the longest prefix without the separator. */
  lemma {:induction false} FirstPiece(s: string, sep: char)
    ensures var p := Split(s, sep)[0];
      |p| <= |s| && s[..|p|] == p && (|p| == |s| || s[|p|] == sep)
    decreases |s|
  {
    if s != [] && s[0] != sep {
      FirstPiece(s[1..], sep);
    }
  }

  /** The last piece is the longest suffix without the separator. */
  lemma {:induction false} LastPiece(s: string, sep: char)
    ensures var pieces := Split(s, sep);
      var e := pieces[|pieces| - 1];
      |e| <= |s| && s[|s| - |e|..] == e && (|e| == |s| || s[|s| - |e| - 1] == sep)
    decreases |s|
  {
    if s != [] {
      var rest := Split(s[1..], sep);
      var e := rest[|rest| - 1];
      LastPiece(s[1..], sep);
      assert s[1..][|s| - 1 - |e|..] == s[|s| - |e|..];
      if s[0] != sep {
        if |rest| == 1 {
          JoinSplit(s[1..], sep);
          assert rest[0] == s[1..];
          assert [s[0]] + s[1..] == s;
        } else {
          if |e| == |s| - 1 {
            CountPositive(s[1..], sep);
            assert false;
          }
        }
      }
    }
  }

  // ---------------------------------------------------------------------
  // strings.HasSuffix and strings.TrimRight
  // ---------------------------------------------------------------------

  /** strings.HasSuffix: `s` is some prefix followed by `suffix`. */
  predicate EndsWith(s: string, suffix: string)
    ensures suffix == "" ==> EndsWith(s, suffix)
    ensures EndsWith(s, suffix) ==> |suffix| <= |s|
    ensures EndsWith(s, suffix) && |suffix| == |s| ==> s == suffix
  {
    |suffix| <= |s| && s[|s| - |suffix|..] == suffix
  }

  /** A string that ends with `suffix` is the rest of it followed by `suffix`. */
  lemma EndsWithSplitsOff(s: string, suffix: string)
    requires EndsWith(s, suffix)
    ensures s == s[..|s| - |suffix|] + suffix
  {
    assert s[..|s| - |suffix|] + s[|s| - |suffix|..] == s;
  }

  /** ... and every prefix followed by `suffix` ends with it. */
  lemma EndsWithAppended(prefix: string, suffix: string)
    ensures EndsWith(prefix + suffix, suffix)
  {
    assert (prefix + suffix)[|prefix|..] == suffix;
  }

  /** strings.TrimRight with the one-character cutset `c`: the longest prefix
      that does not end in `c` and is followed only by `c`s. */
  function TrimRight(s: string, c: char): (r: string)
    ensures |r| <= |s| && r == s[..|r|]
    ensures r == [] || r[|r| - 1] != c
    ensures forall i :: |r| <= i < |s| ==> s[i] == c
    decreases |s|
  {
    if s != [] && s[|s| - 1] == c then TrimRight(s[..|s| - 1], c) else s
  }

  /** Trimming `c`s appended to a string that does not end in `c` removes exactly them. */
  lemma TrimRightPadding(x: string, padding: string, c: char)
    requires x == [] || x[|x| - 1] != c
    requires forall i :: 0 <= i < |padding| ==> padding[i] == c
    ensures TrimRight(x + padding, c) == x
  {
    var s := x + padding;
    var r := TrimRight(s, c);
    assert x != [] ==> s[|x| - 1] == x[|x| - 1];
    assert forall i :: |x| <= i < |s| ==> s[i] == padding[i - |x|];
    assert |r| == |x|;
    assert s[..|x|] == x;
  }

  // ---------------------------------------------------------------------
  // strconv: decimal digits
  // ---------------------------------------------------------------------

  /** An ASCII decimal digit, what `\d` matches in Go's regexp syntax. */
  predicate IsDigit(c: char)
  {
    '0' <= c <= '9'
  }

  predicate AllDigits(s: string)
  {
    forall i :: 0 <= i < |s| ==> IsDigit(s[i])
  }

  /** One or more ASCII digits: the language of `\d+`. */
  predicate IsDigits(s: string)
  {
    |s| > 0 && AllDigits(s)
  }

  /** The value of a string of decimal digits; leading zeros are allowed. */
  function ParseDecimal(s: string): nat
    requires AllDigits(s)
  {
    if s == [] then 0 else 10 * ParseDecimal(s[..|s| - 1]) + (s[|s| - 1] as int - '0' as int)
  }

  /** The decimal digits of `n`, as strconv.Itoa and the %d verb print them:
      no leading zero, so "0" is the only text that starts with '0'. */
  function Decimal(n: nat): (s: string)
    ensures IsDigits(s)
    ensures ParseDecimal(s) == n
    ensures |s| == 1 || s[0] != '0'
  {
    if n < 10 then [('0' as int + n) as char]
    else
      var s := Decimal(n / 10) + [('0' as int + n % 10) as char];
      assert s[..|s| - 1] == Decimal(n / 10);
      s
  }

  /** strconv.Itoa, and what %d prints for an int: the decimal digits of
      the magnitude, after a '-' when it is negative. */
  function Itoa(i: int): (r: string)
    ensures i >= 0 ==> IsDigits(r) && ParseDecimal(r) == i
    ensures i < 0 ==> |r| >= 2 && r[0] == '-' && IsDigits(r[1..]) && ParseDecimal(r[1..]) == -i
    ensures i >= 0 ==> |r| == 1 || r[0] != '0'
    ensures i < 0 ==> r[1] != '0'
  {
    if i < 0 then "-" + Decimal(-i) else Decimal(i)
  }

  /** Digits that do not start with '0' stand for a positive number. */
  lemma {:induction false} LeadingDigitPositive(s: string)
    requires IsDigits(s) && s[0] != '0'
    ensures ParseDecimal(s) >= 1
    decreases |s|
  {
    if |s| > 1 {
      LeadingDigitPositive(s[..|s| - 1]);
    }
  }

  /** The converse of Decimal: a digit string without a leading zero is the
      decimal text of its own value, so Decimal is the only printing of a
      number in that form. */
  lemma {:induction false} DecimalOfParse(s: string)
    requires IsDigits(s) && (|s| == 1 || s[0] != '0')
    ensures Decimal(ParseDecimal(s)) == s
    decreases |s|
  {
    if |s| > 1 {
      var front := s[..|s| - 1];
      LeadingDigitPositive(front);
      DecimalOfParse(front);
      var n := ParseDecimal(s);
      assert n / 10 == ParseDecimal(front) && n % 10 == s[|s| - 1] as int - '0' as int;
      assert s == front + [s[|s| - 1]];
    }
  }

  // ---------------------------------------------------------------------
  // fmt.Sprintf, for formats whose only directives are %s and %d
  // ---------------------------------------------------------------------

  /** `format` has exactly `n` directives, each of them %s or %d, and no other
      use of '%'. */
  predicate SimpleFormat(format: string, n: nat)
    decreases |format|
  {
    if format == [] then n == 0
    else if format[0] == '%' then
      |format| >= 2 && (format[1] == 's' || format[1] == 'd') && n > 0 && SimpleFormat(format[2..], n - 1)
    else SimpleFormat(format[1..], n)
  }

  /** fmt.Sprintf on such a format, with its operands already rendered as
      text (an int under %d renders as Itoa does). */
  function Sprintf(format: string, operands: seq<string>): (r: string)
    requires SimpleFormat(format, |operands|)
    ensures '%' !in format ==> r == format
    decreases |format|
  {
    if format == [] then ""
    else if format[0] == '%' then operands[0] + Sprintf(format[2..], operands[1..])
    else
      var r := [format[0]] + Sprintf(format[1..], operands);
      assert '%' !in format ==> '%' !in format[1..];
      assert format == [format[0]] + format[1..];
      r
  }

  /** A format without operands is simple exactly when it has no '%', and it
      then prints as itself. */
  lemma {:induction false} LiteralFormat(literal: string)
    ensures SimpleFormat(literal, 0) <==> '%' !in literal
    ensures '%' !in literal ==> Sprintf(literal, []) == literal
    decreases |literal|
  {
    if literal != [] {
      LiteralFormat(literal[1..]);
      assert literal == [literal[0]] + literal[1..];
    }
  }

  /** Text without '%' appended to a format is printed verbatim after the
      formatted part; text with a '%' appended to a format whose directives
      already use up every operand makes it no longer simple. */
  lemma {:induction false} SprintfLiteralSuffix(format: string, operands: seq<string>, literal: string)
    requires SimpleFormat(format, |operands|)
    ensures SimpleFormat(format + literal, |operands|) <==> '%' !in literal
    ensures '%' !in literal ==> Sprintf(format + literal, operands) == Sprintf(format, operands) + literal
    decreases |format|
  {
    if format == [] {
      assert format + literal == literal;
      LiteralFormat(literal);
    } else if format[0] == '%' {
      var whole := format + literal;
      assert whole[0] == '%' && whole[1] == format[1] && whole[2..] == format[2..] + literal;
      SprintfLiteralSuffix(format[2..], operands[1..], literal);
    } else {
      var whole := format + literal;
      assert whole[0] == format[0] && whole[1..] == format[1..] + literal;
      SprintfLiteralSuffix(format[1..], operands, literal);
    }
  }

  /** Text without '%' in front of a format is printed verbatim. */
  lemma {:induction false} SprintfLiteralPrefix(literal: string, format: string, operands: seq<string>)
    requires '%' !in literal && SimpleFormat(format, |operands|)
    ensures SimpleFormat(literal + format, |operands|)
    ensures Sprintf(literal + format, operands) == literal + Sprintf(format, operands)
    decreases |literal|
  {
    if literal != [] {
      assert (literal + format)[0] == literal[0] != '%';
      assert (literal + format)[1..] == literal[1..] + format;
      SprintfLiteralPrefix(literal[1..], format, operands);
    } else {
      assert literal + format == format;
    }
  }

  /** A %s or %d directive in front of a format prints the next operand. */
  lemma SprintfDirective(verb: char, format: string, operand: string, operands: seq<string>)
    requires verb == 's' || verb == 'd'
    requires SimpleFormat(format, |operands|)
    ensures SimpleFormat(['%', verb] + format, |operands| + 1)
    ensures Sprintf(['%', verb] + format, [operand] + operands) == operand + Sprintf(format, operands)
  {
    assert (['%', verb] + format)[2..] == format;
    assert ([operand] + operands)[1..] == operands;
  }
}
