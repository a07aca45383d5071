/**
  getDimensions: reading "<width>x<height>" out of the second path fragment.
  The pattern is `^(\d+)x(\d+)$`, where `\d` is an ASCII digit and `$` is the
  end of the text, and both parts go through strconv.Atoi on a 64-bit `int`.
*/
module Dimensions {
  import opened Wrappers
  import opened GoStd

  /** The largest Go `int` on a 64-bit platform. */
  const MaxInt: int := 0x7fff_ffff_ffff_ffff

  datatype Dims = Dims(width: int, height: int)

  /** The three error messages of getDimensions, in the order it checks. */
  datatype DimError = DimensionsNotFound | WidthNotANumber | HeightNotANumber

  datatype DimResult = Ok(dims: Dims) | Err(error: DimError)

  /** regexp.FindStringSubmatch for `^(\d+)x(\d+)$`: the two submatches when
      the whole text matches. No digit is an 'x', so the text matches only when
      it has exactly one 'x' with digits on both sides of it. */
  function MatchDimensions(s: string): (r: Option<(string, string)>)
    ensures r.Some? ==> s == r.value.0 + "x" + r.value.1 && IsDigits(r.value.0) && IsDigits(r.value.1)
  {
    var parts := Split(s, 'x');
    if |parts| == 2 && IsDigits(parts[0]) && IsDigits(parts[1]) then
      JoinSplit(s, 'x');
      assert parts[1..] == [parts[1]];
      Some((parts[0], parts[1]))
    else None
  }

  /** strconv.Atoi on a string of digits: its value, or an out-of-range error. */
  function Atoi(digits: string): (r: Option<int>)
    requires AllDigits(digits)
    ensures r.Some? <==> ParseDecimal(digits) <= MaxInt
    ensures r.Some? ==> r.value == ParseDecimal(digits) && 0 <= r.value <= MaxInt
  {
    var n := ParseDecimal(digits);
    if n <= MaxInt then Some(n) else None
  }

  function GetDimensions(s: string): (r: DimResult)
    ensures r == Err(DimensionsNotFound) <==> MatchDimensions(s).None?
    ensures r.Ok? ==> 0 <= r.dims.width <= MaxInt && 0 <= r.dims.height <= MaxInt
  {
    match MatchDimensions(s)
    case None => Err(DimensionsNotFound)
    case Some((w, h)) =>
      match Atoi(w)
      case None => Err(WidthNotANumber)
      case Some(width) =>
        match Atoi(h)
        case None => Err(HeightNotANumber)
        case Some(height) => Ok(Dims(width, height))
  }

  /** The pattern matches every "<digits>x<digits>", and yields those digits. */
  lemma MatchAccepts(w: string, h: string)
    requires IsDigits(w) && IsDigits(h)
    ensures MatchDimensions(w + "x" + h) == Some((w, h))
  {
    assert 'x' !in w && 'x' !in h by {
      assert forall i :: 0 <= i < |w| ==> IsDigit(w[i]);
      assert forall i :: 0 <= i < |h| ==> IsDigit(h[i]);
    }
    SplitConcat(w, h, 'x');
    assert w + "x" + h == w + ['x'] + h;
    SplitWithoutSeparator(w, 'x');
    SplitWithoutSeparator(h, 'x');
  }

  /** getDimensions accepts "<digits>x<digits>" with both values in `int`
      range, reporting the first value out of range otherwise; zeros and
      leading zeros are accepted. */
  lemma GetDimensionsAccepts(w: string, h: string)
    requires IsDigits(w) && IsDigits(h)
    ensures GetDimensions(w + "x" + h) ==
      if ParseDecimal(w) > MaxInt then Err(WidthNotANumber)
      else if ParseDecimal(h) > MaxInt then Err(HeightNotANumber)
      else Ok(Dims(ParseDecimal(w), ParseDecimal(h)))
  {
    MatchAccepts(w, h);
  }

  /** Every success comes from "<digits>x<digits>" and gives the decimal
      values of the two digit runs, which lie in 0 .. MaxInt. */
  lemma GetDimensionsSound(s: string)
    requires GetDimensions(s).Ok?
    ensures var (w, h) := MatchDimensions(s).value;
      && s == w + "x" + h && IsDigits(w) && IsDigits(h)
      && GetDimensions(s).dims == Dims(ParseDecimal(w), ParseDecimal(h))
      && 0 <= GetDimensions(s).dims.width <= MaxInt
      && 0 <= GetDimensions(s).dims.height <= MaxInt
  {
  }

  /** Any character other than a digit or 'x' (a sign, a space, a letter)
      makes the text fail to match. */
  lemma GetDimensionsRejectsForeignChar(s: string, i: int)
    requires 0 <= i < |s| && !IsDigit(s[i]) && s[i] != 'x'
    ensures GetDimensions(s) == Err(DimensionsNotFound)
  {
  }

  /** Width and height printed in decimal read back as themselves. */
  lemma GetDimensionsOfItoa(width: int, height: int)
    requires 0 <= width <= MaxInt && 0 <= height <= MaxInt
    ensures GetDimensions(Itoa(width) + "x" + Itoa(height)) == Ok(Dims(width, height))
  {
    GetDimensionsAccepts(Itoa(width), Itoa(height));
  }
}
