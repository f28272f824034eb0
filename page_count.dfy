/**
 * How the number of pages of a DJVU file is determined: first from the text that
 * `djvused <file> -e n` prints, and when that gives nothing usable, by probing
 * pages 2, 3, ... 50 with ddjvu until one fails to render.
 */
module PageCount {
  import opened Options
  import opened SwiftText

  /** Highest page number the probe fallback tries. */
  const ProbeLimit: int := 50

  /**
   * `components(separatedBy: CharacterSet.decimalDigits.inverted)`: the pieces
   * between any two non-digit characters, empty pieces included, so that a string
   * with k non-digits yields k + 1 pieces.
   */
  function DigitComponents(s: string): (r: seq<string>)
    ensures |r| >= 1
    ensures forall i :: 0 <= i < |r| ==> AllDigits(r[i])
  {
    if s == [] then [""]
    else
      var rest := DigitComponents(s[1..]);
      if IsDigit(s[0]) then [[s[0]] + rest[0]] + rest[1..] else [""] + rest
  }

  /** `compactMap { Int($0) }.first`: the first piece that `Int(_:)` accepts. */
  function FirstParsed(pieces: seq<string>): Option<int>
  {
    if pieces == [] then None
    else match ParseInt(pieces[0])
      case Some(n) => Some(n)
      case None => FirstParsed(pieces[1..])
  }

  /** The first number that can be read out of a text, if any. */
  function FirstNumber(t: string): Option<int>
  {
    FirstParsed(DigitComponents(t))
  }

  /**
   * The page count read from djvused's output: the trimmed output when it is an
   * integer (taken as it is, even when it is zero or negative), otherwise the first
   * number in it, provided that number is positive.
   */
  function ParsePageCount(output: string): (r: Option<int>)
    ensures r.Some? && r.value <= 0 ==> ParseInt(Trim(output)) == r
  {
    var t := Trim(output);
    match ParseInt(t)
    case Some(n) => Some(n)
    case None =>
      match FirstNumber(t)
      case Some(n) => if n > 0 then Some(n) else None
      case None => None
  }

  /** When the whole trimmed output is an integer, that integer is the count, without any positivity check. */
  lemma WholeParseWins(output: string, n: int)
    requires ParseInt(Trim(output)) == Some(n)
    ensures ParsePageCount(output) == Some(n)
  {
  }

  /** So a djvused answer of `-3` becomes a page count of -3. */
  lemma NegativeCountAccepted()
    ensures ParsePageCount("-3\n") == Some(-3)
  {
    InterpolatedRoundTrip(-3);
    assert Interpolated(-3) == "-3";
    TrimSurrounded("", "-3", "\n");
    assert "" + "-3" + "\n" == "-3\n";
    WholeParseWins("-3\n", -3);
  }

  /** Leading non-digits contribute only empty pieces, which `Int(_:)` rejects. */
  lemma {:induction false} FirstNumberSkipsNonDigits(p: string, x: string)
    requires NoDigits(p)
    ensures FirstNumber(p + x) == FirstNumber(x)
  {
    if p != [] {
      assert (p + x)[1..] == p[1..] + x;
      assert (p + x)[0] == p[0];
      FirstNumberSkipsNonDigits(p[1..], x);
      var rest := DigitComponents(p[1..] + x);
      assert DigitComponents(p + x) == [""] + rest;
      assert ([""] + rest)[1..] == rest;
      assert ParseInt("") == None;
      assert FirstParsed([""] + rest) == FirstParsed(rest);
    } else {
      assert p + x == x;
    }
  }

  /** A maximal run of digits at the front of a text is its first piece. */
  lemma {:induction false} LeadingRunIsFirstPiece(run: string, rest: string)
    requires AllDigits(run)
    requires rest == [] || !IsDigit(rest[0])
    ensures DigitComponents(run + rest)[0] == run
  {
    if run == [] {
      assert run + rest == rest;
    } else {
      assert (run + rest)[1..] == run[1..] + rest;
      LeadingRunIsFirstPiece(run[1..], rest);
      assert [run[0]] + run[1..] == run;
    }
  }

  /**
   * The number taken from a text is its first maximal run of digits, read in
   * decimal (when it fits in a Swift `Int`).
   */
  lemma FirstRunIsFirstNumber(p: string, run: string, rest: string)
    requires NoDigits(p)
    requires run != [] && AllDigits(run) && DigitsValue(run) <= IntMax
    requires rest == [] || !IsDigit(rest[0])
    ensures FirstNumber(p + run + rest) == Some(DigitsValue(run))
  {
    assert p + run + rest == p + (run + rest);
    FirstNumberSkipsNonDigits(p, run + rest);
    LeadingRunIsFirstPiece(run, rest);
    assert IsDigit(run[0]);
  }

  /** A text without digits yields no number. */
  lemma NoDigitsNoNumber(t: string)
    requires NoDigits(t)
    ensures FirstNumber(t) == None
  {
    FirstNumberSkipsNonDigits(t, "");
    assert t + "" == t;
  }

  /** djvused prints the count followed by a newline; that text parses back to the count. */
  lemma DjvusedCountRoundTrip(n: nat, pre: string, post: string)
    requires n <= IntMax
    requires AllWhitespace(pre) && AllWhitespace(post)
    ensures ParsePageCount(pre + DecimalString(n) + post) == Some(n)
  {
    var d := DecimalString(n);
    assert !IsWhitespace(d[0]) && !IsWhitespace(d[|d| - 1]);
    TrimSurrounded(pre, d, post);
    ParseDecimalRoundTrip(n);
  }

  /**
   * When the trimmed output is not an integer, the count is the first run of
   * digits in it if that run is positive, and nothing otherwise.
   */
  lemma FallbackUsesFirstRun(output: string, p: string, run: string, rest: string)
    requires Trim(output) == p + run + rest
    requires ParseInt(p + run + rest) == None
    requires NoDigits(p)
    requires run != [] && AllDigits(run) && DigitsValue(run) <= IntMax
    requires rest == [] || !IsDigit(rest[0])
    ensures ParsePageCount(output) == if DigitsValue(run) > 0 then Some(DigitsValue(run)) else None
  {
    FirstRunIsFirstNumber(p, run, rest);
  }

  /** Output without any digit never yields a count. */
  lemma NoDigitsNoCount(output: string)
    requires NoDigits(Trim(output))
    ensures ParsePageCount(output) == None
  {
    var t := Trim(output);
    NoDigitsNoNumber(t);
    if t != [] && (t[0] == '+' || t[0] == '-') && |t| > 1 {
      ParseIntRejectsNonDigit(t, 1);
    } else if t != [] && t[0] != '+' && t[0] != '-' {
      ParseIntRejectsNonDigit(t, 0);
    }
  }

  /**
   * Reference definition of the probe: starting at `pageNum`, the last page of the
   * run of pages that render, capped at 50.
   */
  function ProbeFrom(pageExists: int -> bool, pageNum: int): int
    decreases ProbeLimit + 1 - pageNum
  {
    if pageNum > ProbeLimit then ProbeLimit
    else if pageExists(pageNum) then ProbeFrom(pageExists, pageNum + 1)
    else pageNum - 1
  }

  /** The page count the probe settles on once page 1 has rendered. */
  function ProbeCount(pageExists: int -> bool): int
  {
    ProbeFrom(pageExists, 2)
  }

  lemma {:induction false} ProbeFromSpec(pageExists: int -> bool, pageNum: int)
    requires 2 <= pageNum <= ProbeLimit + 1
    ensures pageNum - 1 <= ProbeFrom(pageExists, pageNum) <= ProbeLimit
    ensures forall p :: pageNum <= p <= ProbeFrom(pageExists, pageNum) ==> pageExists(p)
    ensures ProbeFrom(pageExists, pageNum) < ProbeLimit ==> !pageExists(ProbeFrom(pageExists, pageNum) + 1)
    decreases ProbeLimit + 1 - pageNum
  {
    if pageNum <= ProbeLimit && pageExists(pageNum) {
      ProbeFromSpec(pageExists, pageNum + 1);
    }
  }

  /**
   * The probed count is between 1 and 50, every page 2..count renders, and the page
   * after it does not unless the cap was reached.
   */
  lemma ProbeCountSpec(pageExists: int -> bool)
    ensures 1 <= ProbeCount(pageExists) <= ProbeLimit
    ensures forall p :: 2 <= p <= ProbeCount(pageExists) ==> pageExists(p)
    ensures ProbeCount(pageExists) < ProbeLimit ==> !pageExists(ProbeCount(pageExists) + 1)
  {
    ProbeFromSpec(pageExists, 2);
  }

  /**
   * The probe loop of the direct-load fallback (page 1 already rendered): the
   * result is 1 plus the length of the run of consecutive pages from 2 on that
   * render, stopping at the first page that does not and never exceeding 50.
   */
  method ProbePageCount(pageExists: int -> bool) returns (found: int)
    ensures found == ProbeCount(pageExists)
    ensures 1 <= found <= ProbeLimit
    ensures forall p :: 2 <= p <= found ==> pageExists(p)
    ensures found < ProbeLimit ==> !pageExists(found + 1)
  {
    found := 1;
    var pageNum := 2;
    while pageNum <= ProbeLimit
      invariant 2 <= pageNum <= ProbeLimit + 1
      invariant found == pageNum - 1
      invariant forall p :: 2 <= p <= found ==> pageExists(p)
      invariant ProbeCount(pageExists) == ProbeFrom(pageExists, pageNum)
    {
      if pageExists(pageNum) {
        found := pageNum;
      } else {
        break;
      }
      pageNum := pageNum + 1;
    }
  }
}
