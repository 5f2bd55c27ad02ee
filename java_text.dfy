/**
 * The java.lang.String and java.lang.Long operations the core relies on:
 * `trim`, `indexOf`, `split(",")` and `Long.valueOf`, over `seq<char>`.
 */
module JavaText {
  import opened Wrappers

  // ---------------------------------------------------------------- trim

  /** `String.trim` drops leading and trailing characters whose code is at most U+0020. */
  predicate IsTrimmed(c: char) { c <= ' ' }

  function TrimStart(s: string): string {
    if |s| > 0 && IsTrimmed(s[0]) then TrimStart(s[1..]) else s
  }

  function TrimEnd(s: string): string {
    if |s| > 0 && IsTrimmed(s[|s| - 1]) then TrimEnd(s[..|s| - 1]) else s
  }

  function Trim(s: string): string { TrimEnd(TrimStart(s)) }

  /** Dropping leading blanks leaves a suffix that starts with a non-blank, or nothing. */
  lemma {:induction false} TrimStartSpec(s: string)
    ensures var r := TrimStart(s);
      && |r| <= |s| && r == s[|s| - |r|..]
      && (forall i :: 0 <= i < |s| - |r| ==> IsTrimmed(s[i]))
      && (r == [] || !IsTrimmed(r[0]))
    decreases |s|
  {
    if |s| > 0 && IsTrimmed(s[0]) {
      TrimStartSpec(s[1..]);
      var r := TrimStart(s);
      assert r == TrimStart(s[1..]);
      forall i | 0 <= i < |s| - |r| ensures IsTrimmed(s[i]) {
        if i > 0 { assert s[i] == s[1..][i - 1]; }
      }
      assert s[1..][|s| - 1 - |r|..] == s[|s| - |r|..];
    }
  }

  /** Dropping trailing blanks leaves a prefix that ends with a non-blank, or nothing. */
  lemma {:induction false} TrimEndSpec(s: string)
    ensures var r := TrimEnd(s);
      && |r| <= |s| && r == s[..|r|]
      && (forall i :: |r| <= i < |s| ==> IsTrimmed(s[i]))
      && (r == [] || !IsTrimmed(r[|r| - 1]))
    decreases |s|
  {
    if |s| > 0 && IsTrimmed(s[|s| - 1]) {
      TrimEndSpec(s[..|s| - 1]);
      var r := TrimEnd(s);
      assert r == TrimEnd(s[..|s| - 1]);
      forall i | |r| <= i < |s| ensures IsTrimmed(s[i]) {
        if i < |s| - 1 { assert s[i] == s[..|s| - 1][i]; }
      }
      assert s[..|s| - 1][..|r|] == s[..|r|];
    }
  }

  /**
   * `trim` gives the empty string exactly when every character is at most
   * U+0020, and otherwise a string that starts and ends with a character
   * above it.
   */
  lemma TrimSpec(s: string)
    ensures Trim(s) == "" <==> forall i :: 0 <= i < |s| ==> IsTrimmed(s[i])
    ensures Trim(s) == "" || (!IsTrimmed(Trim(s)[0]) && !IsTrimmed(Trim(s)[|Trim(s)| - 1]))
  {
    var t := TrimStart(s);
    var r := TrimEnd(t);
    TrimStartSpec(s);
    TrimEndSpec(t);
    if r != "" {
      assert r[0] == t[0] == s[|s| - |t|];
    } else {
      assert t == "";
    }
  }

  // ------------------------------------------------------------- indexOf

  /** `sub` occurs in `s` starting at index `i`. */
  predicate OccursAt(s: string, sub: string, i: int) {
    0 <= i && i + |sub| <= |s| && s[i..i + |sub|] == sub
  }

  function IndexFrom(s: string, sub: string, from: nat): (r: int)
    requires from <= |s| + 1
    ensures r == -1 || (from <= r && OccursAt(s, sub, r))
    ensures r == -1 ==> forall j :: from <= j ==> !OccursAt(s, sub, j)
    ensures r != -1 ==> forall j :: from <= j < r ==> !OccursAt(s, sub, j)
    decreases |s| + 1 - from
  {
    if from + |sub| > |s| then -1
    else if s[from..from + |sub|] == sub then from
    else IndexFrom(s, sub, from + 1)
  }

  /** `String.indexOf(sub)`: the first index at which `sub` occurs, or -1. */
  function IndexOf(s: string, sub: string): (r: int)
    ensures r >= 0 <==> exists j :: OccursAt(s, sub, j)
    ensures r >= 0 ==> OccursAt(s, sub, r) && forall j :: 0 <= j < r ==> !OccursAt(s, sub, j)
  {
    IndexFrom(s, sub, 0)
  }

  // --------------------------------------------------------------- split

  /** Every piece between occurrences of `c`, empty pieces included. */
  function SplitAll(s: string, c: char): (parts: seq<string>)
    ensures |parts| >= 1
    ensures forall k :: 0 <= k < |parts| ==> c !in parts[k]
    ensures Join(parts, c) == s
    decreases |s|
  {
    if c !in s then [s]
    else
      var i := FirstIndexOfChar(s, c);
      [s[..i]] + SplitAll(s[i + 1..], c)
  }

  function FirstIndexOfChar(s: string, c: char): (i: nat)
    requires c in s
    ensures i < |s| && s[i] == c && c !in s[..i]
  {
    if s[0] == c then 0 else 1 + FirstIndexOfChar(s[1..], c)
  }

  /** Inverse of `SplitAll`: the pieces glued back with `c` between them. */
  function Join(parts: seq<string>, c: char): string
    requires |parts| >= 1
  {
    if |parts| == 1 then parts[0] else parts[0] + [c] + Join(parts[1..], c)
  }

  function DropTrailingEmpty(parts: seq<string>): (r: seq<string>)
    ensures |r| <= |parts| && r == parts[..|r|]
    ensures forall k :: |r| <= k < |parts| ==> parts[k] == ""
    ensures r == [] || r[|r| - 1] != ""
  {
    if |parts| > 0 && parts[|parts| - 1] == "" then DropTrailingEmpty(parts[..|parts| - 1]) else parts
  }

  /**
   * `String.split` with a one-character separator and no limit: with no
   * separator in the text the result is the text itself; otherwise the pieces,
   * with trailing empty pieces removed.
   */
  function JavaSplit(s: string, c: char): (parts: seq<string>)
    ensures c !in s ==> parts == [s]
    ensures c in s ==> parts == DropTrailingEmpty(SplitAll(s, c))
  {
    if c !in s then [s] else DropTrailingEmpty(SplitAll(s, c))
  }

  /** A text without separator, even the empty one, is one piece. */
  lemma SplitEmptyIsOnePiece()
    ensures JavaSplit("", ',') == [""]
  {
  }

  /** A lone separator yields two empty pieces, which are both dropped. */
  lemma SplitSeparatorOnlyIsNoPiece()
    ensures JavaSplit(",", ',') == []
  {
    assert FirstIndexOfChar(",", ',') == 0;
    assert ","[1..] == "";
    assert SplitAll(",", ',') == ["", ""];
  }

  /** A trailing separator adds no piece. */
  lemma SplitTrailingSeparator()
    ensures JavaSplit("12,7,", ',') == ["12", "7"]
  {
    var s := "12,7,";
    assert FirstIndexOfChar(s, ',') == 2;
    assert s[..2] == "12" && s[3..] == "7,";
    var t := "7,";
    assert FirstIndexOfChar(t, ',') == 1;
    assert t[..1] == "7" && t[2..] == "";
    assert SplitAll(t, ',') == ["7", ""];
    assert SplitAll(s, ',') == ["12", "7", ""];
    assert DropTrailingEmpty(["12", "7", ""]) == DropTrailingEmpty(["12", "7"]);
  }

  // ------------------------------------------------------ concatenation

  /** The text a possibly null string contributes to a `+` concatenation: "null" for null. */
  function ValueOf(s: Option<string>): (t: string)
    ensures s.Some? ==> t == s.value
    ensures s.None? ==> t == "null"
  {
    match s
    case None => "null"
    case Some(v) => v
  }

  // ---------------------------------------------------------- Long.valueOf

  const LongMin: int := -0x8000_0000_0000_0000
  const LongMax: int := 0x7FFF_FFFF_FFFF_FFFF

  predicate IsDigit(c: char) { '0' <= c <= '9' }

  predicate AllDigits(s: string) { forall i :: 0 <= i < |s| ==> IsDigit(s[i]) }

  function DigitsValue(s: string): (v: nat)
    requires AllDigits(s)
  {
    if s == [] then 0 else 10 * DigitsValue(s[..|s| - 1]) + (s[|s| - 1] as int - '0' as int)
  }

  /**
   * `Long.valueOf(String)` in radix 10: an optional sign followed by at least
   * one digit, the value within the 64-bit range; anything else is a
   * NumberFormatException (None).
   */
  function ParseLong(s: string): (r: Option<int>)
    ensures r.Some? ==> LongMin <= r.value <= LongMax
    ensures r.Some? <==> IsDecimalText(s) && LongMin <= DecimalValue(s) <= LongMax
    ensures r.Some? ==> r.value == DecimalValue(s)
  {
    if |s| == 0 then None
    else if s[0] == '-' then
      if |s| > 1 && AllDigits(s[1..]) && -(DigitsValue(s[1..]) as int) >= LongMin then Some(-(DigitsValue(s[1..]) as int)) else None
    else if s[0] == '+' then
      if |s| > 1 && AllDigits(s[1..]) && DigitsValue(s[1..]) <= LongMax then Some(DigitsValue(s[1..])) else None
    else if AllDigits(s) && DigitsValue(s) <= LongMax then Some(DigitsValue(s)) else None
  }

  /** An optional sign followed by at least one ASCII digit. */
  predicate IsDecimalText(s: string) {
    |s| > 0 && if s[0] == '-' || s[0] == '+' then |s| > 1 && AllDigits(s[1..]) else AllDigits(s)
  }

  /** The value a decimal text denotes, without any range limit. */
  function DecimalValue(s: string): int
    requires IsDecimalText(s)
  {
    if s[0] == '-' then -(DigitsValue(s[1..]) as int)
    else if s[0] == '+' then DigitsValue(s[1..])
    else DigitsValue(s)
  }

  /** `Long.toString`: the decimal text of `n`, with a leading '-' when negative. */
  function LongToString(n: int): string {
    if n < 0 then "-" + NatToDigits(-n) else NatToDigits(n)
  }

  function NatToDigits(n: nat): (s: string)
    ensures |s| > 0 && AllDigits(s)
  {
    if n < 10 then [('0' as int + n) as char]
    else NatToDigits(n / 10) + [('0' as int + n % 10) as char]
  }

  lemma {:induction false} DigitsRoundTrip(n: nat)
    ensures DigitsValue(NatToDigits(n)) == n
  {
    var s := NatToDigits(n);
    if n >= 10 {
      DigitsRoundTrip(n / 10);
      assert s[..|s| - 1] == NatToDigits(n / 10);
    }
  }

  /** Every value of the 64-bit range comes back from its own decimal text. */
  lemma ParseLongRoundTrip(n: int)
    requires LongMin <= n <= LongMax
    ensures ParseLong(LongToString(n)) == Some(n)
  {
    if n < 0 {
      var d := NatToDigits(-n);
      DigitsRoundTrip(-n);
      assert ("-" + d)[1..] == d;
    } else {
      DigitsRoundTrip(n);
    }
  }
}
