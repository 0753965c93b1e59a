/**
 * The standard-library string behaviour the source relies on: splitting a line with
 * std::getline on a delimiter, std::stoi / std::stof, std::string::compare, prefix and
 * substring tests. Strings are sequences of characters; a C++ std::string holds UTF-8
 * bytes, whose byte order agrees with the code-point order used here.
 */
module Text {
  import opened Numeric

  /** s[0] as C++ reads it: an empty std::string yields the terminating '\0'. */
  function FirstChar(s: string): char {
    if |s| == 0 then '\0' else s[0]
  }

  /** Position of the first d in s, or |s| when there is none. */
  function IndexOf(s: string, d: char): (k: nat)
    ensures k <= |s|
    ensures k < |s| ==> s[k] == d
    ensures forall i :: 0 <= i < k ==> s[i] != d
  {
    if |s| == 0 then 0
    else if s[0] == d then 0
    else 1 + IndexOf(s[1..], d)
  }

  /**
   * The strings that repeated std::getline(stream, token, d) calls deliver while they succeed:
   * the pieces between delimiters, except that a trailing empty piece is never delivered.
   */
  function Tokens(s: string, d: char): (ts: seq<string>)
    ensures |s| > 0 <==> |ts| > 0
    ensures forall i :: 0 <= i < |ts| ==> d !in ts[i]
    decreases |s|
  {
    if |s| == 0 then []
    else
      var k := IndexOf(s, d);
      if k == |s| then [s] else [s[..k]] + Tokens(s[k + 1..], d)
  }

  /** The pieces put back together with one delimiter between neighbours. */
  function Join(ts: seq<string>, d: char): string {
    if |ts| == 0 then []
    else if |ts| == 1 then ts[0]
    else ts[0] + [d] + Join(ts[1..], d)
  }

  lemma JoinCons(a: string, ts: seq<string>, d: char)
    requires |ts| > 0
    ensures Join([a] + ts, d) == a + [d] + Join(ts, d)
  {
    assert ([a] + ts)[1..] == ts;
  }

  /** Splitting loses nothing: rejoining the tokens gives back the line, up to a final delimiter. */
  lemma {:induction false} TokensJoin(s: string, d: char)
    ensures Join(Tokens(s, d), d) + (if |s| > 0 && s[|s| - 1] == d then [d] else []) == s
    decreases |s|
  {
    if |s| > 0 {
      var k := IndexOf(s, d);
      if k < |s| {
        var head, rest := s[..k], s[k + 1..];
        assert s == head + [d] + rest;
        if |rest| == 0 {
          assert Tokens(s, d) == [head];
        } else {
          var ts := Tokens(rest, d);
          assert Tokens(s, d) == [head] + ts;
          JoinCons(head, ts, d);
          TokensJoin(rest, d);
          assert s[|s| - 1] == rest[|rest| - 1];
        }
      }
    }
  }

  /** Every piece between delimiters, a trailing empty one included: the field layout of s. */
  function Pieces(s: string, d: char): (ps: seq<string>)
    ensures |ps| > 0
    decreases |s|
  {
    var k := IndexOf(s, d);
    if k == |s| then [s] else [s[..k]] + Pieces(s[k + 1..], d)
  }

  /** getline delivers all pieces but a trailing empty one. */
  lemma {:induction false} TokensPieces(s: string, d: char)
    ensures Tokens(s, d) == if |s| == 0 || s[|s| - 1] == d then Pieces(s, d)[..|Pieces(s, d)| - 1] else Pieces(s, d)
    decreases |s|
  {
    var k := IndexOf(s, d);
    if 0 < |s| && k < |s| {
      var rest := s[k + 1..];
      TokensPieces(rest, d);
      var ps := Pieces(rest, d);
      assert Tokens(s, d) == [s[..k]] + Tokens(rest, d);
      assert Pieces(s, d) == [s[..k]] + ps;
      if |rest| > 0 {
        assert s[|s| - 1] == rest[|rest| - 1];
        if s[|s| - 1] == d {
          assert ([s[..k]] + ps)[..|ps|] == [s[..k]] + ps[..|ps| - 1];
        }
      } else {
        assert ps == [[]];
      }
    }
  }

  lemma {:induction false} IndexOfAppend(x: string, z: string, d: char)
    ensures IndexOf(x + z, d) == if IndexOf(x, d) < |x| then IndexOf(x, d) else |x| + IndexOf(z, d)
    decreases |x|
  {
    if |x| > 0 && x[0] != d {
      assert (x + z)[1..] == x[1..] + z;
      IndexOfAppend(x[1..], z, d);
    } else if |x| == 0 {
      assert x + z == z;
    }
  }

  /** Splitting a line made of two parts joined by a delimiter splits each part. */
  lemma {:induction false} PiecesAppend(x: string, y: string, d: char)
    ensures Pieces(x + [d] + y, d) == Pieces(x, d) + Pieces(y, d)
    decreases |x|
  {
    var k := IndexOf(x, d);
    IndexOfAppend(x, [d] + y, d);
    assert x + [d] + y == x + ([d] + y);
    if k < |x| {
      PiecesAppendSplit(x, y, d, k);
      PiecesAppend(x[k + 1..], y, d);
    } else {
      PiecesAppendWhole(x, y, d);
    }
  }

  /** The first piece of x is also the first piece of x + [d] + y. */
  lemma PiecesAppendSplit(x: string, y: string, d: char, k: nat)
    requires k == IndexOf(x, d) < |x| && IndexOf(x + [d] + y, d) == k
    ensures Pieces(x + [d] + y, d) == [x[..k]] + Pieces(x[k + 1..] + [d] + y, d)
    ensures Pieces(x, d) == [x[..k]] + Pieces(x[k + 1..], d)
  {
    var s := x + [d] + y;
    assert s[..k] == x[..k];
    assert s[k + 1..] == x[k + 1..] + [d] + y;
  }

  /** A delimiter-free x is the first piece of x + [d] + y. */
  lemma PiecesAppendWhole(x: string, y: string, d: char)
    requires IndexOf(x, d) == |x| && IndexOf(x + [d] + y, d) == |x|
    ensures Pieces(x + [d] + y, d) == Pieces(x, d) + Pieces(y, d)
  {
    var s := x + [d] + y;
    assert s[..|x|] == x;
    assert s[|x| + 1..] == y;
  }

  /** A delimiter-free string is a single piece. */
  lemma PiecesSingle(y: string, d: char)
    requires d !in y
    ensures Pieces(y, d) == [y]
  {
    assert IndexOf(y, d) == |y|;
  }

  /**
   * The value of the token variable after the (k+1)-th std::getline(stream, token, d) call on
   * a stream over s. Once the tokens are used up a call fails: if the last token ended the
   * stream, the variable keeps that token; if the stream ended with a delimiter (or was
   * empty), the failing call first clears the variable.
   */
  function FieldAt(s: string, d: char, k: nat): string {
    var ts := Tokens(s, d);
    if k < |ts| then ts[k]
    else if |s| == 0 || s[|s| - 1] == d then ""
    else ts[|ts| - 1]
  }

  /** std::isspace in the "C" locale. */
  predicate IsSpace(c: char) {
    c == ' ' || c == '\t' || c == '\n' || c == '\r' || c == '\U{0B}' || c == '\U{0C}'
  }

  predicate IsDigit(c: char) { '0' <= c <= '9' }

  function DigitValue(c: char): nat {
    if IsDigit(c) then (c as int) - ('0' as int) else 0
  }

  function DigitChar(n: nat): char
    requires n < 10
  {
    ((n + '0' as int) as char)
  }

  /** s without its leading white space. */
  function SkipSpace(s: string): (t: string)
    ensures |t| <= |s| && t == s[|s| - |t|..]
    ensures |t| > 0 ==> !IsSpace(t[0])
  {
    if |s| > 0 && IsSpace(s[0]) then SkipSpace(s[1..]) else s
  }

  /** Length of the run of decimal digits that starts s. */
  function DigitRun(s: string): (n: nat)
    ensures n <= |s|
    ensures forall i :: 0 <= i < n ==> IsDigit(s[i])
    ensures n < |s| ==> !IsDigit(s[n])
  {
    if |s| > 0 && IsDigit(s[0]) then 1 + DigitRun(s[1..]) else 0
  }

  /** The number written by a string of decimal digits. */
  function DigitsValue(s: string): nat {
    if |s| == 0 then 0 else 10 * DigitsValue(s[..|s| - 1]) + DigitValue(s[|s| - 1])
  }

  function Pow10(n: nat): (p: nat)
    ensures p >= 1
  {
    if n == 0 then 1 else 10 * Pow10(n - 1)
  }

  const INT_MIN: int := -0x8000_0000
  const INT_MAX: int := 0x7FFF_FFFF

  /** s with an optional leading sign removed. */
  function Unsigned(t: string): string {
    if |t| > 0 && (t[0] == '-' || t[0] == '+') then t[1..] else t
  }

  /**
   * std::stoi: skips white space, reads an optional sign and the longest run of digits and
   * ignores the rest; throws std::invalid_argument without digits and std::out_of_range
   * beyond 32 bits.
   */
  function Stoi(s: string): Result<int> {
    var t := SkipSpace(s);
    var u := Unsigned(t);
    var n := DigitRun(u);
    if n == 0 then Err(InvalidArgument)
    else
      var v: int := if |t| > 0 && t[0] == '-' then -(DigitsValue(u[..n]) as int) else DigitsValue(u[..n]);
      if INT_MIN <= v <= INT_MAX then Ok(v) else Err(OutOfRange)
  }

  /**
   * std::stof on plain decimal text: white space, an optional sign, digits with an optional
   * fractional part; the rest of the token is ignored; std::invalid_argument without digits.
   */
  function Stof(s: string): Result<real> {
    var t := SkipSpace(s);
    var u := Unsigned(t);
    var n1 := DigitRun(u);
    var rest := u[n1..];
    var n2 := if |rest| > 0 && rest[0] == '.' then DigitRun(rest[1..]) else 0;
    if n1 == 0 && n2 == 0 then Err(InvalidArgument)
    else
      var frac := if n2 == 0 then 0.0 else (DigitsValue(rest[1..1 + n2]) as real) / (Pow10(n2) as real);
      var mag := (DigitsValue(u[..n1]) as real) + frac;
      Ok(if |t| > 0 && t[0] == '-' then -mag else mag)
  }

  /** Decimal text of a natural number, as the data files write row and column numbers. */
  function Dec(n: nat): (s: string)
    ensures |s| > 0
    ensures forall i :: 0 <= i < |s| ==> IsDigit(s[i])
    ensures |s| == if n < 10 then 1 else if n < 100 then 2 else |s|
  {
    if n < 10 then [DigitChar(n)] else Dec(n / 10) + [DigitChar(n % 10)]
  }

  lemma {:induction false} DigitsValueDec(n: nat)
    ensures DigitsValue(Dec(n)) == n
  {
    if n >= 10 {
      DigitsValueDec(n / 10);
      var s := Dec(n);
      assert s[..|s| - 1] == Dec(n / 10);
    }
  }

  /** std::stoi reads back every decimal text of an int. */
  lemma {:induction false} StoiDec(n: nat)
    requires n <= INT_MAX
    ensures Stoi(Dec(n)) == Ok(n)
  {
    var s := Dec(n);
    assert SkipSpace(s) == s by {
      assert !IsSpace(s[0]);
    }
    assert Unsigned(s) == s;
    assert DigitRun(s) == |s|;
    assert s[..|s|] == s;
    DigitsValueDec(n);
  }

  /** p is a prefix of s. */
  predicate StartsWith(s: string, p: string) {
    |p| <= |s| && s[..|p|] == p
  }

  /** std::string::find(sub) != npos. */
  predicate Contains(s: string, sub: string)
    decreases |s|
  {
    StartsWith(s, sub) || (|s| > 0 && Contains(s[1..], sub))
  }

  /** s.substr(0, n) == p: the first n characters (or all of a shorter s) equal p. */
  predicate PrefixEquals(s: string, n: nat, p: string) {
    (if n <= |s| then s[..n] else s) == p
  }

  lemma PrefixEqualsStartsWith(s: string, p: string)
    ensures PrefixEquals(s, |p|, p) <==> StartsWith(s, p)
  {
  }

  /** The sign of std::string::compare: lexicographic by character, a proper prefix first. */
  function Compare(a: string, b: string): (c: int)
    ensures -1 <= c <= 1
  {
    if |a| == 0 && |b| == 0 then 0
    else if |a| == 0 then -1
    else if |b| == 0 then 1
    else if a[0] < b[0] then -1
    else if a[0] > b[0] then 1
    else Compare(a[1..], b[1..])
  }

  /** Only equal strings compare equal. */
  lemma {:induction false} CompareZero(a: string, b: string)
    ensures Compare(a, b) == 0 <==> a == b
  {
    if |a| > 0 && |b| > 0 && a[0] == b[0] {
      CompareZero(a[1..], b[1..]);
      if a[1..] == b[1..] {
        assert a == [a[0]] + a[1..] && b == [b[0]] + b[1..];
      }
    }
  }

  /** Swapping the operands flips the sign. */
  lemma {:induction false} CompareFlip(a: string, b: string)
    ensures Compare(a, b) == -Compare(b, a)
  {
    if |a| > 0 && |b| > 0 && a[0] == b[0] {
      CompareFlip(a[1..], b[1..]);
    }
  }

  /** "compares at most" is transitive, so the comparison is a total preorder. */
  lemma {:induction false} CompareTransitive(a: string, b: string, c: string)
    requires Compare(a, b) <= 0 && Compare(b, c) <= 0
    ensures Compare(a, c) <= 0
  {
    if |a| > 0 && |b| > 0 && |c| > 0 && a[0] == b[0] && b[0] == c[0] {
      CompareTransitive(a[1..], b[1..], c[1..]);
    }
  }
}
