/** `str.strip`, `str.lower`, `str.isdigit` and `int` on ASCII text. */
module Texts {

  // ── Stripping ──────────────────────────────────────────────────────────────

  predicate IsSpace(c: char) {
    c == ' ' || '\t' <= c <= '\r' || '\U{1c}' <= c <= '\U{1f}'
  }

  function StripStart(s: string): (r: string)
    ensures r == "" || !IsSpace(r[0])
    ensures s != "" && !IsSpace(s[0]) ==> r == s
  {
    if s != "" && IsSpace(s[0]) then StripStart(s[1..]) else s
  }

  function StripEnd(s: string): (r: string)
    ensures r <= s && (r == "" || !IsSpace(r[|r| - 1]))
    ensures s != "" && !IsSpace(s[|s| - 1]) ==> r == s
  {
    if s != "" && IsSpace(s[|s| - 1]) then StripEnd(s[..|s| - 1]) else s
  }

  function Strip(s: string): (r: string)
    ensures r == "" || (!IsSpace(r[0]) && !IsSpace(r[|r| - 1]))
  {
    StripEnd(StripStart(s))
  }

  /** The ASCII characters that `str.strip` takes away. */
  const WHITESPACE: string := " \t\n\U{b}\U{c}\r\U{1c}\U{1d}\U{1e}\U{1f}"

  ghost predicate AllSpace(s: string) {
    forall c :: c in s ==> c in WHITESPACE
  }

  lemma SpacesAre(c: char)
    ensures IsSpace(c) <==> c in WHITESPACE
  {
    assert WHITESPACE[0] == ' ' && WHITESPACE[1] == '\t' && WHITESPACE[2] == '\n' && WHITESPACE[3] == '\U{b}'
        && WHITESPACE[4] == '\U{c}' && WHITESPACE[5] == '\r' && WHITESPACE[6] == '\U{1c}' && WHITESPACE[7] == '\U{1d}'
        && WHITESPACE[8] == '\U{1e}' && WHITESPACE[9] == '\U{1f}';
  }

  lemma {:induction false} StartSplits(s: string) returns (pre: string)
    ensures s == pre + StripStart(s) && AllSpace(pre)
  {
    pre := "";
    if s != "" && IsSpace(s[0]) {
      var rest := StartSplits(s[1..]);
      SpacesAre(s[0]);
      pre := [s[0]] + rest;
    }
  }

  lemma {:induction false} EndSplits(s: string) returns (post: string)
    ensures s == StripEnd(s) + post && AllSpace(post)
  {
    post := "";
    if s != "" && IsSpace(s[|s| - 1]) {
      var rest := EndSplits(s[..|s| - 1]);
      SpacesAre(s[|s| - 1]);
      post := rest + [s[|s| - 1]];
    }
  }

  /** Stripping takes away the whitespace at both ends, all of it and nothing else. */
  lemma StripSplits(s: string) returns (pre: string, post: string)
    ensures s == pre + Strip(s) + post && AllSpace(pre) && AllSpace(post)
    ensures Strip(s) != "" ==> Strip(s)[0] !in WHITESPACE && Strip(s)[|Strip(s)| - 1] !in WHITESPACE
  {
    pre := StartSplits(s);
    post := EndSplits(StripStart(s));
    if Strip(s) != "" {
      SpacesAre(Strip(s)[0]);
      SpacesAre(Strip(s)[|Strip(s)| - 1]);
    }
  }

  // ── Lower case ─────────────────────────────────────────────────────────────

  function LowerChar(c: char): char {
    if 'A' <= c <= 'Z' then (c as int + 32) as char else c
  }

  function Lower(s: string): (r: string)
    ensures |r| == |s| && forall i :: 0 <= i < |s| ==> r[i] == LowerChar(s[i])
  {
    if s == "" then "" else [LowerChar(s[0])] + Lower(s[1..])
  }

  /** Each capital becomes the small letter at its place in the alphabet, all else stays. */
  lemma LowerLetters(s: string, i: nat)
    requires i < |s|
    ensures if s[i] < 'A' || s[i] > 'Z' then Lower(s)[i] == s[i]
            else 'a' <= Lower(s)[i] <= 'z' && Lower(s)[i] as int - 'a' as int == s[i] as int - 'A' as int
  {
    assert Lower(s)[i] == LowerChar(s[i]);
  }

  /** Text that was stripped stays as it is, lower-cased or not. */
  lemma StripIsIdempotent(s: string)
    ensures Strip(Strip(s)) == Strip(s)
    ensures Strip(Lower(Strip(s))) == Lower(Strip(s))
    ensures Lower(Lower(s)) == Lower(s)
  {
    hide StripStart, StripEnd, Lower;
    var t := Strip(s);
    if t == "" {
      EmptyStays();
    } else {
      assert !IsSpace(Lower(t)[0]) && !IsSpace(Lower(t)[|t| - 1]);
    }
    assert forall i :: 0 <= i < |s| ==> Lower(Lower(s))[i] == Lower(s)[i];
  }

  lemma EmptyStays()
    ensures Strip("") == "" && Lower("") == ""
  {
  }

  // ── Numbers ────────────────────────────────────────────────────────────────

  predicate IsDigits(s: string) {
    s != "" && forall k :: 0 <= k < |s| ==> '0' <= s[k] <= '9'
  }

  /** `int(digits)`. */
  function Decimal(digits: string): (n: int)
    ensures (forall i :: 0 <= i < |digits| ==> '0' <= digits[i] <= '9') ==> n >= 0
  {
    if digits == "" then 0
    else 10 * Decimal(digits[..|digits| - 1]) + (digits[|digits| - 1] as int - '0' as int)
  }

  function Digit(d: nat): char
    requires d < 10
  {
    match d
    case 0 => '0' case 1 => '1' case 2 => '2' case 3 => '3' case 4 => '4'
    case 5 => '5' case 6 => '6' case 7 => '7' case 8 => '8' case _ => '9'
  }

  lemma DigitValue(d: nat)
    requires d < 10
    ensures Digit(d) as int - '0' as int == d
  {
  }

  /** `str(n)`. */
  function Printed(n: nat): (s: string)
    ensures s != ""
  {
    if n < 10 then [Digit(n)] else Printed(n / 10) + [Digit(n % 10)]
  }

  function Zeros(k: nat): (s: string)
    ensures |s| == k && forall i :: 0 <= i < k ==> s[i] == '0'
  {
    seq(k, i => '0')
  }

  /** The text is the number as it is printed, perhaps with zeros in front. */
  predicate Reads(s: string, n: nat) {
    |Printed(n)| <= |s| && s == Zeros(|s| - |Printed(n)|) + Printed(n)
  }

  /** Printing a number and reading it back gives the number. */
  lemma {:induction false} PrintedIsRead(n: nat)
    ensures IsDigits(Printed(n)) && Decimal(Printed(n)) == n
  {
    hide Digit;
    if n < 10 {
      DigitValue(n);
      assert [Digit(n)][..0] == "";
      assert Decimal("") == 0;
    } else {
      PrintedIsRead(n / 10);
      DigitValue(n % 10);
      var front := Printed(n / 10);
      assert Printed(n)[..|front|] == front;
    }
  }

  lemma {:induction false} ZerosDoNotCount(k: nat, s: string)
    ensures Decimal(Zeros(k) + s) == Decimal(s)
  {
    if s != "" {
      var n := |s| - 1;
      ZerosDoNotCount(k, s[..n]);
      assert (Zeros(k) + s)[..k + n] == Zeros(k) + s[..n];
    } else if k > 0 {
      ZerosDoNotCount(k - 1, "");
      assert (Zeros(k) + s)[..k - 1] == Zeros(k - 1) + "";
    }
  }

  lemma PrintedOneMore(m: nat, d: nat)
    requires m > 0 && d < 10
    ensures Printed(10 * m + d) == Printed(m) + [Digit(d)]
  {
    assert (10 * m + d) / 10 == m && (10 * m + d) % 10 == d;
  }

  lemma {:induction false} DigitsAreRead(s: string)
    requires IsDigits(s)
    ensures Reads(s, Decimal(s))
  {
    hide Digit, Printed;
    var n, front := |s| - 1, s[..|s| - 1];
    var d: nat := s[n] as int - '0' as int;
    DigitValue(d);
    assert s == front + [Digit(d)];
    if n > 0 {
      DigitsAreRead(front);
    }
    assert n == 0 ==> Decimal(front) == 0;
    var m: nat := Decimal(front);
    if m == 0 {
      assert Printed(d) == [Digit(d)] by {
        SmallIsPrinted(d);
      }
      SmallIsPrinted(0);
      assert front == Zeros(n);
    } else {
      PrintedOneMore(m, d);
      assert s == Zeros(n - |Printed(m)|) + (Printed(m) + [Digit(d)]);
    }
  }

  lemma SmallIsPrinted(d: nat)
    requires d < 10
    ensures Printed(d) == [Digit(d)] && (d == 0 ==> Printed(d) == "0")
  {
  }

  lemma ReadsMeansDigits(s: string, n: nat)
    requires Reads(s, n)
    ensures IsDigits(s)
  {
    hide Printed;
    PrintedIsRead(n);
  }

  /** Text is digits that are read as the number exactly when it is the number as it is printed,
      zeros in front aside. */
  lemma DecimalExactly(s: string, n: nat)
    ensures IsDigits(s) && Decimal(s) == n <==> Reads(s, n)
  {
    hide Decimal, Printed, Zeros;
    if IsDigits(s) {
      DigitsAreRead(s);
    }
    if Reads(s, n) {
      ReadsMeansDigits(s, n);
      PrintedIsRead(n);
      ZerosDoNotCount(|s| - |Printed(n)|, Printed(n));
    }
  }
}
