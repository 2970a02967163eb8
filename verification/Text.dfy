// The string operations the payload flag and the report ordering use.
module Text {
  import opened Wrappers
  import opened Int64

  // ----- order: strings compare lexicographically

  predicate StringLess(a: string, b: string) {
    if b == "" then false
    else if a == "" then true
    else a[0] < b[0] || (a[0] == b[0] && StringLess(a[1..], b[1..]))
  }

  lemma {:induction false} StringOrderTotal(a: string, b: string)
    ensures StringLess(a, b) ==> !StringLess(b, a)
    ensures a != b <==> StringLess(a, b) || StringLess(b, a)
  {
    if a != "" && b != "" {
      StringOrderTotal(a[1..], b[1..]);
      assert a == [a[0]] + a[1..] && b == [b[0]] + b[1..];
    }
  }

  lemma {:induction false} StringOrderTransitive(a: string, b: string, c: string)
    ensures StringLess(a, b) && StringLess(b, c) ==> StringLess(a, c)
  {
    if a != "" && b != "" && c != "" {
      StringOrderTransitive(a[1..], b[1..], c[1..]);
    }
  }

  // b is a proper extension of a, or greater where they first differ.
  ghost predicate Before(a: string, b: string, k: nat) {
    && k <= |a| && k < |b| && a[..k] == b[..k]
    && (k == |a| || a[k] < b[k])
  }

  lemma {:induction false} StringLessIff(a: string, b: string)
    ensures StringLess(a, b) <==> exists k: nat :: Before(a, b, k)
  {
    if a != "" && b != "" {
      StringLessIff(a[1..], b[1..]);
      if k: nat :| Before(a, b, k) && k > 0 {
        assert a[1..][..k - 1] == a[..k][1..] && b[1..][..k - 1] == b[..k][1..];
        assert Before(a[1..], b[1..], k - 1);
        assert a[0] == a[..k][0] && b[0] == b[..k][0];
      }
      if StringLess(a, b) {
        if a[0] < b[0] {
          assert Before(a, b, 0);
        } else {
          var k: nat :| Before(a[1..], b[1..], k);
          assert a[..k + 1] == [a[0]] + a[1..][..k] && b[..k + 1] == [b[0]] + b[1..][..k];
          assert Before(a, b, k + 1);
        }
      }
    } else if b != "" {
      assert Before(a, b, 0);
    }
  }

  // ----- split and join on a one-character separator

  function Split(s: string, sep: char): (parts: seq<string>)
    ensures |parts| >= 1
    ensures forall p :: p in parts ==> sep !in p
  {
    if s == "" then [""]
    else
      var rest := Split(s[1..], sep);
      if s[0] == sep then [""] + rest else [[s[0]] + rest[0]] + rest[1..]
  }

  function Join(parts: seq<string>, sep: char): string {
    if parts == [] then ""
    else if |parts| == 1 then parts[0]
    else parts[0] + [sep] + Join(parts[1..], sep)
  }

  lemma {:induction false} SplitWhole(p: string, sep: char)
    requires sep !in p
    ensures Split(p, sep) == [p]
  {
    if p != "" {
      SplitWhole(p[1..], sep);
      assert p == [p[0]] + p[1..];
    }
  }

  lemma {:induction false} SplitFirst(p: string, rest: string, sep: char)
    requires sep !in p
    ensures Split(p + [sep] + rest, sep) == [p] + Split(rest, sep)
  {
    var s := p + [sep] + rest;
    if p == "" {
      assert s[1..] == rest;
    } else {
      assert s[1..] == p[1..] + [sep] + rest;
      SplitFirst(p[1..], rest, sep);
      assert p == [p[0]] + p[1..];
    }
  }

  lemma {:induction false} SplitJoin(parts: seq<string>, sep: char)
    requires parts != [] && forall p :: p in parts ==> sep !in p
    ensures Split(Join(parts, sep), sep) == parts
  {
    if |parts| == 1 {
      SplitWhole(parts[0], sep);
    } else {
      SplitFirst(parts[0], Join(parts[1..], sep), sep);
      SplitJoin(parts[1..], sep);
    }
  }

  lemma {:induction false} JoinSplit(s: string, sep: char)
    ensures Join(Split(s, sep), sep) == s
  {
    if s != "" {
      var rest := Split(s[1..], sep);
      JoinSplit(s[1..], sep);
      if s[0] == sep {
        assert ([""] + rest)[1..] == rest;
      } else {
        var parts := [[s[0]] + rest[0]] + rest[1..];
        assert parts[1..] == rest[1..];
      }
    }
  }

  // ----- trimming

  // unicode.IsSpace.
  predicate IsSpace(c: char) {
    var u := c as int;
    || 9 <= u <= 13 || u == 0x20 || u == 0x85 || u == 0xa0 || u == 0x1680
    || 0x2000 <= u <= 0x200a || u == 0x2028 || u == 0x2029 || u == 0x202f || u == 0x205f || u == 0x3000
  }

  function TrimLeft(s: string): (r: string)
    ensures r == "" || !IsSpace(r[0])
    ensures |r| <= |s| && s[|s| - |r|..] == r
  {
    if s != "" && IsSpace(s[0]) then TrimLeft(s[1..]) else s
  }

  function TrimRight(s: string): (r: string)
    ensures r == "" || !IsSpace(r[|r| - 1])
    ensures r <= s
  {
    if s != "" && IsSpace(s[|s| - 1]) then TrimRight(s[..|s| - 1]) else s
  }

  function TrimSpace(s: string): (r: string)
    ensures r == "" || (!IsSpace(r[0]) && !IsSpace(r[|r| - 1]))
  {
    TrimRight(TrimLeft(s))
  }

  predicate Blank(s: string) {
    forall c :: c in s ==> IsSpace(c)
  }

  lemma TrimLeftOne(s: string)
    ensures TrimLeft(s) == if s != "" && IsSpace(s[0]) then TrimLeft(s[1..]) else s
  {
  }

  lemma TrimRightOne(s: string)
    ensures TrimRight(s) == if s != "" && IsSpace(s[|s| - 1]) then TrimRight(s[..|s| - 1]) else s
  {
  }

  lemma {:induction false} LeftRemoved(s: string) returns (before: string)
    ensures s == before + TrimLeft(s) && Blank(before)
  {
    hide IsSpace, TrimLeft;
    TrimLeftOne(s);
    if s != "" && IsSpace(s[0]) {
      var rest := LeftRemoved(s[1..]);
      before := [s[0]] + rest;
      assert s == [s[0]] + s[1..];
      assert [s[0]] + (rest + TrimLeft(s[1..])) == before + TrimLeft(s);
    } else {
      before := "";
      assert "" + s == s;
    }
  }

  lemma {:induction false} RightRemoved(s: string) returns (after: string)
    ensures s == TrimRight(s) + after && Blank(after)
  {
    hide IsSpace, TrimRight;
    TrimRightOne(s);
    if s != "" && IsSpace(s[|s| - 1]) {
      var rest := RightRemoved(s[..|s| - 1]);
      after := rest + [s[|s| - 1]];
      assert s == s[..|s| - 1] + [s[|s| - 1]];
      assert (TrimRight(s[..|s| - 1]) + rest) + [s[|s| - 1]] == TrimRight(s) + after;
    } else {
      after := "";
      assert s + "" == s;
    }
  }

  // Trimming takes off white space at the two ends, all of it and nothing else.
  lemma TrimmedParts(s: string) returns (before: string, after: string)
    ensures s == before + TrimSpace(s) + after && Blank(before) && Blank(after)
    ensures TrimSpace(s) == "" || (!IsSpace(TrimSpace(s)[0]) && !IsSpace(TrimSpace(s)[|TrimSpace(s)| - 1]))
  {
    hide TrimLeft, TrimRight, IsSpace, Blank;
    before := LeftRemoved(s);
    after := RightRemoved(TrimLeft(s));
    assert before + (TrimSpace(s) + after) == before + TrimSpace(s) + after;
  }

  lemma TrimKeeps(s: string)
    requires s == "" || (!IsSpace(s[0]) && !IsSpace(s[|s| - 1]))
    ensures TrimSpace(s) == s
  {
  }

  // ----- decimal numbers

  predicate IsDigit(c: char) {
    '0' <= c <= '9'
  }

  function DigitChar(d: int): (c: char)
    requires 0 <= d <= 9
    ensures IsDigit(c) && c as int - '0' as int == d
  {
    ('0' as int + d) as char
  }

  function Digits(n: nat): (s: string)
    ensures s != "" && forall c :: c in s ==> IsDigit(c)
  {
    if n < 10 then [DigitChar(n)] else Digits(n / 10) + [DigitChar(n % 10)]
  }

  // fmt's %d.
  function Decimal(n: int): string {
    if n < 0 then "-" + Digits(-n) else Digits(n)
  }

  function DigitsValue(s: string): (n: nat)
    requires forall c :: c in s ==> IsDigit(c)
  {
    if s == "" then 0
    else
      var last := s[|s| - 1];
      assert last in s && IsDigit(last);
      10 * DigitsValue(s[..|s| - 1]) + (last as int - '0' as int)
  }

  // strconv.Atoi: an optional sign, at least one digit and nothing else, and a
  // value that fits an int64.
  function Atoi(s: string): (r: Option<int>)
    ensures r.Some? ==> Fits(r.value) && s != "" && forall c :: c in s ==> IsDigit(c) || c == '+' || c == '-'
  {
    var signed := s != "" && (s[0] == '+' || s[0] == '-');
    var digits := if signed then s[1..] else s;
    if digits == "" || exists c :: c in digits && !IsDigit(c) then None
    else
      var magnitude: int := DigitsValue(digits);
      var value := if signed && s[0] == '-' then -magnitude else magnitude;
      assert forall c :: c in s ==> c in digits || (signed && c == s[0]);
      if Fits(value) then Some(value) else None
  }

  function PowerOfTen(n: nat): nat {
    if n == 0 then 1 else 10 * PowerOfTen(n - 1)
  }

  // The positional value: each digit times the power of ten of its place.
  function Positional(digits: string): int {
    if digits == "" then 0
    else (digits[0] as int - '0' as int) * PowerOfTen(|digits| - 1) + Positional(digits[1..])
  }

  lemma {:induction false} PositionalLast(digits: string, last: char)
    ensures Positional(digits + [last]) == 10 * Positional(digits) + (last as int - '0' as int)
  {
    if digits == "" {
      assert ([] + [last])[1..] == [];
    } else {
      assert (digits + [last])[1..] == digits[1..] + [last];
      PositionalLast(digits[1..], last);
    }
  }

  lemma {:induction false} ValueIsPositional(digits: string)
    requires forall c :: c in digits ==> IsDigit(c)
    ensures DigitsValue(digits) == Positional(digits)
  {
    if digits != "" {
      var front := digits[..|digits| - 1];
      assert digits == front + [digits[|digits| - 1]];
      ValueIsPositional(front);
      PositionalLast(front, digits[|digits| - 1]);
    }
  }

  // s is an optional sign and at least one decimal digit, of this value.
  ghost predicate Reads(s: string, n: int) {
    exists sign: string, digits: string ::
      && s == sign + digits && sign in {"", "+", "-"}
      && digits != "" && (forall c :: c in digits ==> '0' <= c <= '9')
      && n == (if sign == "-" then -Positional(digits) else Positional(digits))
  }

  // s is this sign and these digits.
  ghost predicate Signed(s: string, sign: string, digits: string) {
    s == sign + digits && sign in {"", "+", "-"} && digits != "" && forall c :: c in digits ==> '0' <= c <= '9'
  }

  lemma AtoiSigned(s: string, sign: string, digits: string)
    requires Signed(s, sign, digits)
    ensures var n := if sign == "-" then -Positional(digits) else Positional(digits);
            Atoi(s) == if Fits(n) then Some(n) else None
  {
    hide Positional;
    assert digits[0] in digits;
    ValueIsPositional(digits);
    if sign == "" {
      assert s == digits;
    } else {
      assert s[0] == sign[0] && s[1..] == digits;
    }
  }

  lemma AtoiSplits(s: string) returns (sign: string, digits: string)
    requires Atoi(s).Some?
    ensures Signed(s, sign, digits)
  {
    var signed := s[0] == '+' || s[0] == '-';
    sign, digits := if signed then [s[0]] else "", if signed then s[1..] else s;
    assert s == sign + digits;
    forall c | c in digits ensures IsDigit(c) { }
    assert forall c :: c in digits ==> '0' <= c <= '9';
  }

  lemma AtoiIff(s: string, n: int)
    ensures Atoi(s) == Some(n) <==> Reads(s, n) && -9223372036854775808 <= n <= 9223372036854775807
  {
    hide Atoi, Positional, Signed;
    if Atoi(s) == Some(n) {
      var sign, digits := AtoiSplits(s);
      AtoiSigned(s, sign, digits);
      SignedReads(s, sign, digits);
    }
    if Reads(s, n) {
      var sign, digits := ReadsSigned(s, n);
      AtoiSigned(s, sign, digits);
    }
  }

  lemma SignedReads(s: string, sign: string, digits: string)
    requires Signed(s, sign, digits)
    ensures Reads(s, if sign == "-" then -Positional(digits) else Positional(digits))
  {
    hide Positional;
  }

  lemma ReadsSigned(s: string, n: int) returns (sign: string, digits: string)
    requires Reads(s, n)
    ensures Signed(s, sign, digits) && n == (if sign == "-" then -Positional(digits) else Positional(digits))
  {
    hide Positional;
    sign, digits :|
      && s == sign + digits && sign in {"", "+", "-"}
      && digits != "" && (forall c :: c in digits ==> '0' <= c <= '9')
      && n == (if sign == "-" then -Positional(digits) else Positional(digits));
  }

  // Printed digits carry no leading zero.
  lemma {:induction false} DigitsArePlain(n: nat)
    ensures Digits(n) == "0" || Digits(n)[0] != '0'
  {
    if n >= 10 {
      DigitsArePlain(n / 10);
      assert Digits(n)[0] == Digits(n / 10)[0];
    }
  }

  // The white space of Unicode, one by one.
  lemma SpaceTable(c: char)
    ensures IsSpace(c) <==>
            c as int in {
              0x09, 0x0a, 0x0b, 0x0c, 0x0d, 0x20, 0x85, 0xa0, 0x1680, 0x2000, 0x2001, 0x2002, 0x2003, 0x2004, 0x2005,
              0x2006, 0x2007, 0x2008, 0x2009, 0x200a, 0x2028, 0x2029, 0x202f, 0x205f, 0x3000
            }
  {
  }

  lemma {:induction false} DigitsRoundTrip(n: nat)
    ensures DigitsValue(Digits(n)) == n
  {
    if n < 10 {
      assert Digits(n)[..0] == "";
    } else {
      DigitsRoundTrip(n / 10);
      assert Digits(n)[..|Digits(n)| - 1] == Digits(n / 10);
    }
  }

  // Reading back what %d prints gives the number, as long as it is an int64.
  lemma DecimalRoundTrip(n: int)
    ensures Atoi(Decimal(n)) == if Fits(n) then Some(n) else None
  {
    var s := Decimal(n);
    if n < 0 {
      DigitsRoundTrip(-n);
      assert s[0] == '-' && s[1..] == Digits(-n);
    } else {
      DigitsRoundTrip(n);
      assert s[0] in s;
      assert IsDigit(s[0]);
    }
  }

  lemma {:induction false} LeadingZero(digits: string)
    requires forall c :: c in digits ==> IsDigit(c)
    ensures forall c :: c in "0" + digits ==> IsDigit(c)
    ensures DigitsValue("0" + digits) == DigitsValue(digits)
  {
    if digits == "" {
      assert ("0" + digits)[..0] == "";
    } else {
      var front := digits[..|digits| - 1];
      LeadingZero(front);
      assert ("0" + digits)[..|digits|] == "0" + front;
    }
  }

  // Several spellings read as one number: a plus sign and leading zeros are
  // accepted and change nothing.
  lemma AtoiVariants(digits: string)
    requires digits != "" && forall c :: c in digits ==> IsDigit(c)
    ensures Atoi("+" + digits) == Atoi(digits) == Atoi("0" + digits)
    ensures Atoi("-0") == Some(0)
  {
    LeadingZero(digits);
    assert ("+" + digits)[1..] == digits;
    assert digits[0] in digits && ("0" + digits)[0] == '0';
    assert "-0"[1..] == ['0'] && ['0'][..0] == "";
  }
}
