// Strings as the bridge handles them: fields of a message, decimal numbers,
// and the integer conversion of the C++ standard library.
module Text {
  import opened Common

  // ---------------------------------------------------------------- fields

  // The fields of `s` between separators; never empty.
  function Split(s: string, sep: char): (fields: seq<string>)
    ensures fields != []
  {
    if s == "" then [""]
    else
      var rest := Split(s[1..], sep);
      if s[0] == sep then [""] + rest else [[s[0]] + rest[0]] + rest[1..]
  }

  function Join(fields: seq<string>, sep: char): string
    requires fields != []
  {
    if |fields| == 1 then fields[0] else fields[0] + [sep] + Join(fields[1..], sep)
  }

  function CountOf(s: string, c: char): nat {
    if s == "" then 0 else CountOf(s[1..], c) + if s[0] == c then 1 else 0
  }

  ghost predicate Free(fields: seq<string>, sep: char) {
    forall i :: 0 <= i < |fields| ==> sep !in fields[i]
  }

  lemma {:induction false} SplitFields(s: string, sep: char)
    ensures Join(Split(s, sep), sep) == s
    ensures Free(Split(s, sep), sep)
    ensures |Split(s, sep)| == CountOf(s, sep) + 1
  {
    if s != "" {
      SplitFields(s[1..], sep);
      var rest := Split(s[1..], sep);
      if s[0] == sep {
        assert ([""] + rest)[1..] == rest;
        assert s == [sep] + s[1..];
      } else {
        var fields := [[s[0]] + rest[0]] + rest[1..];
        if |rest| > 1 {
          assert fields[1..] == rest[1..];
          assert [s[0]] + rest[0] + [sep] + Join(rest[1..], sep) == [s[0]] + (rest[0] + [sep] + Join(rest[1..], sep));
        }
        assert s == [s[0]] + s[1..];
      }
    }
  }

  // Splitting a field, alone or before a separator.
  lemma {:induction false} SplitPrefix(field: string, sep: char, rest: string)
    requires sep !in field
    ensures Split(field, sep) == [field]
    ensures Split(field + [sep] + rest, sep) == [field] + Split(rest, sep)
  {
    var s := field + [sep] + rest;
    if field == "" {
      assert s[1..] == rest;
    } else {
      SplitPrefix(field[1..], sep, rest);
      assert s[1..] == field[1..] + [sep] + rest;
      assert field == [field[0]] + field[1..];
      assert ([field[1..]] + Split(rest, sep))[1..] == Split(rest, sep);
    }
  }

  lemma {:induction false} SplitOfJoin(fields: seq<string>, sep: char)
    requires fields != [] && Free(fields, sep)
    ensures Split(Join(fields, sep), sep) == fields
  {
    if |fields| == 1 {
      SplitPrefix(fields[0], sep, "");
    } else {
      SplitOfJoin(fields[1..], sep);
      SplitPrefix(fields[0], sep, Join(fields[1..], sep));
      assert [fields[0]] + fields[1..] == fields;
    }
  }

  // ---------------------------------------------------------------- decimals

  predicate IsDigit(c: char) {
    '0' <= c <= '9'
  }

  function DigitValue(c: char): int
    requires IsDigit(c)
  {
    c as int - '0' as int
  }

  function DigitChar(d: int): char
    requires 0 <= d <= 9
  {
    (d + '0' as int) as char
  }

  ghost predicate AllDigits(s: string) {
    forall i :: 0 <= i < |s| ==> IsDigit(s[i])
  }

  // to_string, and stream output of an unsigned number.
  function Decimal(n: nat): string {
    if n < 10 then [DigitChar(n)] else Decimal(n / 10) + [DigitChar(n % 10)]
  }

  // The number written by a run of digits.
  function ValueOf(s: string): nat
    requires AllDigits(s)
  {
    if s == "" then 0 else 10 * ValueOf(s[..|s| - 1]) + DigitValue(s[|s| - 1])
  }

  lemma {:induction false} DecimalValue(n: nat)
    ensures Decimal(n) != "" && AllDigits(Decimal(n)) && ValueOf(Decimal(n)) == n
  {
    if n >= 10 {
      DecimalValue(n / 10);
      var init, last := Decimal(n / 10), DigitChar(n % 10);
      assert (init + [last])[..|init|] == init;
    } else {
      assert [DigitChar(n)][..0] == "";
    }
  }

  // There is no leading zero.
  lemma {:induction false} DecimalCanonical(n: nat)
    ensures Decimal(n)[0] == '0' <==> n == 0
    ensures n == 0 ==> Decimal(n) == "0"
  {
    if n >= 10 {
      DecimalCanonical(n / 10);
    }
  }

  // Length of the longest prefix of digits.
  function DigitRun(s: string): (n: nat)
    ensures n <= |s| && AllDigits(s[..n]) && (n < |s| ==> !IsDigit(s[n]))
  {
    if s != "" && IsDigit(s[0]) then
      var n := DigitRun(s[1..]);
      assert s[..n + 1] == [s[0]] + s[1..][..n];
      n + 1
    else 0
  }

  lemma {:induction false} DigitRunOf(digits: string, rest: string)
    requires AllDigits(digits) && (rest != "" ==> !IsDigit(rest[0]))
    ensures DigitRun(digits + rest) == |digits|
  {
    if digits == "" {
      assert digits + rest == rest;
    } else {
      DigitRunOf(digits[1..], rest);
      assert (digits + rest)[1..] == digits[1..] + rest;
    }
  }

  // ---------------------------------------------------------------- stoi

  const INT_MAX: int := 0x7fff_ffff
  const INT_MIN: int := -0x8000_0000

  predicate IsSpace(c: char) {
    c == ' ' || '\t' <= c <= '\r'
  }

  function SkipSpace(s: string): string {
    if s != "" && IsSpace(s[0]) then SkipSpace(s[1..]) else s
  }

  // The digits `body` begins with, as a signed number; None when there is no
  // digit or the number is no int.
  function Signed(negative: bool, body: string): Option<int> {
    var digits := body[..DigitRun(body)];
    if digits == "" then None
    else
      var magnitude: int := ValueOf(digits);
      var v := if negative then -magnitude else magnitude;
      if INT_MIN <= v <= INT_MAX then Some(v) else None
  }

  // std::stoi in base 10: leading white space, one optional sign, then as many
  // digits as follow. None stands for the two exceptions it throws.
  function Stoi(s: string): Option<int> {
    var t := SkipSpace(s);
    if t != "" && t[0] == '-' then Signed(true, t[1..])
    else if t != "" && t[0] == '+' then Signed(false, t[1..])
    else Signed(false, t)
  }

  lemma {:induction false} SignedDecimal(negative: bool, n: int, rest: string)
    requires n >= 0 && (rest != "" ==> !IsDigit(rest[0]))
    ensures var v := if negative then -n else n;
            Signed(negative, Decimal(n) + rest) == if INT_MIN <= v <= INT_MAX then Some(v) else None
    ensures IsDigit((Decimal(n) + rest)[0])
  {
    var body := Decimal(n) + rest;
    DecimalValue(n);
    DigitRunOf(Decimal(n), rest);
    assert body[..|Decimal(n)|] == Decimal(n);
  }

  // Leading white space, a sign, a decimal number and anything that does not
  // continue it: the number is read back exactly when it is an int.
  lemma {:induction false} StoiDecimal(spaces: string, sign: string, n: int, rest: string)
    requires forall i :: 0 <= i < |spaces| ==> IsSpace(spaces[i])
    requires sign == "" || sign == "+" || sign == "-"
    requires n >= 0 && (rest != "" ==> !IsDigit(rest[0]))
    ensures var v := if sign == "-" then -n else n;
            Stoi(spaces + (sign + (Decimal(n) + rest))) == if -0x8000_0000 <= v <= 0x7fff_ffff then Some(v) else None
  {
    var body := Decimal(n) + rest;
    SignedDecimal(sign == "-", n, rest);
    StoiOf(spaces, sign, body);
  }

  lemma {:induction false} StoiOf(spaces: string, sign: string, body: string)
    requires forall i :: 0 <= i < |spaces| ==> IsSpace(spaces[i])
    requires sign == "+" || sign == "-" || (sign == "" && body != "" && IsDigit(body[0]))
    ensures Stoi(spaces + (sign + body)) == Signed(sign == "-", body)
  {
    var s := sign + body;
    SkipSpaceOf(spaces, s);
    assert if sign == "" then s == body else s[0] == sign[0] && s[1..] == body;
  }

  // White space, at most one sign, and a rest that starts with neither unless
  // there was a sign.
  ghost predicate Shape(spaces: string, sign: string, rest: string) {
    && (forall i :: 0 <= i < |spaces| ==> spaces[i] == ' ' || 9 <= spaces[i] as int <= 13)
    && (sign == "" || sign == "+" || sign == "-")
    && (sign == "" && rest != "" ==>
          rest[0] != ' ' && !(9 <= rest[0] as int <= 13) && rest[0] != '+' && rest[0] != '-')
  }

  // Without a digit after white space and sign there is no value.
  lemma {:induction false} StoiNoDigit(spaces: string, sign: string, rest: string)
    requires Shape(spaces, sign, rest) && (rest != "" ==> !IsDigit(rest[0]))
    ensures Stoi(spaces + (sign + rest)) == None
  {
    SkipSpaceOf(spaces, sign + rest);
    assert sign != "" ==> (sign + rest)[1..] == rest;
    assert sign == "" ==> sign + rest == rest;
  }

  lemma {:induction false} SkipSpaceParts(s: string) returns (spaces: string)
    ensures s == spaces + SkipSpace(s) && forall i :: 0 <= i < |spaces| ==> IsSpace(spaces[i])
    ensures SkipSpace(s) != "" ==> !IsSpace(SkipSpace(s)[0])
  {
    spaces := "";
    if s != "" && IsSpace(s[0]) {
      var more := SkipSpaceParts(s[1..]);
      spaces := [s[0]] + more;
      assert s == [s[0]] + s[1..];
    }
  }

  lemma {:induction false} SignedExact(negative: bool, body: string) returns (digits: string, rest: string)
    ensures body == digits + rest && AllDigits(digits) && (rest != "" ==> !IsDigit(rest[0]))
    ensures var magnitude: int := ValueOf(digits);
            var v := if negative then -magnitude else magnitude;
            Signed(negative, body) == if digits != "" && INT_MIN <= v <= INT_MAX then Some(v) else None
  {
    digits, rest := body[..DigitRun(body)], body[DigitRun(body)..];
  }

  function SignOf(t: string): string {
    if t != "" && (t[0] == '-' || t[0] == '+') then t[..1] else ""
  }

  lemma {:induction false} StoiBySign(spaces: string, t: string) returns (body: string)
    requires forall i :: 0 <= i < |spaces| ==> IsSpace(spaces[i])
    requires t != "" ==> !IsSpace(t[0])
    ensures t == SignOf(t) + body && Shape(spaces, SignOf(t), body)
    ensures Stoi(spaces + t) == Signed(SignOf(t) == "-", body)
  {
    SkipSpaceOf(spaces, t);
    body := t[|SignOf(t)|..];
    assert t[0..] == t;
  }

  // Every text is white space, at most one sign, digits and a rest, and its
  // value is that of the signed digits if there are any and they make an int;
  // otherwise the conversion throws.
  lemma {:induction false} StoiExact(s: string) returns (spaces: string, sign: string, digits: string, rest: string)
    ensures s == spaces + (sign + (digits + rest)) && Shape(spaces, sign, digits + rest)
    ensures AllDigits(digits) && forall i :: 0 <= i < |digits| ==> '0' <= digits[i] <= '9'
    ensures rest != "" ==> !('0' <= rest[0] <= '9')
    ensures var magnitude: int := ValueOf(digits);
            var v := if sign == "-" then -magnitude else magnitude;
            Stoi(s) == if digits != "" && -0x8000_0000 <= v <= 0x7fff_ffff then Some(v) else None
  {
    spaces := SkipSpaceParts(s);
    sign := SignOf(SkipSpace(s));
    var body := StoiBySign(spaces, SkipSpace(s));
    digits, rest := SignedExact(sign == "-", body);
  }

  lemma {:induction false} SkipSpaceOf(spaces: string, s: string)
    requires forall i :: 0 <= i < |spaces| ==> IsSpace(spaces[i])
    requires s != "" ==> !IsSpace(s[0])
    ensures SkipSpace(spaces + s) == s
  {
    if spaces == "" {
      assert spaces + s == s;
    } else {
      SkipSpaceOf(spaces[1..], s);
      assert (spaces + s)[1..] == spaces[1..] + s;
    }
  }

  // ---------------------------------------------------------------- commands

  // The control message "number:payload".
  function Command(number: nat, payload: string): string {
    Decimal(number) + ":" + payload
  }

  // What a receiver reads from a control message.
  function ParseCommand(s: string): Option<(nat, string)> {
    var n := DigitRun(s);
    if 0 < n < |s| && s[n] == ':' then Some((ValueOf(s[..n]), s[n + 1..])) else None
  }

  lemma {:induction false} CommandRoundTrip(number: nat, payload: string)
    ensures ParseCommand(Command(number, payload)) == Some((number, payload))
  {
    var s, d := Command(number, payload), Decimal(number);
    DecimalValue(number);
    assert s == d + (":" + payload);
    DigitRunOf(d, ":" + payload);
    assert s[..|d|] == d && s[|d| + 1..] == payload;
  }

  // Hence no two commands are confused.
  lemma {:induction false} CommandInjective(m: nat, p: string, n: nat, q: string)
    requires Command(m, p) == Command(n, q)
    ensures m == n && p == q
  {
    CommandRoundTrip(m, p);
    CommandRoundTrip(n, q);
  }
}
