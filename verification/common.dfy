/** Definitions that more than one part of the model uses. */
module Common {
  datatype Option<+T> = None | Some(value: T)

  const PATH_MAX: nat := 4096

  /** What string functions see of a buffer. */
  function CString(s: string): string {
    if s == "" || s[0] == '\0' then "" else [s[0]] + CString(s[1..])
  }

  /** Everything before the first NUL. */
  lemma {:induction false} CStringIs(s: string)
    ensures CString(s) <= s && '\0' !in CString(s) && (CString(s) != s ==> s[|CString(s)|] == '\0')
  {
    if s != "" && s[0] != '\0' {
      CStringIs(s[1..]);
      assert s == [s[0]] + s[1..];
    }
  }

  function Digits(n: nat): string {
    (if n < 10 then "" else Digits(n / 10)) + ["0123456789"[n % 10]]
  }

  predicate IsDigit(c: char) {
    '0' <= c <= '9'
  }

  function ValueOf(digits: string): int {
    if digits == "" then 0
    else ValueOf(digits[..|digits| - 1]) * 10 + (digits[|digits| - 1] as int - '0' as int)
  }

  lemma DigitValue(n: nat)
    requires n < 10
    ensures var c := "0123456789"[n]; IsDigit(c) && c as int - '0' as int == n
  {
  }

  lemma ValueAppends(s: string, c: char)
    ensures ValueOf(s + [c]) == ValueOf(s) * 10 + (c as int - '0' as int)
  {
    assert (s + [c])[..|s|] == s;
  }

  lemma {:induction false} ValueOfDigits(n: nat)
    ensures ValueOf(Digits(n)) == n
  {
    var front, c := if n < 10 then "" else Digits(n / 10), "0123456789"[n % 10];
    DigitValue(n % 10);
    ValueAppends(front, c);
    assert Digits(n) == front + [c];
    if n >= 10 {
      ValueOfDigits(n / 10);
      assert n == n / 10 * 10 + n % 10;
    }
  }

  lemma TakeNext<T>(s: seq<T>, i: nat)
    requires i < |s|
    ensures s[..i + 1] == s[..i] + [s[i]]
  {
  }
}
