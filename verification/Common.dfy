// What several of the modules share: icon ids, optional values, C strings and
// decimal numerals.
module Common {

  type JobId = nat  // inner_job_id

  datatype Option<T> = None | Some(value: T)

  // A char pointer: null or the characters before the terminator.
  datatype CString = Null | Text(s: string)

  function Chars(c: CString): string { if c.Null? then "" else c.s }

  const NUL := 0 as char

  predicate Digit(c: char) { '0' <= c <= '9' }

  function Digits(n: nat): (s: string)
    ensures |s| > 0 && forall c :: c in s ==> Digit(c)
  {
    var last := [('0' as int + n % 10) as char];
    if n < 10 then last else Digits(n / 10) + last
  }

  function Value(c: char): nat
    requires Digit(c)
  {
    c as int - '0' as int
  }

  function Fold(digits: string, acc: nat): nat
    requires forall c :: c in digits ==> Digit(c)
  {
    if digits == "" then acc else Fold(digits[1..], 10 * acc + Value(digits[0]))
  }

  lemma FoldAppend(digits: string, c: char, acc: nat)
    requires Digit(c) && forall d :: d in digits ==> Digit(d)
    ensures Fold(digits + [c], acc) == 10 * Fold(digits, acc) + Value(c)
  {
    if digits != "" {
      assert (digits + [c])[1..] == digits[1..] + [c];
      FoldAppend(digits[1..], c, 10 * acc + Value(digits[0]));
    }
  }

  lemma {:induction false} FoldDigits(n: nat)
    ensures Fold(Digits(n), 0) == n
  {
    var last := ('0' as int + n % 10) as char;
    if n < 10 {
      assert Digits(n) == [last];
      assert Fold(Digits(n)[1..], Value(last)) == n;
    } else {
      FoldDigits(n / 10);
      FoldAppend(Digits(n / 10), last, 0);
    }
  }

  function Pow10(k: nat): nat { if k == 0 then 1 else 10 * Pow10(k - 1) }

  lemma DigitsLength(n: nat, k: nat)
    requires k > 0 && n < Pow10(k)
    ensures |Digits(n)| <= k
  {
    if n >= 10 {
      DigitsLength(n / 10, k - 1);
    }
  }
}
