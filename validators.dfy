/** The password policy: at least 12 characters with a lowercase letter, an
    uppercase letter, a digit and a symbol, checked in that order, the first
    failing check naming the error. */
module Validators {
  import opened Common

  const MinLength := 12

  /** The four character requirements, in the order they are checked. */
  datatype CharClass = Lower | Upper | Digit | Symbol

  predicate InClass(c: char, k: CharClass)
  {
    match k
    case Lower => IsLower(c)
    case Upper => IsUpper(c)
    case Digit => IsDigit(c)
    case Symbol => !IsAlnum(c)
  }

  /** `any(<class test> for c in password)` */
  function Any(p: string, k: CharClass): (b: bool)
    ensures b <==> exists i :: 0 <= i < |p| && InClass(p[i], k)
    decreases |p|
  {
    if p == [] then false
    else if InClass(p[0], k) then true
    else
      var b := Any(p[1..], k);
      assert forall i :: 1 <= i < |p| ==> p[i] == p[1..][i - 1];
      b
  }

  /** The error raised when no character of class `k` occurs. */
  function Message(k: CharClass): (m: string)
    ensures "Password must include a" <= m
  {
    match k
    case Lower => "Password must include a lowercase letter"
    case Upper => "Password must include an uppercase letter"
    case Digit => "Password must include a digit"
    case Symbol => "Password must include a symbol"
  }

  const TooShort := "Password must be at least 12 characters"

  /** The five errors are distinct, so the message names the failing check. */
  lemma MessagesDistinct(k1: CharClass, k2: CharClass)
    ensures Message(k1) == Message(k2) ==> k1 == k2
    ensures Message(k1) != TooShort
  {
    var m1, m2 := Message(k1), Message(k2);
    assert m1[14] != TooShort[14];
    if k1 != k2 {
      assert m1[23] != m2[23] || m1[24] != m2[24];
    }
  }

  /** The policy as a reference predicate, stated on character positions. */
  predicate Strong(p: string)
  {
    && |p| >= MinLength
    && (exists i :: 0 <= i < |p| && IsLower(p[i]))
    && (exists i :: 0 <= i < |p| && IsUpper(p[i]))
    && (exists i :: 0 <= i < |p| && IsDigit(p[i]))
    && (exists i :: 0 <= i < |p| && !IsAlnum(p[i]))
  }

  /** `validate_password_strength`: returns the password or the error text of
      the `ValueError` it raises. */
  function ValidatePasswordStrength(p: string): (r: Result<string, string>)
    ensures r.Success? <==> Strong(p)
    ensures r.Success? ==> r.value == p
    ensures r.Failure? ==> r.error in {TooShort, Message(Lower), Message(Upper), Message(Digit), Message(Symbol)}
  {
    if |p| < MinLength then Failure(TooShort)
    else if !Any(p, Lower) then Failure(Message(Lower))
    else if !Any(p, Upper) then Failure(Message(Upper))
    else if !Any(p, Digit) then Failure(Message(Digit))
    else if !Any(p, Symbol) then Failure(Message(Symbol))
    else Success(p)
  }

  /** The class checked at position `n` of the order lower, upper, digit, symbol. */
  function Order(n: nat): CharClass
    requires n < 4
  {
    if n == 0 then Lower else if n == 1 then Upper else if n == 2 then Digit else Symbol
  }

  /** The first failing check decides the message: a password long enough
      that meets the first `n` class checks and misses the next one fails
      with that class's message. */
  lemma FirstFailureDecides(p: string, n: nat)
    requires n < 4 && |p| >= MinLength
    requires forall m :: 0 <= m < n ==> Any(p, Order(m))
    requires !Any(p, Order(n))
    ensures ValidatePasswordStrength(p) == Failure(Message(Order(n)))
  {
    if n == 0 {
      assert !Any(p, Lower);
    } else if n == 1 {
      assert Any(p, Order(0)) && !Any(p, Upper);
    } else if n == 2 {
      assert Any(p, Order(0)) && Any(p, Order(1)) && !Any(p, Digit);
    } else {
      assert Any(p, Order(0)) && Any(p, Order(1)) && Any(p, Order(2)) && !Any(p, Symbol);
    }
  }

  /** The length check comes first, whatever the characters. */
  lemma ShortFailsFirst(p: string)
    requires |p| < MinLength
    ensures ValidatePasswordStrength(p) == Failure(TooShort)
  {
  }

  /** "alllowercase1" is long enough and has a lowercase letter, and fails on
      the uppercase check. */
  lemma AllLowercaseExample()
    ensures ValidatePasswordStrength("alllowercase1") == Failure(Message(Upper))
  {
    var p := "alllowercase1";
    assert IsLower(p[0]);
    assert forall i :: 0 <= i < |p| ==> !InClass(p[i], Upper);
  }

  /** A password meeting every requirement; it is returned unchanged. */
  lemma StrongExample()
    ensures ValidatePasswordStrength("Correct-horse1") == Success("Correct-horse1")
  {
    var p := "Correct-horse1";
    assert IsUpper(p[0]) && IsLower(p[1]) && !IsAlnum(p[7]) && IsDigit(p[13]);
  }
}
