/** Small shared vocabulary: optional values, results, keys with an expiry,
    ASCII character classes and the fresh-identifier generator. */
module Common {

  datatype Option<+T> = None | Some(value: T)

  datatype Result<+T, +E> = Success(value: T) | Failure(error: E)

  /** Users are identified by an opaque UUID. */
  type UserId = nat

  /** A key-value entry of the backing store together with its optional
      absolute expiry instant. The store expires keys lazily: an entry whose
      instant has been reached reads as absent. */
  datatype Expiring<+T> = Expiring(value: T, expiresAt: Option<int>)

  predicate Live<T>(e: Expiring<T>, now: int)
  {
    e.expiresAt.None? || now < e.expiresAt.value
  }

  /** `e` expires no later than `f` (an entry without expiry outlives everything). */
  predicate ExpiresNoLater<T, U>(e: Expiring<T>, f: Expiring<U>)
  {
    f.expiresAt.None? || (e.expiresAt.Some? && e.expiresAt.value <= f.expiresAt.value)
  }

  lemma LiveLater<T>(e: Expiring<T>, earlier: int, now: int)
    requires earlier <= now && Live(e, now)
    ensures Live(e, earlier)
  {
  }

  /** Python's `x or "unknown"` on an optional string: `None` and `""` are falsy. */
  function OrElse(s: Option<string>, default: string): (r: string)
    ensures s.Some? && s.value != "" ==> r == s.value
    ensures (s.None? || s.value == "") ==> r == default
  {
    if s.Some? && s.value != "" then s.value else default
  }

  predicate IsLower(c: char) { 'a' <= c <= 'z' }
  predicate IsUpper(c: char) { 'A' <= c <= 'Z' }
  predicate IsDigit(c: char) { '0' <= c <= '9' }
  predicate IsAlnum(c: char) { IsLower(c) || IsUpper(c) || IsDigit(c) }

  function ToLowerChar(c: char): (d: char)
    ensures IsUpper(c) ==> IsLower(d) && d as int == c as int + 32
    ensures !IsUpper(c) ==> d == c
  {
    if IsUpper(c) then (c as int + 32) as char else c
  }

  /** `str.lower()` restricted to ASCII letters. */
  function ToLower(s: string): (r: string)
    ensures |r| == |s|
    ensures forall i :: 0 <= i < |s| ==> r[i] == ToLowerChar(s[i])
  {
    seq(|s|, i requires 0 <= i < |s| => ToLowerChar(s[i]))
  }

  /** An upper bound on the length of every string in a finite set. */
  ghost function MaxLength(used: set<string>): (n: nat)
    ensures forall s :: s in used ==> |s| <= n
    decreases |used|
  {
    if used == {} then 0
    else
      var s :| s in used;
      var m := MaxLength(used - {s});
      if |s| > m then |s| else m
  }

  /** A random 32-byte token (or UUID) is modelled as an arbitrary string that
      is not yet in use; this lemma shows such a string always exists. */
  lemma {:induction false} FreshExists(used: set<string>)
    ensures exists s: string :: s !in used
  {
    var w := seq(MaxLength(used) + 1, _ => 'x');
    assert w !in used;
  }
}
