/** Helpers shared by the play list controler and the audio player models. */
module Common {

  /** An optional value: an absent settings key, an invalid model index, a missing url. */
  datatype Option<T> = None | Some(value: T) {
    function GetOr(default: T): T {
      if Some? then value else default
    }
  }

  /** A url of playable content; only its identity matters here. */
  type Url = string

  /** How many times `x` occurs in the signal log `s`: what a signal spy counts. */
  function Count<T(==)>(s: seq<T>, x: T): (n: nat)
    ensures n <= |s|
    ensures n == 0 <==> x !in s
  {
    if s == [] then 0 else (if s[0] == x then 1 else 0) + Count(s[1..], x)
  }

  /** Counting over a log that grows by appending. */
  lemma {:induction false} CountAppend<T>(a: seq<T>, b: seq<T>, x: T)
    ensures Count(a + b, x) == Count(a, x) + Count(b, x)
  {
    if a == [] {
      assert a + b == b;
    } else {
      assert (a + b)[1..] == a[1..] + b;
      CountAppend(a[1..], b, x);
    }
  }

  /** Appending to a log in two steps is appending the two parts at once. */
  lemma AppendAssoc<T>(a: seq<T>, b: seq<T>, c: seq<T>)
    ensures (a + b) + c == a + (b + c)
  {
  }

  lemma MulAtLeast(n: int, d: int)
    requires n > 0 && d >= 1
    ensures n * d >= n
  {
    if d > 1 {
      MulAtLeast(n, d - 1);
      assert n * d == n * (d - 1) + n;
    }
  }

  /** Taking away one whole turn of n leaves the remainder modulo n unchanged. */
  lemma ModMinus(a: int, n: int)
    requires n > 0 && a >= n
    ensures (a - n) % n == a % n
  {
    var q, r := a / n, a % n;
    var q', r' := (a - n) / n, (a - n) % n;
    assert n * q + r == a;
    assert n * q' + r' == a - n;
    var d := q - 1 - q';
    assert n * d == n * q - n - n * q';
    assert n * d == r' - r;
    if d >= 1 {
      MulAtLeast(n, d);
    } else if d <= -1 {
      MulAtLeast(n, -d);
    }
  }

  /** A number below the modulus is its own remainder. */
  lemma ModSmall(a: int, n: int)
    requires 0 <= a < n
    ensures a % n == a
  {
    var q, r := a / n, a % n;
    assert n * q + r == a;
    if q >= 1 {
      MulAtLeast(n, q);
    } else if q <= -1 {
      MulAtLeast(n, -q);
    }
  }
}
