/** The digital root: repeated digit summing in the JavaScript ledger, a branch on the remainder in the Rust crate. */
module DigitalRoot {
  import opened Ordering

  /** Decimal digits, most significant first. */
  function Digits(n: nat): (r: seq<nat>)
    ensures r != [] && forall i :: 0 <= i < |r| ==> r[i] < 10
  {
    if n < 10 then [n] else Digits(n / 10) + [n % 10]
  }

  function Sum(ds: seq<nat>): nat { if ds == [] then 0 else Sum(ds[..|ds| - 1]) + ds[|ds| - 1] }

  lemma {:induction false} DigitSumFacts(n: nat)
    ensures Sum(Digits(n)) % 9 == n % 9
    ensures Sum(Digits(n)) <= n
    ensures n >= 10 ==> 0 < Sum(Digits(n)) < n
    ensures n > 0 ==> Sum(Digits(n)) > 0
  {
    if n < 10 {
      assert [n][..0] == [];
      assert Sum([n]) == Sum([]) + n;
    } else {
      DigitSumFacts(n / 10);
      var ds := Digits(n);
      assert ds[..|ds| - 1] == Digits(n / 10);
      var q, r, s := n / 10, n % 10, Sum(Digits(n / 10));
      assert n == 10 * q + r && Sum(ds) == s + r;
      assert n == 9 * q + (q + r);
      SameRemainder(s, q, r);
    }
  }

  lemma SameRemainder(s: nat, q: nat, r: nat)
    requires s % 9 == q % 9
    ensures (s + r) % 9 == (10 * q + r) % 9
  {
  }

  /** The Rust crate's closed form. */
  function RustDigitalRoot(n: nat): nat { if n == 0 then 0 else if n % 9 == 0 then 9 else n % 9 }

  /** One round of the JavaScript loop: the sum of the decimal digits. */
  method SumOfDigits(n: nat) returns (sum: nat)
    ensures sum == Sum(Digits(n))
  {
    var ds := Digits(n);
    sum := 0;
    var i := 0;
    while i < |ds|
      invariant 0 <= i <= |ds| && sum == Sum(ds[..i])
    {
      assert ds[..i + 1][..i] == ds[..i];
      sum := sum + ds[i];
      i := i + 1;
    }
    assert ds[..i] == ds;
  }

  /** The loop ends for every start, at 1 + (n - 1) mod 9, which is the crate's answer; only at 0 do the two differ. */
  method DigitalRootOf(n: nat) returns (root: nat)
    ensures root == 1 + (n + 8) % 9
    ensures root == RustDigitalRoot(n) <==> n != 0
  {
    var sum := n;
    while sum > 9
      invariant sum % 9 == n % 9 && (sum == 0 <==> n == 0)
      decreases sum
    {
      DigitSumFacts(sum);
      sum := SumOfDigits(sum);
    }
    return if sum == 0 then 9 else sum;
  }

  /** A hash's hex digits are summed first; a character that is not one counts for nothing. */
  method DigitalRootOfHash(nibbles: seq<nat>) returns (root: nat)
    ensures 1 <= root <= 9 && root == 1 + (Sum(nibbles) + 8) % 9
  {
    var sum := 0;
    var i := 0;
    while i < |nibbles|
      invariant 0 <= i <= |nibbles| && sum == Sum(nibbles[..i])
    {
      assert nibbles[..i + 1][..i] == nibbles[..i];
      sum := sum + nibbles[i];
      i := i + 1;
    }
    assert nibbles[..i] == nibbles;
    root := DigitalRootOf(sum);
  }
}
