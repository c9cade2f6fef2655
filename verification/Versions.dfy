/** Engine versions as pkg/resources/versions.go compares them: numbers between dots, missing ones count as zero. */
module Versions {
  import opened Wrappers

  /** The numbers of a version, or None if it does not parse. */
  function Parse(s: string): Option<seq<nat>> {
    if s == [] then None else ParseFrom(s, 0, false)
  }

  /** value: the number read so far; inside: whether it has a digit yet. */
  function ParseFrom(s: string, value: nat, inside: bool): Option<seq<nat>> {
    if s == [] then if inside then Some([value]) else None
    else if '0' <= s[0] <= '9' then ParseFrom(s[1..], 10 * value + (s[0] - '0') as nat, true)
    else if s[0] == '.' && inside then
      var rest := ParseFrom(s[1..], 0, false);
      if rest.None? then None else Some([value] + rest.value)
    else None
  }

  predicate AllZero(a: seq<nat>) {
    forall i :: 0 <= i < |a| ==> a[i] == 0
  }

  predicate LessThan(a: seq<nat>, b: seq<nat>) {
    if b == [] then false
    else if a == [] then !AllZero(b)
    else if a[0] != b[0] then a[0] < b[0]
    else LessThan(a[1..], b[1..])
  }

  lemma {:induction false} NotLessThanItself(a: seq<nat>)
    ensures !LessThan(a, a)
  {
    if a != [] {
      NotLessThanItself(a[1..]);
    }
  }

  lemma {:induction false} LessThanAsymmetric(a: seq<nat>, b: seq<nat>)
    requires LessThan(a, b)
    ensures !LessThan(b, a)
  {
    if a != [] && b != [] && a[0] == b[0] {
      LessThanAsymmetric(a[1..], b[1..]);
    }
  }

  /** "Not older than" is transitive, so a chain of upgrades is an upgrade. */
  lemma {:induction false} NotOlderChains(a: seq<nat>, b: seq<nat>, c: seq<nat>)
    requires !LessThan(b, a) && !LessThan(c, b)
    ensures !LessThan(c, a)
  {
    if a != [] && c == [] {
      if b == [] {
      } else if AllZero(a) {
      } else {
        ZeroIsLeast(b, a);
        assert false;
      }
    } else if a != [] && b != [] && a[0] == b[0] == c[0] {
      NotOlderChains(a[1..], b[1..], c[1..]);
    } else if a != [] && b == [] {
      NotLessThanZero(c, a);
    }
  }

  lemma {:induction false} ZeroIsLeast(b: seq<nat>, a: seq<nat>)
    requires AllZero(b) && !AllZero(a)
    ensures LessThan(b, a)
  {
    if b != [] && a[0] == 0 {
      assert a == [a[0]] + a[1..];
      ZeroIsLeast(b[1..], a[1..]);
    }
  }

  lemma {:induction false} NotLessThanZero(c: seq<nat>, a: seq<nat>)
    requires AllZero(a)
    ensures !LessThan(c, a)
  {
    if c != [] && a != [] && c[0] == a[0] {
      NotLessThanZero(c[1..], a[1..]);
    }
  }

  /** VerifyVersionUpgradeNeeded. */
  function UpgradeNeeded(current: string, desired: string): Option<bool> {
    if Parse(current).None? || Parse(desired).None? then None
    else Some(LessThan(Parse(current).value, Parse(desired).value))
  }

  /** Both parse, and the first is at least the second. */
  ghost predicate NotOlder(v: string, w: string) {
    Parse(v).Some? && Parse(w).Some? && !LessThan(Parse(v).value, Parse(w).value)
  }

  // ---------------------------------------------------------------- what the comparison and the parser compute

  /** The k-th number, zero where there is none. */
  function At(a: seq<nat>, k: nat): nat {
    if k < |a| then a[k] else 0
  }

  ghost predicate DiffersFirstAt(a: seq<nat>, b: seq<nat>, k: nat) {
    At(a, k) < At(b, k) && forall i: nat :: i < k ==> At(a, i) == At(b, i)
  }

  /** Less than: with missing numbers as zeros, the first difference is an increase. */
  lemma {:induction false} LessThanIsFirstDifference(a: seq<nat>, b: seq<nat>)
    ensures LessThan(a, b) <==> exists k: nat :: DiffersFirstAt(a, b, k)
  {
    if b == [] {
      assert forall k: nat :: At(b, k) == 0;
    } else if a == [] {
      EmptyIsLess(b);
    } else if a[0] != b[0] {
      assert At(a, 0) == a[0] && At(b, 0) == b[0];
      if a[0] < b[0] {
        assert DiffersFirstAt(a, b, 0);
      }
    } else {
      LessThanIsFirstDifference(a[1..], b[1..]);
      DropFirst(a, b);
    }
  }

  lemma EmptyIsLess(b: seq<nat>)
    ensures !AllZero(b) <==> exists k: nat :: DiffersFirstAt([], b, k)
  {
    if !AllZero(b) {
      var k := FirstNonZero(b);
      assert DiffersFirstAt([], b, k);
    }
  }

  lemma {:induction false} FirstNonZero(b: seq<nat>) returns (k: nat)
    requires !AllZero(b)
    ensures k < |b| && b[k] != 0 && forall i: nat :: i < k ==> b[i] == 0
  {
    if b[0] != 0 {
      k := 0;
    } else {
      assert b == [b[0]] + b[1..];
      k := FirstNonZero(b[1..]);
      k := k + 1;
    }
  }

  lemma DropFirst(a: seq<nat>, b: seq<nat>)
    requires a != [] && b != [] && a[0] == b[0]
    ensures (exists k: nat :: DiffersFirstAt(a, b, k)) <==> exists k: nat :: DiffersFirstAt(a[1..], b[1..], k)
  {
    assert forall c: seq<nat>, k: nat :: c != [] ==> At(c[1..], k) == At(c, k + 1);
    if k: nat :| DiffersFirstAt(a, b, k) {
      assert k > 0 && At(a[1..], k - 1) == At(a, k) && At(b[1..], k - 1) == At(b, k);
      forall i: nat | i < k - 1 ensures At(a[1..], i) == At(b[1..], i) {
        assert At(a, i + 1) == At(b, i + 1);
      }
      assert DiffersFirstAt(a[1..], b[1..], k - 1);
    }
    if k: nat :| DiffersFirstAt(a[1..], b[1..], k) {
      forall i: nat | i < k + 1 ensures At(a, i) == At(b, i) {
        assert i > 0 ==> At(a[1..], i - 1) == At(b[1..], i - 1);
      }
      assert DiffersFirstAt(a, b, k + 1);
    }
  }

  function Digit(d: nat): char
    requires d < 10
  {
    '0' + d as char
  }

  function Decimal(n: nat): string {
    if n < 10 then [Digit(n)] else Decimal(n / 10) + [Digit(n % 10)]
  }

  /** The numbers with dots between them. */
  function Show(a: seq<nat>): string
    requires a != []
  {
    if |a| == 1 then Decimal(a[0]) else Decimal(a[0]) + "." + Show(a[1..])
  }

  lemma {:induction false} ReadsNumber(n: nat, rest: string, inside: bool)
    ensures ParseFrom(Decimal(n) + rest, 0, inside) == ParseFrom(rest, n, true)
    decreases n
  {
    var d := [Digit(n % 10)];
    if n < 10 {
      assert (Decimal(n) + rest)[1..] == rest;
    } else {
      ReadsNumber(n / 10, d + rest, inside);
      assert Decimal(n) + rest == Decimal(n / 10) + (d + rest);
      assert (d + rest)[1..] == rest;
    }
  }

  /** Every version that is written out is read back. */
  lemma {:induction false} ParsesWhatIsShown(a: seq<nat>)
    requires a != []
    ensures Show(a) != [] && Parse(Show(a)) == Some(a)
  {
    ShownParses(a);
    assert |Decimal(a[0])| > 0;
  }

  lemma {:induction false} ShownParses(a: seq<nat>)
    requires a != []
    ensures ParseFrom(Show(a), 0, false) == Some(a)
  {
    if |a| == 1 {
      ReadsNumber(a[0], [], false);
      assert Decimal(a[0]) + [] == Show(a) && a == [a[0]];
    } else {
      var rest := "." + Show(a[1..]);
      ReadsNumber(a[0], rest, false);
      assert Show(a) == Decimal(a[0]) + rest;
      ShownParses(a[1..]);
      assert rest[1..] == Show(a[1..]) && a == [a[0]] + a[1..];
    }
  }
}
