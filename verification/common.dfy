/** Small shared vocabulary: an option type, integer helpers that model the
    source's number conversions, and order-preserving sequence filters. */
module Common {

  datatype Option<+T> = None | Some(value: T) {
    function GetOr(default: T): T {
      match this
      case Some(v) => v
      case None => default
    }
  }

  /** An account or contract address; only equality matters. */
  type Address = nat

  function Min(a: int, b: int): int {
    if a <= b then a else b
  }

  const TwoTo31: int := 0x8000_0000
  const TwoTo32: int := 0x1_0000_0000

  /** `BigInt.toI32()` of AssemblyScript: keeps the low 32 bits, read as
      a two's-complement signed integer. */
  function ToI32(x: int): (r: int)
    ensures -TwoTo31 <= r < TwoTo31
    ensures (r - x) % TwoTo32 == 0
  {
    var low := x % TwoTo32;
    if low < TwoTo31 then low else low - TwoTo32
  }

  lemma ToI32Small(x: int)
    requires -TwoTo31 <= x < TwoTo31
    ensures ToI32(x) == x
  {
  }

  /** `Math.floor(random * n)` for a `Math.random()` value: a position in `[0, n)`. */
  function ScaledFloor(random: real, n: nat): (i: nat)
    requires 0.0 <= random < 1.0 && n > 0
    ensures i < n
  {
    var m := n as real;
    assert m - random * m == m * (1.0 - random);
    assert 1.0 - random > 0.0;
    FloorBelow(random * m, n);
    (random * m).Floor
  }

  lemma FloorBelow(x: real, bound: int)
    requires 0.0 <= x < bound as real
    ensures 0 <= x.Floor < bound
  {
  }

  /** Integer division is pinned down by the quotient's defining interval. */
  lemma DivUnique(n: int, d: int, q: int)
    requires d > 0 && q * d <= n < q * d + d
    ensures n / d == q
  {
    var k := n / d;
    var m := n % d;
    assert n == d * k + m && 0 <= m < d;
    if k > q {
      MulStep(d, q + 1, k - q - 1);
    } else if k < q {
      MulStep(d, k + 1, q - k - 1);
    }
  }

  lemma MulStep(d: int, a: int, b: int)
    requires d > 0 && b >= 0
    ensures d * (a + b) >= d * a
  {
    assert d * (a + b) == d * a + d * b;
  }

  /** `a % 2` on i32 in AssemblyScript (and JavaScript): the remainder
      truncates toward zero, so its sign follows the dividend. */
  function RemTwo(a: int): (r: int)
    ensures -2 < r < 2
    ensures (a - r) % 2 == 0
    ensures r > 0 ==> a > 0
    ensures r < 0 ==> a < 0
  {
    if a >= 0 then a % 2 else -((-a) % 2)
  }

  /** `xs.filter(p)`: the elements satisfying `p`, in their original order. */
  function Filter<T(==,!new)>(s: seq<T>, p: T -> bool): (r: seq<T>)
    ensures |r| <= |s|
    ensures forall x :: x in r <==> x in s && p(x)
    ensures forall i :: 0 <= i < |r| ==> p(r[i])
    ensures SubsequenceOf(r, s)
  {
    if |s| == 0 then []
    else if p(s[0]) then [s[0]] + Filter(s[1..], p)
    else Filter(s[1..], p)
  }

  /** With duplicates: a kept value occurs as often as in `s`, any other value never. */
  lemma {:induction false} FilterCounts<T(!new)>(s: seq<T>, p: T -> bool)
    ensures forall x :: multiset(Filter(s, p))[x] == if p(x) then multiset(s)[x] else 0
  {
    if |s| > 0 {
      FilterCounts(s[1..], p);
      assert s == [s[0]] + s[1..];
    }
  }

  /** Filtering drops at least the positions that fail the test. */
  lemma {:induction false} FilterShorter<T(!new)>(s: seq<T>, p: T -> bool, i: nat)
    requires i < |s| && !p(s[i])
    ensures |Filter(s, p)| < |s|
  {
    var rest := Filter(s[1..], p);
    if i > 0 {
      assert s[1..][i - 1] == s[i];
      FilterShorter(s[1..], p, i - 1);
      assert |Filter(s, p)| <= 1 + |rest|;
    } else {
      assert Filter(s, p) == rest;
    }
  }

  /** `a` can be obtained from `b` by deleting elements (order is kept). */
  predicate SubsequenceOf<T(==)>(a: seq<T>, b: seq<T>)
    decreases |b|
  {
    if |a| == 0 then true
    else if |b| == 0 then false
    else if a[0] == b[0] then SubsequenceOf(a[1..], b[1..])
    else SubsequenceOf(a, b[1..])
  }

  lemma {:induction false} SubsequenceOfSelf<T>(a: seq<T>)
    ensures SubsequenceOf(a, a)
  {
    if |a| > 0 {
      SubsequenceOfSelf(a[1..]);
    }
  }

  lemma {:induction false} SubsequenceAppend<T>(a: seq<T>, b: seq<T>, c: seq<T>, d: seq<T>)
    requires SubsequenceOf(a, b) && SubsequenceOf(c, d)
    ensures SubsequenceOf(a + c, b + d)
    decreases |b|
  {
    if |a| == 0 {
      assert a + c == c;
      SubsequenceSuffix(c, d, b);
    } else if a[0] == b[0] {
      assert (a + c)[1..] == a[1..] + c;
      assert (b + d)[1..] == b[1..] + d;
      SubsequenceAppend(a[1..], b[1..], c, d);
    } else {
      assert (b + d)[1..] == b[1..] + d;
      SubsequenceAppend(a, b[1..], c, d);
    }
  }

  lemma {:induction false} SubsequenceSuffix<T>(c: seq<T>, d: seq<T>, b: seq<T>)
    requires SubsequenceOf(c, d)
    ensures SubsequenceOf(c, b + d)
    decreases |b| + |d|, 1
  {
    if |b| == 0 {
      assert b + d == d;
    } else {
      assert (b + d)[1..] == b[1..] + d;
      SubsequenceSuffix(c, d, b[1..]);
      if |c| > 0 && c[0] == b[0] {
        SubsequenceDrop(c, b[1..] + d);
      }
    }
  }

  lemma {:induction false} SubsequenceDrop<T>(c: seq<T>, e: seq<T>)
    requires |c| > 0 && SubsequenceOf(c, e)
    ensures SubsequenceOf(c[1..], e)
    decreases |e|, 2
  {
    assert e == e[..1] + e[1..];
    if c[0] == e[0] {
      SubsequenceSuffix(c[1..], e[1..], e[..1]);
    } else {
      SubsequenceDrop(c, e[1..]);
      SubsequenceSuffix(c[1..], e[1..], e[..1]);
    }
  }

  lemma {:induction false} SubsequenceTransitive<T>(a: seq<T>, b: seq<T>, c: seq<T>)
    requires SubsequenceOf(a, b) && SubsequenceOf(b, c)
    ensures SubsequenceOf(a, c)
    decreases |c|
  {
    if |a| > 0 && |c| > 0 {
      if b[0] == c[0] && a[0] == b[0] {
        SubsequenceTransitive(a[1..], b[1..], c[1..]);
      } else {
        if b[0] == c[0] {
          SubsequenceTransitive(a, b[1..], c[1..]);
        } else {
          SubsequenceTransitive(a, b, c[1..]);
        }
        if a[0] == c[0] {
          SubsequenceDrop(a, c[1..]);
        }
      }
    }
  }

  predicate StrictlyIncreasing(s: seq<int>) {
    forall i, j :: 0 <= i < j < |s| ==> s[i] < s[j]
  }

  /** Filtering keeps a strictly increasing list strictly increasing. */
  lemma {:induction false} FilterKeepsIncreasing(s: seq<int>, p: int -> bool)
    requires StrictlyIncreasing(s)
    ensures StrictlyIncreasing(Filter(s, p))
  {
    if |s| > 0 {
      var rest := Filter(s[1..], p);
      FilterKeepsIncreasing(s[1..], p);
      if p(s[0]) {
        var r := Filter(s, p);
        assert r == [s[0]] + rest;
        forall i, j | 0 <= i < j < |r| ensures r[i] < r[j] {
          if i == 0 {
            assert r[j] == rest[j - 1] && rest[j - 1] in rest;
            var k :| 0 <= k < |s| - 1 && s[1..][k] == rest[j - 1];
            assert s[k + 1] == r[j];
          } else {
            assert r[i] == rest[i - 1] && r[j] == rest[j - 1];
          }
        }
      }
    }
  }

  /** `xs.filter((x, i) => i >= bound || keep(x))`: only the first `bound`
      positions are checked; later elements are kept unconditionally.
      `index` is the position of `s[0]` in the list being filtered. */
  function KeepCheckedPrefix<T>(s: seq<T>, index: nat, bound: nat, keep: T -> bool): seq<T>
    decreases |s|
  {
    if |s| == 0 then []
    else if index >= bound || keep(s[0]) then [s[0]] + KeepCheckedPrefix(s[1..], index + 1, bound, keep)
    else KeepCheckedPrefix(s[1..], index + 1, bound, keep)
  }

  /** The bounded filter is "filter the checked prefix, keep the rest". */
  lemma {:induction false} KeepCheckedPrefixSplit<T(!new)>(s: seq<T>, index: nat, bound: nat, keep: T -> bool)
    ensures var cut := if index >= bound then 0 else Min(bound - index, |s|);
            KeepCheckedPrefix(s, index, bound, keep) == Filter(s[..cut], keep) + s[cut..]
    decreases |s|
  {
    var cut := if index >= bound then 0 else Min(bound - index, |s|);
    if |s| == 0 {
    } else if index >= bound {
      KeepCheckedPrefixSplit(s[1..], index + 1, bound, keep);
      assert s[..0] == [];
      assert [s[0]] + s[1..] == s;
    } else {
      KeepCheckedPrefixSplit(s[1..], index + 1, bound, keep);
      var cut' := if index + 1 >= bound then 0 else Min(bound - index - 1, |s| - 1);
      assert cut == cut' + 1;
      assert s[..cut][1..] == s[1..][..cut'];
      assert s[cut..] == s[1..][cut'..];
    }
  }

  /** The bounded filter, described without positions: the first `bound`
      elements are filtered by `keep`, the rest are kept as they are. */
  function CheckPrefix<T(==,!new)>(s: seq<T>, bound: nat, keep: T -> bool): (r: seq<T>)
    ensures r == Filter(s[..Min(bound, |s|)], keep) + s[Min(bound, |s|)..]
    ensures SubsequenceOf(r, s)
    ensures forall x :: x in r <==> (x in s[..Min(bound, |s|)] && keep(x)) || x in s[Min(bound, |s|)..]
    ensures |r| <= |s|
  {
    CheckPrefixIsSubsequence(s, bound, keep);
    KeepCheckedPrefix(s, 0, bound, keep)
  }

  lemma CheckPrefixIsSubsequence<T(!new)>(s: seq<T>, bound: nat, keep: T -> bool)
    ensures KeepCheckedPrefix(s, 0, bound, keep) == Filter(s[..Min(bound, |s|)], keep) + s[Min(bound, |s|)..]
    ensures SubsequenceOf(KeepCheckedPrefix(s, 0, bound, keep), s)
  {
    var cut := Min(bound, |s|);
    KeepCheckedPrefixSplit(s, 0, bound, keep);
    assert bound == 0 ==> s[..cut] == [];
    SubsequenceOfSelf(s[cut..]);
    SubsequenceAppend(Filter(s[..cut], keep), s[..cut], s[cut..], s[cut..]);
    assert s[..cut] + s[cut..] == s;
  }

  /** The list with position `i` spliced out (`xs.splice(i, 1)`). */
  function RemoveAt<T>(s: seq<T>, i: nat): (r: seq<T>)
    requires i < |s|
    ensures |r| == |s| - 1
    ensures multiset(r) == multiset(s) - multiset{s[i]}
    ensures forall k :: 0 <= k < i ==> r[k] == s[k]
    ensures forall k :: i <= k < |r| ==> r[k] == s[k + 1]
  {
    assert s == s[..i] + [s[i]] + s[i + 1..];
    s[..i] + s[i + 1..]
  }
}
