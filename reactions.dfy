/** Turning a reaction design into the list of reactions
    (generate_idot.py:140-166). */
module Reactions {
  import opened Outcomes
  import opened WellGrid

  /** A reaction: the target well and its part names, in dispensing order. */
  datatype Reaction = Reaction(target: string, parts: seq<string>)

  predicate NonEmptyGroups(groups: seq<seq<string>>) {
    forall k :: 0 <= k < |groups| ==> |groups[k]| > 0
  }

  /** The number of combinations: the product of the group sizes. */
  function CombinationCount(groups: seq<seq<string>>): (n: nat)
    ensures n == 0 <==> !NonEmptyGroups(groups)
  {
    if |groups| == 0 then 1
    else
      assert forall k :: 0 <= k < |groups| - 1 ==> groups[1..][k] == groups[k + 1];
      |groups[0]| * CombinationCount(groups[1..])
  }

  /** Every tail prefixed by every choice, the choice varying slowest. */
  function PrefixEach(choices: seq<string>, tails: seq<seq<string>>): seq<seq<string>> {
    if |choices| == 0 then []
    else seq(|tails|, k requires 0 <= k < |tails| => [choices[0]] + tails[k]) + PrefixEach(choices[1..], tails)
  }

  /** `itertools.product(*groups)`: the Cartesian product in lexicographic
      order, first group varying slowest. */
  function Product(groups: seq<seq<string>>): seq<seq<string>> {
    if |groups| == 0 then [[]] else PrefixEach(groups[0], Product(groups[1..]))
  }

  /** Digit `k` of the index `i` in the mixed radix whose `k`-th digit
      ranges over group `k`, the first group the most significant. */
  function Digit(groups: seq<seq<string>>, i: nat, k: nat): (d: nat)
    requires NonEmptyGroups(groups) && k < |groups|
    ensures d < |groups[k]|
  {
    assert NonEmptyGroups(groups[k + 1..]);
    (i / CombinationCount(groups[k + 1..])) % |groups[k]|
  }

  /** The `i`-th combination in lexicographic order, in closed form: the
      part of group `k` is the one selected by digit `k` of `i`. */
  function Combination(groups: seq<seq<string>>, i: nat): (c: seq<string>)
    requires NonEmptyGroups(groups)
    ensures |c| == |groups|
  {
    seq(|groups|, k requires 0 <= k < |groups| => groups[k][Digit(groups, i, k)])
  }

  /** build_combinatorial_reactions (generate_idot.py:140-158): the `i`-th
      combination, followed by the common parts, goes to the `i`-th target
      well in column-major order. */
  method BuildCombinatorialReactions(common: seq<string>, groups: seq<seq<string>>)
    returns (r: Result<seq<Reaction>>)
    ensures groups == [] ==> r == Err(NoPartGroups)
    ensures groups != [] && CombinationCount(groups) > PlateCapacity
            ==> r == Err(CapacityError(CombinationCount(groups), PlateCapacity))
    ensures r.Ok? <==> groups != [] && CombinationCount(groups) <= PlateCapacity
    ensures r.Ok? ==> |r.value| == CombinationCount(groups)
    ensures r.Ok? ==> forall i :: 0 <= i < |r.value| ==>
              && r.value[i].target == WellName(i % 8, i / 8 + 1)
              && r.value[i].parts == Combination(groups, i) + common
  {
    if |groups| == 0 {
      return Err(NoPartGroups);
    }
    var combos := Product(groups);
    ProductSize(groups);
    var targets;
    match GenerateTargetWells(|combos|) {
      case Err(e) => return Err(e);
      case Ok(ws) => targets := ws;
    }
    var reactions := ZipReactions(targets, combos, common);
    if |combos| > 0 {
      ProductAt(groups);
    }
    return Ok(reactions);
  }

  /** The loop over `zip(targets, combos)` (generate_idot.py:154-157): one
      reaction per pair, the common parts after the combination; `zip`
      stops at the shorter list. */
  method ZipReactions(targets: seq<string>, combos: seq<seq<string>>, common: seq<string>)
    returns (reactions: seq<Reaction>)
    ensures |reactions| == if |targets| <= |combos| then |targets| else |combos|
    ensures forall j :: 0 <= j < |reactions| ==> reactions[j] == Reaction(targets[j], combos[j] + common)
  {
    var n := if |targets| <= |combos| then |targets| else |combos|;
    reactions := [];
    for i := 0 to n
      invariant |reactions| == i
      invariant forall j :: 0 <= j < i ==> reactions[j] == Reaction(targets[j], combos[j] + common)
    {
      reactions := reactions + [Reaction(targets[i], combos[i] + common)];
    }
  }

  /** build_manual_reactions (generate_idot.py:161-166): a non-empty list
      passes through unchanged. */
  function BuildManualReactions(rows: seq<Reaction>): (r: Result<seq<Reaction>>)
    ensures r.Err? <==> |rows| == 0
    ensures r.Err? ==> r.error == NoReactions
    ensures r.Ok? ==> r.value == rows
  {
    if |rows| == 0 then Err(NoReactions) else Ok(rows)
  }

  // ---- the product ----

  lemma {:induction false} PrefixEachSize(choices: seq<string>, tails: seq<seq<string>>)
    ensures |PrefixEach(choices, tails)| == |choices| * |tails|
  {
    if |choices| > 0 {
      PrefixEachSize(choices[1..], tails);
    }
  }

  /** The product has one entry per combination. */
  lemma {:induction false} ProductSize(groups: seq<seq<string>>)
    ensures |Product(groups)| == CombinationCount(groups)
  {
    if |groups| > 0 {
      ProductSize(groups[1..]);
      PrefixEachSize(groups[0], Product(groups[1..]));
    }
  }

  lemma {:induction false} PrefixEachMember(choices: seq<string>, tails: seq<seq<string>>, c: seq<string>)
    ensures c in PrefixEach(choices, tails) <==> |c| > 0 && c[0] in choices && c[1..] in tails
  {
    if |choices| > 0 {
      PrefixEachMember(choices[1..], tails, c);
      var block := seq(|tails|, k requires 0 <= k < |tails| => [choices[0]] + tails[k]);
      assert c in block <==> |c| > 0 && c[0] == choices[0] && c[1..] in tails by {
        if c in block {
          var k :| 0 <= k < |tails| && block[k] == c;
          assert c[1..] == tails[k];
        }
        if |c| > 0 && c[0] == choices[0] && c[1..] in tails {
          var k :| 0 <= k < |tails| && tails[k] == c[1..];
          assert block[k] == c;
        }
      }
      if |c| > 0 {
        assert c[0] in choices <==> c[0] == choices[0] || c[0] in choices[1..] by {
          assert choices == [choices[0]] + choices[1..];
        }
      }
    }
  }

  /** A sequence is produced exactly when it picks, position by position,
      one part of each group. */
  lemma {:induction false} ProductMember(groups: seq<seq<string>>, c: seq<string>)
    ensures c in Product(groups) <==> |c| == |groups| && forall k :: 0 <= k < |c| ==> c[k] in groups[k]
  {
    if |groups| > 0 {
      PrefixEachMember(groups[0], Product(groups[1..]), c);
      if |c| > 0 {
        ProductMember(groups[1..], c[1..]);
        assert forall k :: 1 <= k < |c| ==> c[1..][k - 1] == c[k];
        if |c| == |groups| && forall k :: 1 <= k < |c| ==> c[k] in groups[k] {
          assert forall k :: 0 <= k < |c| - 1 ==> c[1..][k] in groups[1..][k] by {
            forall k | 0 <= k < |c| - 1 ensures c[1..][k] in groups[1..][k] {
              assert c[1..][k] == c[k + 1];
            }
          }
        }
      }
    }
  }

  /** Tail `r` prefixed by choice `q` sits at entry `q * |tails| + r`. */
  lemma {:induction false} PrefixEachAt(choices: seq<string>, tails: seq<seq<string>>, q: nat, r: nat)
    requires q < |choices| && r < |tails|
    ensures q * |tails| + r < |PrefixEach(choices, tails)|
    ensures PrefixEach(choices, tails)[q * |tails| + r] == [choices[q]] + tails[r]
    decreases q
  {
    var m := |tails|;
    PrefixEachSize(choices, tails);
    assert q * m + r < |choices| * m by {
      MulSign(|choices| - q - 1, m);
      assert (|choices| - q - 1) * m == |choices| * m - q * m - m;
    }
    if q > 0 {
      var rest := choices[1..];
      PrefixEachAt(rest, tails, q - 1, r);
      assert (q - 1) * m + r == q * m + r - m by {
        assert (q - 1) * m == q * m - m;
      }
      assert rest[q - 1] == choices[q];
    }
  }

  /** The product lists the combinations by their mixed-radix index: entry
      `i` is `Combination(groups, i)`. */
  lemma ProductAt(groups: seq<seq<string>>)
    requires NonEmptyGroups(groups)
    ensures |Product(groups)| == CombinationCount(groups)
    ensures forall i :: 0 <= i < |Product(groups)| ==> Product(groups)[i] == Combination(groups, i)
  {
    ProductSize(groups);
    forall i | 0 <= i < |Product(groups)|
      ensures Product(groups)[i] == Combination(groups, i)
    {
      ProductIndex(groups, i);
    }
  }

  lemma {:induction false} ProductIndex(groups: seq<seq<string>>, i: nat)
    requires NonEmptyGroups(groups) && i < CombinationCount(groups)
    ensures i < |Product(groups)| && Product(groups)[i] == Combination(groups, i)
    decreases |groups|
  {
    ProductSize(groups);
    if |groups| > 0 {
      var rest := groups[1..];
      assert NonEmptyGroups(rest);
      var m := CombinationCount(rest);
      var q, r := i / m, i % m;
      assert i == q * m + r && q < |groups[0]| && r < m by {
        QuotientBelow(i, m, |groups[0]|);
        DivMod(i, m);
      }
      ProductHead(groups, q, r);
      ProductIndex(rest, r);
      CombinationCons(groups, i);
    } else {
      assert Combination(groups, i) == [];
    }
  }

  /** Part `q` of the first group followed by entry `r` of the product of
      the remaining groups is entry `q * CombinationCount(rest) + r`. */
  lemma ProductHead(groups: seq<seq<string>>, q: nat, r: nat)
    requires |groups| > 0 && q < |groups[0]| && r < CombinationCount(groups[1..])
    ensures r < |Product(groups[1..])|
    ensures q * CombinationCount(groups[1..]) + r < |Product(groups)|
    ensures Product(groups)[q * CombinationCount(groups[1..]) + r] == [groups[0][q]] + Product(groups[1..])[r]
  {
    ProductSize(groups[1..]);
    PrefixEachAt(groups[0], Product(groups[1..]), q, r);
  }

  /** The leading digit selects from the first group; the remaining digits
      are those of the remainder, in the remaining groups. */
  lemma CombinationCons(groups: seq<seq<string>>, i: nat)
    requires NonEmptyGroups(groups) && |groups| > 0 && i < CombinationCount(groups)
    ensures NonEmptyGroups(groups[1..])
    ensures var s := CombinationCount(groups[1..]);
      s > 0 && Combination(groups, i) == [groups[0][i / s]] + Combination(groups[1..], i % s)
  {
    var rest := groups[1..];
    assert NonEmptyGroups(rest);
    var s := CombinationCount(rest);
    var c := Combination(groups, i);
    var c' := Combination(rest, i % s);
    assert c[0] == groups[0][i / s] by {
      DigitHead(groups, i);
    }
    forall k | 0 <= k < |rest|
      ensures c[k + 1] == c'[k]
    {
      DigitTail(groups, i, k);
    }
    ConsEq(c, groups[0][i / s], c');
  }

  lemma ConsEq(c: seq<string>, h: string, t: seq<string>)
    requires |c| == |t| + 1 && c[0] == h
    requires forall k :: 0 <= k < |t| ==> c[k + 1] == t[k]
    ensures c == [h] + t
  {
  }

  lemma DigitHead(groups: seq<seq<string>>, i: nat)
    requires NonEmptyGroups(groups) && |groups| > 0 && i < CombinationCount(groups)
    ensures NonEmptyGroups(groups[1..])
    ensures Digit(groups, i, 0) == i / CombinationCount(groups[1..])
  {
    var rest := groups[1..];
    assert NonEmptyGroups(rest);
    var s := CombinationCount(rest);
    var m := |groups[0]|;
    assert CombinationCount(groups) == m * s;
    assert groups[0 + 1..] == rest;
    var q := i / s;
    QuotientBelow(i, s, m);
    assert q < m;
    ModOfSmall(q, m);
    assert Digit(groups, i, 0) == q % m;
  }

  lemma DigitTail(groups: seq<seq<string>>, i: nat, k: nat)
    requires NonEmptyGroups(groups) && k + 1 < |groups|
    ensures NonEmptyGroups(groups[1..])
    ensures Digit(groups, i, k + 1) == Digit(groups[1..], i % CombinationCount(groups[1..]), k)
  {
    var rest := groups[1..];
    assert NonEmptyGroups(rest);
    assert rest[k + 1..] == groups[k + 2..];
    assert rest[k] == groups[k + 1];
    assert NonEmptyGroups(rest[..k]) && NonEmptyGroups(rest[k + 1..]);
    CountSplit(rest, k);
    DigitOfRemainder(i, CombinationCount(rest[..k]), |rest[k]|, CombinationCount(rest[k + 1..]));
  }

  // ---- counting and arithmetic ----

  /** Multiplying the counts of a split reproduces the whole count, with
      group `k` contributing its own size. */
  lemma {:induction false} CountSplit(groups: seq<seq<string>>, k: nat)
    requires k < |groups|
    ensures CombinationCount(groups) == CombinationCount(groups[..k]) * |groups[k]| * CombinationCount(groups[k + 1..])
  {
    if k > 0 {
      var rest := groups[1..];
      CountSplit(rest, k - 1);
      assert rest[..k - 1] == groups[..k][1..];
      assert rest[k - 1] == groups[k];
      assert rest[k..] == groups[k + 1..];
      var g0, a := |groups[0]|, CombinationCount(groups[..k][1..]);
      var m, b := |groups[k]|, CombinationCount(groups[k + 1..]);
      assert CombinationCount(groups[..k]) == g0 * a;
      assert CombinationCount(rest) == a * m * b;
      Associate(g0, a, m, b);
    } else {
      assert groups[..0] == [] && groups[1..] == groups[k + 1..];
    }
  }

  lemma Associate(x: int, y: int, m: int, b: int)
    ensures x * (y * m * b) == (x * y) * m * b
  {
  }

  /** Euclidean division is determined by the quotient-remainder equation. */
  lemma DivModUnique(a: int, n: int, q: int, r: int)
    requires n > 0 && 0 <= r < n && a == q * n + r
    ensures a / n == q && a % n == r
  {
    var q', r' := a / n, a % n;
    assert a == q' * n + r';
    MulSign(q' - q, n);
    assert (q' - q) * n == q' * n - q * n;
  }

  lemma DivMod(a: int, n: int)
    requires n > 0
    ensures a == (a / n) * n + a % n && 0 <= a % n < n
  {
  }

  lemma ModOfSmall(x: int, m: int)
    requires 0 <= x < m
    ensures x % m == x && x / m == 0
  {
    DivModUnique(x, m, 0, x);
  }

  lemma MulSign(x: int, n: int)
    requires n > 0
    ensures x >= 1 ==> x * n >= n
    ensures x <= -1 ==> x * n <= -n
    ensures x >= 0 ==> x * n >= 0
  {
  }

  lemma QuotientBelow(i: nat, s: nat, g: nat)
    requires s > 0 && i < g * s
    ensures 0 <= i / s < g
  {
    var q := i / s;
    assert q * s <= i;
    MulSign(q - g, s);
    assert (q - g) * s == q * s - g * s;
  }
  /** The digit at a position does not change when the higher positions
      are dropped: with `i % (a*m*b)` in place of `i`, dividing by `b` and
      reducing modulo `m` picks the same value. */
  lemma DigitOfRemainder(i: nat, a: nat, m: nat, b: nat)
    requires a > 0 && m > 0 && b > 0
    ensures ((i % (a * m * b)) / b) % m == (i / b) % m
  {
    var s := a * m * b;
    var q, r := i / s, i % s;
    assert s == (a * m) * b;
    assert i == q * s + r;
    var hi, lo := r / b, r % b;
    assert r == hi * b + lo;
    assert i == (q * a * m + hi) * b + lo by {
      assert q * s == q * a * m * b;
      assert (q * a * m + hi) * b == q * a * m * b + hi * b;
    }
    DivModUnique(i, b, q * a * m + hi, lo);
    var hq, hr := hi / m, hi % m;
    assert hi == hq * m + hr;
    assert q * a * m + hi == (q * a + hq) * m + hr;
    DivModUnique(q * a * m + hi, m, q * a + hq, hr);
  }
}
