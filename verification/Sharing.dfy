/** How the Coordinador shares the keys out: the round robin over the connected instances and
    the split of the alphabet. */
module Sharing {
  import opened Lists

  // ----- round robin -----

  /** The list after `instance_list_pop` and `instance_list_push` of the popped instance. */
  function Rotated(e: seq<int>, p: int -> bool): seq<int> {
    var i := FirstIndex(e, p);
    if i < 0 then e else RemoveFirst(e, p) + [e[i]]
  }

  /** The instances that m dispatches in a row pick. */
  function Picks(e: seq<int>, p: int -> bool, m: nat): seq<int>
    decreases m
  {
    var i := FirstIndex(e, p);
    if m == 0 || i < 0 then [] else [e[i]] + Picks(Rotated(e, p), p, m - 1)
  }

  lemma FirstKept(e: seq<int>, p: int -> bool)
    ensures FirstIndex(e, p) < 0 <==> Keep(e, p) == []
    ensures FirstIndex(e, p) >= 0 ==>
              Keep(e, p) == [e[FirstIndex(e, p)]] + Keep(e[FirstIndex(e, p) + 1..], p)
  {
    var i := FirstIndex(e, p);
    if i < 0 {
      KeepNone(e, p);
    } else {
      var a, b := e[..i], e[i + 1..];
      assert e == a + [e[i]] + b;
      KeepConcat(a + [e[i]], b, p);
      KeepConcat(a, [e[i]], p);
      KeepNone(a, p);
      assert Keep([e[i]], p) == [e[i]];
    }
  }

  /** Disconnected nodes do not disturb: what is rotated is the list of the available ones. */
  lemma RotatedKept(e: seq<int>, p: int -> bool)
    requires Keep(e, p) != []
    ensures FirstIndex(e, p) >= 0 && e[FirstIndex(e, p)] == Keep(e, p)[0]
    ensures Keep(Rotated(e, p), p) == Keep(e, p)[1..] + [Keep(e, p)[0]]
    ensures multiset(Rotated(e, p)) == multiset(e)
  {
    FirstKept(e, p);
    var i := FirstIndex(e, p);
    RemovedKept(e, p);
    KeepConcat(RemoveFirst(e, p), [e[i]], p);
    assert Keep([e[i]], p) == [e[i]];
    RotatedMultiset(e, p);
  }

  lemma RemovedKept(e: seq<int>, p: int -> bool)
    requires FirstIndex(e, p) >= 0
    ensures Keep(RemoveFirst(e, p), p) == Keep(e[FirstIndex(e, p) + 1..], p)
  {
    var i := FirstIndex(e, p);
    NothingInFront(e[..i], e[i + 1..], p);
  }

  lemma NothingInFront(a: seq<int>, b: seq<int>, p: int -> bool)
    requires forall i :: 0 <= i < |a| ==> !p(a[i])
    ensures Keep(a + b, p) == Keep(b, p)
  {
    KeepConcat(a, b, p);
    KeepNone(a, p);
  }

  lemma RotatedMultiset(e: seq<int>, p: int -> bool)
    ensures multiset(Rotated(e, p)) == multiset(e)
  {
    RemoveMultiset(e, p);
    var i := FirstIndex(e, p);
    if i >= 0 {
      assert e[i] in multiset(e);
      assert multiset(RemoveFirst(e, p) + [e[i]]) == multiset(RemoveFirst(e, p)) + multiset{e[i]};
    }
  }

  lemma PicksNext(e: seq<int>, p: int -> bool, m: nat)
    requires m > 0 && Keep(e, p) != []
    ensures Picks(e, p, m) == [Keep(e, p)[0]] + Picks(Rotated(e, p), p, m - 1)
    ensures Keep(Rotated(e, p), p) != []
  {
    RotatedKept(e, p);
  }

  lemma RotatedSlice(c: seq<int>, m: nat)
    requires 0 < m <= |c|
    ensures [c[0]] + (c[1..] + [c[0]])[..m - 1] == c[..m]
  {
  }

  lemma PicksOneMore(e: seq<int>, p: int -> bool, m: nat, c: seq<int>)
    requires c == Keep(e, p) && 0 < m <= |c|
    requires Picks(Rotated(e, p), p, m - 1) == (c[1..] + [c[0]])[..m - 1]
    ensures Picks(e, p, m) == c[..m]
  {
    PicksNext(e, p, m);
    RotatedSlice(c, m);
  }

  lemma {:induction false} PicksInOrder(e: seq<int>, p: int -> bool, m: nat, c: seq<int>)
    requires c == Keep(e, p) && m <= |c|
    ensures Picks(e, p, m) == c[..m]
    decreases m
  {
    if m > 0 {
      RotatedKept(e, p);
      PicksInOrder(Rotated(e, p), p, m - 1, c[1..] + [c[0]]);
      PicksOneMore(e, p, m, c);
    }
  }

  /** As many dispatches in a row as there are available instances pick each of them once. */
  lemma RoundRobin(e: seq<int>, p: int -> bool)
    ensures Picks(e, p, |Keep(e, p)|) == Keep(e, p)
  {
    PicksInOrder(e, p, |Keep(e, p)|, Keep(e, p));
  }

  // ----- the split of the alphabet -----

  const TWO_32: int := 0x1_0000_0000
  const TWO_64: int := 0x1_0000_0000_0000_0000

  /** `tolower` of a character code. */
  function ToLower(c: int): int {
    if 65 <= c <= 90 then c + 32 else c
  }

  predicate IsLetter(c: int) {
    97 <= ToLower(c) <= 122
  }

  /** The index that `key_explicit` computes from the first character of a key, for n available
      instances: the product is unsigned, 64 bits wide, and the quotient is cut to an `int`. */
  function LetterIndex(c: int, n: nat): int {
    var product := (ToLower(c) - 97) * n % TWO_64;
    var cut := product / 26 % TWO_32;
    if cut < TWO_32 / 2 then cut else cut - TWO_32
  }

  /** As many instances as the `int` that counts a list can tell. */
  const INT_MAX: nat := 0x7FFF_FFFF

  /** Up to here no index wraps around into the list. */
  const MANY: nat := 376_451_316

  lemma ProductBounds(d: int, n: nat)
    ensures 0 <= d ==> 0 <= d * n
    ensures 0 <= d < 26 && n > 0 ==> d * n <= 26 * n - n
    ensures d >= 26 ==> d * n >= 26 * n
    ensures -225 <= d < 0 && 0 < n ==> -225 * n <= d * n && d * n + n <= 0
    ensures d <= 30 ==> d * n <= 30 * n
  {
  }

  lemma LetterIndexPlain(c: int, n: nat)
    requires 97 <= ToLower(c) && (ToLower(c) - 97) * n < 26 * (TWO_32 / 2)
    ensures LetterIndex(c, n) == (ToLower(c) - 97) * n / 26
  {
    ProductBounds(ToLower(c) - 97, n);
    NoWrap((ToLower(c) - 97) * n);
  }

  lemma NoWrap(x: int)
    requires 0 <= x < 26 * (TWO_32 / 2)
    ensures x % TWO_64 == x && x / 26 % TWO_32 == x / 26 < TWO_32 / 2
  {
  }

  lemma LetterIndexOfLetter(c: int, n: nat)
    requires IsLetter(c) && 0 < n <= INT_MAX
    ensures 0 <= LetterIndex(c, n) < n && LetterIndex(c, n) == (ToLower(c) - 97) * n / 26
  {
    ProductBounds(ToLower(c) - 97, n);
    LetterIndexPlain(c, n);
  }

  /** A key that starts with a letter finds an instance, however many there are; one that does
      not finds none, up to the number at which the index wraps around into the list. */
  lemma LetterIndexInRange(c: int, n: nat)
    requires -128 <= c <= 127 && 0 < n <= INT_MAX
    ensures IsLetter(c) ==> 0 <= LetterIndex(c, n) < n
    ensures n <= MANY ==> (0 <= LetterIndex(c, n) < n <==> IsLetter(c))
  {
    var d := ToLower(c) - 97;
    if IsLetter(c) {
      LetterIndexOfLetter(c, n);
    } else if n <= MANY {
      ProductBounds(d, n);
      if d >= 0 {
        LetterIndexPlain(c, n);
      } else {
        WrappedIndex(d * n, n);
      }
    }
  }

  /** What a negative product wraps around to is no index of the list. */
  lemma WrappedIndex(x: int, n: nat)
    requires -225 * n <= x < 0 && n <= MANY
    ensures n <= x % TWO_64 / 26 % TWO_32
  {
    assert x % TWO_64 == TWO_64 + x;
    var q := (TWO_64 + x) / 26;
    var base := 709490156681136600 / TWO_32 * TWO_32;
    assert base == 709490153046933504;
    assert base + n <= q < base + TWO_32;
    assert q % TWO_32 == q - base;
  }

  /** One instance more, and there is a character that is no letter and finds one; three
      instances, and a key that starts with a digit finds none. */
  lemma WrapsBeyond()
    ensures !IsLetter(-128) && 0 <= LetterIndex(-128, MANY + 1) < MANY + 1
    ensures LetterIndex('1' as int, 3) < 0
  {
    assert (-225 * 376_451_317) % TWO_64 == TWO_64 - 84_701_546_325;
    assert (TWO_64 - 84_701_546_325) / 26 == 709490153423384818;
    assert 709490153423384818 % TWO_32 == 376_451_314;
    assert (-48 * 3) % TWO_64 == TWO_64 - 144;
  }

  /** The letters are 'A' to 'Z' and 'a' to 'z'; a capital letter has the index of its small one,
      and the small ones are spread evenly: the one at place d has index d * n / 26. */
  lemma LetterCases(c: int, n: nat)
    requires 0 < n <= INT_MAX
    ensures IsLetter(c) <==> 65 <= c <= 90 || 97 <= c <= 122
    ensures 65 <= c <= 90 ==> LetterIndex(c, n) == LetterIndex(c + 32, n)
    ensures 97 <= c <= 122 ==> LetterIndex(c, n) == (c - 97) * n / 26
  {
    if IsLetter(c) {
      LetterIndexOfLetter(c, n);
    }
  }

  lemma LetterIndexMonotone(c: int, d: int, n: nat)
    requires 0 < n <= INT_MAX && IsLetter(c) && IsLetter(d) && ToLower(c) <= ToLower(d)
    ensures LetterIndex(c, n) <= LetterIndex(d, n)
  {
    LetterIndexOfLetter(c, n);
    LetterIndexOfLetter(d, n);
    TimesMonotone(ToLower(c) - 97, ToLower(d) - 97, n);
    QuotientMonotone((ToLower(c) - 97) * n, (ToLower(d) - 97) * n);
  }

  lemma TimesMonotone(x: int, y: int, n: nat)
    requires x <= y
    ensures x * n <= y * n
  {
  }

  lemma TimesCancel(x: int, y: int, n: nat)
    requires x * n <= y * n && n > 0
    ensures x <= y
  {
    if x > y {
      TimesMonotone(y + 1, x, n);
    }
  }

  lemma QuotientMonotone(x: int, y: int)
    requires x <= y
    ensures x / 26 <= y / 26
  {
  }

  /** The lower-case letters that fall to one of n instances. */
  function LettersOf(i: nat, n: nat): set<int> {
    set c | 97 <= c <= 122 && LetterIndex(c, n) == i
  }

  /** The first letter, counted from 0, that does not fall before instance i. */
  function FirstLetter(i: nat, n: nat): nat
    requires n > 0
  {
    (26 * i + n - 1) / n
  }

  lemma FirstLetterBounds(i: nat, n: nat, l: nat)
    requires n > 0
    ensures l >= FirstLetter(i, n) <==> l * n >= 26 * i
  {
    var f := FirstLetter(i, n);
    QuotientBounds(26 * i + n - 1, n);
    if l >= f {
      TimesMonotone(f, l, n);
    } else {
      TimesMonotone(l, f - 1, n);
      assert (f - 1) * n == f * n - n;
    }
  }

  lemma QuotientBounds(x: nat, n: nat)
    requires n > 0
    ensures x / n * n <= x < x / n * n + n
  {
  }

  function Range(lo: int, hi: int): (s: set<int>)
    ensures forall x :: x in s <==> lo <= x < hi
    ensures |s| == if lo <= hi then hi - lo else 0
    decreases hi - lo
  {
    if lo >= hi then {} else Range(lo, hi - 1) + {hi - 1}
  }

  /** Each instance gets floor(26/n) or ceil(26/n) letters. */
  lemma LettersShared(i: nat, n: nat)
    requires i < n <= INT_MAX
    ensures 26 / n <= |LettersOf(i, n)| <= (26 + n - 1) / n
  {
    LettersInARow(i, n);
    LetterGap(i, n);
  }

  lemma LettersInARow(i: nat, n: nat)
    requires i < n <= INT_MAX
    ensures LettersOf(i, n) == Range(97 + FirstLetter(i, n), 97 + FirstLetter(i + 1, n))
  {
    forall c
      ensures c in LettersOf(i, n) <==> c in Range(97 + FirstLetter(i, n), 97 + FirstLetter(i + 1, n))
    {
      LetterOfWhom(c, i, n);
    }
  }

  lemma LetterOfWhom(c: int, i: nat, n: nat)
    requires i < n <= INT_MAX
    ensures 97 <= c <= 122 && LetterIndex(c, n) == i <==> 97 + FirstLetter(i, n) <= c < 97 + FirstLetter(i + 1, n)
  {
    TimesMonotone(i + 1, n, 26);
    FirstLetterBounds(i + 1, n, 26);
    if 97 <= c <= 122 {
      LetterIndexOfLetter(c, n);
      FirstLetterBounds(i, n, c - 97);
      FirstLetterBounds(i + 1, n, c - 97);
      QuotientIs((c - 97) * n, i);
    }
  }

  lemma QuotientIs(x: int, i: int)
    ensures x / 26 == i <==> 26 * i <= x < 26 * (i + 1)
  {
  }

  lemma LetterGap(i: nat, n: nat)
    requires n > 0
    ensures 26 / n <= FirstLetter(i + 1, n) - FirstLetter(i, n) <= (26 + n - 1) / n
  {
    GapAtLeast(i, n, 26 / n);
    GapAtMost(i, n, (26 + n - 1) / n);
  }

  lemma GapAtLeast(i: nat, n: nat, f: nat)
    requires n > 0 && f * n <= 26
    ensures FirstLetter(i, n) + f <= FirstLetter(i + 1, n)
  {
    var b := FirstLetter(i + 1, n);
    FirstLetterBounds(i + 1, n, b);
    TimesCancel(f, b, n);
    assert (b - f) * n == b * n - f * n;
    FirstLetterBounds(i, n, b - f);
  }

  lemma GapAtMost(i: nat, n: nat, g: nat)
    requires n > 0 && g * n >= 26
    ensures FirstLetter(i + 1, n) <= FirstLetter(i, n) + g
  {
    var a := FirstLetter(i, n);
    FirstLetterBounds(i, n, a);
    assert (a + g) * n == a * n + g * n;
    FirstLetterBounds(i + 1, n, a + g);
  }
}
