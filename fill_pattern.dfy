/** The rotating routing permutation `fillPattern` (src/DoubleElimination.ts:147-157). */
module FillPattern {

  /** The fresh array 1 .. count of line 148. */
  function Numbers(count: nat): (r: seq<int>)
    ensures |r| == count
    ensures forall i :: 0 <= i < count ==> r[i] == i + 1
  {
    seq(count, i => i + 1)
  }

  /** Array.prototype.reverse applied to a fresh array. */
  function Reverse(s: seq<int>): (r: seq<int>)
    ensures |r| == |s|
  {
    if s == [] then [] else [s[|s| - 1]] + Reverse(s[..|s| - 1])
  }

  lemma {:induction false} ReverseAt(s: seq<int>, i: nat)
    requires i < |s|
    ensures Reverse(s)[i] == s[|s| - 1 - i]
  {
    if i > 0 {
      ReverseAt(s[..|s| - 1], i - 1);
    }
  }

  /** `fillPattern(count, fc)`. `half` is `count / 2`, fractional when count is
      odd, and `slice` truncates it, so the first half holds floor(count / 2)
      numbers and the second half the rest. */
  function Pattern(count: nat, fc: nat): (r: seq<int>)
    ensures |r| == count
  {
    var arr := Numbers(count);
    var half := count / 2;
    var first := arr[..half];
    var second := arr[half..];
    var c := fc % 4;
    if c == 0 then arr
    else if c == 1 then Reverse(arr)
    else if c == 2 then Reverse(first) + Reverse(second)
    else second + first
  }

  /** Entry i of the pattern, by phase: 0 is the identity, 1 the reversal,
      2 reverses each half in place, 3 swaps the halves. */
  lemma PatternAt(count: nat, fc: nat, i: nat)
    requires i < count
    ensures var h := count / 2;
      Pattern(count, fc)[i] ==
        match fc % 4
        case 0 => i + 1
        case 1 => count - i
        case 2 => if i < h then h - i else count - (i - h)
        case _ => if i < count - h then h + 1 + i else i - (count - h) + 1
  {
    var arr := Numbers(count);
    var h := count / 2;
    var p := Pattern(count, fc);
    if fc % 4 == 1 {
      assert p == Reverse(arr);
      ReverseAt(arr, i);
    } else if fc % 4 == 2 {
      var a, b := Reverse(arr[..h]), Reverse(arr[h..]);
      assert p == a + b;
      if i < h {
        ReverseAt(arr[..h], i);
        assert p[i] == a[i] == arr[h - 1 - i];
      } else {
        ReverseAt(arr[h..], i - h);
        assert p[i] == b[i - h] == arr[count - 1 - (i - h)];
      }
    } else if fc % 4 == 3 {
      assert p == arr[h..] + arr[..h];
      if i < count - h {
        assert p[i] == arr[h + i];
      } else {
        assert p[i] == arr[i - (count - h)];
      }
    }
  }

  /** Phase 1 is the plain reversal count, count - 1, ..., 1. */
  lemma PatternReversed(count: nat)
    ensures forall i :: 0 <= i < count ==> Pattern(count, 1)[i] == count - i
  {
    forall i | 0 <= i < count
      ensures Pattern(count, 1)[i] == count - i
    {
      PatternAt(count, 1, i);
    }
  }

  /** Every pattern is a permutation of 1 .. count. */
  lemma PatternIsPermutation(count: nat, fc: nat)
    ensures forall i :: 0 <= i < count ==> 1 <= Pattern(count, fc)[i] <= count
    ensures forall i, j :: 0 <= i < j < count ==> Pattern(count, fc)[i] != Pattern(count, fc)[j]
  {
    forall i | 0 <= i < count
      ensures 1 <= Pattern(count, fc)[i] <= count
    {
      PatternAt(count, fc, i);
    }
    forall i, j | 0 <= i < j < count
      ensures Pattern(count, fc)[i] != Pattern(count, fc)[j]
    {
      PatternAt(count, fc, i);
      PatternAt(count, fc, j);
    }
  }

  /** For an even count, or a single match, applying the pattern twice
      gives back the match: winners match k + 1 is the one routed to losers
      match Pattern[k], which is how step 13 reads back `fp[j]`. */
  lemma PatternInvolution(count: nat, fc: nat)
    requires count % 2 == 0 || count == 1
    ensures Involutive(Pattern(count, fc))
  {
    var fp := Pattern(count, fc);
    forall i | 0 <= i < count
      ensures Partnered(fp, i)
    {
      PatternAt(count, fc, i);
      PatternAt(count, fc, fp[i] - 1);
    }
  }

  /** Entry j of fp names a position whose entry names j back. */
  ghost predicate Partnered(fp: seq<int>, j: int)
  {
    0 <= j < |fp| && 1 <= fp[j] <= |fp| && fp[fp[j] - 1] == j + 1
  }

  /** fp is a permutation of 1 .. |fp| that is its own inverse. */
  ghost predicate Involutive(fp: seq<int>)
  {
    forall j :: 0 <= j < |fp| ==> Partnered(fp, j)
  }
}
