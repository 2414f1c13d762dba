/**
 * The order that `>` puts on strings, proved a strict total order, and the maximum
 * of a sequence under it. Severities are compared with this order.
 */
module Lexicographic {

  predicate Less(a: string, b: string) {
    b != [] && (a == [] || a[0] < b[0] || (a[0] == b[0] && Less(a[1..], b[1..])))
  }

  /** Up to `k` the strings are the same; there the first ends, or has the smaller character. */
  predicate DecidedAt(a: string, b: string, k: nat) {
    && k <= |a| && k < |b| && a[..k] == b[..k]
    && (k == |a| || a[k] < b[k])
  }

  /** The order is decided by the first difference. */
  lemma {:induction false} FirstDifferenceDecides(a: string, b: string)
    ensures Less(a, b) <==> exists k: nat :: DecidedAt(a, b, k)
  {
    if a == [] || b == [] {
      assert b != [] ==> DecidedAt(a, b, 0);
    } else if a[0] != b[0] {
      assert a[0] < b[0] ==> DecidedAt(a, b, 0);
      assert forall k: nat | DecidedAt(a, b, k) :: k > 0 ==> a[..k][0] == b[..k][0];
    } else {
      FirstDifferenceDecides(a[1..], b[1..]);
      if k: nat :| DecidedAt(a[1..], b[1..], k) {
        assert a[..k + 1] == [a[0]] + a[1..][..k] && b[..k + 1] == [b[0]] + b[1..][..k];
        assert DecidedAt(a, b, k + 1);
      }
      if k: nat :| DecidedAt(a, b, k) {
        assert a[1..][..k - 1] == a[..k][1..] && b[1..][..k - 1] == b[..k][1..];
        assert DecidedAt(a[1..], b[1..], k - 1);
      }
    }
  }

  lemma {:induction false} Trichotomy(a: string, b: string)
    ensures a == b <==> !Less(a, b) && !Less(b, a)
    ensures !(Less(a, b) && Less(b, a))
  {
    if a != [] && b != [] {
      Trichotomy(a[1..], b[1..]);
      if a[0] == b[0] {
        assert a == [a[0]] + a[1..] && b == [b[0]] + b[1..];
      }
    }
  }

  lemma {:induction false} Transitive(a: string, b: string, c: string)
    requires Less(a, b) && Less(b, c)
    ensures Less(a, c)
  {
    if a != [] && a[0] == b[0] && b[0] == c[0] {
      Transitive(a[1..], b[1..], c[1..]);
    }
  }

  function Max(a: string, b: string): string {
    if Less(a, b) then b else a
  }

  /** The running maximum, in arrival order. */
  function MaxOf(ss: seq<string>): string
    requires ss != []
  {
    if |ss| == 1 then ss[0] else Max(MaxOf(ss[..|ss| - 1]), ss[|ss| - 1])
  }

  ghost predicate IsMaximum(m: string, ss: seq<string>) {
    m in ss && forall s | s in ss :: !Less(m, s)
  }

  lemma {:induction false} MaxOfIsMaximum(ss: seq<string>)
    requires ss != []
    ensures IsMaximum(MaxOf(ss), ss)
  {
    if |ss| > 1 {
      var init, last := ss[..|ss| - 1], ss[|ss| - 1];
      assert ss == init + [last];
      MaxOfIsMaximum(init);
      var m := MaxOf(init);
      Trichotomy(m, last);
      forall s | s in ss ensures !Less(MaxOf(ss), s) {
        if Less(MaxOf(ss), s) && s in init && Less(m, last) {
          Transitive(m, last, s);
        }
        Trichotomy(s, s);
        assert s in init || s == last;
      }
    } else {
      Trichotomy(ss[0], ss[0]);
    }
  }

  lemma MaximumIsUnique(m: string, n: string, ss: seq<string>)
    requires IsMaximum(m, ss) && IsMaximum(n, ss)
    ensures m == n
  {
    Trichotomy(m, n);
  }

  /** The maximum does not depend on the order of arrival. */
  lemma MaxOfIgnoresOrder(ss: seq<string>, ts: seq<string>)
    requires ss != [] && ts != [] && multiset(ss) == multiset(ts)
    ensures MaxOf(ss) == MaxOf(ts)
  {
    MaxOfIsMaximum(ss);
    MaxOfIsMaximum(ts);
    forall s ensures s in ss <==> s in ts {
      assert s in ss <==> s in multiset(ss);
      assert s in ts <==> s in multiset(ts);
    }
    MaximumIsUnique(MaxOf(ss), MaxOf(ts), ss);
  }
}
