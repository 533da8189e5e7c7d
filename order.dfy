/**
 * The order JavaScript's relational operators put on two strings, read on
 * characters rather than UTF-16 code units: character by character, a
 * proper prefix before any longer string. Dates in the ledger are ASCII
 * `YYYY-MM-DD` strings, on which the two readings agree.
 */
module Order {

  /** `a <= b` on two JavaScript strings, read on characters. */
  predicate LexLe(a: string, b: string)
  {
    a == [] || (b != [] && (a[0] < b[0] || (a[0] == b[0] && LexLe(a[1..], b[1..]))))
  }

  lemma {:induction false} LexLeReflexive(a: string)
    ensures LexLe(a, a)
  {
    if a != [] {
      LexLeReflexive(a[1..]);
    }
  }

  lemma {:induction false} LexLeTotal(a: string, b: string)
    ensures LexLe(a, b) || LexLe(b, a)
  {
    if a != [] && b != [] && a[0] == b[0] {
      LexLeTotal(a[1..], b[1..]);
    }
  }

  lemma {:induction false} LexLeTransitive(a: string, b: string, c: string)
    requires LexLe(a, b) && LexLe(b, c)
    ensures LexLe(a, c)
  {
    if a != [] && a[0] == b[0] && b[0] == c[0] {
      LexLeTransitive(a[1..], b[1..], c[1..]);
    }
  }

  /** `a` is the start of `b`. */
  predicate IsPrefix(a: string, b: string)
  {
    |a| <= |b| && b[..|a|] == a
  }

  /** `a` and `b` agree before position `k` and differ at it. */
  predicate DiffersFirstAt(a: string, b: string, k: int)
  {
    0 <= k < |a| && k < |b| && a[..k] == b[..k] && a[k] != b[k]
  }

  /** `a` has the smaller character where `a` and `b` first differ. */
  ghost predicate SmallerAtFirstDifference(a: string, b: string)
  {
    exists k :: DiffersFirstAt(a, b, k) && a[k] < b[k]
  }

  /** With equal first characters, prefix and first difference move to the tails. */
  lemma DropCommonHead(a: string, b: string)
    requires a != [] && b != [] && a[0] == b[0]
    ensures IsPrefix(a, b) <==> IsPrefix(a[1..], b[1..])
    ensures SmallerAtFirstDifference(a, b) <==> SmallerAtFirstDifference(a[1..], b[1..])
  {
    var a', b' := a[1..], b[1..];
    assert a == [a[0]] + a';
    if |a| <= |b| {
      assert b[..|a|] == [b[0]] + b'[..|a'|];
    }
    if k :| DiffersFirstAt(a', b', k) && a'[k] < b'[k] {
      assert a[..k + 1] == [a[0]] + a'[..k] && b[..k + 1] == [b[0]] + b'[..k];
      assert DiffersFirstAt(a, b, k + 1);
    }
    if k :| DiffersFirstAt(a, b, k) && a[k] < b[k] {
      assert a[..k] == [a[0]] + a'[..k - 1] && b[..k] == [b[0]] + b'[..k - 1];
      assert DiffersFirstAt(a', b', k - 1);
    }
  }

  /**
   * `LexLe` is the language's string comparison, read on characters:
   * `a <= b` iff `a` is a prefix of `b`, or `a` has the smaller character
   * at the first position where the two differ.
   */
  lemma {:induction false} LexLeIsStringOrder(a: string, b: string)
    ensures LexLe(a, b) <==> IsPrefix(a, b) || SmallerAtFirstDifference(a, b)
  {
    if a == [] {
      assert IsPrefix(a, b);
    } else if b == [] {
    } else if a[0] != b[0] {
      assert DiffersFirstAt(a, b, 0);
    } else {
      LexLeIsStringOrder(a[1..], b[1..]);
      DropCommonHead(a, b);
    }
  }
}
