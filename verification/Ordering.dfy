/** The order of Python strings: lexicographic by code point. Every tie-break in the
    queues (task id, job id, materialization id, proposal id) uses it. */
module Ordering {

  predicate StrLe(a: string, b: string) {
    if a == "" then true
    else if b == "" then false
    else if a[0] != b[0] then a[0] < b[0]
    else StrLe(a[1..], b[1..])
  }

  predicate StrLt(a: string, b: string) {
    StrLe(a, b) && a != b
  }

  lemma {:induction false} StrLeTotal(a: string, b: string)
    ensures StrLe(a, b) || StrLe(b, a)
    decreases a
  {
    if a != "" && b != "" && a[0] == b[0] {
      StrLeTotal(a[1..], b[1..]);
    }
  }

  lemma {:induction false} StrLeAntisymmetric(a: string, b: string)
    requires StrLe(a, b) && StrLe(b, a)
    ensures a == b
    decreases a
  {
    if a != "" && b != "" {
      StrLeAntisymmetric(a[1..], b[1..]);
      assert a == [a[0]] + a[1..] && b == [b[0]] + b[1..];
    }
  }

  lemma {:induction false} StrLeTransitive(a: string, b: string, c: string)
    requires StrLe(a, b) && StrLe(b, c)
    ensures StrLe(a, c)
    decreases a
  {
    if a != "" && b != "" && c != "" && a[0] == b[0] == c[0] {
      StrLeTransitive(a[1..], b[1..], c[1..]);
    }
  }

  lemma {:induction false} StrLeReflexive(a: string)
    ensures StrLe(a, a)
  {
    if a != "" {
      StrLeReflexive(a[1..]);
    }
  }

  /** The strings differ first at `i`, and there `a` is smaller. */
  predicate SmallerAt(a: string, b: string, i: nat) {
    i < |a| && i < |b| && a[i] < b[i] && forall j :: 0 <= j < i ==> a[j] == b[j]
  }

  predicate PrefixOf(a: string, b: string) {
    |a| <= |b| && forall j :: 0 <= j < |a| ==> a[j] == b[j]
  }

  /** What the order says: a prefix comes first, and otherwise the first difference decides. */
  lemma {:induction false} StrLeIs(a: string, b: string)
    ensures StrLe(a, b) <==> PrefixOf(a, b) || exists i: nat :: SmallerAt(a, b, i)
    decreases a
  {
    if a != "" && b != "" && a[0] == b[0] {
      StrLeIs(a[1..], b[1..]);
      forall i: nat | SmallerAt(a[1..], b[1..], i) ensures SmallerAt(a, b, i + 1) { ShiftSmaller(a, b, i); }
      forall i: nat | SmallerAt(a, b, i) ensures i > 0 && SmallerAt(a[1..], b[1..], i - 1) {}
      ShiftPrefix(a, b);
    } else if a != "" && b != "" && a[0] < b[0] {
      assert SmallerAt(a, b, 0);
    }
  }

  lemma ShiftSmaller(a: string, b: string, i: nat)
    requires a != "" && b != "" && a[0] == b[0] && SmallerAt(a[1..], b[1..], i)
    ensures SmallerAt(a, b, i + 1)
  {
    forall j | 0 <= j < i + 1 ensures a[j] == b[j] { if j > 0 { assert a[1..][j-1] == b[1..][j-1]; } }
  }

  lemma ShiftPrefix(a: string, b: string)
    requires a != "" && b != "" && a[0] == b[0]
    ensures PrefixOf(a, b) <==> PrefixOf(a[1..], b[1..])
  {
    if PrefixOf(a[1..], b[1..]) {
      forall j | 0 <= j < |a| ensures a[j] == b[j] { if j > 0 { assert a[1..][j-1] == b[1..][j-1]; } }
    }
  }
}
