/** Sequences joined from parts, and where a cut falls among the parts. */
module Pieces {

  lemma Associate<T>(a: seq<T>, b: seq<T>, c: seq<T>)
    ensures (a + b) + c == a + (b + c)
  {
  }

  function Join<T>(parts: seq<seq<T>>): seq<T> {
    if parts == [] then [] else parts[0] + Join(parts[1..])
  }

  lemma {:induction false} JoinConcat<T>(a: seq<seq<T>>, b: seq<seq<T>>)
    ensures Join(a + b) == Join(a) + Join(b)
  {
    if a == [] {
      assert a + b == b;
    } else {
      assert (a + b)[1..] == a[1..] + b;
      JoinConcat(a[1..], b);
    }
  }

  /** How many parts the first `m` elements complete. */
  function Complete<T>(parts: seq<seq<T>>, m: nat): (k: nat)
    ensures k <= |parts|
  {
    if parts == [] || m < |parts[0]| then 0 else 1 + Complete(parts[1..], m - |parts[0]|)
  }

  /** What the first `m` elements hold of the part after those. */
  function Pending<T>(parts: seq<seq<T>>, m: nat): seq<T> {
    if parts == [] then []
    else if m < |parts[0]| then parts[0][..m]
    else Pending(parts[1..], m - |parts[0]|)
  }

  lemma {:induction false} SplitAt<T>(parts: seq<seq<T>>, m: nat)
    requires m <= |Join(parts)|
    ensures Join(parts)[..m] == Join(parts[..Complete(parts, m)]) + Pending(parts, m)
  {
    if parts == [] {
    } else if m < |parts[0]| {
      assert Join(parts)[..m] == parts[0][..m];
      assert parts[..0] == [];
    } else {
      var n := |parts[0]|;
      SplitAt(parts[1..], m - n);
      var k := Complete(parts, m);
      assert Join(parts)[..m] == parts[0] + Join(parts[1..])[..m - n];
      assert parts[..k][1..] == parts[1..][..k - 1];
    }
  }

  lemma {:induction false} PendingIsPrefix<T>(parts: seq<seq<T>>, m: nat)
    requires m <= |Join(parts)|
    ensures var k, r := Complete(parts, m), Pending(parts, m);
            if k == |parts| then r == [] else |r| < |parts[k]| && r == parts[k][..|r|]
  {
    if parts != [] && m >= |parts[0]| {
      PendingIsPrefix(parts[1..], m - |parts[0]|);
    }
  }

  lemma {:induction false} CompleteMonotone<T>(parts: seq<seq<T>>, m: nat, m': nat)
    requires m <= m'
    ensures Complete(parts, m) <= Complete(parts, m')
  {
    if parts != [] && m >= |parts[0]| {
      CompleteMonotone(parts[1..], m - |parts[0]|, m' - |parts[0]|);
    }
  }

  lemma {:induction false} CompleteAll<T>(parts: seq<seq<T>>)
    ensures Complete(parts, |Join(parts)|) == |parts| && Pending(parts, |Join(parts)|) == []
  {
    if parts != [] {
      CompleteAll(parts[1..]);
    }
  }

  lemma Cancel<T>(done: seq<T>, p: seq<T>, mid: seq<T>, j: seq<T>, p': seq<T>)
    requires (done + p) + mid == (done + j) + p'
    ensures p + mid == j + p'
  {
    assert p + mid == ((done + p) + mid)[|done|..];
    assert j + p' == ((done + j) + p')[|done|..];
  }

  lemma SlicesMeet<T>(s: seq<T>, m: nat, m': nat)
    requires m <= m' <= |s|
    ensures s[..m'] == s[..m] + s[m..m']
  {
  }

  /** The elements between two cuts finish the pending part and reach the next one. */
  lemma Between<T>(parts: seq<seq<T>>, m: nat, m': nat)
    requires m <= m' <= |Join(parts)|
    ensures var k, k' := Complete(parts, m), Complete(parts, m');
            k <= k' && Pending(parts, m) + Join(parts)[m..m'] == Join(parts[k..k']) + Pending(parts, m')
  {
    var k, k' := Complete(parts, m), Complete(parts, m');
    CompleteMonotone(parts, m, m');
    SplitAt(parts, m);
    SplitAt(parts, m');
    SlicesMeet(parts, k, k');
    JoinConcat(parts[..k], parts[k..k']);
    SlicesMeet(Join(parts), m, m');
    Cancel(Join(parts[..k]), Pending(parts, m), Join(parts)[m..m'], Join(parts[k..k']), Pending(parts, m'));
  }
}
