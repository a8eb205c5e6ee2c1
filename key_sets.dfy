/// The insertion-ordered JavaScript `Set<string>` in which both keyboard hooks
/// keep the keys currently held down, as a duplicate-free sequence, and the
/// `Array.prototype.filter` the hooks apply to it.
module KeySets {

  predicate NoDup(s: seq<string>) {
    forall i, j :: 0 <= i < j < |s| ==> s[i] != s[j]
  }

  /** `set.add(k)`: a key already present keeps its place; a new key goes last. */
  function Add(s: seq<string>, k: string): (r: seq<string>)
    ensures NoDup(s) ==> NoDup(r)
    ensures forall x :: x in r <==> x in s || x == k
    ensures |s| <= |r| <= |s| + 1
  {
    if k in s then s else s + [k]
  }

  /** `set.delete(k)`: every other key keeps its relative order. */
  function Remove(s: seq<string>, k: string): (r: seq<string>)
    ensures forall x :: x in r <==> x in s && x != k
    ensures NoDup(s) ==> NoDup(r)
    ensures k !in s ==> r == s
    ensures NoDup(s) && k in s ==> |r| == |s| - 1
  {
    if s == [] then []
    else if s[0] == k then Remove(s[1..], k)
    else
      assert NoDup(s) ==> NoDup(s[1..]) && s[0] !in s[1..];
      [s[0]] + Remove(s[1..], k)
  }

  /** Deleting the key at position `i` of a duplicate-free set removes exactly
      that position. */
  lemma {:induction false} RemoveAt(s: seq<string>, i: nat)
    requires NoDup(s)
    requires i < |s|
    ensures Remove(s, s[i]) == s[..i] + s[i + 1..]
  {
    if i == 0 {
      assert s[0] !in s[1..];
    } else {
      assert NoDup(s[1..]);
      RemoveAt(s[1..], i - 1);
      assert s[1..][i - 1] == s[i];
      assert s[1..][..i - 1] == s[1..i];
      assert s[1..][i..] == s[i + 1..];
      assert s[..i] == [s[0]] + s[1..i];
    }
  }

  /** Releasing a held key and pressing it again moves it to the end of the
      insertion order. */
  lemma ReleaseAndPressMovesToEnd(s: seq<string>, i: nat)
    requires NoDup(s)
    requires i < |s|
    ensures Add(Remove(s, s[i]), s[i]) == s[..i] + s[i + 1..] + [s[i]]
  {
    RemoveAt(s, i);
  }

  /** `Array.prototype.filter`. */
  function Filter(s: seq<string>, p: string -> bool): (r: seq<string>)
    ensures forall x :: x in r <==> x in s && p(x)
    ensures |r| <= |s|
    ensures NoDup(s) ==> NoDup(r)
  {
    if s == [] then []
    else
      assert NoDup(s) ==> NoDup(s[1..]) && s[0] !in s[1..];
      if p(s[0]) then [s[0]] + Filter(s[1..], p) else Filter(s[1..], p)
  }

  lemma {:induction false} FilterConcat(a: seq<string>, b: seq<string>, p: string -> bool)
    ensures Filter(a + b, p) == Filter(a, p) + Filter(b, p)
  {
    if a == [] {
      assert a + b == b;
    } else {
      assert (a + b)[0] == a[0];
      assert (a + b)[1..] == a[1..] + b;
      FilterConcat(a[1..], b, p);
    }
  }

  /** Filtering keeps a sequence whose every element passes. */
  lemma {:induction false} FilterKeepsAll(s: seq<string>, p: string -> bool)
    requires forall x :: x in s ==> p(x)
    ensures Filter(s, p) == s
  {
    if s != [] {
      FilterKeepsAll(s[1..], p);
    }
  }

  /** The elements that pass and the elements that fail together make up the
      whole sequence. */
  lemma {:induction false} FilterPartition(s: seq<string>, p: string -> bool, q: string -> bool)
    requires forall x :: q(x) == !p(x)
    ensures multiset(Filter(s, p)) + multiset(Filter(s, q)) == multiset(s)
  {
    if s != [] {
      var t := s[1..];
      FilterPartition(t, p, q);
      assert s == [s[0]] + t;
      assert multiset(s) == multiset{s[0]} + multiset(t);
      if p(s[0]) {
        assert Filter(s, p) == [s[0]] + Filter(t, p);
        assert Filter(s, q) == Filter(t, q);
        assert multiset(Filter(s, p)) == multiset{s[0]} + multiset(Filter(t, p));
      } else {
        assert Filter(s, p) == Filter(t, p);
        assert Filter(s, q) == [s[0]] + Filter(t, q);
        assert multiset(Filter(s, q)) == multiset{s[0]} + multiset(Filter(t, q));
      }
    }
  }
}
