/// The shape shared by the settings forms' validators: an ordered list of
/// checks, each a failure condition with its message, of which the first that
/// fails is reported; and the JavaScript blank test `!value.trim()`.
module FormChecks {
  import opened Wrappers
  import opened Strings

  /** `!s.trim()`: the string is empty once JavaScript whitespace is
      trimmed. */
  predicate Blank(s: string) {
    Trim(s, IsJsSpace) == []
  }

  lemma BlankIff(s: string)
    ensures Blank(s) <==> forall k :: 0 <= k < |s| ==> IsJsSpace(s[k])
  {
    TrimEmptyIff(s, IsJsSpace);
  }

  /** One check of a validator: whether it fails, and the message then. */
  datatype Check = Check(fails: bool, message: string)

  /** The message of the first failing check, if any. */
  function FirstFailure(checks: seq<Check>): Option<string> {
    if checks == [] then None
    else if checks[0].fails then Some(checks[0].message)
    else FirstFailure(checks[1..])
  }

  /** No message exactly when no check fails; otherwise the message of a
      failing check before which none fails. */
  lemma {:induction false} FirstFailureSpec(checks: seq<Check>)
    ensures FirstFailure(checks).None? <==> forall i :: 0 <= i < |checks| ==> !checks[i].fails
    ensures FirstFailure(checks).Some? ==> exists i :: (0 <= i < |checks| && checks[i].fails &&
      checks[i].message == FirstFailure(checks).value && forall j :: 0 <= j < i ==> !checks[j].fails)
  {
    if checks != [] && !checks[0].fails {
      FirstFailureSpec(checks[1..]);
      assert forall i :: 0 < i < |checks| ==> checks[i] == checks[1..][i - 1];
      var r := FirstFailure(checks[1..]);
      if r.Some? {
        var i :| 0 <= i < |checks[1..]| && checks[1..][i].fails && checks[1..][i].message == r.value &&
          forall j :: 0 <= j < i ==> !checks[1..][j].fails;
        assert checks[i + 1] == checks[1..][i];
      }
    }
  }

  /** A validator of six checks is the chain of six early returns. */
  lemma FirstFailureOfSix(checks: seq<Check>)
    requires |checks| == 6
    ensures FirstFailure(checks) ==
      if checks[0].fails then Some(checks[0].message)
      else if checks[1].fails then Some(checks[1].message)
      else if checks[2].fails then Some(checks[2].message)
      else if checks[3].fails then Some(checks[3].message)
      else if checks[4].fails then Some(checks[4].message)
      else if checks[5].fails then Some(checks[5].message)
      else None
  {
    var c1 := checks[1..];
    var c2 := c1[1..];
    assert c2[1..] == checks[3..];
    FirstFailureOfThree(checks[3..]);
    assert checks[3..][0] == checks[3] && checks[3..][1] == checks[4] && checks[3..][2] == checks[5];
    assert c1[0] == checks[1] && c2[0] == checks[2];
    assert FirstFailure(c2) == if c2[0].fails then Some(c2[0].message) else FirstFailure(checks[3..]);
    assert FirstFailure(c1) == if c1[0].fails then Some(c1[0].message) else FirstFailure(c2);
  }

  /** A validator of three checks is the chain of three early returns. */
  lemma FirstFailureOfThree(checks: seq<Check>)
    requires |checks| == 3
    ensures FirstFailure(checks) ==
      if checks[0].fails then Some(checks[0].message)
      else if checks[1].fails then Some(checks[1].message)
      else if checks[2].fails then Some(checks[2].message)
      else None
  {
    var c1 := checks[1..];
    var c2 := c1[1..];
    assert c2[1..] == [];
    assert c1[0] == checks[1] && c2[0] == checks[2];
    assert FirstFailure(c2) == if c2[0].fails then Some(c2[0].message) else None;
    assert FirstFailure(c1) == if c1[0].fails then Some(c1[0].message) else FirstFailure(c2);
  }

  // ---------------------------------------------------------------------------
  // Index-based list edits
  // ---------------------------------------------------------------------------

  /** `list.filter((_, idx) => idx !== index)`. */
  function WithoutIndex<T>(s: seq<T>, index: nat): (r: seq<T>)
    ensures index < |s| ==> r == s[..index] + s[index + 1..]
    ensures index >= |s| ==> r == s
  {
    if s == [] then []
    else if index == 0 then s[1..]
    else
      var rest := WithoutIndex(s[1..], index - 1);
      assert index < |s| ==> s[1..][..index - 1] + s[1..][index..] == s[1..index] + s[index + 1..];
      assert index < |s| ==> s[..index] == [s[0]] + s[1..index];
      [s[0]] + rest
  }

  /** The elements before the removed position keep their place; those after
      it move down by one. */
  lemma WithoutIndexAt<T>(s: seq<T>, index: nat, k: nat)
    requires index < |s| && k < |s| - 1
    ensures |WithoutIndex(s, index)| == |s| - 1
    ensures WithoutIndex(s, index)[k] == if k < index then s[k] else s[k + 1]
  {
    var r := WithoutIndex(s, index);
    assert r == s[..index] + s[index + 1..];
    if k < index {
      assert r[k] == s[..index][k];
    } else {
      assert r[k] == s[index + 1..][k - index];
    }
  }

  /** `list.map((x, idx) => idx === index ? value : x)`. */
  function ReplaceAt<T>(s: seq<T>, index: nat, value: T): (r: seq<T>)
    ensures index < |s| ==> r == s[index := value]
    ensures index >= |s| ==> r == s
  {
    seq(|s|, i requires 0 <= i < |s| => if i == index then value else s[i])
  }
}
