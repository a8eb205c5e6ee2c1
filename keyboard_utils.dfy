/// The key codec of the shortcut engine: normalising browser key codes,
/// classifying and ordering key names, the `+`-joined lower-case wire form the
/// backend stores, and the display names of keys.
module KeyboardUtils {
  import opened Wrappers
  import opened Strings

  // ---------------------------------------------------------------------------
  // normalizeKey
  // ---------------------------------------------------------------------------

  /** The explicit table of normalizeKey: side-specific modifier codes (and Space). */
  function KeyMap(code: string): Option<string> {
    if code == "ControlLeft" || code == "ControlRight" then Some("Control")
    else if code == "ShiftLeft" || code == "ShiftRight" then Some("Shift")
    else if code == "AltLeft" || code == "AltRight" then Some("Alt")
    else if code == "MetaLeft" || code == "MetaRight" then Some("Command")
    else if code == "Space" then Some("Space")
    else None
  }

  /** Strips the first of the prefixes `Key`, `Digit`, `Numpad` that the code
      starts with; any other code is returned as it is. Shared by normalizeKey
      and formatKey. */
  function StripCodePrefix(code: string): (key: string)
    ensures StartsWith(code, "Key") ==> code == "Key" + key
    ensures !StartsWith(code, "Key") && StartsWith(code, "Digit") ==> code == "Digit" + key
    ensures !StartsWith(code, "Key") && !StartsWith(code, "Digit") && StartsWith(code, "Numpad") ==>
      code == "Numpad" + key
    ensures !StartsWith(code, "Key") && !StartsWith(code, "Digit") && !StartsWith(code, "Numpad") ==>
      key == code
  {
    if StartsWith(code, "Key") then code[3..]
    else if StartsWith(code, "Digit") then code[5..]
    else if StartsWith(code, "Numpad") then code[6..]
    else code
  }

  /** Maps a `KeyboardEvent.code` to a logical key name. Total: every code
      gives a name. */
  function NormalizeKey(code: string): (key: string)
    ensures KeyMap(code).Some? ==> key == KeyMap(code).value
    ensures KeyMap(code).None? ==> key == StripCodePrefix(code)
  {
    match KeyMap(code)
    case Some(k) => k
    case None => StripCodePrefix(code)
  }

  /** Left and right variants of each modifier agree, and the side-less names
      are Control, Shift, Alt and Command. */
  lemma NormalizeSideVariants()
    ensures NormalizeKey("ControlLeft") == NormalizeKey("ControlRight") == "Control"
    ensures NormalizeKey("ShiftLeft") == NormalizeKey("ShiftRight") == "Shift"
    ensures NormalizeKey("AltLeft") == NormalizeKey("AltRight") == "Alt"
    ensures NormalizeKey("MetaLeft") == NormalizeKey("MetaRight") == "Command"
  {
  }

  /** Letter, digit and numpad codes lose their prefix, in that priority; any
      other code outside the table passes through unchanged. */
  lemma NormalizeStripsPrefix(code: string)
    requires KeyMap(code).None?
    ensures StartsWith(code, "Key") ==> code == "Key" + NormalizeKey(code)
    ensures !StartsWith(code, "Key") && StartsWith(code, "Digit") ==> code == "Digit" + NormalizeKey(code)
    ensures !StartsWith(code, "Key") && !StartsWith(code, "Digit") && StartsWith(code, "Numpad") ==>
      code == "Numpad" + NormalizeKey(code)
    ensures !StartsWith(code, "Key") && !StartsWith(code, "Digit") && !StartsWith(code, "Numpad") ==>
      NormalizeKey(code) == code
  {
  }

  // ---------------------------------------------------------------------------
  // isModifierKey and sortKeys
  // ---------------------------------------------------------------------------

  /** The list isModifierKey searches. */
  const ModifierNames: seq<string> := ["Control", "Shift", "Alt", "Meta", "Command"]

  /** The precedence list of sortKeys's comparator. */
  const ModifierOrder: seq<string> := ["Control", "Alt", "Shift", "Meta", "Command"]

  predicate IsModifierKey(key: string) {
    key in ModifierNames
  }

  lemma IsModifierKeyIff(key: string)
    ensures IsModifierKey(key) <==>
      key == "Control" || key == "Shift" || key == "Alt" || key == "Meta" || key == "Command"
  {
  }

  /** `Array.prototype.indexOf`: the first index of `key`, or -1. */
  function IndexOfKey(order: seq<string>, key: string): int {
    if |order| == 0 then -1
    else if order[0] == key then 0
    else
      var j := IndexOfKey(order[1..], key);
      if j == -1 then -1 else 1 + j
  }

  lemma {:induction false} IndexOfKeySpec(order: seq<string>, key: string)
    ensures var i := IndexOfKey(order, key);
      -1 <= i < |order| &&
      (i == -1 <==> key !in order) &&
      (i >= 0 ==> order[i] == key && key !in order[..i])
  {
    if |order| > 0 && order[0] != key {
      IndexOfKeySpec(order[1..], key);
      var j := IndexOfKey(order[1..], key);
      assert j >= 0 ==> order[..1 + j] == [order[0]] + order[1..][..j];
      assert order == [order[0]] + order[1..];
    }
  }

  /** The comparator of sortKeys. */
  function CompareKeys(a: string, b: string): int {
    var aIndex := IndexOfKey(ModifierOrder, a);
    var bIndex := IndexOfKey(ModifierOrder, b);
    if aIndex == -1 && bIndex == -1 then 0
    else if aIndex == -1 then 1
    else if bIndex == -1 then -1
    else aIndex - bIndex
  }

  /** The position of a key in the canonical order: the modifier precedence
      index, and 5 for every non-modifier. */
  function Rank(key: string): (r: nat)
    ensures r <= 5
  {
    if key == "Control" then 0
    else if key == "Alt" then 1
    else if key == "Shift" then 2
    else if key == "Meta" then 3
    else if key == "Command" then 4
    else 5
  }

  /** The rank is the key's index in the precedence list, and 5 when it is
      not listed. */
  lemma RankIsPrecedenceIndex(key: string)
    ensures Rank(key) == if IndexOfKey(ModifierOrder, key) == -1 then 5 else IndexOfKey(ModifierOrder, key)
  {
    IndexOfKeySpec(ModifierOrder, key);
  }

  /** The comparator orders keys exactly by rank: it never separates two
      non-modifiers, puts every modifier before every non-modifier and
      modifiers in the order Control, Alt, Shift, Meta, Command. */
  lemma CompareKeysIsRankOrder(a: string, b: string)
    ensures CompareKeys(a, b) < 0 <==> Rank(a) < Rank(b)
    ensures CompareKeys(a, b) == 0 <==> Rank(a) == Rank(b)
  {
    RankIsPrecedenceIndex(a);
    RankIsPrecedenceIndex(b);
    IndexOfKeySpec(ModifierOrder, a);
    IndexOfKeySpec(ModifierOrder, b);
  }

  /** The two lists of the source name the same five modifiers. */
  lemma ModifierIffRanked(key: string)
    ensures IsModifierKey(key) <==> Rank(key) < 5
  {
  }

  /** When the input holds a modifier and a non-modifier, the sorted keys
      start with a modifier and end with a non-modifier. */
  lemma SortKeysModifierEnds(keys: seq<string>, i: nat, j: nat)
    requires i < |keys| && IsModifierKey(keys[i])
    requires j < |keys| && !IsModifierKey(keys[j])
    ensures |SortKeys(keys)| == |keys|
    ensures IsModifierKey(SortKeys(keys)[0]) && !IsModifierKey(SortKeys(keys)[|SortKeys(keys)| - 1])
  {
    RankedEnds(keys, i, j);
    SortKeysEnds(keys, i, j, 5);
    RankedEnds(SortKeys(keys), 0, |SortKeys(keys)| - 1);
  }

  lemma RankedEnds(s: seq<string>, i: nat, j: nat)
    requires i < |s| && j < |s|
    ensures IsModifierKey(s[i]) <==> Rank(s[i]) < 5
    ensures IsModifierKey(s[j]) <==> Rank(s[j]) < 5
  {
    ModifierIffRanked(s[i]);
    ModifierIffRanked(s[j]);
  }

  /** Places `key`, which preceded every element of `sorted` in the input,
      before the first element that does not compare below it. */
  function Insert(key: string, sorted: seq<string>): seq<string> {
    if sorted == [] || CompareKeys(sorted[0], key) >= 0 then [key] + sorted
    else [sorted[0]] + Insert(key, sorted[1..])
  }

  /** `[...keys].sort(comparator)`: a stable sort of a copy by the comparator. */
  function SortKeys(keys: seq<string>): seq<string> {
    if keys == [] then [] else Insert(keys[0], SortKeys(keys[1..]))
  }

  ghost predicate Sorted(s: seq<string>) {
    forall i, j :: 0 <= i < j < |s| ==> Rank(s[i]) <= Rank(s[j])
  }

  /** The keys of rank `r`, in order. */
  function RankFilter(s: seq<string>, r: nat): seq<string> {
    if s == [] then []
    else if Rank(s[0]) == r then [s[0]] + RankFilter(s[1..], r)
    else RankFilter(s[1..], r)
  }

  /** A key no higher in rank than the head of a sorted sequence can be put in
      front of it. */
  lemma SortedCons(key: string, t: seq<string>)
    requires Sorted(t)
    requires t != [] ==> Rank(key) <= Rank(t[0])
    ensures Sorted([key] + t)
  {
    var s := [key] + t;
    forall i, j | 0 <= i < j < |s| ensures Rank(s[i]) <= Rank(s[j]) {
      assert s[j] == t[j - 1];
      if i == 0 {
        assert Rank(t[0]) <= Rank(t[j - 1]) || j - 1 == 0;
      } else {
        assert s[i] == t[i - 1];
      }
    }
  }

  lemma {:induction false} InsertSorted(key: string, t: seq<string>)
    requires Sorted(t)
    ensures Sorted(Insert(key, t))
    ensures Insert(key, t)[0] == key || Insert(key, t)[0] == t[0]
  {
    if t != [] && CompareKeys(t[0], key) < 0 {
      CompareKeysIsRankOrder(t[0], key);
      var u := Insert(key, t[1..]);
      assert Sorted(t[1..]) by {
        forall i, j | 0 <= i < j < |t[1..]| ensures Rank(t[1..][i]) <= Rank(t[1..][j]) {
          assert t[1..][i] == t[i + 1] && t[1..][j] == t[j + 1];
        }
      }
      InsertSorted(key, t[1..]);
      assert |t| > 1 ==> t[1..][0] == t[1];
      assert |t| > 1 ==> Rank(t[0]) <= Rank(t[1]);
      SortedCons(t[0], u);
      assert Insert(key, t) == [t[0]] + u;
    } else {
      if t != [] {
        CompareKeysIsRankOrder(t[0], key);
      }
      SortedCons(key, t);
    }
  }

  lemma {:induction false} InsertMultiset(key: string, t: seq<string>)
    ensures multiset(Insert(key, t)) == multiset(t) + multiset{key}
  {
    if t != [] && CompareKeys(t[0], key) < 0 {
      InsertMultiset(key, t[1..]);
      calc {
        multiset(Insert(key, t));
        multiset([t[0]] + Insert(key, t[1..]));
        multiset{t[0]} + multiset(Insert(key, t[1..]));
        multiset{t[0]} + multiset(t[1..]) + multiset{key};
        { assert t == [t[0]] + t[1..]; }
        multiset(t) + multiset{key};
      }
    }
  }

  lemma {:induction false} InsertRankFilter(key: string, t: seq<string>, r: nat)
    ensures RankFilter(Insert(key, t), r) == RankFilter([key] + t, r)
  {
    assert ([key] + t)[1..] == t;
    if t != [] && CompareKeys(t[0], key) < 0 {
      CompareKeysIsRankOrder(t[0], key);
      var u := Insert(key, t[1..]);
      InsertRankFilter(key, t[1..], r);
      assert ([t[0]] + u)[1..] == u;
      assert ([key] + t[1..])[1..] == t[1..];
    }
  }

  lemma {:induction false} InsertLength(key: string, t: seq<string>)
    ensures |Insert(key, t)| == |t| + 1
  {
    if t != [] && CompareKeys(t[0], key) < 0 {
      InsertLength(key, t[1..]);
    }
  }

  /** sortKeys keeps the number of keys. */
  lemma {:induction false} SortKeysLength(keys: seq<string>)
    ensures |SortKeys(keys)| == |keys|
  {
    if keys != [] {
      SortKeysLength(keys[1..]);
      InsertLength(keys[0], SortKeys(keys[1..]));
    }
  }

  /** sortKeys returns a permutation of its input. */
  lemma {:induction false} SortKeysPermutes(keys: seq<string>)
    ensures |SortKeys(keys)| == |keys|
    ensures multiset(SortKeys(keys)) == multiset(keys)
  {
    SortKeysLength(keys);
    if keys != [] {
      SortKeysPermutes(keys[1..]);
      InsertMultiset(keys[0], SortKeys(keys[1..]));
      assert keys == [keys[0]] + keys[1..];
    }
  }

  /** sortKeys orders its result by rank. */
  lemma {:induction false} SortKeysSorted(keys: seq<string>)
    ensures Sorted(SortKeys(keys))
  {
    if keys != [] {
      SortKeysSorted(keys[1..]);
      InsertSorted(keys[0], SortKeys(keys[1..]));
    }
  }

  /** sortKeys keeps the relative order of the keys of each rank. */
  lemma {:induction false} SortKeysStable(keys: seq<string>)
    ensures forall r: nat :: RankFilter(SortKeys(keys), r) == RankFilter(keys, r)
  {
    if keys != [] {
      SortKeysStable(keys[1..]);
      forall r: nat ensures RankFilter(SortKeys(keys), r) == RankFilter(keys, r) {
        InsertRankFilter(keys[0], SortKeys(keys[1..]), r);
        assert RankFilter([keys[0]] + SortKeys(keys[1..]), r) == RankFilter([keys[0]] + keys[1..], r) by {
          assert ([keys[0]] + SortKeys(keys[1..]))[1..] == SortKeys(keys[1..]);
          assert ([keys[0]] + keys[1..])[1..] == keys[1..];
        }
        assert keys == [keys[0]] + keys[1..];
      }
    }
  }

  /** sortKeys returns a permutation of its input, ordered by rank, and keeps
      the relative order of the keys of each rank (the sort is stable). */
  lemma SortKeysSpec(keys: seq<string>)
    ensures |SortKeys(keys)| == |keys|
    ensures multiset(SortKeys(keys)) == multiset(keys)
    ensures Sorted(SortKeys(keys))
    ensures forall r: nat :: RankFilter(SortKeys(keys), r) == RankFilter(keys, r)
  {
    SortKeysPermutes(keys);
    SortKeysSorted(keys);
    SortKeysStable(keys);
  }

  /** A sorted sequence holding a key of rank below `r` and one of rank at
      least `r` starts below `r` and ends at or above it. */
  lemma SortedRankEnds(s: seq<string>, r: nat, p: nat, q: nat)
    requires Sorted(s) && p < |s| && q < |s|
    requires Rank(s[p]) < r && Rank(s[q]) >= r
    ensures Rank(s[0]) < r && Rank(s[|s| - 1]) >= r
  {
    if p > 0 {
      assert Rank(s[0]) <= Rank(s[p]);
    }
    if q < |s| - 1 {
      assert Rank(s[q]) <= Rank(s[|s| - 1]);
    }
  }

  /** When the input holds a key of rank below `r` and one of rank at least
      `r`, the sorted keys start below `r` and end at or above it. */
  lemma SortKeysEnds(keys: seq<string>, i: nat, j: nat, r: nat)
    requires i < |keys| && Rank(keys[i]) < r
    requires j < |keys| && Rank(keys[j]) >= r
    ensures |SortKeys(keys)| == |keys|
    ensures Rank(SortKeys(keys)[0]) < r && Rank(SortKeys(keys)[|SortKeys(keys)| - 1]) >= r
  {
    SortKeysLength(keys);
    SortKeysSorted(keys);
    var p := SortKeysKeepsRank(keys, i);
    var q := SortKeysKeepsRank(keys, j);
    SortedRankEnds(SortKeys(keys), r, p, q);
  }

  /** A key of the input has its rank at some position `p` of the sorted
      keys. */
  lemma SortKeysKeepsRank(keys: seq<string>, k: nat) returns (p: nat)
    requires k < |keys|
    ensures p < |SortKeys(keys)| && Rank(SortKeys(keys)[p]) == Rank(keys[k])
  {
    SortKeysStable(keys);
    RankFilterMember(keys, k);
    assert RankFilter(SortKeys(keys), Rank(keys[k])) == RankFilter(keys, Rank(keys[k]));
    p := RankFilterWitness(SortKeys(keys), Rank(keys[k]));
  }

  lemma {:induction false} RankFilterMember(s: seq<string>, k: nat)
    requires k < |s|
    ensures RankFilter(s, Rank(s[k])) != []
  {
    if k > 0 {
      RankFilterMember(s[1..], k - 1);
      assert s[1..][k - 1] == s[k];
    }
  }

  lemma {:induction false} RankFilterWitness(s: seq<string>, r: nat) returns (p: nat)
    requires RankFilter(s, r) != []
    ensures p < |s| && Rank(s[p]) == r
  {
    if Rank(s[0]) == r {
      p := 0;
    } else {
      var p' := RankFilterWitness(s[1..], r);
      assert s[p' + 1] == s[1..][p'];
      p := p' + 1;
    }
  }

  /** In the sorted keys every modifier precedes every non-modifier, and the
      modifiers follow the precedence Control, Alt, Shift, Meta, Command. */
  lemma ModifiersFirst(keys: seq<string>, i: nat, j: nat)
    requires i < j < |SortKeys(keys)|
    ensures !IsModifierKey(SortKeys(keys)[i]) ==> !IsModifierKey(SortKeys(keys)[j])
    ensures Rank(SortKeys(keys)[i]) <= Rank(SortKeys(keys)[j])
  {
    SortKeysSpec(keys);
    ModifierIffRanked(SortKeys(keys)[i]);
    ModifierIffRanked(SortKeys(keys)[j]);
  }

  lemma {:induction false} SortKeysOfSorted(s: seq<string>)
    requires Sorted(s)
    ensures SortKeys(s) == s
  {
    if s != [] {
      assert Sorted(s[1..]);
      SortKeysOfSorted(s[1..]);
      if |s| > 1 {
        CompareKeysIsRankOrder(s[1], s[0]);
        assert Rank(s[0]) <= Rank(s[1]);
      }
      assert s == [s[0]] + s[1..];
    }
  }

  /** sortKeys is idempotent. */
  lemma SortKeysIdempotent(keys: seq<string>)
    ensures SortKeys(SortKeys(keys)) == SortKeys(keys)
  {
    SortKeysSpec(keys);
    SortKeysOfSorted(SortKeys(keys));
  }

  /** In a sequence sorted by rank, the first key heads the keys of its rank
      and no key has a smaller rank. */
  lemma {:induction false} SortedHead(s: seq<string>)
    requires Sorted(s)
    ensures s != [] ==> RankFilter(s, Rank(s[0])) == [s[0]] + RankFilter(s[1..], Rank(s[0]))
    ensures s != [] ==> forall r: nat :: r < Rank(s[0]) ==> RankFilter(s, r) == []
  {
    if s != [] {
      forall r: nat | r < Rank(s[0]) ensures RankFilter(s, r) == [] {
        RankFilterBelow(s, r);
      }
    }
  }

  lemma {:induction false} RankFilterBelow(s: seq<string>, r: nat)
    requires Sorted(s) && s != [] && r < Rank(s[0])
    ensures RankFilter(s, r) == []
  {
    if |s| > 1 {
      assert Sorted(s[1..]);
      assert s[1..][0] == s[1];
      RankFilterBelow(s[1..], r);
    }
  }

  /** Two sequences sorted by rank that agree on the keys of every rank are equal. */
  lemma {:induction false} SortedUnique(a: seq<string>, b: seq<string>)
    requires Sorted(a) && Sorted(b)
    requires forall r: nat :: RankFilter(a, r) == RankFilter(b, r)
    ensures a == b
    decreases |a| + |b|
  {
    SortedHead(a);
    SortedHead(b);
    if a == [] && b != [] {
      assert false;
    } else if a != [] && b == [] {
      assert false;
    } else if a != [] {
      var ra, rb := Rank(a[0]), Rank(b[0]);
      assert RankFilter(a, ra) == RankFilter(b, ra) && RankFilter(a, rb) == RankFilter(b, rb);
      assert ra == rb;
      assert RankFilter(a, ra)[0] == a[0] && RankFilter(b, rb)[0] == b[0];
      assert Sorted(a[1..]) && Sorted(b[1..]);
      forall r: nat ensures RankFilter(a[1..], r) == RankFilter(b[1..], r) {
        if r == ra {
          assert RankFilter(a, r) == RankFilter(b, r);
          assert ([a[0]] + RankFilter(a[1..], r))[1..] == RankFilter(a[1..], r);
          assert ([b[0]] + RankFilter(b[1..], r))[1..] == RankFilter(b[1..], r);
        } else {
          assert RankFilter(a, r) == RankFilter(a[1..], r);
          assert RankFilter(b, r) == RankFilter(b[1..], r);
        }
      }
      SortedUnique(a[1..], b[1..]);
      assert a == [a[0]] + a[1..] && b == [b[0]] + b[1..];
    }
  }

  /** sortKeys does not depend on the input order beyond the relative order of
      keys of equal rank: equal strings among the modifiers, the arrival order
      among the non-modifiers. */
  lemma SortKeysOrderIndependent(a: seq<string>, b: seq<string>)
    requires forall r: nat :: RankFilter(a, r) == RankFilter(b, r)
    ensures SortKeys(a) == SortKeys(b)
  {
    SortKeysSpec(a);
    SortKeysSpec(b);
    SortedUnique(SortKeys(a), SortKeys(b));
  }

  lemma SortKeysExample()
    ensures SortKeys(["K", "Control"]) == SortKeys(["Control", "K"]) == ["Control", "K"]
  {
    assert CompareKeys("K", "Control") == 1;
  }

  // ---------------------------------------------------------------------------
  // The wire format: tauriToKeysArray and keysArrayToTauri
  // ---------------------------------------------------------------------------

  /** First character upper-cased and the rest lower-cased. */
  function TitleCase(token: string): string {
    if token == [] then [] else [UpperChar(token[0])] + Lower(token[1..])
  }

  /** One `+`-separated token of the wire string, as a key name. */
  function DecodeToken(token: string): string {
    var t := Lower(token);
    if t == "cmd" then "Command"
    else if t == "ctrl" then "Control"
    else if t == "alt" then "Alt"
    else if t == "shift" then "Shift"
    else TitleCase(token)
  }

  /** tauriToKeysArray: the empty string gives no keys; otherwise one key per
      `+`-separated token. */
  function TauriToKeysArray(shortcut: string): seq<string> {
    if shortcut == "" then []
    else
      var tokens := Split(shortcut, '+');
      seq(|tokens|, i requires 0 <= i < |tokens| => DecodeToken(tokens[i]))
  }

  /** One key name, as its wire token. */
  function EncodeKey(key: string): string {
    if key == "Command" then "cmd"
    else if key == "Control" then "ctrl"
    else if key == "Alt" then "alt"
    else if key == "Shift" then "shift"
    else Lower(key)
  }

  /** keysArrayToTauri: the wire tokens of the keys, joined with `+`. */
  function KeysArrayToTauri(keys: seq<string>): string {
    Join(seq(|keys|, i requires 0 <= i < |keys| => EncodeKey(keys[i])), '+')
  }

  /** Three keys are encoded token by token, with `+` between the tokens. */
  lemma EncodeThreeKeys(a: string, b: string, c: string)
    ensures KeysArrayToTauri([a, b, c]) == EncodeKey(a) + "+" + EncodeKey(b) + "+" + EncodeKey(c)
  {
    var t := seq(3, i requires 0 <= i < 3 => EncodeKey([a, b, c][i]));
    assert t == [EncodeKey(a), EncodeKey(b), EncodeKey(c)];
    assert t[1..] == [EncodeKey(b), EncodeKey(c)];
    assert t[1..][1..] == [EncodeKey(c)];
    assert Join(t[1..], '+') == EncodeKey(b) + "+" + EncodeKey(c);
    assert Join(t, '+') == EncodeKey(a) + "+" + (EncodeKey(b) + "+" + EncodeKey(c));
  }

  /** The modifier tokens of the wire format. */
  predicate IsModifierToken(t: string) {
    t == "cmd" || t == "ctrl" || t == "alt" || t == "shift"
  }

  /** tauriToKeysArray gives no keys for the empty string, and otherwise one
      key per token: a modifier for a modifier token in any case, else the
      token in first-upper-rest-lower form. */
  lemma DecodeSpec(shortcut: string)
    ensures shortcut == "" ==> TauriToKeysArray(shortcut) == []
    ensures shortcut != "" ==> |TauriToKeysArray(shortcut)| == Count(shortcut, '+') + 1
    ensures shortcut != "" ==> forall k :: 0 <= k < |TauriToKeysArray(shortcut)| ==>
      var token := Split(shortcut, '+')[k];
      var key := TauriToKeysArray(shortcut)[k];
      (Lower(token) == "cmd" ==> key == "Command") &&
      (Lower(token) == "ctrl" ==> key == "Control") &&
      (Lower(token) == "alt" ==> key == "Alt") &&
      (Lower(token) == "shift" ==> key == "Shift") &&
      (!IsModifierToken(Lower(token)) ==> key == TitleCase(token))
  {
  }

  lemma CaseMapsCommute(c: char)
    ensures UpperChar(LowerChar(c)) == UpperChar(c)
    ensures LowerChar(UpperChar(c)) == LowerChar(c)
    ensures LowerChar(LowerChar(c)) == LowerChar(c)
  {
  }

  lemma TitleCaseIgnoresCase(token: string)
    ensures TitleCase(Lower(token)) == TitleCase(token)
    ensures Lower(TitleCase(token)) == Lower(token)
  {
    if token != [] {
      CaseMapsCommute(token[0]);
      LowerIdempotent(token[1..]);
      assert Lower(token)[1..] == Lower(token[1..]);
      assert Lower(TitleCase(token)) == [LowerChar(UpperChar(token[0]))] + Lower(Lower(token[1..]));
      assert Lower(token) == [LowerChar(token[0])] + Lower(token[1..]);
    }
  }

  /** Joining commutes with lower-casing, since `+` has no case. */
  lemma {:induction false} LowerJoin(pieces: seq<string>)
    ensures Lower(Join(pieces, '+')) == Join(seq(|pieces|, i requires 0 <= i < |pieces| => Lower(pieces[i])), '+')
  {
    var low := seq(|pieces|, i requires 0 <= i < |pieces| => Lower(pieces[i]));
    if |pieces| > 1 {
      LowerJoin(pieces[1..]);
      assert low[1..] == seq(|pieces[1..]|, i requires 0 <= i < |pieces[1..]| => Lower(pieces[1..][i]));
      LowerConcat(pieces[0] + ['+'], Join(pieces[1..], '+'));
      LowerConcat(pieces[0], ['+']);
    }
  }

  /** The wire string of any keys is lower-case. */
  lemma EncodeIsLowerCase(keys: seq<string>)
    ensures Lower(KeysArrayToTauri(keys)) == KeysArrayToTauri(keys)
  {
    var tokens := seq(|keys|, i requires 0 <= i < |keys| => EncodeKey(keys[i]));
    LowerJoin(tokens);
    forall i | 0 <= i < |tokens| ensures Lower(tokens[i]) == tokens[i] {
      LowerIdempotent(keys[i]);
    }
    assert seq(|tokens|, i requires 0 <= i < |tokens| => Lower(tokens[i])) == tokens;
  }

  lemma EncodeDecodeToken(token: string)
    requires Lower(token) != "command" && Lower(token) != "control"
    ensures EncodeKey(DecodeToken(token)) == Lower(token)
  {
    var t := Lower(token);
    if !IsModifierToken(t) {
      var d := TitleCase(token);
      assert DecodeToken(token) == d;
      TitleCaseIgnoresCase(token);
      LowerModifierNames();
      assert d != "Command" && d != "Control" && d != "Alt" && d != "Shift" by {
        assert Lower(d) == t;
      }
    }
  }

  lemma LowerModifierNames()
    ensures Lower("Command") == "command" && Lower("Control") == "control"
    ensures Lower("Alt") == "alt" && Lower("Shift") == "shift"
  {
  }

  /** No token names a modifier by its long name. */
  predicate NoLongModifierTokens(shortcut: string) {
    forall k :: 0 <= k < |Split(shortcut, '+')| ==>
      Lower(Split(shortcut, '+')[k]) != "command" && Lower(Split(shortcut, '+')[k]) != "control"
  }

  /** Decoding then encoding gives the lower-cased wire string, provided no
      token spells out `command` or `control` (those come back as `cmd` and
      `ctrl`). */
  lemma WireRoundTrip(shortcut: string)
    requires NoLongModifierTokens(shortcut)
    ensures KeysArrayToTauri(TauriToKeysArray(shortcut)) == Lower(shortcut)
  {
    if shortcut != "" {
      var tokens := Split(shortcut, '+');
      var keys := TauriToKeysArray(shortcut);
      var encoded := seq(|keys|, i requires 0 <= i < |keys| => EncodeKey(keys[i]));
      forall i | 0 <= i < |tokens| ensures encoded[i] == Lower(tokens[i]) {
        EncodeDecodeToken(tokens[i]);
      }
      assert encoded == seq(|tokens|, i requires 0 <= i < |tokens| => Lower(tokens[i]));
      LowerJoin(tokens);
      JoinSplit(shortcut, '+');
    }
  }

  lemma WireRoundTripFailsForLongModifierName()
    ensures TauriToKeysArray("command") == ["Command"]
    ensures KeysArrayToTauri(TauriToKeysArray("command")) == "cmd"
  {
    DecodeCommandToken();
    EncodeCommandKey();
  }

  lemma DecodeCommandToken()
    ensures TauriToKeysArray("command") == ["Command"]
  {
    DecodeSingleToken("command");
    DecodeCommandTokenAlone();
  }

  lemma DecodeCommandTokenAlone()
    ensures DecodeToken("command") == "Command"
  {
    assert Lower("command") == "command";
    assert TitleCase("command") == "Command";
  }

  /** A string without `+` is a single token. */
  lemma DecodeSingleToken(token: string)
    requires token != "" && '+' !in token
    ensures TauriToKeysArray(token) == [DecodeToken(token)]
  {
    assert Split(token, '+') == [token];
  }

  lemma EncodeCommandKey()
    ensures KeysArrayToTauri(["Command"]) == "cmd"
  {
  }

  /** A key name that survives encoding followed by decoding. */
  predicate CanonicalKey(key: string) {
    key != "" && '+' !in key &&
    (key == "Command" || key == "Control" || key == "Alt" || key == "Shift" ||
     (TitleCase(key) == key && !IsModifierToken(Lower(key))))
  }

  lemma DecodeEncodeKey(key: string)
    requires CanonicalKey(key)
    ensures DecodeToken(EncodeKey(key)) == key
  {
    if !(key == "Command" || key == "Control" || key == "Alt" || key == "Shift") {
      LowerIdempotent(key);
      TitleCaseIgnoresCase(key);
    }
  }

  /** Encoding then decoding gives back keys that are modifiers or already in
      first-upper-rest-lower form (such as `K`, `5`, `Space`). */
  lemma KeysRoundTrip(keys: seq<string>)
    requires forall k :: 0 <= k < |keys| ==> CanonicalKey(keys[k])
    ensures TauriToKeysArray(KeysArrayToTauri(keys)) == keys
  {
    if keys != [] {
      var tokens := seq(|keys|, i requires 0 <= i < |keys| => EncodeKey(keys[i]));
      forall k | 0 <= k < |tokens| ensures '+' !in tokens[k] && tokens[k] != "" {
        LowerKeepsCaseless(keys[k], '+');
      }
      SplitJoin(tokens, '+');
      JoinEmpty(tokens, '+');
      forall k | 0 <= k < |keys| ensures DecodeToken(tokens[k]) == keys[k] {
        DecodeEncodeKey(keys[k]);
      }
    }
  }

  /** A stored named key loses its inner capitals: `ArrowUp` comes back as `Arrowup`. */
  lemma ArrowUpDecodesToArrowup()
    ensures KeysArrayToTauri(["ArrowUp"]) == "arrowup"
    ensures TauriToKeysArray(KeysArrayToTauri(["ArrowUp"])) == ["Arrowup"]
  {
    EncodeArrowUp();
    DecodeArrowup();
  }

  lemma EncodeArrowUp()
    ensures KeysArrayToTauri(["ArrowUp"]) == "arrowup"
  {
    assert Lower("ArrowUp") == "arrowup";
  }

  lemma DecodeArrowup()
    ensures TauriToKeysArray("arrowup") == ["Arrowup"]
  {
    DecodeSingleToken("arrowup");
    DecodeArrowupToken();
  }

  lemma DecodeArrowupToken()
    ensures DecodeToken("arrowup") == "Arrowup"
  {
    assert Lower("arrowup") == "arrowup";
    assert TitleCase("arrowup") == "Arrowup";
  }

  /** A letter or digit key survives the wire format after normalisation. */
  lemma NormalizedCodeRoundTrips(code: string, c: char)
    requires code == "Key" + [c] || code == "Digit" + [c] || code == "Numpad" + [c]
    requires 'A' <= c <= 'Z' || '0' <= c <= '9'
    ensures NormalizeKey(code) == [c]
    ensures TauriToKeysArray(KeysArrayToTauri([NormalizeKey(code)])) == [[c]]
  {
    if code == "Key" + [c] {
      NormalizeLetterCode(c);
    } else if code == "Digit" + [c] {
      NormalizeDigitCode(c);
    } else {
      NormalizeNumpadCode(c);
    }
    SingleCharacterKeyRoundTrips(c);
  }

  lemma NormalizeLetterCode(c: char)
    ensures NormalizeKey("Key" + [c]) == [c]
  {
    var code := "Key" + [c];
    assert code[..3] == "Key" && code[3..] == [c];
    assert KeyMap(code) == None by {
      assert |code| == 4;
    }
  }

  lemma NormalizeDigitCode(c: char)
    ensures NormalizeKey("Digit" + [c]) == [c]
  {
    var code := "Digit" + [c];
    assert code[..5] == "Digit" && code[5..] == [c];
    assert !StartsWith(code, "Key") by {
      assert code[0] == 'D';
    }
    assert KeyMap(code) == None by {
      assert |code| == 6;
    }
  }

  lemma NormalizeNumpadCode(c: char)
    ensures NormalizeKey("Numpad" + [c]) == [c]
  {
    var code := "Numpad" + [c];
    assert code[..6] == "Numpad" && code[6..] == [c];
    assert !StartsWith(code, "Key") && !StartsWith(code, "Digit") by {
      assert code[0] == 'N';
    }
    assert KeyMap(code) == None by {
      assert |code| == 7 && code[0] == 'N';
    }
  }

  lemma SingleCharacterKeyRoundTrips(c: char)
    requires 'A' <= c <= 'Z' || '0' <= c <= '9'
    ensures TauriToKeysArray(KeysArrayToTauri([[c]])) == [[c]]
  {
    assert CanonicalKey([c]);
    KeysRoundTrip([[c]]);
  }

  // ---------------------------------------------------------------------------
  // formatKey
  // ---------------------------------------------------------------------------

  /** KEY_SYMBOLS, with the platform flag as a parameter. */
  function KeySymbol(key: string, isMac: bool): Option<string> {
    if key == "Control" || key == "control" then Some(if isMac then "\U{2303}" else "Ctrl")
    else if key == "Shift" || key == "shift" then Some(if isMac then "\U{21E7}" else "Shift")
    else if key == "Alt" || key == "alt" then Some(if isMac then "\U{2325}" else "Alt")
    else if key == "Meta" || key == "meta" || key == "Command" || key == "command" || key == "super" then
      Some(if isMac then "\U{2318}" else "Win")
    else if key == "Space" || key == "space" then Some("Space")
    else if key == "Enter" then Some("\U{21B5}")
    else if key == "Backspace" then Some("\U{232B}")
    else if key == "Delete" then Some("Del")
    else if key == "Escape" then Some("Esc")
    else if key == "ArrowUp" then Some("\U{2191}")
    else if key == "ArrowDown" then Some("\U{2193}")
    else if key == "ArrowLeft" then Some("\U{2190}")
    else if key == "ArrowRight" then Some("\U{2192}")
    else if key == "Tab" then Some("\U{21E5}")
    else None
  }

  /** formatKey: the symbol of the key if it has one, else the key without
      its code prefix. */
  function FormatKey(key: string, isMac: bool): string {
    match KeySymbol(key, isMac)
    case Some(symbol) => symbol
    case None => StripCodePrefix(key)
  }

  /** Every modifier a decoded wire string can hold has a display symbol: one
      character on a Mac and a word elsewhere, and Meta and Command share it. */
  lemma FormatModifiers(isMac: bool)
    ensures forall key :: key in ModifierNames ==> KeySymbol(key, isMac).Some?
    ensures isMac ==> forall key :: key in ModifierNames ==> |FormatKey(key, isMac)| == 1
    ensures FormatKey("Meta", isMac) == FormatKey("Command", isMac)
    ensures !isMac ==> FormatKey("Control", isMac) == "Ctrl" && FormatKey("Command", isMac) == "Win"
  {
  }

  /** The arrow key stored on the wire is displayed by name, not by its arrow. */
  lemma ArrowUpDisplay(isMac: bool)
    ensures FormatKey("ArrowUp", isMac) == "\U{2191}"
    ensures FormatKey(TauriToKeysArray(KeysArrayToTauri(["ArrowUp"]))[0], isMac) == "Arrowup"
  {
    FormatArrowUpSymbol(isMac);
    ArrowUpDecodesToArrowup();
    FormatArrowup(isMac);
  }

  lemma FormatArrowUpSymbol(isMac: bool)
    ensures FormatKey("ArrowUp", isMac) == "\U{2191}"
  {
  }

  lemma FormatArrowup(isMac: bool)
    ensures FormatKey("Arrowup", isMac) == "Arrowup"
  {
    KeySymbolArrowup(isMac);
    StripArrowup();
  }

  /** The letters and digits are shown by the prefix-strip branch: a letter,
      digit or numpad code shows as its one character, and so does the key
      it normalises to. */
  lemma FormatCodeCharacter(code: string, c: char, isMac: bool)
    requires code == "Key" + [c] || code == "Digit" + [c] || code == "Numpad" + [c]
    requires 'A' <= c <= 'Z' || '0' <= c <= '9'
    ensures FormatKey(code, isMac) == [c]
    ensures FormatKey(NormalizeKey(code), isMac) == [c]
  {
    NormalizedCodeRoundTrips(code, c);
    assert KeySymbol([c], isMac) == None;
    assert StripCodePrefix([c]) == [c];
    if code == "Key" + [c] {
      NoSymbolForCode(code, 'K', isMac);
      assert code[3..] == [c];
    } else if code == "Digit" + [c] {
      NoSymbolForCode(code, 'D', isMac);
      assert code[0] == 'D' && code[5..] == [c];
    } else {
      NoSymbolForCode(code, 'N', isMac);
      assert code[0] == 'N' && code[6..] == [c];
    }
  }

  lemma NoSymbolForCode(code: string, head: char, isMac: bool)
    requires |code| >= 4 && code[0] == head && (head == 'K' || head == 'D' || head == 'N')
    requires head == 'K' ==> |code| == 4
    requires head == 'D' ==> |code| == 6 && code[1] == 'i'
    requires head == 'N' ==> |code| == 7
    ensures KeySymbol(code, isMac) == None
  {
  }

  lemma KeySymbolArrowup(isMac: bool)
    ensures KeySymbol("Arrowup", isMac) == None
  {
    assert "Arrowup"[5] == 'u';
  }

  lemma StripArrowup()
    ensures StripCodePrefix("Arrowup") == "Arrowup"
  {
    assert "Arrowup"[..3] != "Key" by { assert "Arrowup"[..3][0] == 'A'; }
    assert "Arrowup"[..5] != "Digit" by { assert "Arrowup"[..5][0] == 'A'; }
    assert "Arrowup"[..6] != "Numpad" by { assert "Arrowup"[..6][0] == 'A'; }
  }
}
