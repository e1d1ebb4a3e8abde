/**
 * The few operations of java.lang.String that the plugin relies on,
 * over Dafny strings (sequences of characters).
 */
module StringOps {

  /** `s.startsWith(prefix)` */
  predicate StartsWith(s: string, prefix: string)
  {
    |prefix| <= |s| && s[..|prefix|] == prefix
  }

  /** One differing character within the prefix's length is enough to refute `startsWith`. */
  lemma NotStartsWith(s: string, prefix: string, i: nat)
    requires i < |prefix| && i < |s| && s[i] != prefix[i]
    ensures !StartsWith(s, prefix)
  {
    if |prefix| <= |s| {
      assert s[..|prefix|][i] == s[i];
    }
  }

  /** `target` stands in `s` from position `i` on. */
  predicate OccursAt(target: string, s: string, i: nat)
  {
    i + |target| <= |s| && s[i..i + |target|] == target
  }

  /** `target` occurs somewhere in `s` as a contiguous piece. */
  ghost predicate Occurs(target: string, s: string)
  {
    exists i: nat :: OccursAt(target, s, i)
  }

  /**
   * `s.replace(target, replacement)`: scanning from the left, every
   * non-overlapping occurrence of `target` is replaced. The plugin only ever
   * replaces non-empty targets, so the empty-target case of Java (which
   * inserts the replacement between every two characters) is not needed.
   * `replaceAll("/", ".")` is the same operation, since "/" is not a regular
   * expression metacharacter.
   */
  function ReplaceAll(s: string, target: string, replacement: string): (r: string)
    requires |target| > 0
    ensures |replacement| <= |target| ==> |r| <= |s|
    ensures |replacement| == |target| ==> |r| == |s|
    decreases |s|
  {
    if |s| < |target| then s
    else if s[..|target|] == target then replacement + ReplaceAll(s[|target|..], target, replacement)
    else [s[0]] + ReplaceAll(s[1..], target, replacement)
  }

  /** The pieces of `parts`, with `separator` between each two of them. */
  function Join(parts: seq<string>, separator: string): string
  {
    if |parts| == 0 then ""
    else if |parts| == 1 then parts[0]
    else parts[0] + separator + Join(parts[1..], separator)
  }

  /** Where `target` does not occur, replacing it changes nothing. */
  lemma {:induction false} ReplaceAllAbsent(s: string, target: string, replacement: string)
    requires |target| > 0
    requires !Occurs(target, s)
    ensures ReplaceAll(s, target, replacement) == s
    decreases |s|
  {
    if |target| <= |s| {
      assert !OccursAt(target, s, 0);
      assert s[0..0 + |target|] == s[..|target|];
      forall i: nat
        ensures !OccursAt(target, s[1..], i)
      {
        if i + |target| <= |s[1..]| {
          assert s[1..][i..i + |target|] == s[i + 1..i + 1 + |target|];
          assert !OccursAt(target, s, i + 1);
        }
      }
      ReplaceAllAbsent(s[1..], target, replacement);
    }
  }

  /** When some character of `target` is missing from `s`, `target` does not occur in it. */
  lemma AbsentCharacter(target: string, s: string, k: nat)
    requires k < |target| && target[k] !in s
    ensures !Occurs(target, s)
  {
    forall i: nat
      ensures !OccursAt(target, s, i)
    {
      if i + |target| <= |s| {
        assert s[i + k] in s;
        assert s[i..i + |target|][k] == s[i + k];
      }
    }
  }

  /** Removing an occurring `target` strictly shortens the string. */
  lemma {:induction false} RemoveAllShortens(s: string, target: string)
    requires |target| > 0
    requires Occurs(target, s)
    ensures |ReplaceAll(s, target, "")| < |s|
    decreases |s|
  {
    var i: nat :| OccursAt(target, s, i);
    if s[..|target|] != target {
      assert s[0..0 + |target|] == s[..|target|];
      assert i != 0;
      assert s[1..][i - 1..i - 1 + |target|] == s[i..i + |target|];
      assert OccursAt(target, s[1..], i - 1);
      RemoveAllShortens(s[1..], target);
    }
  }

  /** Removing every `target` leaves `s` as it was exactly when `target` does not occur in it. */
  lemma RemoveAllUnchangedIff(s: string, target: string)
    requires |target| > 0
    ensures ReplaceAll(s, target, "") == s <==> !Occurs(target, s)
  {
    if Occurs(target, s) {
      RemoveAllShortens(s, target);
    } else {
      ReplaceAllAbsent(s, target, "");
    }
  }

  /** Replacing one character by another works position by position. */
  lemma {:induction false} ReplaceCharAt(s: string, c: char, d: char, k: nat)
    requires k < |s|
    ensures |ReplaceAll(s, [c], [d])| == |s|
    ensures ReplaceAll(s, [c], [d])[k] == if s[k] == c then d else s[k]
    decreases |s|
  {
    if k > 0 {
      ReplaceCharAt(s[1..], c, d, k - 1);
    }
  }

  /** After replacing `c` by a different `d`, no `c` is left. */
  lemma ReplaceCharRemovesAll(s: string, c: char, d: char)
    requires c != d
    ensures c !in ReplaceAll(s, [c], [d])
  {
    var r := ReplaceAll(s, [c], [d]);
    forall k | 0 <= k < |r|
      ensures r[k] != c
    {
      ReplaceCharAt(s, c, d, k);
    }
  }
}
