/** The JavaScript string operations the core relies on: `includes`, `indexOf`,
    `split`, `replace` (first occurrence), ASCII `toLowerCase` and `String(n)`. */
module Text {
  import opened Wrappers

  /** `pat` occurs in `s` starting at index `i`. */
  predicate OccursAt(s: string, pat: string, i: int) {
    0 <= i && i + |pat| <= |s| && s[i..i + |pat|] == pat
  }

  /** The first index at or after `from` where `pat` occurs (String.prototype.indexOf). */
  function IndexFrom(s: string, pat: string, from: nat): (r: Option<nat>)
    ensures r.Some? ==> from <= r.value && OccursAt(s, pat, r.value)
    ensures r.Some? ==> forall j :: from <= j < r.value ==> !OccursAt(s, pat, j)
    ensures r.None? ==> forall j :: from <= j ==> !OccursAt(s, pat, j)
    decreases |s| - from
  {
    if from + |pat| > |s| then None
    else if s[from..from + |pat|] == pat then Some(from)
    else IndexFrom(s, pat, from + 1)
  }

  function IndexOf(s: string, pat: string): Option<nat> {
    IndexFrom(s, pat, 0)
  }

  /** String.prototype.includes. */
  predicate Includes(s: string, pat: string) {
    IndexOf(s, pat).Some?
  }

  lemma IncludesIff(s: string, pat: string)
    ensures Includes(s, pat) <==> exists i :: OccursAt(s, pat, i)
  {
    if Includes(s, pat) {
      assert OccursAt(s, pat, IndexOf(s, pat).value);
    }
  }

  lemma IncludesAt(s: string, pat: string, i: int)
    requires OccursAt(s, pat, i)
    ensures Includes(s, pat)
  {
  }

  /** A pattern whose first character does not occur in `s` does not occur in `s`. */
  lemma NotIncludesByFirstChar(s: string, pat: string)
    requires |pat| > 0 && pat[0] !in s
    ensures !Includes(s, pat)
  {
  }

  /** A pattern with some character that does not occur in `s` does not occur in `s`. */
  lemma NotIncludesByChar(s: string, pat: string, k: int)
    requires 0 <= k < |pat| && pat[k] !in s
    ensures !Includes(s, pat)
  {
  }

  /** String.prototype.split with a non-empty separator. */
  function Split(s: string, sep: string): (parts: seq<string>)
    requires |sep| > 0
    ensures |parts| >= 1
    decreases |s|
  {
    match IndexOf(s, sep)
    case None => [s]
    case Some(i) => [s[..i]] + Split(s[i + |sep|..], sep)
  }

  /** Array.prototype.join, the inverse of Split. */
  function Join(parts: seq<string>, sep: string): string
    decreases |parts|
  {
    if |parts| == 0 then ""
    else if |parts| == 1 then parts[0]
    else parts[0] + sep + Join(parts[1..], sep)
  }

  /** Splitting and joining with the same separator gives back the text. */
  lemma {:induction false} JoinSplit(s: string, sep: string)
    requires |sep| > 0
    ensures Join(Split(s, sep), sep) == s
    decreases |s|
  {
    var r := IndexOf(s, sep);
    if r.Some? {
      var i := r.value;
      var tail := s[i + |sep|..];
      var rest := Split(tail, sep);
      JoinSplit(tail, sep);
      assert Split(s, sep) == [s[..i]] + rest;
      JoinCons(s[..i], rest, sep);
      assert s[i..i + |sep|] == sep;
      assert s == s[..i] + s[i..i + |sep|] + tail;
    }
  }

  lemma JoinCons(x: string, rest: seq<string>, sep: string)
    requires |rest| >= 1
    ensures Join([x] + rest, sep) == x + sep + Join(rest, sep)
  {
    assert ([x] + rest)[1..] == rest;
  }

  /** No part of a split contains the separator. */
  lemma {:induction false} SplitPartsFree(s: string, sep: string)
    requires |sep| > 0
    ensures forall k :: 0 <= k < |Split(s, sep)| ==> !Includes(Split(s, sep)[k], sep)
    decreases |s|
  {
    match IndexOf(s, sep)
    case None =>
    case Some(i) =>
      var tail := s[i + |sep|..];
      SplitPartsFree(tail, sep);
      if Includes(s[..i], sep) {
        var j := IndexOf(s[..i], sep).value;
        assert s[..i][j..j + |sep|] == s[j..j + |sep|];
        assert OccursAt(s, sep, j);
        assert false;
      }
      assert Split(s, sep) == [s[..i]] + Split(tail, sep);
  }

  /** A text splits into at least two parts exactly when it contains the separator;
      the first part is the text before the first occurrence. */
  lemma SplitHead(s: string, sep: string)
    requires |sep| > 0
    ensures |Split(s, sep)| >= 2 <==> Includes(s, sep)
    ensures !Includes(s, sep) ==> Split(s, sep) == [s]
    ensures Includes(s, sep) ==> Split(s, sep)[0] == s[..IndexOf(s, sep).value]
  {
  }

  /** The second part of a split is the text after the first separator, up to the next one. */
  lemma SplitSecond(s: string, sep: string)
    requires |sep| > 0
    ensures Includes(s, sep) ==> (|Split(s, sep)| >= 2 &&
      var rest := s[IndexOf(s, sep).value + |sep|..];
      Split(s, sep)[1] == if Includes(rest, sep) then rest[..IndexOf(rest, sep).value] else rest)
  {
    if Includes(s, sep) {
      var rest := s[IndexOf(s, sep).value + |sep|..];
      assert Split(s, sep) == [s[..IndexOf(s, sep).value]] + Split(rest, sep);
      SplitHead(rest, sep);
    }
  }

  /** `a + sep + b` splits into exactly `[a, b]` when `sep` occurs nowhere before the
      separator that was put between them and nowhere in `b`. */
  lemma SplitTwo(a: string, b: string, sep: string)
    requires |sep| > 0 && !Includes(b, sep)
    requires forall j :: 0 <= j < |a| ==> !OccursAt(a + sep + b, sep, j)
    ensures Split(a + sep + b, sep) == [a, b]
  {
    var s := a + sep + b;
    assert OccursAt(s, sep, |a|) by { assert s[|a|..|a| + |sep|] == sep; }
    var i := IndexOf(s, sep).value;
    assert i == |a|;
    assert s[..i] == a;
    assert s[i + |sep|..] == b;
  }

  /** When the separator placed after `a` is the first occurrence, splitting peels off `a`. */
  lemma SplitAt(a: string, t: string, sep: string)
    requires |sep| > 0
    requires forall j :: 0 <= j < |a| ==> !OccursAt(a + sep + t, sep, j)
    ensures Split(a + sep + t, sep) == [a] + Split(t, sep)
  {
    var s := a + sep + t;
    assert OccursAt(s, sep, |a|) by { assert s[|a|..|a| + |sep|] == sep; }
    var i := IndexOf(s, sep).value;
    assert i == |a|;
    assert s[..i] == a;
    assert s[i + |sep|..] == t;
  }

  /** `replace` with a string pattern: only the first occurrence is replaced. */
  function ReplaceFirst(s: string, pat: string, rep: string): (r: string)
    ensures !Includes(s, pat) ==> r == s
  {
    match IndexOf(s, pat)
    case None => s
    case Some(i) => s[..i] + rep + s[i + |pat|..]
  }

  /** `replace` changes exactly the first occurrence: given the first index `i` at which
      `pat` occurs, the result is the text with that one occurrence exchanged for `rep`. */
  lemma ReplaceFirstAt(s: string, pat: string, rep: string, i: int)
    requires OccursAt(s, pat, i)
    requires forall j :: 0 <= j < i ==> !OccursAt(s, pat, j)
    ensures ReplaceFirst(s, pat, rep) == s[..i] + rep + s[i + |pat|..]
  {
  }

  /** A pattern whose first character does not occur in `a` cannot start inside `a`. */
  lemma NoOccurrenceInPrefix(a: string, t: string, pat: string)
    requires |pat| > 0 && pat[0] !in a
    ensures forall j :: 0 <= j < |a| ==> !OccursAt(a + t, pat, j)
  {
    forall j | 0 <= j < |a|
      ensures !OccursAt(a + t, pat, j)
    {
      assert (a + t)[j] == a[j];
    }
  }

  function LowerChar(c: char): char {
    if 'A' <= c <= 'Z' then (c as int - 'A' as int + 'a' as int) as char else c
  }

  /** String.prototype.toLowerCase on ASCII letters. */
  function Lower(s: string): (r: string)
    ensures |r| == |s|
    ensures forall i :: 0 <= i < |s| ==> r[i] == LowerChar(s[i])
  {
    seq(|s|, i requires 0 <= i < |s| => LowerChar(s[i]))
  }

  lemma LowerIdempotent(s: string)
    ensures Lower(Lower(s)) == Lower(s)
  {
  }

  function DigitChar(d: nat): char
    requires d < 10
  {
    "0123456789"[d]
  }

  function NatToString(n: nat): (r: string)
    ensures |r| >= 1
    decreases n
  {
    if n < 10 then [DigitChar(n)] else NatToString(n / 10) + [DigitChar(n % 10)]
  }

  /** Different numbers have different decimal texts. */
  lemma {:induction false} NatToStringInjective(a: nat, b: nat)
    requires NatToString(a) == NatToString(b)
    ensures a == b
    decreases a
  {
    var sa, sb := NatToString(a), NatToString(b);
    if a < 10 && b < 10 {
      assert sa[0] == DigitChar(a) && sb[0] == DigitChar(b);
    } else if a >= 10 && b >= 10 {
      assert sa[|sa| - 1] == DigitChar(a % 10) && sb[|sb| - 1] == DigitChar(b % 10);
      assert sa[..|sa| - 1] == NatToString(a / 10);
      assert sb[..|sb| - 1] == NatToString(b / 10);
      NatToStringInjective(a / 10, b / 10);
    }
  }

  /** String(n) for an integer n. */
  function IntToString(n: int): string {
    if n < 0 then "-" + NatToString(-n) else NatToString(n)
  }
}
