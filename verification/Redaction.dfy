/** Names taken out of a support report (apps/api/src/support.rs, `replace_ignoring_case`). */
module Redaction {
  import opened Wrappers

  function Lower(c: char): char {
    if 'A' <= c <= 'Z' then c - 'A' + 'a' else c
  }

  function LowerAll(s: string): string {
    seq(|s|, i requires 0 <= i < |s| => Lower(s[i]))
  }

  /** The needle occurs at a position, ignoring case. */
  predicate OccursAt(text: string, needle: string, i: int) {
    0 <= i <= |text| - |needle| && LowerAll(text[i..i + |needle|]) == LowerAll(needle)
  }

  ghost predicate Occurs(text: string, needle: string) {
    exists i :: OccursAt(text, needle, i)
  }

  /** `str::find`: where the needle first occurs. */
  function FirstOccurrence(text: string, needle: string, from: nat): (r: Option<nat>)
    requires from <= |text|
    ensures r.Some? ==> from <= r.value && OccursAt(text, needle, r.value)
    ensures forall i :: from <= i && (r.Some? ==> i < r.value) ==> !OccursAt(text, needle, i)
    decreases |text| - from
  {
    if from + |needle| > |text| then None
    else if OccursAt(text, needle, from) then Some(from)
    else if from == |text| then None
    else FirstOccurrence(text, needle, from + 1)
  }

  /** Leftmost replacement: up to the first occurrence nothing changes, and what follows that occurrence is
      treated the same way. */
  function Replaced(text: string, needle: string, with: string): string
    decreases |text|
  {
    if needle == "" then text
    else
      var at := FirstOccurrence(text, needle, 0);
      if at.None? then text else text[..at.value] + with + Replaced(text[at.value + |needle|..], needle, with)
  }

  /** Searching the lower-cased text from a position is searching the rest of the text ignoring case. */
  lemma {:induction false} FindIsFirst(text: string, needle: string, from: nat, i: nat)
    requires from + i <= |text|
    ensures var found := FirstOccurrence(LowerAll(text), LowerAll(needle), from + i);
            FirstOccurrence(text[from..], needle, i) == if found.Some? then Some(found.value - from) else None
    decreases |text| - i
  {
    hide LowerAll, OccursAt;
    SameOccurrence(text, needle, from, i);
    if from + i + |needle| <= |text| && !OccursAt(text[from..], needle, i) && from + i < |text| {
      FindIsFirst(text, needle, from, i + 1);
    }
  }

  lemma SameOccurrence(text: string, needle: string, from: nat, i: nat)
    requires from + i <= |text|
    ensures |LowerAll(text)| == |text| && |LowerAll(needle)| == |needle|
    ensures OccursAt(LowerAll(text), LowerAll(needle), from + i) <==> OccursAt(text[from..], needle, i)
  {
    hide Lower;
    LowerTwice(needle);
    if from + i + |needle| <= |text| {
      LowerTwice(text[from + i..from + i + |needle|]);
      assert LowerAll(text)[from + i..from + i + |needle|] == LowerAll(text[from + i..from + i + |needle|]);
      assert text[from..][i..i + |needle|] == text[from + i..from + i + |needle|];
    }
  }

  lemma LowerTwice(s: string)
    ensures LowerAll(LowerAll(s)) == LowerAll(s)
  {
  }

  method ReplaceIgnoringCase(haystack: string, needle: string, with: string) returns (out: string)
    ensures out == Replaced(haystack, needle, with)
  {
    hide Replaced, FirstOccurrence, OccursAt;
    if needle == "" {
      ReplacedNothing(haystack, needle, with);
      return haystack;
    }
    var lowerHay := LowerAll(haystack);
    var lowerNeedle := LowerAll(needle);
    out := "";
    var from: nat := 0;
    assert haystack[0..] == haystack && out + Replaced(haystack[0..], needle, with) == Replaced(haystack, needle, with);
    while true
      invariant from <= |haystack|
      invariant out + Replaced(haystack[from..], needle, with) == Replaced(haystack, needle, with)
      decreases |haystack| - from
    {
      FindIsFirst(haystack, needle, from, 0);
      var at := FirstOccurrence(lowerHay, lowerNeedle, from);
      ReplacedNext(haystack[from..], needle, with);
      if at.None? {
        break;
      }
      var start := at.value;
      FoundFits(lowerHay, lowerNeedle, from, start);
      assert haystack[from..][..start - from] == haystack[from..start];
      assert haystack[from..][start - from + |needle|..] == haystack[start + |needle|..];
      ghost var rest := Replaced(haystack[start + |needle|..], needle, with);
      assert out + (haystack[from..start] + with + rest) == out + haystack[from..start] + with + rest;
      out := out + haystack[from..start];
      out := out + with;
      from := start + |needle|;
    }
    out := out + haystack[from..];
  }

  lemma ReplacedNothing(text: string, needle: string, with: string)
    requires needle == ""
    ensures Replaced(text, needle, with) == text
  {
  }

  lemma ReplacedNext(text: string, needle: string, with: string)
    requires needle != ""
    ensures var at := FirstOccurrence(text, needle, 0);
            at.None? ==> Replaced(text, needle, with) == text
    ensures var at := FirstOccurrence(text, needle, 0);
            at.Some? ==>
              && at.value + |needle| <= |text|
              && Replaced(text, needle, with) == text[..at.value] + with + Replaced(text[at.value + |needle|..], needle, with)
  {
  }

  lemma FoundFits(text: string, needle: string, from: nat, at: nat)
    requires from <= |text| && FirstOccurrence(text, needle, from) == Some(at)
    ensures from <= at <= |text| - |needle|
  {
  }

  // ---- What is left ----

  predicate SameLetter(a: char, b: char) {
    Lower(a) == Lower(b)
  }

  lemma OccursLetters(text: string, needle: string, i: int, k: int)
    requires OccursAt(text, needle, i) && 0 <= k < |needle|
    ensures SameLetter(text[i + k], needle[k])
  {
    assert LowerAll(text[i..i + |needle|])[k] == LowerAll(needle)[k];
  }

  lemma LettersOccur(text: string, needle: string, i: int)
    requires 0 <= i <= |text| - |needle| && forall k :: 0 <= k < |needle| ==> SameLetter(text[i + k], needle[k])
    ensures OccursAt(text, needle, i)
  {
    forall k | 0 <= k < |needle| ensures LowerAll(text[i..i + |needle|])[k] == LowerAll(needle)[k] {
      assert SameLetter(text[i + k], needle[k]);
    }
  }

  /** Laid over the replacement at some offset, the needle agrees with it wherever they meet. */
  ghost predicate Overlaps(needle: string, with: string) {
    exists d :: -|needle| < d < |with| && AgreesAt(needle, with, d)
  }

  ghost predicate AgreesAt(needle: string, with: string, d: int) {
    forall k :: 0 <= k < |needle| && 0 <= d + k < |with| ==> SameLetter(with[d + k], needle[k])
  }

  /** An occurrence in three pieces joined lies in the first, lies in the last, or meets the middle. */
  lemma WhereItOccurs(a: string, with: string, b: string, needle: string, i: int)
    requires needle != "" && with != "" && OccursAt(a + with + b, needle, i)
    ensures OccursAt(a, needle, i) || OccursAt(b, needle, i - |a| - |with|)
         || (-|needle| < i - |a| < |with| && AgreesAt(needle, with, i - |a|))
  {
    hide LowerAll, SameLetter;
    var text := a + with + b;
    if i + |needle| <= |a| {
      assert text[0..|a|] == a;
      Part(text, a, needle, 0, i);
    } else if i >= |a| + |with| {
      assert text[|a| + |with|..|text|] == b;
      Part(text, b, needle, |a| + |with|, i);
    } else {
      forall k | 0 <= k < |needle| && 0 <= i - |a| + k < |with| ensures SameLetter(with[i - |a| + k], needle[k]) {
        OccursLetters(text, needle, i, k);
      }
    }
  }

  lemma Part(text: string, part: string, needle: string, start: int, i: int)
    requires 0 <= start <= |text| - |part| && text[start..start + |part|] == part
    requires OccursAt(text, needle, i) && start <= i <= start + |part| - |needle|
    ensures OccursAt(part, needle, i - start)
  {
    forall k | 0 <= k < |needle| ensures SameLetter(part[i - start + k], needle[k]) {
      OccursLetters(text, needle, i, k);
      assert part[i - start + k] == text[start..start + |part|][i - start + k] == text[i + k];
    }
    LettersOccur(part, needle, i - start);
  }

  /** A replacement that the needle cannot meet leaves no occurrence behind, in any text. */
  lemma {:induction false} NoneLeft(text: string, needle: string, with: string)
    requires needle != "" && with != "" && !Overlaps(needle, with)
    ensures !Occurs(Replaced(text, needle, with), needle)
    decreases |text|
  {
    hide OccursAt, AgreesAt;
    ReplacedNext(text, needle, with);
    var at := FirstOccurrence(text, needle, 0);
    if at.Some? {
      var before, rest := text[..at.value], text[at.value + |needle|..];
      NoneLeft(rest, needle, with);
      var out := before + with + Replaced(rest, needle, with);
      forall i ensures !OccursAt(out, needle, i) {
        if OccursAt(out, needle, i) {
          WhereItOccurs(before, with, Replaced(rest, needle, with), needle, i);
          if OccursAt(before, needle, i) {
            PrefixOccurs(text, at.value, needle, i);
          }
          assert false;
        }
      }
    } else {
      NotFound(text, needle);
    }
  }

  lemma NotFound(text: string, needle: string)
    requires FirstOccurrence(text, needle, 0).None?
    ensures !Occurs(text, needle)
  {
  }

  lemma PrefixOccurs(text: string, n: nat, needle: string, i: int)
    requires n <= |text| && OccursAt(text[..n], needle, i)
    ensures OccursAt(text, needle, i) && i <= n - |needle|
  {
    assert text[..n][i..i + |needle|] == text[i..i + |needle|];
  }

  /** In particular one that shares no letter with the needle. */
  lemma SharesNothing(needle: string, with: string)
    requires needle != "" && with != ""
    requires forall i, k :: 0 <= i < |with| && 0 <= k < |needle| ==> !SameLetter(with[i], needle[k])
    ensures !Overlaps(needle, with)
  {
    forall d | -|needle| < d < |with| ensures !AgreesAt(needle, with, d) {
      var k := if d < 0 then -d else 0;
      assert !SameLetter(with[d + k], needle[k]);
    }
  }

  /** Or one whose first and last letters the needle lacks and that does not hold the whole needle, as
      `<home>` for a path. */
  lemma Bracketed(needle: string, with: string)
    requires needle != "" && with != "" && !Occurs(with, needle)
    requires forall k :: 0 <= k < |needle| ==> !SameLetter(with[0], needle[k]) && !SameLetter(with[|with| - 1], needle[k])
    ensures !Overlaps(needle, with)
  {
    hide SameLetter, OccursAt;
    forall d | -|needle| < d < |with| ensures !AgreesAt(needle, with, d) {
      if d <= 0 {
        assert d + -d == 0 && !SameLetter(with[0], needle[-d]);
      } else if d + |needle| >= |with| {
        var k := |with| - 1 - d;
        assert d + k == |with| - 1 && !SameLetter(with[|with| - 1], needle[k]);
      } else if AgreesAt(needle, with, d) {
        LettersOccur(with, needle, d);
        assert false;
      }
    }
  }

  // ---- Deleting ----

  predicate OneLetter(needle: string) {
    forall i :: 0 <= i < |needle| ==> SameLetter(needle[i], needle[0])
  }

  /** What the needle's first letter says about the end of the text before its first occurrence. */
  lemma EndsElsewhere(text: string, needle: string, at: nat)
    requires needle != "" && OneLetter(needle) && FirstOccurrence(text, needle, 0) == Some(at) && at > 0
    ensures !SameLetter(text[at - 1], needle[0])
  {
    if SameLetter(text[at - 1], needle[0]) {
      forall k | 0 <= k < |needle| ensures SameLetter(text[at - 1 + k], needle[k]) {
        if k > 0 {
          OccursLetters(text, needle, at, k - 1);
        }
      }
      LettersOccur(text, needle, at - 1);
      assert false;
    }
  }

  lemma {:induction false} DeletedNoneLeft(text: string, needle: string)
    requires needle != "" && OneLetter(needle)
    ensures !Occurs(Replaced(text, needle, ""), needle)
    decreases |text|
  {
    hide OccursAt, SameLetter;
    ReplacedNext(text, needle, "");
    var at := FirstOccurrence(text, needle, 0);
    if at.Some? {
      var before, rest := text[..at.value], text[at.value + |needle|..];
      DeletedNoneLeft(rest, needle);
      var tail := Replaced(rest, needle, "");
      assert before + "" + tail == before + tail;
      forall i ensures !OccursAt(before + tail, needle, i) {
        if OccursAt(before + tail, needle, i) {
          DeletedWhere(text, before, tail, needle, i);
          if OccursAt(before, needle, i) {
            PrefixOccurs(text, at.value, needle, i);
          }
          assert false;
        }
      }
    } else {
      NotFound(text, needle);
    }
  }

  lemma DeletedWhere(text: string, before: string, tail: string, needle: string, i: int)
    requires needle != "" && OneLetter(needle) && FirstOccurrence(text, needle, 0) == Some(|before|) && before <= text
    requires OccursAt(before + tail, needle, i)
    ensures OccursAt(before, needle, i) || OccursAt(tail, needle, i - |before|)
  {
    hide LowerAll, SameLetter;
    var n := |before|;
    if i + |needle| <= n {
      assert (before + tail)[0..n] == before;
      Part(before + tail, before, needle, 0, i);
    } else if i >= n {
      assert (before + tail)[n..|before + tail|] == tail;
      Part(before + tail, tail, needle, n, i);
    } else {
      OccursLetters(before + tail, needle, i, n - 1 - i);
      EndsElsewhere(text, needle, n);
      SameThrough(before[n - 1], needle[n - 1 - i], needle[0]);
      assert false;
    }
  }

  lemma SameThrough(a: char, b: char, c: char)
    requires SameLetter(a, b) && SameLetter(b, c)
    ensures SameLetter(a, c)
  {
  }

  /** Replacing by nothing leaves no occurrence in any text exactly when the needle repeats one letter.
      Otherwise taking one occurrence out can put another together. */
  lemma DeletedExactly(needle: string)
    requires needle != ""
    ensures (forall text :: !Occurs(Replaced(text, needle, ""), needle)) <==> OneLetter(needle)
  {
    hide OccursAt, Replaced;
    if OneLetter(needle) {
      forall text ensures !Occurs(Replaced(text, needle, ""), needle) {
        DeletedNoneLeft(text, needle);
      }
    } else {
      PutTogether(needle);
      Itself(needle);
      assert Occurs(Replaced([needle[0]] + needle + needle[1..], needle, ""), needle);
    }
  }

  lemma Itself(needle: string)
    ensures Occurs(needle, needle)
  {
    assert needle[0..0 + |needle|] == needle;
    assert OccursAt(needle, needle, 0);
  }

  lemma PutTogether(needle: string)
    requires needle != "" && !OneLetter(needle)
    ensures Replaced([needle[0]] + needle + needle[1..], needle, "") == needle
  {
    hide OccursAt, SameLetter;
    var text := [needle[0]] + needle + needle[1..];
    SecondPlace(needle);
    ReplacedNext(text, needle, "");
    assert text[..1] == [needle[0]] && text[1 + |needle|..] == needle[1..];
    ReplacedNext(needle[1..], needle, "");
    assert FirstOccurrence(needle[1..], needle, 0).None?;
    assert [needle[0]] + "" + needle[1..] == needle;
  }

  lemma SecondPlace(needle: string)
    requires needle != "" && !OneLetter(needle)
    ensures FirstOccurrence([needle[0]] + needle + needle[1..], needle, 0) == Some(1)
  {
    hide SameLetter, LowerAll;
    var text := [needle[0]] + needle + needle[1..];
    assert text[1..1 + |needle|] == needle;
    assert OccursAt(text, needle, 1);
    if OccursAt(text, needle, 0) {
      AllTheSame(needle, text, |needle| - 1);
      assert false;
    }
  }

  lemma {:induction false} AllTheSame(needle: string, text: string, n: nat)
    requires n < |needle| && text == [needle[0]] + needle + needle[1..] && OccursAt(text, needle, 0)
    ensures forall i :: 0 <= i <= n ==> SameLetter(needle[i], needle[0])
  {
    hide OccursAt;
    if n > 0 {
      AllTheSame(needle, text, n - 1);
      OccursLetters(text, needle, 0, n);
      assert text[n] == needle[n - 1];
    }
  }
}
