/** The string operations the policy relies on: trimming, splitting into words,
    and the byte order in which the database compares and sorts text. */
module Text {

  /** The Unicode White_Space characters. */
  predicate IsSpace(c: char) {
    var n := c as int;
    9 <= n <= 13 || n == 32 || n == 0x85 || n == 0xA0 || n == 0x1680
    || 0x2000 <= n <= 0x200A || n == 0x2028 || n == 0x2029 || n == 0x202F || n == 0x205F || n == 0x3000
  }

  function TrimStart(s: string): (r: string)
    ensures |r| <= |s| && r == s[|s| - |r|..]
    ensures r != "" ==> !IsSpace(r[0])
    ensures (r == s) <==> (s == "" || !IsSpace(s[0]))
  {
    if s == "" || !IsSpace(s[0]) then s else TrimStart(s[1..])
  }

  function TrimEnd(s: string): (r: string)
    ensures r <= s
    ensures r != "" ==> !IsSpace(r[|r| - 1])
    ensures (r == s) <==> (s == "" || !IsSpace(s[|s| - 1]))
  {
    if s == "" || !IsSpace(s[|s| - 1]) then s else TrimEnd(s[..|s| - 1])
  }

  function Trim(s: string): string {
    TrimEnd(TrimStart(s))
  }

  predicate IsTrimmed(s: string) {
    s != "" && !IsSpace(s[0]) && !IsSpace(s[|s| - 1])
  }

  /** Non-empty and unchanged by trimming, said of the characters themselves. */
  lemma {:induction false} TrimmedIff(s: string)
    ensures Trim(s) != "" && Trim(s) == s <==> IsTrimmed(s)
  {
    var front := TrimStart(s);
    if Trim(s) == s {
      assert |TrimEnd(front)| <= |front| <= |s|;
      assert front == s;
    }
  }

  // ------------------------------------------------------------------- words

  /** The first character from `from` on that is (not) white space. */
  function Skip(s: string, from: nat, space: bool): (i: nat)
    requires from <= |s|
    ensures from <= i <= |s|
    ensures forall k | from <= k < i :: IsSpace(s[k]) == space
    ensures i < |s| ==> IsSpace(s[i]) != space
    decreases |s| - from
  {
    if from < |s| && IsSpace(s[from]) == space then Skip(s, from + 1, space) else from
  }

  function SplitWords(s: string): (words: seq<string>)
    ensures forall w | w in words :: IsWord(w)
    decreases |s|
  {
    var start := Skip(s, 0, true);
    if start == |s| then []
    else
      var end := Skip(s, start, false);
      [s[start..end]] + SplitWords(s[end..])
  }

  predicate IsWord(w: string) {
    w != "" && forall k | 0 <= k < |w| :: !IsSpace(w[k])
  }

  function JoinWords(words: seq<string>): string {
    if words == [] then ""
    else if |words| == 1 then words[0]
    else words[0] + " " + JoinWords(words[1..])
  }

  function CleanReason(reason: string): string {
    JoinWords(SplitWords(reason))
  }

  lemma {:induction false} SplitJoin(words: seq<string>)
    requires forall w | w in words :: IsWord(w)
    ensures SplitWords(JoinWords(words)) == words
  {
    if words != [] {
      var w := words[0];
      assert w in words && IsWord(w);
      var s := JoinWords(words);
      var rest := JoinWords(words[1..]);
      assert s[..|w|] == w;
      assert forall k | 0 <= k < |w| :: s[k] == w[k];
      assert Skip(s, 0, true) == 0;
      if |words| == 1 {
        assert Skip(s, 0, false) == |w|;
        assert s[|w|..] == "" && s[0..|w|] == w;
      } else {
        assert s == w + (" " + rest);
        assert s[|w|] == ' ';
        assert Skip(s, 0, false) == |w|;
        assert s[|w|..] == " " + rest && s[0..|w|] == w;
        SplitAfterSpace(rest);
        SplitJoin(words[1..]);
      }
    }
  }

  lemma {:induction false} SkipShift(s: string, from: nat, space: bool)
    requires from <= |s|
    ensures Skip(" " + s, from + 1, space) == Skip(s, from, space) + 1
    decreases |s| - from
  {
    if from < |s| {
      assert (" " + s)[from + 1] == s[from];
      if IsSpace(s[from]) == space {
        SkipShift(s, from + 1, space);
      }
    }
  }

  lemma {:induction false} ShiftSlices(s: string, i: nat, j: nat)
    requires i <= j <= |s|
    ensures (" " + s)[i + 1..j + 1] == s[i..j] && (" " + s)[j + 1..] == s[j..]
  {
  }

  lemma {:induction false} SkipLeadingSpace(s: string)
    ensures Skip(" " + s, 0, true) == Skip(s, 0, true) + 1
  {
    SkipShift(s, 0, true);
  }

  lemma {:induction false} SplitAfterSpace(s: string)
    ensures SplitWords(" " + s) == SplitWords(s)
  {
    hide Skip, IsSpace, IsWord;
    SkipLeadingSpace(s);
    var start := Skip(s, 0, true);
    if start < |s| {
      SkipShift(s, start, false);
      ShiftSlices(s, start, Skip(s, start, false));
    }
  }

  /** Cleaning a reason twice is cleaning it once, so a stored reason is compared
      on the same footing as a new one. */
  lemma {:induction false} CleanReasonIdempotent(reason: string)
    ensures CleanReason(CleanReason(reason)) == CleanReason(reason)
  {
    SplitJoin(SplitWords(reason));
  }

  // ------------------------------------------------------------------- order

  /** Text order: the first differing character decides, a proper prefix is less. */
  predicate Less(a: string, b: string) {
    if b == "" then false
    else if a == "" then true
    else a[0] < b[0] || (a[0] == b[0] && Less(a[1..], b[1..]))
  }

  lemma {:induction false} LessIrreflexive(a: string)
    ensures !Less(a, a)
  {
    if a != "" {
      LessIrreflexive(a[1..]);
    }
  }

  lemma {:induction false} LessTransitive(a: string, b: string, c: string)
    requires Less(a, b) && Less(b, c)
    ensures Less(a, c)
  {
    if a != "" && a[0] == b[0] == c[0] {
      LessTransitive(a[1..], b[1..], c[1..]);
    }
  }

  lemma {:induction false} LessTotal(a: string, b: string)
    ensures Less(a, b) || a == b || Less(b, a)
  {
    if a != "" && b != "" && a[0] == b[0] {
      LessTotal(a[1..], b[1..]);
      assert a == [a[0]] + a[1..] && b == [b[0]] + b[1..];
    }
  }

  /** Equal-length heads decide the comparison unless they are equal. */
  lemma {:induction false} LessConcat(a: string, b: string, x: string, y: string)
    requires |a| == |b|
    ensures Less(a + x, b + y) <==> Less(a, b) || (a == b && Less(x, y))
  {
    if a == "" {
      assert a + x == x && b + y == y;
      LessIrreflexive("");
    } else {
      assert (a + x)[1..] == a[1..] + x && (b + y)[1..] == b[1..] + y;
      LessConcat(a[1..], b[1..], x, y);
      assert a == [a[0]] + a[1..] && b == [b[0]] + b[1..];
    }
  }
}
