/** The handful of Python string operations the modelled code relies on:
    `str(int)`, `int(str)`, `str.isdigit`, `str.lower`, `str.split`,
    `str.join`, `str.count` and substring search. Characters are compared
    as ASCII; Unicode digit and case tables are not modelled. */
module Text {
  import opened Base

  predicate IsDigit(c: char)
  {
    '0' <= c <= '9'
  }

  /** Every character is an ASCII digit (the empty string qualifies). */
  predicate AllDigits(s: string)
  {
    forall i :: 0 <= i < |s| ==> IsDigit(s[i])
  }

  /** Python's `s.isdigit()` on ASCII text: non-empty and all digits. */
  predicate IsDigits(s: string)
  {
    |s| > 0 && AllDigits(s)
  }

  function DigitValue(c: char): nat
    requires IsDigit(c)
  {
    c as int - '0' as int
  }

  function DigitChar(d: nat): (c: char)
    requires d < 10
    ensures IsDigit(c) && DigitValue(c) == d
  {
    (d + '0' as int) as char
  }

  /** Python's `str(n)` for a non-negative integer. */
  function NatToString(n: nat): (s: string)
    ensures IsDigits(s)
    decreases n
  {
    if n < 10 then [DigitChar(n)] else NatToString(n / 10) + [DigitChar(n % 10)]
  }

  /** The value of a string of decimal digits, most significant first. */
  function ParseDigits(s: string): nat
    requires AllDigits(s)
    decreases |s|
  {
    if |s| == 0 then 0 else 10 * ParseDigits(s[..|s| - 1]) + DigitValue(s[|s| - 1])
  }

  lemma {:induction false} ParseNatToString(n: nat)
    ensures ParseDigits(NatToString(n)) == n
    decreases n
  {
    if n >= 10 {
      var s := NatToString(n);
      assert s[..|s| - 1] == NatToString(n / 10);
      ParseNatToString(n / 10);
    }
  }

  /** Distinct numbers print differently. */
  lemma NatToStringInjective(a: nat, b: nat)
    requires NatToString(a) == NatToString(b)
    ensures a == b
  {
    ParseNatToString(a);
    ParseNatToString(b);
  }

  /** Python's `str(i)` for any integer. */
  function IntToString(i: int): (s: string)
    ensures |s| > 0
  {
    if i < 0 then "-" + NatToString(-i) else NatToString(i)
  }

  /** Python's `int(s)` on a string: an optional sign followed by ASCII
      digits; anything else raises `ValueError`, modelled as `None`. */
  function ParseInt(s: string): Option<int>
  {
    if IsDigits(s) then Some(ParseDigits(s))
    else if |s| >= 2 && (s[0] == '-' || s[0] == '+') && IsDigits(s[1..]) then
      var magnitude: int := ParseDigits(s[1..]);
      Some(if s[0] == '-' then -magnitude else magnitude)
    else None
  }

  lemma ParseIntToString(i: int)
    ensures ParseInt(IntToString(i)) == Some(i)
  {
    if i < 0 {
      var s := IntToString(i);
      assert !IsDigit(s[0]);
      assert s[1..] == NatToString(-i);
      ParseNatToString(-i);
    } else {
      ParseNatToString(i);
    }
  }

  function LowerChar(c: char): char
  {
    if 'A' <= c <= 'Z' then (c as int + 32) as char else c
  }

  /** Python's `s.lower()` on ASCII letters. */
  function Lower(s: string): (r: string)
    ensures |r| == |s|
    ensures forall i :: 0 <= i < |s| ==> r[i] == LowerChar(s[i])
    ensures forall i :: 0 <= i < |r| ==> !('A' <= r[i] <= 'Z')
  {
    seq(|s|, i requires 0 <= i < |s| => LowerChar(s[i]))
  }

  /** Lower-casing twice is lower-casing once. */
  lemma LowerIdempotent(s: string)
    ensures Lower(Lower(s)) == Lower(s)
  {
  }

  /** Two strings lower-case alike exactly when they agree letter by letter
      up to case. */
  lemma LowerEqualIff(s: string, t: string)
    ensures Lower(s) == Lower(t) <==>
      |s| == |t| && forall i :: 0 <= i < |s| ==> LowerChar(s[i]) == LowerChar(t[i])
  {
  }

  /** Number of occurrences of `c` in `s` (Python's `s.count(c)`). */
  function CountChar(s: string, c: char): nat
    decreases |s|
  {
    if |s| == 0 then 0 else (if s[0] == c then 1 else 0) + CountChar(s[1..], c)
  }

  lemma {:induction false} CountCharAppend(a: string, b: string, c: char)
    ensures CountChar(a + b, c) == CountChar(a, c) + CountChar(b, c)
    decreases |a|
  {
    if |a| == 0 {
      assert a + b == b;
    } else {
      assert (a + b)[1..] == a[1..] + b;
      CountCharAppend(a[1..], b, c);
    }
  }

  predicate IsPrefix(p: string, s: string)
  {
    |p| <= |s| && s[..|p|] == p
  }

  /** A prefix never holds more occurrences of a character than the whole. */
  lemma PrefixCount(p: string, s: string, c: char)
    requires IsPrefix(p, s)
    ensures CountChar(p, c) <= CountChar(s, c)
  {
    assert s == p + s[|p|..];
    CountCharAppend(p, s[|p|..], c);
  }

  /** Index of the first `c` in `s`, if any (Python's `s.find(c)`). */
  function IndexOf(s: string, c: char): (r: Option<nat>)
    ensures r.Some? ==> r.value < |s| && s[r.value] == c
    ensures r.Some? ==> forall j :: 0 <= j < r.value ==> s[j] != c
    ensures r.None? <==> c !in s
    decreases |s|
  {
    if |s| == 0 then None
    else if s[0] == c then Some(0)
    else match IndexOf(s[1..], c)
      case None => None
      case Some(k) => Some(k + 1)
  }

  /** Index of the last `c` in `s`, if any (Python's `s.rfind(c)`). */
  function LastIndexOf(s: string, c: char): (r: Option<nat>)
    ensures r.Some? ==> r.value < |s| && s[r.value] == c
    ensures r.Some? ==> forall j :: r.value < j < |s| ==> s[j] != c
    ensures r.None? <==> c !in s
    decreases |s|
  {
    if |s| == 0 then None
    else if s[|s| - 1] == c then Some(|s| - 1)
    else match LastIndexOf(s[..|s| - 1], c)
      case None => None
      case Some(k) => Some(k)
  }

  /** Python's `s.split(sep)` for a one-character separator: the pieces
      between separators, always at least one. */
  function Split(s: string, sep: char): (parts: seq<string>)
    ensures |parts| >= 1
    ensures forall k :: 0 <= k < |parts| ==> sep !in parts[k]
    decreases |s|
  {
    match IndexOf(s, sep)
    case None => [s]
    case Some(i) => [s[..i]] + Split(s[i + 1..], sep)
  }

  /** Python's `sep.join(parts)`. */
  function Join(parts: seq<string>, sep: char): string
    decreases |parts|
  {
    if |parts| == 0 then ""
    else if |parts| == 1 then parts[0]
    else parts[0] + [sep] + Join(parts[1..], sep)
  }

  /** Joining the pieces of a split gives back the original text. */
  lemma {:induction false} JoinSplit(s: string, sep: char)
    ensures Join(Split(s, sep), sep) == s
    decreases |s|
  {
    match IndexOf(s, sep)
    case None =>
    case Some(i) =>
      var rest := Split(s[i + 1..], sep);
      assert Split(s, sep) == [s[..i]] + rest;
      JoinSplit(s[i + 1..], sep);
      JoinAfterSeparator(s, sep, i, rest);
  }

  /** The step of the round trip: the first piece, the separator, and a
      join of the rest that gives back the text after the separator. */
  lemma JoinAfterSeparator(s: string, sep: char, i: nat, rest: seq<string>)
    requires i < |s| && s[i] == sep && |rest| > 0
    requires Join(rest, sep) == s[i + 1..]
    ensures Join([s[..i]] + rest, sep) == s
  {
    JoinCons(s[..i], rest, sep);
    assert (s[..i] + [sep]) + s[i + 1..] == s;
  }

  /** Splitting yields one more piece than there are separators. */
  lemma {:induction false} SplitCount(s: string, sep: char)
    ensures |Split(s, sep)| == CountChar(s, sep) + 1
    decreases |s|
  {
    match IndexOf(s, sep)
    case None =>
      NoOccurrenceCount(s, sep);
    case Some(i) =>
      SplitCount(s[i + 1..], sep);
      assert s == s[..i] + [sep] + s[i + 1..];
      CountCharAppend(s[..i] + [sep], s[i + 1..], sep);
      CountCharAppend(s[..i], [sep], sep);
      NoOccurrenceCount(s[..i], sep);
  }

  lemma {:induction false} NoOccurrenceCount(s: string, c: char)
    requires c !in s
    ensures CountChar(s, c) == 0
    decreases |s|
  {
    if |s| > 0 {
      assert s[0] != c;
      assert c !in s[1..] by {
        forall j | 0 <= j < |s[1..]| ensures s[1..][j] != c {
          assert s[1..][j] == s[j + 1];
        }
      }
      NoOccurrenceCount(s[1..], c);
    }
  }

  /** Joining a piece in front of a non-empty list puts one separator between. */
  lemma JoinCons(a: string, rest: seq<string>, sep: char)
    requires |rest| > 0
    ensures Join([a] + rest, sep) == a + [sep] + Join(rest, sep)
  {
    assert ([a] + rest)[1..] == rest;
  }

  /** A common head keeps a prefix a prefix. */
  lemma PrefixUnderHead(h: string, t: string, u: string)
    requires IsPrefix(t, u)
    ensures IsPrefix(h + t, h + u)
  {
    assert (h + u)[..|h + t|] == h + u[..|t|];
  }

  /** The step of the split prefix argument: a prefix of the text after
      the first separator, behind the first piece and the separator. */
  lemma PrefixAfterSeparator(s: string, sep: char, i: nat, pre: seq<string>)
    requires i < |s| && s[i] == sep && |pre| > 0
    requires IsPrefix(Join(pre, sep), s[i + 1..])
    ensures IsPrefix(Join([s[..i]] + pre, sep), s)
  {
    JoinCons(s[..i], pre, sep);
    PrefixUnderHead(s[..i] + [sep], Join(pre, sep), s[i + 1..]);
    assert (s[..i] + [sep]) + s[i + 1..] == s;
  }

  /** Joining any leading run of the pieces of a split gives a prefix of
      the original text. */
  lemma {:induction false} JoinSplitPrefix(s: string, sep: char, k: nat)
    requires k <= |Split(s, sep)|
    ensures IsPrefix(Join(Split(s, sep)[..k], sep), s)
    decreases |s|
  {
    if k == 0 {
      assert Split(s, sep)[..k] == [];
    } else {
      match IndexOf(s, sep)
      case None =>
        assert Split(s, sep)[..k] == [s];
      case Some(i) =>
        var rest := Split(s[i + 1..], sep);
        var pre := rest[..k - 1];
        assert Split(s, sep)[..k] == [s[..i]] + pre;
        if k == 1 {
          assert [s[..i]] + pre == [s[..i]];
        } else {
          JoinSplitPrefix(s[i + 1..], sep, k - 1);
          PrefixAfterSeparator(s, sep, i, pre);
        }
    }
  }

  /** `pat` occurs in `s` starting at index `i`. */
  predicate OccursAt(s: string, pat: string, i: nat)
  {
    i + |pat| <= |s| && s[i..i + |pat|] == pat
  }

  /** First index at or after `from` where `pat` occurs in `s`. */
  function FindFrom(s: string, pat: string, from: nat): (r: Option<nat>)
    ensures r.Some? ==> from <= r.value && OccursAt(s, pat, r.value)
    ensures r.Some? ==> forall j :: from <= j < r.value ==> !OccursAt(s, pat, j)
    ensures r.None? ==> forall j :: from <= j ==> !OccursAt(s, pat, j)
    decreases |s| - from
  {
    if from + |pat| > |s| then None
    else if s[from..from + |pat|] == pat then Some(from)
    else FindFrom(s, pat, from + 1)
  }

  /** Python's `pat in s`. */
  predicate Contains(s: string, pat: string)
  {
    FindFrom(s, pat, 0).Some?
  }

  /** Python's `s.split(pat)[0]` for a non-empty `pat`: the text before the
      first occurrence of `pat`, or all of `s` when it does not occur. */
  function TextBefore(s: string, pat: string): (r: string)
    ensures IsPrefix(r, s)
    ensures Contains(s, pat) ==> OccursAt(s, pat, |r|) && forall j :: 0 <= j < |r| ==> !OccursAt(s, pat, j)
    ensures !Contains(s, pat) ==> r == s
  {
    match FindFrom(s, pat, 0)
    case None => s
    case Some(i) => s[..i]
  }

  /** The text before `pat` in `a + pat + b` is `a`, when `pat` does not
      start anywhere inside `a`. */
  lemma TextBeforeFirst(a: string, pat: string, b: string)
    requires forall j :: 0 <= j < |a| ==> !OccursAt(a + pat + b, pat, j)
    ensures TextBefore(a + pat + b, pat) == a
  {
    var s := a + pat + b;
    assert s[|a|..|a| + |pat|] == pat;
    assert OccursAt(s, pat, |a|);
    assert s[..|a|] == a;
  }
}
