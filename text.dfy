/**
 * The java.lang.String and java.util.regex operations the core relies on:
 * literal replacement (String.replace), splitting on a quoted separator
 * (String.split(Pattern.quote(sep))), removing whitespace
 * (replaceAll("\\s+", "")), the catch-all placeholder rewrite
 * (replaceAll("\\$\\{.*?\\}", "0")) and Integer.toString.
 */
module Text {
  import opened Utils

  /** t occurs in s at position i. */
  predicate OccursAt(s: string, t: string, i: int) {
    0 <= i && i + |t| <= |s| && s[i..i + |t|] == t
  }

  /** String.indexOf(t, from): the first occurrence of t at or after from. */
  function IndexOf(s: string, t: string, from: nat): (r: Option<nat>)
    requires |t| > 0
    ensures r.Some? ==> from <= r.value && OccursAt(s, t, r.value)
    ensures r.Some? ==> forall j :: from <= j < r.value ==> !OccursAt(s, t, j)
    ensures r.None? ==> forall j :: from <= j ==> !OccursAt(s, t, j)
    decreases |s| - from
  {
    if from + |t| > |s| then None
    else if s[from..from + |t|] == t then Some(from)
    else IndexOf(s, t, from + 1)
  }

  /** String.replace(target, replacement): every occurrence, left to right, without overlaps. */
  function Replace(s: string, target: string, replacement: string): string
    requires |target| > 0
    decreases |s|
  {
    if |s| < |target| then s
    else if s[..|target|] == target then replacement + Replace(s[|target|..], target, replacement)
    else [s[0]] + Replace(s[1..], target, replacement)
  }

  /** An occurrence in the tail of s is an occurrence in s one position further on. */
  lemma OccursInTail(s: string, t: string, j: nat)
    requires |s| > 0
    ensures OccursAt(s[1..], t, j) <==> OccursAt(s, t, j + 1)
  {
    if j + 1 + |t| <= |s| {
      assert s[1..][j..j + |t|] == s[j + 1..j + 1 + |t|];
    }
  }

  /**
   * String.replace rewrites the first occurrence of the target and carries
   * on after it, so occurrences never overlap; without an occurrence the
   * text is returned as it is.
   */
  lemma {:induction false} ReplaceFirst(s: string, target: string, replacement: string)
    requires |target| > 0
    ensures ReplacesFirst(s, target, replacement)
    decreases |s|
  {
    if |s| < |target| {
      ReplaceFirstShort(s, target, replacement);
    } else if s[..|target|] == target {
      ReplaceFirstAtStart(s, target, replacement);
    } else {
      ReplaceFirst(s[1..], target, replacement);
      ReplaceFirstPastStart(s, target, replacement);
    }
  }

  /** Replace rewrites the first occurrence of the target and goes on after it; without one, s stays. */
  ghost predicate ReplacesFirst(s: string, target: string, replacement: string)
    requires |target| > 0
  {
    Replace(s, target, replacement) ==
      match IndexOf(s, target, 0)
      case None => s
      case Some(k) => s[..k] + replacement + Replace(s[k + |target|..], target, replacement)
  }

  /** The step of ReplaceFirst for a text shorter than the target. */
  lemma ReplaceFirstShort(s: string, target: string, replacement: string)
    requires 0 < |target| && |s| < |target|
    ensures ReplacesFirst(s, target, replacement)
  {
    assert IndexOf(s, target, 0).None?;
  }

  /** The step of ReplaceFirst for a text starting with the target. */
  lemma ReplaceFirstAtStart(s: string, target: string, replacement: string)
    requires 0 < |target| <= |s| && s[..|target|] == target
    ensures ReplacesFirst(s, target, replacement)
  {
    assert OccursAt(s, target, 0);
    assert IndexOf(s, target, 0) == Some(0);
    assert s[..0] + replacement == replacement;
  }

  /** The step of ReplaceFirst for a text not starting with the target, from the tail's. */
  lemma ReplaceFirstPastStart(s: string, target: string, replacement: string)
    requires 0 < |target| <= |s| && s[..|target|] != target
    requires ReplacesFirst(s[1..], target, replacement)
    ensures ReplacesFirst(s, target, replacement)
  {
    match IndexOf(s[1..], target, 0)
    case None => ReplaceFirstPastNone(s, target, replacement);
    case Some(k) => ReplaceFirstPastSome(s, target, replacement, k);
  }

  /** The step of ReplaceFirst when the target is in neither the start nor the tail: it is nowhere. */
  lemma ReplaceFirstPastNone(s: string, target: string, replacement: string)
    requires 0 < |target| <= |s| && s[..|target|] != target
    requires IndexOf(s[1..], target, 0).None? && ReplacesFirst(s[1..], target, replacement)
    ensures ReplacesFirst(s, target, replacement)
  {
    assert Replace(s[1..], target, replacement) == s[1..];
    assert !OccursAt(s, target, 0);
    IndexOfPastStart(s, target);
    ReplacePastStart(s, target, replacement);
    assert s == [s[0]] + s[1..];
  }

  /** The step of ReplaceFirst when the target is not at the start but in the tail at k: it is at k + 1. */
  lemma ReplaceFirstPastSome(s: string, target: string, replacement: string, k: nat)
    requires 0 < |target| <= |s| && s[..|target|] != target
    requires IndexOf(s[1..], target, 0) == Some(k) && ReplacesFirst(s[1..], target, replacement)
    ensures ReplacesFirst(s, target, replacement)
  {
    assert Replace(s[1..], target, replacement) ==
             s[1..][..k] + replacement + Replace(s[1..][k + |target|..], target, replacement);
    assert !OccursAt(s, target, 0);
    IndexOfPastStart(s, target);
    ReplacePastStart(s, target, replacement);
    var rest := Replace(s[k + 1 + |target|..], target, replacement);
    assert s[1..][k + |target|..] == s[k + 1 + |target|..];
    ConsSlices(s, k, replacement, rest);
    assert Replace(s, target, replacement) == s[..k + 1] + replacement + rest;
    ReplacesFirstAt(s, target, replacement, k + 1);
  }

  /** ReplacesFirst for a text whose first occurrence of the target is at k. */
  lemma ReplacesFirstAt(s: string, target: string, replacement: string, k: nat)
    requires 0 < |target| && IndexOf(s, target, 0) == Some(k)
    requires Replace(s, target, replacement) == s[..k] + replacement + Replace(s[k + |target|..], target, replacement)
    ensures ReplacesFirst(s, target, replacement)
  {
  }

  /** Searching s from from + 1 is searching its tail from from, one position further on. */
  lemma {:induction false} IndexOfShift(s: string, target: string, from: nat)
    requires |target| > 0 && |s| > 0
    ensures IndexOf(s, target, from + 1) ==
              match IndexOf(s[1..], target, from)
              case None => None
              case Some(k) => Some(k + 1)
    decreases |s| - from
  {
    if from + 1 + |target| <= |s| {
      assert s[from + 1..from + 1 + |target|] == s[1..][from..from + |target|];
      IndexOfShift(s, target, from + 1);
    }
  }

  /** Without an occurrence at the start, the first occurrence is the tail's first one, one position on. */
  lemma IndexOfPastStart(s: string, target: string)
    requires |target| > 0 && |s| > 0 && !OccursAt(s, target, 0)
    ensures IndexOf(s, target, 0) ==
              match IndexOf(s[1..], target, 0)
              case None => None
              case Some(k) => Some(k + 1)
  {
    IndexOfShift(s, target, 0);
    if |target| <= |s| {
      assert s[0..|target|] != target;
    }
  }

  /** Without the target at the start, String.replace keeps the first character and goes on with the rest. */
  lemma ReplacePastStart(s: string, target: string, replacement: string)
    requires 0 < |target| <= |s| && s[..|target|] != target
    ensures Replace(s, target, replacement) == [s[0]] + Replace(s[1..], target, replacement)
  {
  }

  /** The first character in front of a split tail rejoins the head. */
  lemma ConsSlices(s: string, k: nat, a: string, b: string)
    requires k < |s|
    ensures [s[0]] + (s[1..][..k] + a + b) == s[..k + 1] + a + b
  {
    assert [s[0]] + s[1..][..k] == s[..k + 1];
  }

  /** No `${` anywhere in s. */
  predicate NoOpen(s: string) {
    forall i :: 0 <= i < |s| - 1 ==> !(s[i] == '$' && s[i + 1] == '{')
  }

  /** Replacing a `${…}` target changes nothing in a text without `${`. */
  lemma {:induction false} ReplaceWithoutOpen(s: string, target: string, replacement: string)
    requires |target| >= 2 && target[0] == '$' && target[1] == '{'
    requires NoOpen(s)
    ensures Replace(s, target, replacement) == s
    decreases |s|
  {
    if |s| >= |target| {
      assert s[..|target|][0] == s[0] && s[..|target|][1] == s[1];
      assert NoOpen(s[1..]) by {
        forall i | 0 <= i < |s[1..]| - 1
          ensures !(s[1..][i] == '$' && s[1..][i + 1] == '{')
        {
          assert s[1..][i] == s[i + 1] && s[1..][i + 1] == s[i + 2];
        }
      }
      ReplaceWithoutOpen(s[1..], target, replacement);
      assert s == [s[0]] + s[1..];
    }
  }

  /** The pieces of s between the occurrences of sep, left to right, trailing empty pieces included. */
  function Fields(s: string, sep: string): (r: seq<string>)
    requires |sep| > 0
    ensures |r| > 0
    decreases |s|
  {
    match IndexOf(s, sep, 0)
    case None => [s]
    case Some(k) => [s[..k]] + Fields(s[k + |sep|..], sep)
  }

  /** Pieces joined back with the separator between them. */
  function Join(fs: seq<string>, sep: string): string
    requires |fs| > 0
  {
    if |fs| == 1 then fs[0] else fs[0] + sep + Join(fs[1..], sep)
  }

  /** Splitting loses nothing: joining the fields with the separator gives the line back. */
  lemma {:induction false} JoinFields(s: string, sep: string)
    requires |sep| > 0
    ensures Join(Fields(s, sep), sep) == s
    decreases |s|
  {
    match IndexOf(s, sep, 0)
    case None =>
    case Some(k) =>
      var rest := s[k + |sep|..];
      var fr := Fields(rest, sep);
      assert Fields(s, sep) == [s[..k]] + fr;
      JoinFields(rest, sep);
      var fs := [s[..k]] + fr;
      assert fs[0] == s[..k] && fs[1..] == fr;
      assert Join(fs, sep) == s[..k] + sep + Join(fr, sep);
      assert s[k..k + |sep|] == sep;
      assert s[..k + |sep|] == s[..k] + sep;
      assert s == s[..k + |sep|] + rest;
  }

  /** t does not occur anywhere in s. */
  predicate Absent(s: string, t: string) {
    forall j :: 0 <= j <= |s| - |t| ==> !OccursAt(s, t, j)
  }

  /** No field contains the separator: every occurrence was cut. */
  lemma {:induction false} FieldsAvoidSeparator(s: string, sep: string)
    requires |sep| > 0
    ensures forall i :: 0 <= i < |Fields(s, sep)| ==> Absent(Fields(s, sep)[i], sep)
    decreases |s|
  {
    match IndexOf(s, sep, 0)
    case None =>
      assert Fields(s, sep) == [s];
    case Some(k) =>
      var rest := s[k + |sep|..];
      var fr := Fields(rest, sep);
      assert Fields(s, sep) == [s[..k]] + fr;
      FieldsAvoidSeparator(rest, sep);
      forall j | 0 <= j <= k - |sep|
        ensures !OccursAt(s[..k], sep, j)
      {
        assert s[..k][j..j + |sep|] == s[j..j + |sep|];
        assert !OccursAt(s, sep, j);
      }
      assert Absent(s[..k], sep);
  }

  /** Drops the empty strings at the end of a list (the limit-0 rule of String.split). */
  function DropTrailingEmpty(fs: seq<string>): (r: seq<string>)
    ensures r <= fs
    ensures r == [] || r[|r| - 1] != []
    ensures forall i :: |r| <= i < |fs| ==> fs[i] == []
  {
    if fs == [] || fs[|fs| - 1] != [] then fs else DropTrailingEmpty(fs[..|fs| - 1])
  }

  /**
   * String.split(Pattern.quote(sep)): the separator is matched as literal
   * text; a line without it gives itself as the only cell (even when empty),
   * otherwise the fields come without their trailing empty strings.
   */
  function Split(s: string, sep: string): (r: seq<string>)
    requires |sep| > 0
  {
    if IndexOf(s, sep, 0).None? then [s] else DropTrailingEmpty(Fields(s, sep))
  }

  /** The cells are the leading fields of the line; only empty fields are lost, and only at the end. */
  lemma {:induction false} SplitKeepsFields(s: string, sep: string)
    requires |sep| > 0
    ensures Split(s, sep) <= Fields(s, sep)
    ensures forall i :: |Split(s, sep)| <= i < |Fields(s, sep)| ==> Fields(s, sep)[i] == []
    ensures IndexOf(s, sep, 0).None? <==> Split(s, sep) == [s] && Fields(s, sep) == [s]
    ensures IndexOf(s, sep, 0).Some? ==> Split(s, sep) == [] || Split(s, sep)[|Split(s, sep)| - 1] != []
  {
    match IndexOf(s, sep, 0)
    case None =>
    case Some(k) =>
      var fs := Fields(s, sep);
      var r := DropTrailingEmpty(fs);
      assert fs[0] == s[..k] && |fs[0]| < |s|;
  }

  /** The characters `\s` matches in a Java regular expression. */
  predicate IsRegexSpace(c: char) {
    c == ' ' || c == '\t' || c == '\n' || c == '\U{000B}' || c == '\U{000C}' || c == '\r'
  }

  /** replaceAll("\\s+", ""): every whitespace character removed, all others kept in order. */
  function RemoveWhitespace(s: string): (r: string)
    ensures forall i :: 0 <= i < |r| ==> !IsRegexSpace(r[i])
    ensures (forall i :: 0 <= i < |s| ==> !IsRegexSpace(s[i])) ==> r == s
    decreases |s|
  {
    if s == [] then []
    else (if IsRegexSpace(s[0]) then [] else [s[0]]) + RemoveWhitespace(s[1..])
  }

  /**
   * replaceAll("\\s+", "") works character by character: it distributes over
   * concatenation, drops a single whitespace character and keeps any other;
   * together these fix its result on every string.
   */
  lemma {:induction false} RemoveWhitespaceConcat(a: string, b: string)
    ensures RemoveWhitespace(a + b) == RemoveWhitespace(a) + RemoveWhitespace(b)
    ensures |b| == 1 ==> RemoveWhitespace(b) == if IsRegexSpace(b[0]) then [] else b
    decreases |a|
  {
    if a == [] {
      assert a + b == b;
    } else {
      var head := if IsRegexSpace(a[0]) then [] else [a[0]];
      assert (a + b)[0] == a[0] && (a + b)[1..] == a[1..] + b;
      RemoveWhitespaceConcat(a[1..], b);
      calc {
        RemoveWhitespace(a + b);
        head + RemoveWhitespace(a[1..] + b);
        head + (RemoveWhitespace(a[1..]) + RemoveWhitespace(b));
        (head + RemoveWhitespace(a[1..])) + RemoveWhitespace(b);
      }
    }
    if |b| == 1 {
      assert b[1..] == [];
    }
  }

  /** The characters `.` does not match in a Java regular expression. */
  predicate IsLineTerminator(c: char) {
    c == '\n' || c == '\r' || c == '\U{0085}' || c == '\U{2028}' || c == '\U{2029}'
  }

  /** t holds a `}` with no line terminator before it. */
  predicate ClosesOnLine(t: string)
    decreases |t|
  {
    |t| > 0 && (t[0] == '}' || (!IsLineTerminator(t[0]) && ClosesOnLine(t[1..])))
  }

  /** The position of the first `}` of t: the end of the shortest match of `.*?\}`. */
  function CloseIndex(t: string): (k: nat)
    requires ClosesOnLine(t)
    ensures k < |t| && t[k] == '}'
    ensures forall j :: 0 <= j < k ==> t[j] != '}' && !IsLineTerminator(t[j])
    decreases |t|
  {
    if t[0] == '}' then 0 else CloseIndex(t[1..]) + 1
  }

  /** s begins with a placeholder span `${…}` that stays on one line. */
  predicate SpanAtStart(s: string) {
    |s| >= 2 && s[0] == '$' && s[1] == '{' && ClosesOnLine(s[2..])
  }

  /** Some placeholder span `${…}` without a line break occurs in s. */
  predicate HasSpan(s: string)
    decreases |s|
  {
    SpanAtStart(s) || (|s| > 0 && HasSpan(s[1..]))
  }

  /** replaceAll("\\$\\{.*?\\}", "0"): each leftmost shortest one-line `${…}` span becomes "0". */
  function ReplaceSpans(s: string): string
    decreases |s|
  {
    if SpanAtStart(s) then "0" + ReplaceSpans(s[2 + CloseIndex(s[2..]) + 1..])
    else if s == [] then []
    else [s[0]] + ReplaceSpans(s[1..])
  }

  /** A `}` at k with no line terminator before it closes on the line. */
  lemma {:induction false} ClosesOnLineAt(t: string, k: nat)
    requires k < |t| && t[k] == '}'
    requires forall j :: 0 <= j < k ==> !IsLineTerminator(t[j])
    ensures ClosesOnLine(t)
    decreases k
  {
    if k > 0 {
      ClosesOnLineAt(t[1..], k - 1);
    }
  }

  /**
   * The catch-all rewrite keeps the text before the first `${` and turns a
   * one-line span `${name}` there, up to its first `}`, into "0", then
   * carries on after the span.
   */
  lemma {:induction false} ReplaceSpansAt(pre: string, name: string, post: string)
    requires NoOpen(pre)
    requires forall i :: 0 <= i < |name| ==> name[i] != '}' && !IsLineTerminator(name[i])
    ensures ReplaceSpans(pre + "${" + name + "}" + post) == pre + "0" + ReplaceSpans(post)
    decreases |pre|
  {
    if pre == [] {
      ReplaceSpanAtStart(name, post);
      assert pre + "${" + name + "}" + post == "${" + name + "}" + post;
    } else {
      var s := pre + "${" + name + "}" + post;
      assert !SpanAtStart(s) by {
        if |pre| >= 2 {
          assert s[0] == pre[0] && s[1] == pre[1];
        } else {
          assert s[1] == '$';
        }
      }
      assert NoOpen(pre[1..]) by {
        forall i | 0 <= i < |pre[1..]| - 1
          ensures !(pre[1..][i] == '$' && pre[1..][i + 1] == '{')
        {
          assert pre[1..][i] == pre[i + 1] && pre[1..][i + 1] == pre[i + 2];
        }
      }
      ReplaceSpansAt(pre[1..], name, post);
      assert s[1..] == pre[1..] + "${" + name + "}" + post;
      calc {
        ReplaceSpans(s);
        [pre[0]] + ReplaceSpans(s[1..]);
        [pre[0]] + (pre[1..] + "0" + ReplaceSpans(post));
        { assert [pre[0]] + pre[1..] == pre; }
        pre + "0" + ReplaceSpans(post);
      }
    }
  }

  /** A one-line span at the very start becomes "0", and the rewrite carries on after its first `}`. */
  lemma ReplaceSpanAtStart(name: string, post: string)
    requires forall i :: 0 <= i < |name| ==> name[i] != '}' && !IsLineTerminator(name[i])
    ensures ReplaceSpans("${" + name + "}" + post) == "0" + ReplaceSpans(post)
  {
    var s := "${" + name + "}" + post;
    var t := s[2..];
    assert t == name + "}" + post;
    assert t[|name|] == '}';
    assert forall j :: 0 <= j < |name| ==> t[j] == name[j];
    ClosesOnLineAt(t, |name|);
    assert SpanAtStart(s);
    var k := CloseIndex(t);
    assert k == |name|;
    assert s[2 + k + 1..] == post;
  }

  /** A closing brace on the first line of the output comes from one on the first line of the input. */
  lemma {:induction false} ClosesOnLineOfOutput(s: string)
    ensures ClosesOnLine(ReplaceSpans(s)) ==> ClosesOnLine(s)
    decreases |s|
  {
    if SpanAtStart(s) {
      assert s[1..][1..] == s[2..];
    } else if s != [] {
      var r := ReplaceSpans(s);
      assert r[1..] == ReplaceSpans(s[1..]);
      ClosesOnLineOfOutput(s[1..]);
    }
  }

  /** After the catch-all rewrite no one-line `${…}` span is left. */
  lemma {:induction false} ReplaceSpansLeavesNoSpan(s: string)
    ensures !HasSpan(ReplaceSpans(s))
    decreases |s|
  {
    if SpanAtStart(s) {
      var rest := s[2 + CloseIndex(s[2..]) + 1..];
      ReplaceSpansLeavesNoSpan(rest);
      assert ReplaceSpans(s)[1..] == ReplaceSpans(rest);
    } else if s != [] {
      var r := ReplaceSpans(s);
      var s1 := s[1..];
      ReplaceSpansLeavesNoSpan(s1);
      assert r[1..] == ReplaceSpans(s1);
      if !SpanAtStart(s1) && s1 != [] {
        assert ReplaceSpans(s1) == [s1[0]] + ReplaceSpans(s1[1..]);
        assert s1[1..] == s[2..];
        assert r[2..] == ReplaceSpans(s[2..]);
        ClosesOnLineOfOutput(s[2..]);
      }
    }
  }

  /** A text without `${` passes the catch-all rewrite unchanged. */
  lemma {:induction false} ReplaceSpansWithoutOpen(s: string)
    requires NoOpen(s)
    ensures ReplaceSpans(s) == s
    decreases |s|
  {
    if s != [] {
      assert NoOpen(s[1..]) by {
        forall i | 0 <= i < |s[1..]| - 1
          ensures !(s[1..][i] == '$' && s[1..][i + 1] == '{')
        {
          assert s[1..][i] == s[i + 1] && s[1..][i + 1] == s[i + 2];
        }
      }
      ReplaceSpansWithoutOpen(s[1..]);
    }
  }

  function DigitChar(n: nat): char
    requires n < 10
  {
    ('0' as int + n) as char
  }

  predicate IsDigit(c: char) {
    '0' <= c <= '9'
  }

  /** The number a string of decimal digits spells, most significant digit first. */
  function DecimalValue(s: string): int
    requires forall i :: 0 <= i < |s| ==> IsDigit(s[i])
    decreases |s|
  {
    if s == [] then 0 else DecimalValue(s[..|s| - 1]) * 10 + (s[|s| - 1] as int - '0' as int)
  }

  function Digits(n: nat): (r: string)
    ensures |r| > 0
    decreases n
  {
    if n < 10 then [DigitChar(n)] else Digits(n / 10) + [DigitChar(n % 10)]
  }

  /** The digits spell n back, and only 0 is written with a leading zero. */
  lemma {:induction false} DigitsSpell(n: nat)
    ensures forall i :: 0 <= i < |Digits(n)| ==> IsDigit(Digits(n)[i])
    ensures DecimalValue(Digits(n)) == n
    ensures Digits(n)[0] == '0' ==> n == 0
    decreases n
  {
    if n >= 10 {
      DigitsSpell(n / 10);
      var ds := Digits(n);
      assert ds[..|ds| - 1] == Digits(n / 10);
    }
  }

  /** Integer.toString: decimal digits, with a leading '-' for negative numbers. */
  function IntToString(n: int): string {
    if n < 0 then "-" + Digits(-n) else Digits(n)
  }

  /**
   * Integer.toString writes n in decimal: a '-' exactly when n is negative,
   * then digits that spell |n| without a leading zero (except for 0 itself).
   */
  lemma IntToStringSpells(n: int)
    ensures IntToString(n) != [] && (IntToString(n)[0] == '-' <==> n < 0)
    ensures var ds := if n < 0 then IntToString(n)[1..] else IntToString(n);
            && ds != []
            && (forall i :: 0 <= i < |ds| ==> IsDigit(ds[i]))
            && DecimalValue(ds) == (if n < 0 then -n else n)
            && (ds[0] == '0' ==> n == 0)
  {
    var m := if n < 0 then -n else n;
    DigitsSpell(m);
    if n < 0 {
      assert IntToString(n)[1..] == Digits(m);
    }
  }
}
