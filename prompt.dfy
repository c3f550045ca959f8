/**
 * The summarisation prompt (`build_prompt`): a fixed Japanese instruction
 * that names a target length twice and embeds the page content, cut to its
 * first 4000 characters.
 */
module Prompt {

  /** The number of content characters embedded in the prompt. */
  const MaxContentChars: nat := 4000

  /** The default target length of the summary (`n_chars`). */
  const DefaultTargetChars: int := 1000

  /** The template text before the first rendering of the target length. */
  const Opening: string := "あなたはプロのエンジニアである。\n    また、以下はとあるWebページのコンテンツである。内容を"

  /** The template text between the two renderings of the target length. */
  const Between: string := "から"

  /** The template text from the second rendering of the target length to the content. */
  const Request: string := "程度でわかりやすく要約してください。\n\n========\n\n"

  /** The template text after the content. */
  const Constraints: string := "\n\n========\n\n    また要約を作成する際は、以下の制約条件を守ってください。\n\n    # 制約条件：\n    ・重要なキーワードを取り残さないこと\n    ・要約の冒頭で、当該のページで触れられている技術やサービスの名前を箇条書きで記載すること\n    ・日本語で書くこと\n"

  function Min(a: int, b: int): int {
    if a <= b then a else b
  }

  predicate IsDigit(c: char) {
    '0' <= c <= '9'
  }

  predicate IsDigits(s: string) {
    forall i :: 0 <= i < |s| ==> IsDigit(s[i])
  }

  function DigitChar(d: nat): (c: char)
    requires d < 10
    ensures IsDigit(c) && c as int - '0' as int == d
  {
    ('0' as int + d) as char
  }

  /** Python's `str` of a non-negative integer: decimal digits without leading zeros. */
  function NatToDecimal(n: nat): (s: string)
    ensures |s| >= 1 && IsDigits(s)
    ensures s[0] == '0' ==> n == 0 && |s| == 1
  {
    if n < 10 then [DigitChar(n)] else NatToDecimal(n / 10) + [DigitChar(n % 10)]
  }

  /** The number a string of decimal digits denotes. */
  function DecimalValue(s: string): nat
    requires IsDigits(s)
  {
    if s == [] then 0 else 10 * DecimalValue(s[..|s| - 1]) + (s[|s| - 1] as int - '0' as int)
  }

  /** Reading back the rendering of `n` gives `n`. */
  lemma {:induction false} DecimalRoundTrip(n: nat)
    ensures DecimalValue(NatToDecimal(n)) == n
  {
    var s := NatToDecimal(n);
    if n >= 10 {
      DecimalRoundTrip(n / 10);
      assert s[..|s| - 1] == NatToDecimal(n / 10);
    }
  }

  /** Python's `str` of an integer, as the f-string renders `n_chars`. */
  function IntToDecimal(n: int): (s: string)
    ensures |s| >= 1
    ensures s[0] == '-' <==> n < 0
    ensures forall i :: 0 < i < |s| ==> IsDigit(s[i])
  {
    if n < 0 then "-" + NatToDecimal(-n) else NatToDecimal(n)
  }

  /** Different target lengths are rendered differently. */
  lemma IntToDecimalInjective(m: int, n: int)
    requires IntToDecimal(m) == IntToDecimal(n)
    ensures m == n
  {
    if m < 0 {
      assert IntToDecimal(m)[1..] == NatToDecimal(-m);
      assert IntToDecimal(n)[1..] == NatToDecimal(-n);
      DecimalRoundTrip(-m);
      DecimalRoundTrip(-n);
    } else {
      DecimalRoundTrip(m);
      DecimalRoundTrip(n);
    }
  }

  /** `content[:4000]`: the content cut to its first `MaxContentChars` characters. */
  function Truncate(content: string): (t: string)
    ensures t <= content
    ensures |t| == Min(|content|, MaxContentChars)
  {
    content[..Min(|content|, MaxContentChars)]
  }

  /** The template text before the content, with the target length filled in. */
  function Head(nChars: int): string {
    Opening + IntToDecimal(nChars) + Between + IntToDecimal(nChars) + Request
  }

  /** `build_prompt(content, n_chars)`. */
  function BuildPrompt(content: string, nChars: int): string {
    Head(nChars) + Truncate(content) + Constraints
  }

  /**
   * The prompt is the instruction head, exactly the first
   * `min(|content|, 4000)` characters of the content, and the constraints.
   */
  lemma BuildPromptEmbedsPrefix(content: string, nChars: int)
    ensures var p := BuildPrompt(content, nChars);
      var h := |Head(nChars)|;
      var m := Min(|content|, MaxContentChars);
      && |p| == h + m + |Constraints|
      && p[..h] == Head(nChars)
      && p[h..h + m] == content[..m]
      && p[h + m..] == Constraints
  {
  }

  /** Content of at most 4000 characters is embedded whole. */
  lemma BuildPromptShortContentWhole(content: string, nChars: int)
    requires |content| <= MaxContentChars
    ensures var p := BuildPrompt(content, nChars);
      p[|Head(nChars)|..|p| - |Constraints|] == content
  {
  }

  /** Characters beyond the first 4000 never reach the prompt. */
  lemma BuildPromptIgnoresTail(content: string, extra: string, nChars: int)
    requires |content| >= MaxContentChars
    ensures BuildPrompt(content + extra, nChars) == BuildPrompt(content, nChars)
  {
    assert Truncate(content + extra) == Truncate(content);
  }

  /** Two contents give the same prompt exactly when their first 4000 characters agree. */
  lemma BuildPromptSameIff(c1: string, c2: string, nChars: int)
    ensures BuildPrompt(c1, nChars) == BuildPrompt(c2, nChars) <==> Truncate(c1) == Truncate(c2)
  {
    if BuildPrompt(c1, nChars) == BuildPrompt(c2, nChars) {
      var h := |Head(nChars)|;
      BuildPromptEmbedsPrefix(c1, nChars);
      BuildPromptEmbedsPrefix(c2, nChars);
      assert |Truncate(c1)| == |Truncate(c2)|;
      var p := BuildPrompt(c1, nChars);
      assert Truncate(c1) == p[h..h + |Truncate(c1)|] == Truncate(c2);
    }
  }

  /** Two strings free of a marker character, each followed by it, agree when the rest does. */
  lemma PrefixBeforeMarker(a: string, b: string, m: char, r1: string, r2: string)
    requires forall i :: 0 <= i < |a| ==> a[i] != m
    requires forall i :: 0 <= i < |b| ==> b[i] != m
    requires a + [m] + r1 == b + [m] + r2
    ensures a == b
  {
    var x, y := a + [m] + r1, b + [m] + r2;
    var k := Min(|a|, |b|);
    assert k == |a| ==> x[k] == m;
    assert k == |b| ==> y[k] == m;
    assert x[k] == m;
    assert a == x[..|a|] == y[..|b|] == b;
  }

  /** A template with one hole followed by a marker character determines what fills the hole. */
  lemma TemplateDeterminesFill(o: string, d1: string, d2: string, marker: string, r1: string, r2: string)
    requires |marker| > 0
    requires forall i :: 0 <= i < |d1| ==> d1[i] != marker[0]
    requires forall i :: 0 <= i < |d2| ==> d2[i] != marker[0]
    requires o + d1 + marker + r1 == o + d2 + marker + r2
    ensures d1 == d2
  {
    var x1 := d1 + [marker[0]] + (marker[1..] + r1);
    var x2 := d2 + [marker[0]] + (marker[1..] + r2);
    assert marker == [marker[0]] + marker[1..];
    assert o + d1 + marker + r1 == o + x1;
    assert o + d2 + marker + r2 == o + x2;
    assert x1 == (o + x1)[|o|..];
    assert x2 == (o + x2)[|o|..];
    PrefixBeforeMarker(d1, d2, marker[0], marker[1..] + r1, marker[1..] + r2);
  }

  /** Regroups a concatenation of seven strings after its third part. */
  lemma RegroupAfterThird(a: string, b: string, c: string, d: string, e: string, f: string, g: string)
    ensures a + b + c + d + e + f + g == a + b + c + (d + e + f + g)
  {
  }

  /** The prompt, regrouped as the opening, the first rendering of the target, the marker and the rest. */
  lemma BuildPromptAtTarget(content: string, nChars: int)
    ensures BuildPrompt(content, nChars) ==
      Opening + IntToDecimal(nChars) + Between
      + (IntToDecimal(nChars) + Request + Truncate(content) + Constraints)
  {
    var d := IntToDecimal(nChars);
    assert BuildPrompt(content, nChars) == Opening + d + Between + d + Request + Truncate(content) + Constraints;
    RegroupAfterThird(Opening, d, Between, d, Request, Truncate(content), Constraints);
  }

  /** The prompt determines the target length written into it. */
  lemma BuildPromptDeterminesTarget(c1: string, c2: string, m: int, n: int)
    requires BuildPrompt(c1, m) == BuildPrompt(c2, n)
    ensures m == n
  {
    BuildPromptAtTarget(c1, m);
    BuildPromptAtTarget(c2, n);
    assert Between[0] == 'か';
    TemplateDeterminesFill(Opening, IntToDecimal(m), IntToDecimal(n), Between,
      IntToDecimal(m) + Request + Truncate(c1) + Constraints,
      IntToDecimal(n) + Request + Truncate(c2) + Constraints);
    IntToDecimalInjective(m, n);
  }
}
