/** Token estimation and truncation by bisection, with the estimate in exact sixtieths of a token. */
module Truncation {
  import opened Text

  const MARKER: string := "\n... [truncated, see original record for full content] ...\n"

  predicate IsChinese(c: char) { 0x4E00 <= c as int <= 0x9FFF }

  predicate IsEnglish(c: char) { 'a' <= c <= 'z' || 'A' <= c <= 'Z' }

  predicate IsCode(c: char) { c in {'{', '}', '(', ')', '[', ']', ';', '<', '>', '/', '\\', '|'} }

  /** One character's share of the estimate: 1/10, plus 1/1.5, 1/4 or 1/3 by class, in sixtieths. */
  function Sixtieths(c: char): nat {
    6 + (if IsChinese(c) then 40 else 0) + (if IsEnglish(c) then 15 else 0) + (if IsCode(c) then 20 else 0)
  }

  function Weight(text: string): nat {
    if text == "" then 0 else Sixtieths(text[0]) + Weight(text[1..])
  }

  function Count(text: string, p: char -> bool): nat {
    if text == "" then 0 else (if p(text[0]) then 1 else 0) + Count(text[1..], p)
  }

  /** `_estimate_tokens` on exact rationals: the three character counts and the length, truncated, at least one. */
  function EstimateTokens(text: string): nat {
    if text == "" then 0
    else
      var total := (40 * Count(text, IsChinese) + 15 * Count(text, IsEnglish) + 20 * Count(text, IsCode) + 6 * |text|) / 60;
      if total < 1 then 1 else total
  }

  lemma {:induction false} WeightIsWeightedCount(text: string)
    ensures Weight(text) == 40 * Count(text, IsChinese) + 15 * Count(text, IsEnglish) + 20 * Count(text, IsCode) + 6 * |text|
  {
    if text != "" { WeightIsWeightedCount(text[1..]); }
  }

  lemma {:induction false} WeightConcat(a: string, b: string)
    ensures Weight(a + b) == Weight(a) + Weight(b)
  {
    if a == "" {
      assert a + b == b;
    } else {
      WeightConcat(a[1..], b);
      assert (a + b)[1..] == a[1..] + b;
    }
  }

  lemma EstimateMonotone(a: string, b: string)
    requires a != "" && b != "" && Weight(a) <= Weight(b)
    ensures EstimateTokens(a) <= EstimateTokens(b)
  {
    WeightIsWeightedCount(a);
    WeightIsWeightedCount(b);
    DivideMonotone(Weight(a), Weight(b));
  }

  lemma DivideMonotone(a: nat, b: nat)
    requires a <= b
    ensures a / 60 <= b / 60
  {
  }

  /** The leading 60% and trailing 40% of `kept` characters around the marker. */
  function Build(content: string, kept: nat): string
    requires kept <= |content|
  {
    var head := kept * 6 / 10;
    var tail := kept - head;
    content[..head] + MARKER + content[|content| - tail..]
  }

  /** One more kept character extends the head or the tail by exactly that character. */
  lemma BuildStep(content: string, kept: nat)
    requires kept < |content|
    ensures Weight(Build(content, kept)) <= Weight(Build(content, kept + 1))
  {
    hide MARKER;
    var h0, h1 := kept * 6 / 10, (kept + 1) * 6 / 10;
    var t0, t1 := kept - h0, kept + 1 - h1;
    var n := |content|;
    assert h1 == h0 || h1 == h0 + 1;
    BuildWeight(content, kept);
    BuildWeight(content, kept + 1);
    if h1 == h0 {
      assert content[n - t1..] == [content[n - t1]] + content[n - t0..];
    } else {
      WeightConcat(content[..h0], [content[h0]]);
      assert content[..h1] == content[..h0] + [content[h0]];
    }
  }

  lemma BuildWeight(content: string, kept: nat)
    requires kept <= |content|
    ensures var head := kept * 6 / 10;
            Weight(Build(content, kept)) == Weight(content[..head]) + Weight(MARKER) + Weight(content[|content| - (kept - head)..])
  {
    hide MARKER, Weight;
    var head := kept * 6 / 10;
    WeightConcat(content[..head] + MARKER, content[|content| - (kept - head)..]);
    WeightConcat(content[..head], MARKER);
  }

  lemma {:induction false} BuildMonotone(content: string, a: nat, b: nat)
    requires a <= b <= |content|
    ensures EstimateTokens(Build(content, a)) <= EstimateTokens(Build(content, b))
    decreases b - a
  {
    hide EstimateTokens, Weight;
    if a < b {
      BuildMonotone(content, a, b - 1);
      BuildStep(content, b - 1);
      BuildNotEmpty(content, b);
      BuildNotEmpty(content, b - 1);
      EstimateMonotone(Build(content, b - 1), Build(content, b));
    }
  }

  lemma BuildNotEmpty(content: string, kept: nat)
    requires kept <= |content|
    ensures Build(content, kept) != ""
  {
    MarkerNotEmpty();
    hide MARKER;
  }

  lemma MarkerNotEmpty()
    ensures MARKER != ""
  {
  }

  /**
    `_truncated_body`. Beyond the marker-only case the result keeps exactly `kept` characters, and a
    longer selection never fits: `kept` is the threshold of the whole family. Since the selection always
    fits, the halving loop that follows the bisection in the source has nothing left to do.
  */
  method TruncatedBody(content: string, maxTokens: nat) returns (body: string, ghost kept: nat)
    ensures EstimateTokens(MARKER) >= maxTokens ==> body == MARKER
    ensures EstimateTokens(MARKER) < maxTokens ==>
              && kept <= |content| && body == Build(content, kept)
              && EstimateTokens(body) <= maxTokens
              && (var head := kept * 6 / 10;
                  StartsWith(body, content[..head] + MARKER) && EndsWith(body, MARKER + content[|content| - (kept - head)..]) && |body| == kept + |MARKER|)
              && forall k :: 0 <= k <= |content| ==> (EstimateTokens(Build(content, k)) <= maxTokens <==> k <= kept)
  {
    hide MARKER, EstimateTokens, Build;
    kept := 0;
    if EstimateTokens(MARKER) >= maxTokens { return MARKER, 0; }
    BuildZero(content);
    var low, high := 0, |content|;
    while low < high
      invariant 0 <= low <= high <= |content|
      invariant EstimateTokens(Build(content, low)) <= maxTokens
      invariant forall k :: high < k <= |content| ==> EstimateTokens(Build(content, k)) > maxTokens
    {
      var middle := (low + high + 1) / 2;
      if EstimateTokens(Build(content, middle)) <= maxTokens {
        low := middle;
      } else {
        forall k | middle <= k <= |content| ensures EstimateTokens(Build(content, k)) > maxTokens {
          BuildMonotone(content, middle, k);
        }
        high := middle - 1;
      }
    }
    forall k | 0 <= k <= low ensures EstimateTokens(Build(content, k)) <= maxTokens {
      BuildMonotone(content, k, low);
    }
    kept := low;
    body := Build(content, low);
    BuildShape(content, low);
  }

  /** The head comes first, then the marker, then the tail. */
  lemma BuildShape(content: string, kept: nat)
    requires kept <= |content|
    ensures var body, head := Build(content, kept), kept * 6 / 10;
            StartsWith(body, content[..head] + MARKER) && EndsWith(body, MARKER + content[|content| - (kept - head)..]) && |body| == kept + |MARKER|
  {
    hide MARKER;
    var head := kept * 6 / 10;
    var left, right := content[..head] + MARKER, content[|content| - (kept - head)..];
    assert Build(content, kept) == left + right == content[..head] + (MARKER + right);
    assert (left + right)[..|left|] == left;
    assert (content[..head] + (MARKER + right))[head..] == MARKER + right;
  }

  lemma BuildZero(content: string)
    ensures Build(content, 0) == MARKER
  {
    hide MARKER;
    assert content[|content|..] == "";
  }

  /** The functional reading used where truncation is one step of a larger pass. */
  function Truncated(content: string, maxTokens: nat): string {
    if EstimateTokens(MARKER) >= maxTokens then MARKER else Build(content, Longest(content, maxTokens, |content|))
  }

  /** The largest fitting selection of at most `limit` characters, or zero. */
  function Longest(content: string, maxTokens: nat, limit: nat): (k: nat)
    requires limit <= |content|
    ensures k <= limit
  {
    if limit == 0 || EstimateTokens(Build(content, limit)) <= maxTokens then limit
    else Longest(content, maxTokens, limit - 1)
  }

  lemma {:induction false} LongestIsThreshold(content: string, maxTokens: nat, limit: nat, kept: nat)
    requires kept <= limit <= |content|
    requires forall k :: 0 <= k <= |content| ==> (EstimateTokens(Build(content, k)) <= maxTokens <==> k <= kept)
    ensures Longest(content, maxTokens, limit) == kept
  {
    hide EstimateTokens, Build;
    if limit > kept { LongestIsThreshold(content, maxTokens, limit - 1, kept); }
  }

  /** Bisection computes the linear search's answer. */
  method TruncateContent(content: string, maxTokens: nat) returns (body: string)
    ensures body == Truncated(content, maxTokens)
  {
    hide EstimateTokens, Build, MARKER;
    ghost var kept: nat;
    body, kept := TruncatedBody(content, maxTokens);
    if EstimateTokens(MARKER) < maxTokens { LongestIsThreshold(content, maxTokens, |content|, kept); }
  }
}
