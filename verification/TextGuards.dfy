/** Guards on the text sent to the model: the overlapping injection scan and the trim. */
module TextGuards {
  import opened Wrappers

  const INJECTION_CHUNK := 32000
  const INJECTION_OVERLAP := 2048

  const INJECTION_PATTERNS: seq<string> := [
    "ignore all previous instructions",
    "ignore previous instructions",
    "system prompt",
    "you are now",
    "disregard instructions",
    "do not follow the instructions",
    "override instructions"]

  // ------------------------------------------------------------ the chunked scan

  predicate OccursAt(text: string, pattern: string, q: nat) {
    q + |pattern| <= |text| && text[q..q + |pattern|] == pattern
  }

  predicate Occurs(text: string, pattern: string) {
    exists q: nat | q <= |text| :: OccursAt(text, pattern, q)
  }

  predicate AnyOccurs(text: string, patterns: seq<string>) {
    exists i | 0 <= i < |patterns| :: Occurs(text, patterns[i])
  }

  function Chunk(text: string, start: nat, size: nat): string
    requires start <= |text|
  {
    if start + size <= |text| then text[start..start + size] else text[start..]
  }

  /** An occurrence in a chunk is one in the text. */
  lemma ChunkOccursInText(text: string, start: nat, size: nat, pattern: string)
    requires start <= |text| && Occurs(Chunk(text, start, size), pattern)
    ensures Occurs(text, pattern)
  {
    var q: nat :| q <= |Chunk(text, start, size)| && OccursAt(Chunk(text, start, size), pattern, q);
    var chunk := Chunk(text, start, size);
    assert forall i | 0 <= i < |chunk| :: chunk[i] == text[start + i];
    assert text[start + q..start + q + |pattern|] == chunk[q..q + |pattern|];
    assert OccursAt(text, pattern, start + q);
  }

  /** An occurrence lies whole in every chunk that starts at most `stride - 1` before it. */
  lemma TextOccursInChunk(text: string, start: nat, size: nat, overlap: nat, pattern: string, q: nat)
    requires overlap < size && 1 <= |pattern| <= overlap + 1
    requires start <= q < start + (size - overlap) && OccursAt(text, pattern, q)
    ensures start <= |text| && Occurs(Chunk(text, start, size), pattern)
  {
    var chunk := Chunk(text, start, size);
    var found := chunk[q - start..q - start + |pattern|];
    forall k | 0 <= k < |pattern| ensures found[k] == text[q..q + |pattern|][k] {
      assert found[k] == chunk[q - start + k] == text[q + k];
    }
    assert OccursAt(chunk, pattern, q - start);
  }

  /** `check_for_prompt_injection`, for any chunk size, overlap and patterns: scanning
      chunks finds a pattern exactly when scanning the whole lower-cased text would. */
  method CheckForPromptInjection(text: string, lower: string -> string, patterns: seq<string>, size: nat, overlap: nat)
    returns (flagged: bool)
    requires overlap < size
    requires forall i | 0 <= i < |patterns| :: 1 <= |patterns[i]| <= overlap + 1
    requires lower("") == ""
    ensures flagged <==> AnyOccurs(lower(text), patterns)
  {
    if text == "" {
      assert forall i | 0 <= i < |patterns| :: !Occurs("", patterns[i]);
      return false;
    }
    var scanText := lower(text);
    var start := 0;
    while start < |scanText|
      invariant 0 <= start
      invariant forall i, q: nat | 0 <= i < |patterns| && q < start :: !OccursAt(scanText, patterns[i], q)
      decreases |scanText| - start
    {
      var found := ContainsAny(Chunk(scanText, start, size), patterns);
      if found {
        var i :| 0 <= i < |patterns| && Occurs(Chunk(scanText, start, size), patterns[i]);
        ChunkOccursInText(scanText, start, size, patterns[i]);
        return true;
      }
      forall i, q: nat | 0 <= i < |patterns| && start <= q < start + (size - overlap)
        ensures !OccursAt(scanText, patterns[i], q)
      {
        if OccursAt(scanText, patterns[i], q) {
          TextOccursInChunk(scanText, start, size, overlap, patterns[i], q);
        }
      }
      start := start + (size - overlap);
    }
    return false;
  }

  /** `any(pattern in chunk for pattern in patterns)` */
  method ContainsAny(chunk: string, patterns: seq<string>) returns (found: bool)
    ensures found <==> AnyOccurs(chunk, patterns)
  {
    for i := 0 to |patterns|
      invariant forall j | 0 <= j < i :: !Occurs(chunk, patterns[j])
    {
      if Occurs(chunk, patterns[i]) {
        return true;
      }
    }
    return false;
  }

  /** The shipped constants meet the scan's condition. */
  lemma ShippedPatternsFit()
    ensures INJECTION_CHUNK == 32000 && INJECTION_OVERLAP == 2048
    ensures INJECTION_OVERLAP < INJECTION_CHUNK
    ensures forall i | 0 <= i < |INJECTION_PATTERNS| :: 1 <= |INJECTION_PATTERNS[i]| <= INJECTION_OVERLAP + 1
  {
  }

  /** What the shipped scan looks for. */
  lemma ShippedPhrases(text: string)
    ensures AnyOccurs(text, INJECTION_PATTERNS) <==>
      || Occurs(text, "ignore all previous instructions") || Occurs(text, "ignore previous instructions")
      || Occurs(text, "system prompt") || Occurs(text, "you are now") || Occurs(text, "disregard instructions")
      || Occurs(text, "do not follow the instructions") || Occurs(text, "override instructions")
  {
    var p := INJECTION_PATTERNS;
    assert p[0] == "ignore all previous instructions" && p[1] == "ignore previous instructions" && p[2] == "system prompt";
    assert p[3] == "you are now" && p[4] == "disregard instructions" && p[5] == "do not follow the instructions";
    assert p[6] == "override instructions";
  }

  function Fill(c: char, n: nat): (s: string)
    ensures |s| == n && forall i | 0 <= i < n :: s[i] == c
  {
    seq(n, _ => c)
  }

  /** Where the k-th chunk starts. */
  function ChunkStart(k: nat, size: nat, overlap: nat): nat
    requires overlap < size
  {
    k * (size - overlap)
  }

  /** The bound is tight: for every chunk size and overlap there is a text with a pattern
      of length overlap + 2 that no chunk contains. */
  lemma LongerPatternCanHide(size: nat, overlap: nat)
    requires overlap < size
    ensures var pattern := Fill('b', overlap + 2);
      var text := Fill('a', size - overlap - 1) + pattern;
      && Occurs(text, pattern)
      && forall k: nat | ChunkStart(k, size, overlap) < |text| ::
           !Occurs(Chunk(text, ChunkStart(k, size, overlap), size), pattern)
  {
    var pattern := Fill('b', overlap + 2);
    var text := Fill('a', size - overlap - 1) + pattern;
    assert text[size - overlap - 1..] == pattern;
    assert OccursAt(text, pattern, size - overlap - 1);
    forall k: nat | ChunkStart(k, size, overlap) < |text|
      ensures !Occurs(Chunk(text, ChunkStart(k, size, overlap), size), pattern)
    {
      assert k >= 1 ==> ChunkStart(k, size, overlap) >= size - overlap by {
        assert k >= 1 ==> (k - 1) * (size - overlap) >= 0;
      }
      ChunkMissesPattern(text, pattern, size, overlap, ChunkStart(k, size, overlap));
    }
  }

  lemma ChunkMissesPattern(text: string, pattern: string, size: nat, overlap: nat, start: nat)
    requires overlap < size && pattern == Fill('b', overlap + 2)
    requires text == Fill('a', size - overlap - 1) + pattern
    requires start < |text| && (start == 0 || start >= size - overlap)
    ensures !Occurs(Chunk(text, start, size), pattern)
  {
    var chunk := Chunk(text, start, size);
    forall q: nat | q <= |chunk| ensures !OccursAt(chunk, pattern, q) {
      if q + |pattern| <= |chunk| {
        assert chunk[q..q + |pattern|][0] == chunk[q] == 'a';
      }
    }
  }

  // -------------------------------------------------------------------- the trim

  datatype TrimResult = TrimResult(text: string, charCount: nat, estimatedTokens: nat)

  /** An optional tokenizer: how many tokens a text has, and the text of its first n. */
  datatype Tokenizer = Tokenizer(count: string -> nat, firstTokens: (string, nat) -> string)

  function Ceil(x: real): int {
    -((-x).Floor)
  }

  function EstimateTokens(text: string, charsPerToken: real): (n: nat)
    requires charsPerToken > 0.0
    ensures n >= 1
  {
    var c := Ceil(|text| as real / charsPerToken);
    if c > 1 then c else 1
  }

  function Prefix(text: string, cap: nat): string {
    if cap <= |text| then text[..cap] else text
  }

  function TrimToTokenLimit(text: string, maxTokens: nat, charsPerToken: real, tok: Option<Tokenizer>): TrimResult
    requires charsPerToken > 0.0
  {
    if text == "" then TrimResult("", 0, 0)
    else
      var pretrimmed := Prefix(text, (maxTokens as real * charsPerToken).Floor);
      match tok
      case None => TrimResult(pretrimmed, |pretrimmed|, EstimateTokens(pretrimmed, charsPerToken))
      case Some(t) =>
        var tokens := t.count(pretrimmed);
        if tokens <= maxTokens then TrimResult(pretrimmed, |pretrimmed|, tokens)
        else
          var decoded := t.firstTokens(pretrimmed, maxTokens);
          TrimResult(decoded, |decoded|, maxTokens)
  }

  lemma CeilWithin(x: real, m: int)
    ensures Ceil(x) <= m <==> x <= m as real
  {
  }

  lemma DivideWithin(x: real, m: real, c: real)
    requires c > 0.0
    ensures x / c <= m <==> x <= m * c
  {
    assert (x / c) * c == x;
    if x / c <= m {
      assert (m - x / c) * c >= 0.0;
    } else {
      assert (x / c - m) * c > 0.0;
    }
  }

  /** The estimate is the least number of tokens, at least one, that holds the text. */
  lemma EstimateIsLeast(text: string, charsPerToken: real, n: nat)
    requires charsPerToken > 0.0
    ensures EstimateTokens(text, charsPerToken) <= n <==> n >= 1 && |text| as real <= n as real * charsPerToken
  {
    DivideWithin(|text| as real, n as real, charsPerToken);
    CeilWithin(|text| as real / charsPerToken, n);
  }

  /** With a tokenizer: the text cut to the limit in characters if its tokens fit, else its
      first tokens, and in either case the exact count. */
  lemma TokenizerDecides(text: string, maxTokens: nat, charsPerToken: real, t: Tokenizer)
    requires charsPerToken > 0.0 && text != ""
    ensures var r := TrimToTokenLimit(text, maxTokens, charsPerToken, Some(t));
      exists cut :: cut <= text
        && (cut == text || |cut| == (maxTokens as real * charsPerToken).Floor)
        && |cut| as real <= maxTokens as real * charsPerToken
        && (if t.count(cut) <= maxTokens then r == TrimResult(cut, |cut|, t.count(cut))
            else r.text == t.firstTokens(cut, maxTokens) && r.charCount == |r.text| && r.estimatedTokens == maxTokens)
  {
    var cap := maxTokens as real * charsPerToken;
    assert cap >= 0.0;
    var cut := Prefix(text, cap.Floor);
    assert cut <= text;
  }

  /** Nothing is cut from a text within the limit in characters. */
  lemma ShortTextStays(text: string, maxTokens: nat, charsPerToken: real)
    requires charsPerToken > 0.0 && |text| as real <= maxTokens as real * charsPerToken
    ensures TrimToTokenLimit(text, maxTokens, charsPerToken, None).text == text
  {
  }

  /** The estimate stays within the limit exactly when there is nothing to send or the
      limit allows a token (or a tokenizer counts); without one the text is a prefix. */
  lemma TrimWithinLimit(text: string, maxTokens: nat, charsPerToken: real, tok: Option<Tokenizer>)
    requires charsPerToken > 0.0
    ensures var r := TrimToTokenLimit(text, maxTokens, charsPerToken, tok);
      && (r.estimatedTokens <= maxTokens <==> text == "" || maxTokens >= 1 || tok.Some?)
      && r.charCount == |r.text|
      && (tok.None? || r.estimatedTokens < maxTokens ==> r.text <= text)
      && (tok.None? && r.text != text ==> |r.text| == (maxTokens as real * charsPerToken).Floor)
  {
    var cap := maxTokens as real * charsPerToken;
    assert cap >= 0.0;
    var pretrimmed := Prefix(text, cap.Floor);
    assert |pretrimmed| as real <= cap;
    DivideWithin(|pretrimmed| as real, maxTokens as real, charsPerToken);
    CeilWithin(|pretrimmed| as real / charsPerToken, maxTokens);
  }
}
