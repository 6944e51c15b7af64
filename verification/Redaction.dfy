/** Secret redaction of Git diagnostics (Knuth-Morris-Pratt), against a naive definition. */
module Redaction {
  import opened Basics

  /** "[REDACTED_REMOTE]" */
  const MARKER: Text :=
    [0x5B, 0x52, 0x45, 0x44, 0x41, 0x43, 0x54, 0x45, 0x44, 0x5F, 0x52, 0x45, 0x4D, 0x4F, 0x54, 0x45, 0x5D]

  // ---------------------------------------------------------------- the naive definitions

  predicate MatchesAt(text: Text, i: nat, p: Text) {
    i + |p| <= |text| && text[i..i + |p|] == p
  }

  /** The text ends in the first k bytes of p. */
  predicate Overlap(p: Text, text: Text, k: int) {
    0 <= k <= |p| && k <= |text| && p[..k] == text[|text| - k..]
  }

  /** k is the longest proper border of p[..n]: a prefix that is also a suffix. */
  ghost predicate LongestBorder(p: Text, n: nat, k: int) {
    && 1 <= n <= |p| && 0 <= k < n && Overlap(p, p[..n], k)
    && forall j :: k < j < n ==> !Overlap(p, p[..n], j)
  }

  /** The longest secret that matches at i, 0 if none does. */
  function LongestAt(text: Text, i: nat, secrets: seq<Text>): (n: nat)
    ensures n > 0 ==> i + n <= |text|
  {
    if secrets == [] then 0
    else
      var rest := LongestAt(text, i, secrets[..|secrets| - 1]);
      var last := secrets[|secrets| - 1];
      if MatchesAt(text, i, last) && |last| > rest then |last| else rest
  }

  /** One left-to-right scan: the longest secret at a position becomes a marker, otherwise the byte is copied. */
  function NaiveFrom(text: Text, i: nat, secrets: seq<Text>, marker: Text): Text
    requires i <= |text|
    decreases |text| - i
  {
    if i == |text| then []
    else if LongestAt(text, i, secrets) == 0 then [text[i]] + NaiveFrom(text, i + 1, secrets, marker)
    else marker + NaiveFrom(text, i + LongestAt(text, i, secrets), secrets, marker)
  }

  datatype Span = Span(start: nat, end: nat)

  /** The stretches of the text the scan replaces. */
  function Spans(text: Text, i: nat, secrets: seq<Text>): seq<Span>
    requires i <= |text|
    decreases |text| - i
  {
    if i == |text| then []
    else if LongestAt(text, i, secrets) == 0 then Spans(text, i + 1, secrets)
    else [Span(i, i + LongestAt(text, i, secrets))] + Spans(text, i + LongestAt(text, i, secrets), secrets)
  }

  /** The text from i on, with the given stretches replaced. */
  function Render(text: Text, i: nat, spans: seq<Span>, marker: Text): Text
    decreases |spans|
  {
    if spans == [] then (if i <= |text| then text[i..] else [])
    else
      var s := spans[0];
      (if i <= s.start <= |text| then text[i..s.start] else []) + marker + Render(text, s.end, spans[1..], marker)
  }

  // ---------------------------------------------------------------- what the naive scan promises

  lemma {:induction false} LongestAtIsMaximum(text: Text, i: nat, secrets: seq<Text>)
    ensures forall p :: p in secrets && MatchesAt(text, i, p) ==> |p| <= LongestAt(text, i, secrets)
    ensures LongestAt(text, i, secrets) > 0 ==>
              exists p :: p in secrets && MatchesAt(text, i, p) && |p| == LongestAt(text, i, secrets)
  {
    if secrets != [] {
      var init, last := secrets[..|secrets| - 1], secrets[|secrets| - 1];
      LongestAtIsMaximum(text, i, init);
      assert secrets == init + [last];
      if LongestAt(text, i, secrets) > 0 && LongestAt(text, i, secrets) == LongestAt(text, i, init) {
        var p :| p in init && MatchesAt(text, i, p) && |p| == LongestAt(text, i, init);
        assert p in secrets;
      }
    }
  }

  lemma RenderCopied(text: Text, i: nat, spans: seq<Span>, marker: Text)
    requires i < |text| && (spans != [] ==> i < spans[0].start <= |text|)
    ensures Render(text, i, spans, marker) == [text[i]] + Render(text, i + 1, spans, marker)
  {
    if spans == [] {
      assert text[i..] == [text[i]] + text[i + 1..];
    } else {
      var s := spans[0];
      Prepend([text[i]], text[i + 1..s.start], marker, Render(text, s.end, spans[1..], marker));
      assert text[i..s.start] == [text[i]] + text[i + 1..s.start];
    }
  }

  lemma Prepend(first: Text, copied: Text, marker: Text, rest: Text)
    ensures (first + copied) + marker + rest == first + (copied + marker + rest)
  {}

  /** The scan's output is the text with exactly its spans replaced. */
  lemma {:induction false} ScanRendersSpans(text: Text, i: nat, secrets: seq<Text>, marker: Text)
    requires i <= |text|
    ensures NaiveFrom(text, i, secrets, marker) == Render(text, i, Spans(text, i, secrets), marker)
    ensures Spans(text, i, secrets) != [] ==> i <= Spans(text, i, secrets)[0].start < |text|
    decreases |text| - i
  {
    if i < |text| {
      var spans := Spans(text, i, secrets);
      var n := LongestAt(text, i, secrets);
      if n == 0 {
        ScanRendersSpans(text, i + 1, secrets, marker);
        RenderCopied(text, i, spans, marker);
      } else {
        ScanRendersSpans(text, i + n, secrets, marker);
        assert spans[1..] == Spans(text, i + n, secrets);
      }
    }
  }

  /** Stretches in order from `from` on, without overlap, each the longest match at its start. */
  predicate Chain(text: Text, spans: seq<Span>, from: nat, secrets: seq<Text>) {
    spans == []
    || (from <= spans[0].start < spans[0].end <= |text| && spans[0].end - spans[0].start == LongestAt(text, spans[0].start, secrets)
        && Chain(text, spans[1..], spans[0].end, secrets))
  }

  lemma {:induction false} ChainFromEarlier(text: Text, spans: seq<Span>, from: nat, earlier: nat, secrets: seq<Text>)
    requires Chain(text, spans, from, secrets) && earlier <= from
    ensures Chain(text, spans, earlier, secrets)
  {}

  /** The spans lie in order, without overlap, and each is the longest match at its start. */
  lemma {:induction false} SpansAreLongestMatches(text: Text, i: nat, secrets: seq<Text>)
    requires i <= |text|
    ensures Chain(text, Spans(text, i, secrets), i, secrets)
    decreases |text| - i
  {
    if i < |text| {
      var n := LongestAt(text, i, secrets);
      if n == 0 {
        SpansAreLongestMatches(text, i + 1, secrets);
        ChainFromEarlier(text, Spans(text, i + 1, secrets), i + 1, i, secrets);
      } else {
        var rest := Spans(text, i + n, secrets);
        SpansAreLongestMatches(text, i + n, secrets);
        assert ([Span(i, i + n)] + rest)[1..] == rest;
      }
    }
  }

  /** A chain is ordered and disjoint throughout. */
  lemma {:induction false} ChainIsDisjoint(text: Text, spans: seq<Span>, from: nat, secrets: seq<Text>, j: nat, k: nat)
    requires Chain(text, spans, from, secrets) && j <= k < |spans|
    ensures from <= spans[j].start < spans[j].end <= |text|
    ensures j < k ==> spans[j].end <= spans[k].start
    decreases |spans|
  {
    if k > 0 {
      ChainIsDisjoint(text, spans[1..], spans[0].end, secrets, if j > 0 then j - 1 else k - 1, k - 1);
    }
  }

  /** Every occurrence of every secret starts inside a replaced span, so no copied stretch holds one. */
  lemma {:induction false} SpansCoverSecrets(text: Text, i: nat, secrets: seq<Text>, at: nat, secret: Text)
    requires i <= at && secret in secrets && secret != [] && MatchesAt(text, at, secret)
    ensures Covered(Spans(text, i, secrets), at)
    decreases |text| - i
  {
    var spans := Spans(text, i, secrets);
    LongestAtIsMaximum(text, i, secrets);
    var n := LongestAt(text, i, secrets);
    if n == 0 {
      SpansCoverSecrets(text, i + 1, secrets, at, secret);
    } else if at < i + n {
      assert spans[0].start <= at < spans[0].end;
    } else {
      var rest := Spans(text, i + n, secrets);
      SpansCoverSecrets(text, i + n, secrets, at, secret);
      var k :| 0 <= k < |rest| && rest[k].start <= at < rest[k].end;
      assert spans[k + 1] == rest[k];
    }
  }

  ghost predicate Covered(spans: seq<Span>, at: nat) {
    exists k :: 0 <= k < |spans| && spans[k].start <= at < spans[k].end
  }

  // ---------------------------------------------------------------- borders and overlaps

  /** Below an overlap of length j, the overlaps are exactly the borders of p[..j]. */
  lemma OverlapsAreBorders(p: Text, text: Text, j: nat, k: nat)
    requires Overlap(p, text, j) && k <= j
    ensures Overlap(p, text, k) <==> Overlap(p, p[..j], k)
  {
    assert p[..j][j - k..] == text[|text| - j..][j - k..] == text[|text| - k..];
  }

  /** An overlap with one more byte of text is an overlap before it whose next pattern byte is that byte. */
  lemma OverlapStep(p: Text, text: Text, c: byte, k: nat)
    requires k < |p|
    ensures Overlap(p, text + [c], k + 1) <==> Overlap(p, text, k) && p[k] == c
  {
    if k <= |text| {
      var t := text + [c];
      assert p[..k + 1] == p[..k] + [p[k]];
      assert t[|t| - (k + 1)..] == text[|text| - k..] + [c];
      if p[..k + 1] == t[|t| - (k + 1)..] {
        assert p[..k] == p[..k + 1][..k] == t[|t| - (k + 1)..][..k] == text[|text| - k..];
        assert p[..k + 1][k] == t[|t| - (k + 1)..][k];
      }
    }
  }

  /** The longest overlap that can still be extended. */
  ghost predicate LongestBelow(p: Text, text: Text, m: int, limit: int) {
    && Overlap(p, text, m) && m < limit
    && forall k :: m < k < limit ==> !Overlap(p, text, k)
  }

  /** Every longer overlap fails on the byte c. */
  ghost predicate LongerFail(p: Text, text: Text, m: int, c: byte) {
    && Overlap(p, text, m)
    && forall k :: m < k < |p| && Overlap(p, text, k) ==> p[k] != c
  }

  ghost predicate TableFor(p: Text, table: seq<int>, upto: nat) {
    upto <= |table| && upto <= |p| && forall i :: 0 <= i < upto ==> LongestBorder(p, i + 1, table[i])
  }

  /** Falling back to the table's border loses no overlap in between. */
  lemma FallBack(p: Text, text: Text, m: int, c: byte, border: int)
    requires LongerFail(p, text, m, c) && 0 < m <= |p|
    requires m < |p| ==> p[m] != c
    requires LongestBorder(p, m, border)
    ensures LongerFail(p, text, border, c)
  {
    OverlapsAreBorders(p, text, m, border);
    forall k | border < k < |p| && Overlap(p, text, k)
      ensures p[k] != c
    {
      if k < m {
        OverlapsAreBorders(p, text, m, k);
      }
    }
  }

  /** Where the fallbacks stop is the longest overlap with the next byte included. */
  lemma Advance(p: Text, text: Text, m: int, c: byte)
    requires LongerFail(p, text, m, c) && m < |p|
    requires m > 0 ==> p[m] == c
    ensures LongestBelow(p, text + [c], if p[m] == c then m + 1 else 0, |p| + 1)
  {
    var t := text + [c];
    OverlapStep(p, text, c, m);
    forall k | (if p[m] == c then m + 1 else 0) < k < |p| + 1
      ensures !Overlap(p, t, k)
    {
      OverlapStep(p, text, c, k - 1);
    }
  }

  // ---------------------------------------------------------------- the fast form

  /** One byte of any of the three scans: fall back while the byte does not extend the overlap, then
      extend it if it does. `text` is what was scanned so far and `steps` counts the fallbacks. */
  method Step(p: Text, table: array<int>, matched: nat, c: byte, ghost text: Text) returns (next: nat, ghost steps: nat)
    requires p != [] && Overlap(p, text, matched) && forall k :: matched < k < |p| ==> !Overlap(p, text, k)
    requires matched <= table.Length && TableFor(p, table[..], matched)
    ensures LongestBelow(p, text + [c], next, |p| + 1)
    ensures steps + next <= matched + 1
  {
    next, steps := matched, 0;
    while next > 0 && (next == |p| || c != p[next])
      invariant 0 <= next <= matched && LongerFail(p, text, next, c)
      invariant steps + next <= matched
    {
      FallBack(p, text, next, c, table[next - 1]);
      next := table[next - 1];
      steps := steps + 1;
    }
    Advance(p, text, next, c);
    if c == p[next] {
      next := next + 1;
    }
  }

  /** fillSecretPrefixTable. The table is a slice of a scratch array; the rest of the scratch is left alone.
      `steps` counts the fallbacks of the inner loop. */
  method FillPrefixTable(pattern: Text, prefix: array<int>) returns (ghost steps: nat)
    requires 0 < |pattern| <= prefix.Length
    modifies prefix
    ensures TableFor(pattern, prefix[..], |pattern|)
    ensures forall j :: |pattern| <= j < prefix.Length ==> prefix[j] == old(prefix[j])
    ensures steps < |pattern|
  {
    steps := 0;
    prefix[0] := 0;
    var i, matched := 1, 0;
    while i < |pattern|
      invariant 1 <= i <= |pattern|
      invariant LongestBelow(pattern, pattern[1..i], matched, |pattern| + 1)
      invariant TableFor(pattern, prefix[..], i)
      invariant forall j :: |pattern| <= j < prefix.Length ==> prefix[j] == old(prefix[j])
      invariant steps + matched < i
    {
      ghost var fallbacks;
      matched, fallbacks := Step(pattern, prefix, matched, pattern[i], pattern[1..i]);
      steps := steps + fallbacks;
      assert pattern[1..i] + [pattern[i]] == pattern[1..i + 1];
      BorderOfPrefix(pattern, i + 1, matched);
      ghost var before := prefix[..];
      prefix[i] := matched;
      assert forall j :: 0 <= j < i ==> prefix[..][j] == before[j];
      i := i + 1;
    }
  }

  /** Scanning p itself from its second byte finds the borders of its prefixes. */
  lemma BorderOfPrefix(p: Text, n: nat, k: int)
    requires 2 <= n <= |p| && LongestBelow(p, p[1..n], k, |p| + 1)
    ensures LongestBorder(p, n, k)
  {
    forall j: nat | j < n
      ensures Overlap(p, p[..n], j) <==> Overlap(p, p[1..n], j)
    {
      assert p[..n][n - j..] == p[1..n][n - 1 - j..];
    }
  }

  /** The scan of replaceSecretVariants for one secret: `longest[s]` grows to the secret's length wherever it matches. */
  method RecordMatches(text: Text, secret: Text, prefix: array<int>, longest: array<int>) returns (ghost steps: nat)
    requires secret != [] && prefix != longest
    requires |secret| <= prefix.Length && TableFor(secret, prefix[..], |secret|)
    requires longest.Length == |text|
    modifies longest
    ensures forall s :: 0 <= s < |text| ==>
                          longest[s] == if MatchesAt(text, s, secret) && |secret| > old(longest[s]) then |secret| else old(longest[s])
    ensures steps <= |text|
  {
    steps := 0;
    var i, matched := 0, 0;
    while i < |text|
      invariant 0 <= i <= |text|
      invariant LongestBelow(secret, text[..i], matched, |secret|)
      invariant forall s :: 0 <= s < |text| ==>
                              longest[s] == if s + |secret| <= i && MatchesAt(text, s, secret) && |secret| > old(longest[s])
                                            then |secret| else old(longest[s])
      invariant steps + matched <= i
    {
      ghost var fallbacks;
      matched, fallbacks := Step(secret, prefix, matched, text[i], text[..i]);
      steps := steps + fallbacks;
      assert text[..i] + [text[i]] == text[..i + 1];
      MatchEndsHere(secret, text, i + 1, matched);
      if matched == |secret| {
        var start := i + 1 - matched;
        longest[start] := if longest[start] < matched then matched else longest[start];
        FullMatchFallsBack(secret, text[..i + 1], prefix[matched - 1]);
        matched := prefix[matched - 1];
      }
      i := i + 1;
    }
  }

  /** A secret ends at `end` exactly when the longest overlap there is the whole secret. */
  lemma MatchEndsHere(p: Text, text: Text, end: nat, m: int)
    requires end <= |text| && LongestBelow(p, text[..end], m, |p| + 1)
    ensures m == |p| <==> |p| <= end && MatchesAt(text, end - |p|, p)
  {
    assert p[..|p|] == p;
    if |p| <= end {
      assert text[..end][end - |p|..] == text[end - |p|..end];
      assert Overlap(p, text[..end], |p|) <==> MatchesAt(text, end - |p|, p);
    }
  }

  lemma FullMatchFallsBack(p: Text, text: Text, border: int)
    requires p != [] && Overlap(p, text, |p|) && LongestBorder(p, |p|, border)
    ensures LongestBelow(p, text, border, |p|)
  {
    forall k: nat | k < |p|
      ensures Overlap(p, text, k) <==> Overlap(p, p[..|p|], k)
    {
      OverlapsAreBorders(p, text, |p|, k);
    }
  }

  /** Secrets come non-empty and longest first. */
  predicate LongestFirst(secrets: seq<Text>) {
    && (forall p :: p in secrets ==> p != [])
    && forall i, j :: 0 <= i < j < |secrets| ==> |secrets[i]| >= |secrets[j]|
  }

  lemma CopiedByte(text: Text, from: nat, i: nat, secrets: seq<Text>, marker: Text)
    requires from <= i < |text| && LongestAt(text, i, secrets) == 0
    ensures text[from..i + 1] + NaiveFrom(text, i + 1, secrets, marker) == text[from..i] + NaiveFrom(text, i, secrets, marker)
  {
    assert text[from..i + 1] == text[from..i] + [text[i]];
  }

  lemma Regroup(output: Text, copied: Text, marker: Text, rest: Text)
    ensures output + (copied + (marker + rest)) == (output + copied + marker) + rest
    ensures [] + rest == rest
  {}

  /** Writing out the replacements once the longest match at every position is known. */
  method Emit(text: Text, longest: array<int>, marker: Text, ghost secrets: seq<Text>) returns (output: Text)
    requires longest.Length == |text|
    requires forall s :: 0 <= s < |text| ==> longest[s] == LongestAt(text, s, secrets)
    ensures output == NaiveFrom(text, 0, secrets, marker)
  {
    output := [];
    var from, i := 0, 0;
    while i < |text|
      invariant 0 <= from <= i <= |text|
      invariant output + (text[from..i] + NaiveFrom(text, i, secrets, marker)) == NaiveFrom(text, 0, secrets, marker)
      decreases |text| - i
    {
      if longest[i] == 0 {
        CopiedByte(text, from, i, secrets, marker);
        i := i + 1;
      } else {
        Regroup(output, text[from..i], marker, NaiveFrom(text, i + longest[i], secrets, marker));
        output := output + text[from..i] + marker;
        i := i + longest[i];
        from := i;
        assert text[from..i] == [];
      }
    }
    assert NaiveFrom(text, i, secrets, marker) == [];
    assert text[from..i] == text[from..];
    output := output + text[from..];
  }

  /** replaceSecretVariants computes the naive scan. */
  method ReplaceSecretVariants(text: Text, ordered: seq<Text>, marker: Text) returns (output: Text)
    requires LongestFirst(ordered)
    ensures output == NaiveFrom(text, 0, ordered, marker)
  {
    var prefix: array?<int> := null;
    var longest: array?<int> := null;
    var k := 0;
    while k < |ordered|
      invariant 0 <= k <= |ordered|
      invariant prefix != null ==> fresh(prefix) && forall j :: k <= j < |ordered| ==> |ordered[j]| <= prefix.Length
      invariant longest != null ==> fresh(longest) && longest.Length == |text| && longest != prefix
      invariant forall s :: 0 <= s < |text| ==>
                              LongestAt(text, s, ordered[..k]) == if longest == null then 0 else longest[s]
    {
      var secret := ordered[k];
      assert ordered[..k + 1][..|ordered[..k + 1]| - 1] == ordered[..k];
      assert secret in ordered;
      if |secret| <= |text| {
        if prefix == null {
          prefix := new int[|secret|];
        }
        var _ := FillPrefixTable(secret, prefix);
        if longest == null {
          longest := new int[|text|](_ => 0);
        }
        var _ := RecordMatches(text, secret, prefix, longest);
      }
      k := k + 1;
    }
    assert ordered[..k] == ordered;
    if longest == null {
      NoMatchAnywhere(text, 0, ordered, marker);
      return text;
    }
    output := Emit(text, longest, marker, ordered);
  }

  lemma {:induction false} NoMatchAnywhere(text: Text, i: nat, secrets: seq<Text>, marker: Text)
    requires i <= |text|
    requires forall s :: i <= s < |text| ==> LongestAt(text, s, secrets) == 0
    ensures NaiveFrom(text, i, secrets, marker) == text[i..]
    decreases |text| - i
  {
    if i < |text| {
      NoMatchAnywhere(text, i + 1, secrets, marker);
    }
  }

  /** Only the last bytes of the text, and the first of the secret, take part. */
  lemma SameOverlaps(text: Text, secret: Text, length: nat)
    requires length <= |secret| && length <= |text|
    ensures forall k :: 0 <= k <= length ==> (Overlap(secret[..length], text[|text| - length..], k) <==> Overlap(secret, text, k))
  {
    forall k | 0 <= k <= length
      ensures Overlap(secret[..length], text[|text| - length..], k) <==> Overlap(secret, text, k)
    {
      assert text[|text| - length..][length - k..] == text[|text| - k..];
      assert secret[..length][..k] == secret[..k];
    }
  }

  /** The scan of the last bytes: the longest overlap at their end. */
  method ScanTail(tail: Text, pattern: Text, prefix: array<int>) returns (matched: nat)
    requires pattern != [] && |pattern| <= prefix.Length && TableFor(pattern, prefix[..], |pattern|)
    ensures LongestBelow(pattern, tail, matched, |pattern| + 1)
  {
    matched := 0;
    assert tail[..0] == [];
    for i := 0 to |tail|
      invariant LongestBelow(pattern, tail[..i], matched, |pattern| + 1)
    {
      ghost var fallbacks;
      matched, fallbacks := Step(pattern, prefix, matched, tail[i], tail[..i]);
      assert tail[..i] + [tail[i]] == tail[..i + 1];
    }
    assert tail[..|tail|] == tail;
  }

  /** secretPrefixSuffixLength: the longest proper prefix of the secret, of four bytes or more, that ends the text. */
  method PrefixSuffixLength(text: Text, secret: Text) returns (n: nat)
    ensures n == 0 || (4 <= n < |secret| && Overlap(secret, text, n))
    ensures forall k :: 4 <= k < |secret| && Overlap(secret, text, k) ==> k <= n
  {
    var length := if |secret| - 1 < |text| then |secret| - 1 else |text|;
    if length < 4 {
      return 0;
    }
    var pattern := secret[..length];
    var prefix := new int[length];
    var _ := FillPrefixTable(pattern, prefix);
    var matched := ScanTail(text[|text| - length..], pattern, prefix);
    SameOverlaps(text, secret, length);
    n := if matched < 4 then 0 else matched;
  }

  /** The length of the protected tail: the longest such prefix over all secrets. */
  ghost predicate LongestTail(text: Text, secrets: seq<Text>, n: nat) {
    && (n == 0 || exists p :: p in secrets && 4 <= n < |p| && Overlap(p, text, n))
    && forall p, k :: p in secrets && 4 <= k < |p| && Overlap(p, text, k) ==> k <= n
  }

  lemma OnePattern(text: Text, at: nat, p: Text)
    ensures LongestAt(text, at, [p]) == if MatchesAt(text, at, p) then |p| else 0
  {
    assert [p][..0] == [];
  }

  lemma MatchStep(text: Text, at: nat, p: Text, marker: Text)
    requires p != [] && MatchesAt(text, at, p)
    ensures NaiveFrom(text, at, [p], marker) == marker + NaiveFrom(text, at + |p|, [p], marker)
  {
    OnePattern(text, at, p);
  }

  /** The first occurrence of the pattern at or after `start`, and what the naive scan does up to it. */
  method IndexFrom(text: Text, start: nat, pattern: Text, ghost marker: Text) returns (at: nat)
    requires start <= |text|
    ensures start <= at <= |text|
    ensures at < |text| ==> MatchesAt(text, at, pattern)
    ensures text[start..at] + NaiveFrom(text, at, [pattern], marker) == NaiveFrom(text, start, [pattern], marker)
  {
    at := start;
    assert text[start..at] == [];
    while at < |text| && !MatchesAt(text, at, pattern)
      invariant start <= at <= |text|
      invariant text[start..at] + NaiveFrom(text, at, [pattern], marker) == NaiveFrom(text, start, [pattern], marker)
    {
      OnePattern(text, at, pattern);
      CopiedByte(text, start, at, [pattern], marker);
      at := at + 1;
    }
  }

  lemma ReplaceStep(text: Text, start: nat, at: nat, p: Text, marker: Text, output: Text)
    requires p != [] && start <= at && MatchesAt(text, at, p)
    requires text[start..at] + NaiveFrom(text, at, [p], marker) == NaiveFrom(text, start, [p], marker)
    ensures output + NaiveFrom(text, start, [p], marker)
         == output + text[start..at] + marker + NaiveFrom(text, at + |p|, [p], marker)
  {
    MatchStep(text, at, p, marker);
    Regroup(output, text[start..at], marker, NaiveFrom(text, at + |p|, [p], marker));
  }

  /** `at` is the first occurrence from `start` on, or the end of the text. */
  ghost predicate FoundAt(text: Text, start: nat, at: nat, p: Text, marker: Text) {
    && start <= at <= |text| && (at < |text| ==> MatchesAt(text, at, p))
    && text[start..at] + NaiveFrom(text, at, [p], marker) == NaiveFrom(text, start, [p], marker)
  }

  /** One round of ReplaceAll. */
  method ReplaceNext(text: Text, start: nat, at: nat, pattern: Text, marker: Text, output: Text)
    returns (longer: Text, next: nat, found: nat)
    requires pattern != [] && FoundAt(text, start, at, pattern, marker) && at < |text|
    ensures FoundAt(text, next, found, pattern, marker) && found > at
    ensures longer + NaiveFrom(text, next, [pattern], marker) == output + NaiveFrom(text, start, [pattern], marker)
  {
    ReplaceStep(text, start, at, pattern, marker, output);
    longer, next := output + text[start..at] + marker, at + |pattern|;
    found := IndexFrom(text, next, pattern, marker);
  }

  /** strings.ReplaceAll of a non-empty pattern: cut at each first remaining occurrence. */
  method ReplaceAll(text: Text, pattern: Text, marker: Text) returns (output: Text)
    requires pattern != []
    ensures output == NaiveFrom(text, 0, [pattern], marker)
  {
    output := [];
    var start: nat := 0;
    var at := IndexFrom(text, 0, pattern, marker);
    while at < |text|
      invariant FoundAt(text, start, at, pattern, marker)
      invariant output + NaiveFrom(text, start, [pattern], marker) == NaiveFrom(text, 0, [pattern], marker)
      decreases |text| - at
    {
      output, start, at := ReplaceNext(text, start, at, pattern, marker, output);
    }
    assert NaiveFrom(text, at, [pattern], marker) == [];
    output := output + text[start..];
  }

  predicate EndsIn(text: Text, marker: Text) {
    |text| >= |marker| && text[|text| - |marker|..] == marker
  }

  /** `redacted` is `scanned` with its last `tail` bytes, the longest cut-off secret, turned into a marker. */
  ghost predicate ProtectedTail(scanned: Text, secrets: seq<Text>, marker: Text, tail: nat, redacted: Text) {
    && tail <= |scanned|
    && (if EndsIn(scanned, marker) then tail == 0 else LongestTail(scanned, secrets, tail))
    && redacted == if tail > 0 then scanned[..|scanned| - tail] + marker else scanned
  }

  /** The replacement step of redact: a single secret takes the library's ReplaceAll, which agrees. */
  method Scan(text: Text, ordered: seq<Text>, marker: Text) returns (scanned: Text)
    requires LongestFirst(ordered)
    ensures scanned == NaiveFrom(text, 0, ordered, marker)
  {
    if |ordered| == 1 {
      assert ordered[0] in ordered && ordered == [ordered[0]];
      scanned := ReplaceAll(text, ordered[0], marker);
    } else if |ordered| > 1 {
      scanned := ReplaceSecretVariants(text, ordered, marker);
    } else {
      NoMatchAnywhere(text, 0, ordered, marker);
      scanned := text;
    }
  }

  /** The short-circuited loop of redact still finds the maximum over all secrets. */
  method TailLength(scanned: Text, ordered: seq<Text>) returns (tail: nat)
    ensures LongestTail(scanned, ordered, tail) && tail <= |scanned|
  {
    tail := 0;
    for k := 0 to |ordered|
      invariant LongestTail(scanned, ordered[..k], tail) && tail <= |scanned|
    {
      var secret := ordered[k];
      assert ordered[..k + 1] == ordered[..k] + [secret];
      if |secret| - 1 > tail {
        var n := PrefixSuffixLength(scanned, secret);
        tail := if tail < n then n else tail;
      }
    }
    assert ordered[..|ordered|] == ordered;
  }

  /** redact, up to the final rewriting of URL user information: the naive scan's output with a cut-off
      secret at its very end protected as well. */
  method RedactWith(text: Text, ordered: seq<Text>, marker: Text) returns (redacted: Text)
    requires LongestFirst(ordered)
    ensures exists tail :: ProtectedTail(NaiveFrom(text, 0, ordered, marker), ordered, marker, tail, redacted)
  {
    var scanned := Scan(text, ordered, marker);
    var tail: nat := 0;
    if !EndsIn(scanned, marker) {
      tail := TailLength(scanned, ordered);
    }
    redacted := if tail > 0 then scanned[..|scanned| - tail] + marker else scanned;
    assert ProtectedTail(scanned, ordered, marker, tail, redacted);
  }

  /** redact with the marker it writes. */
  method Redact(text: Text, ordered: seq<Text>) returns (redacted: Text)
    requires LongestFirst(ordered)
    ensures exists tail :: ProtectedTail(NaiveFrom(text, 0, ordered, MARKER), ordered, MARKER, tail, redacted)
  {
    redacted := RedactWith(text, ordered, MARKER);
  }
}
