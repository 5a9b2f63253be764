/**
 * An independent description of what the tokenizer computes: a line is a
 * sequence of words separated by runs of delimiters, with optional runs of
 * delimiters before the first and after the last word. The tokens of a line
 * are exactly the words of its (unique) layout, in order.
 */
module TokenLayout {

  import opened Wrappers
  import opened Tokenizer

  /** The line `gaps[0] + ts[0] + gaps[1] + ... + ts[n-1] + gaps[n]`. */
  function Interleave(gaps: seq<string>, ts: seq<string>): (line: string)
    requires |gaps| == |ts| + 1
    decreases ts
  {
    if ts == [] then gaps[0] else gaps[0] + ts[0] + Interleave(gaps[1..], ts[1..])
  }

  /**
   * Words separated by delimiter runs: every gap holds only delimiters, and
   * every gap between two words holds at least one.
   */
  predicate ValidLayout(gaps: seq<string>, ts: seq<string>) {
    && |gaps| == |ts| + 1
    && (forall i :: 0 <= i < |ts| ==> IsWord(ts[i]))
    && (forall i :: 0 <= i < |gaps| ==> AllDelims(gaps[i]))
    && (forall i :: 0 < i < |ts| ==> |gaps[i]| > 0)
  }

  /** A delimiter-free word followed by a delimiter or nothing is one whole run. */
  lemma WordRunOfWord(t: string, rest: string)
    requires IsWord(t)
    requires rest == [] || IsDelim(rest[0])
    ensures WordRun(t + rest) == |t|
  {
    WordRunStops(t + rest);
    assert forall i :: 0 <= i < |t| ==> (t + rest)[i] == t[i];
    assert |rest| > 0 ==> (t + rest)[|t|] == rest[0];
  }

  /** A run of delimiters followed by a word is one whole run. */
  lemma DelimRunOfGap(g: string, w: string)
    requires AllDelims(g) && |w| > 0 && !IsDelim(w[0])
    ensures DelimRun(g + w) == |g|
  {
    DelimRunStops(g + w);
    assert forall i :: 0 <= i < |g| ==> (g + w)[i] == g[i];
    assert (g + w)[|g|] == w[0];
  }

  /** Scanning a word that a delimiter (or the end of the text) closes. */
  lemma NextTokenOfLayout(g: string, t: string, rest: string)
    requires AllDelims(g) && IsWord(t)
    requires rest == [] || IsDelim(rest[0])
    ensures NextToken(g + t + rest) == Some((t, rest))
  {
    var s := g + t + rest;
    assert s == g + (t + rest);
    DelimRunOfGap(g, t + rest);
    var k := DelimRun(s);
    assert s[k..] == t + rest;
    WordRunOfWord(t, rest);
    var n := WordRun(s[k..]);
    assert s[k..k + n] == t;
    assert s[k + n..] == rest;
  }

  /** Dropping the first word and gap of a layout leaves a layout. */
  lemma LayoutTail(gaps: seq<string>, ts: seq<string>)
    requires ValidLayout(gaps, ts) && ts != []
    ensures ValidLayout(gaps[1..], ts[1..])
  {
  }

  /** What follows the first word of a layout opens with a delimiter, if anything. */
  lemma LayoutRestOpens(gaps: seq<string>, ts: seq<string>)
    requires ValidLayout(gaps, ts) && ts != []
    ensures var rest := Interleave(gaps[1..], ts[1..]);
            rest == [] || IsDelim(rest[0])
  {
  }

  /** Soundness: the tokens of a line laid out from words are those words. */
  lemma {:induction false} TokensOfLayout(gaps: seq<string>, ts: seq<string>)
    requires ValidLayout(gaps, ts)
    ensures AllTokens(Interleave(gaps, ts)) == ts
    decreases ts
  {
    if ts != [] {
      var rest := Interleave(gaps[1..], ts[1..]);
      assert AllDelims(gaps[0]) && IsWord(ts[0]);
      LayoutRestOpens(gaps, ts);
      NextTokenOfLayout(gaps[0], ts[0], rest);
      assert Interleave(gaps, ts) == gaps[0] + ts[0] + rest;
      LayoutTail(gaps, ts);
      TokensOfLayout(gaps[1..], ts[1..]);
      assert ts == [ts[0]] + ts[1..];
    } else {
      assert AllDelims(gaps[0]);
    }
  }

  /** The gaps of a line: the delimiter runs around its tokens. */
  function LayoutOf(s: string): (gaps: seq<string>)
    ensures |gaps| > 0 && |gaps[0]| == DelimRun(s)
    decreases |s|
  {
    var k := DelimRun(s);
    if k == |s| then [s]
    else
      var n := WordRun(s[k..]);
      [s[..k]] + LayoutOf(s[k + n..])
  }

  /** The first token of a line spans `s[k..k + n]`. */
  lemma TokensStep(s: string, k: nat, n: nat)
    requires k == DelimRun(s) < |s| && n == WordRun(s[k..])
    ensures NextToken(s).Some?
    ensures NextToken(s).value.0 == s[k..k + n]
    ensures NextToken(s).value.1 == s[k + n..]
  {
  }

  /** A token is followed by a delimiter or by nothing. */
  lemma TokenEndsAtDelim(s: string, k: nat, n: nat)
    requires k <= |s| && n == WordRun(s[k..])
    ensures s[k + n..] == [] || IsDelim(s[k + n..][0])
  {
    WordRunStops(s[k..]);
    assert k + n < |s| ==> s[k + n..][0] == s[k..][n];
  }

  /** The tokens of a line are its next token followed by the tokens of the rest. */
  lemma TokensUnfold(s: string, token: string, rest: string)
    requires NextToken(s) == Some((token, rest))
    ensures AllTokens(s) == [token] + AllTokens(rest)
  {
  }

  /** Unfolding the gaps of a line past its first token, which spans `s[k..k + n]`. */
  lemma LayoutOfStep(s: string, k: nat, n: nat)
    requires k == DelimRun(s) < |s| && n == WordRun(s[k..])
    ensures LayoutOf(s) == [s[..k]] + LayoutOf(s[k + n..])
  {
  }

  /** A sequence is the concatenation of its three pieces cut at `i` and `j`. */
  lemma SplitThree<T>(s: seq<T>, i: nat, j: nat)
    requires i <= j <= |s|
    ensures s == s[..i] + s[i..j] + s[j..]
  {
  }

  /** Putting a gap and a word in front of a layout gives a layout. */
  lemma LayoutCons(g: string, t: string, gaps: seq<string>, ts: seq<string>)
    requires ValidLayout(gaps, ts) && AllDelims(g) && IsWord(t)
    requires ts != [] ==> |gaps[0]| > 0
    ensures ValidLayout([g] + gaps, [t] + ts)
    ensures Interleave([g] + gaps, [t] + ts) == g + t + Interleave(gaps, ts)
  {
  }

  /** A blank line is the layout of no words: one gap holding the whole line. */
  lemma LayoutOfBlank(s: string)
    requires DelimRun(s) == |s|
    ensures ValidLayout(LayoutOf(s), AllTokens(s))
    ensures Interleave(LayoutOf(s), AllTokens(s)) == s
  {
    assert AllDelims(s);
    assert LayoutOf(s) == [s] && AllTokens(s) == [];
  }

  /** A gap and a word in front of the layout of what follows them. */
  lemma LayoutGrow(s: string, g: string, t: string, rest: string, gaps: seq<string>, ts: seq<string>)
    requires s == g + t + rest && AllDelims(g) && IsWord(t)
    requires rest == [] || IsDelim(rest[0])
    requires ValidLayout(gaps, ts) && Interleave(gaps, ts) == rest
    ensures ValidLayout([g] + gaps, [t] + ts)
    ensures Interleave([g] + gaps, [t] + ts) == s
  {
    assert ts != [] ==> rest[|gaps[0]|] == ts[0][0];
    LayoutCons(g, t, gaps, ts);
  }

  /** Completeness: every line is the layout of its own tokens. */
  lemma {:induction false} LayoutOfTokens(s: string)
    ensures ValidLayout(LayoutOf(s), AllTokens(s))
    ensures Interleave(LayoutOf(s), AllTokens(s)) == s
    decreases |s|
  {
    var k := DelimRun(s);
    if k < |s| {
      var n := WordRun(s[k..]);
      var token, rest := s[k..k + n], s[k + n..];
      LayoutOfTokens(rest);
      TokensStep(s, k, n);
      TokenEndsAtDelim(s, k, n);
      TokensUnfold(s, token, rest);
      LayoutOfStep(s, k, n);
      SplitThree(s, k, k + n);
      LayoutGrow(s, s[..k], token, rest, LayoutOf(rest), AllTokens(rest));
    } else {
      LayoutOfBlank(s);
    }
  }

  /** The tokens of a line are exactly the words of a delimiter layout of it. */
  lemma TokensIffLayout(line: string, ts: seq<string>)
    ensures AllTokens(line) == ts <==>
            exists gaps :: ValidLayout(gaps, ts) && Interleave(gaps, ts) == line
  {
    LayoutOfTokens(line);
    if exists gaps :: ValidLayout(gaps, ts) && Interleave(gaps, ts) == line {
      var gaps :| ValidLayout(gaps, ts) && Interleave(gaps, ts) == line;
      TokensOfLayout(gaps, ts);
    }
  }

  /**
   * What `procesar_comando` stores for a line laid out from words: the words
   * themselves, cut after the first `MAX_ARGS - 1`.
   */
  lemma TokenizeLayout(gaps: seq<string>, ts: seq<string>)
    requires ValidLayout(gaps, ts)
    ensures Tokenize(Interleave(gaps, ts)) == Take(ts, MaxTokens)
  {
    TokensOfLayout(gaps, ts);
    ScanIsPrefix(Interleave(gaps, ts), MaxTokens);
  }
}
