/**
 * The tokenizer at the top of `procesar_comando`: the line is split with
 * `strtok` on the delimiter set " \t\n", so runs of delimiters collapse and
 * empty tokens never appear, and at most `MAX_ARGS - 1` tokens are kept.
 *
 * A line is the text of the C string handed to `procesar_comando`, i.e. the
 * characters before its terminating NUL.
 */
module Tokenizer {

  import opened Wrappers

  /** `MAX_ARGS`: the size of the argument array, including its NULL terminator. */
  const MaxArgs: nat := 100

  /** The most tokens the loop stores before it stops asking `strtok`. */
  const MaxTokens: nat := MaxArgs - 1

  /** Membership in the `strtok` delimiter set " \t\n". */
  predicate IsDelim(c: char) {
    c == ' ' || c == '\t' || c == '\n'
  }

  /** A string made only of delimiters (possibly empty). */
  predicate AllDelims(s: string) {
    forall i :: 0 <= i < |s| ==> IsDelim(s[i])
  }

  /** A string free of delimiters (possibly empty). */
  predicate NoDelims(s: string) {
    forall i :: 0 <= i < |s| ==> !IsDelim(s[i])
  }

  /** A well-formed token: non-empty and free of delimiters. */
  predicate IsWord(w: string) {
    |w| > 0 && NoDelims(w)
  }

  /** The first step of `strtok`: the number of leading delimiters to skip. */
  function DelimRun(s: string): (n: nat)
    ensures n <= |s|
    ensures forall i :: 0 <= i < n ==> IsDelim(s[i])
  {
    if |s| > 0 && IsDelim(s[0]) then 1 + DelimRun(s[1..]) else 0
  }

  /** The delimiter run is maximal: what follows it is not a delimiter. */
  lemma DelimRunStops(s: string)
    ensures DelimRun(s) < |s| ==> !IsDelim(s[DelimRun(s)])
  {
    if |s| > 0 && IsDelim(s[0]) {
      DelimRunStops(s[1..]);
    }
  }

  /** The second step of `strtok`: the length of the leading delimiter-free run. */
  function WordRun(s: string): (n: nat)
    ensures n <= |s|
    ensures forall i :: 0 <= i < n ==> !IsDelim(s[i])
  {
    if |s| == 0 || IsDelim(s[0]) then 0 else 1 + WordRun(s[1..])
  }

  /** The word run is maximal: what follows it is a delimiter. */
  lemma WordRunStops(s: string)
    ensures WordRun(s) < |s| ==> IsDelim(s[WordRun(s)])
  {
    if |s| > 0 && !IsDelim(s[0]) {
      WordRunStops(s[1..]);
    }
  }

  /**
   * One call of `strtok`: the next token and the text the following call
   * scans, or None when only delimiters remain. `strtok` overwrites the
   * delimiter that ends the token with NUL and resumes after it; resuming at
   * that delimiter instead scans the same tokens, because it is skipped.
   */
  function NextToken(s: string): (r: Option<(string, string)>)
    ensures r.None? <==> AllDelims(s)
    ensures r.Some? ==> IsWord(r.value.0) && |r.value.1| < |s|
  {
    DelimRunStops(s);
    var k := DelimRun(s);
    if k == |s| then
      None
    else
      var n := WordRun(s[k..]);
      Some((s[k..k + n], s[k + n..]))
  }

  /** Every token `strtok` would return for `s`, with no cap on their number. */
  function AllTokens(s: string): (ts: seq<string>)
    ensures forall i :: 0 <= i < |ts| ==> IsWord(ts[i])
    ensures ts == [] <==> AllDelims(s)
    decreases |s|
  {
    match NextToken(s)
    case None => []
    case Some((token, rest)) => [token] + AllTokens(rest)
  }

  /**
   * The `while (token != NULL && i < MAX_ARGS - 1)` loop with `budget`
   * slots left in the argument array.
   */
  function Scan(s: string, budget: nat): (ts: seq<string>)
    ensures |ts| <= budget
    ensures forall i :: 0 <= i < |ts| ==> IsWord(ts[i])
    decreases |s|
  {
    if budget == 0 then []
    else
      match NextToken(s)
      case None => []
      case Some((token, rest)) => [token] + Scan(rest, budget - 1)
  }

  /** The argument vector `args[0..i)` that `procesar_comando` builds. */
  function Tokenize(line: string): (args: seq<string>)
    ensures |args| <= MaxTokens
    ensures forall i :: 0 <= i < |args| ==> IsWord(args[i])
  {
    Scan(line, MaxTokens)
  }

  /** The first `n` elements of `xs`, or all of them when there are fewer. */
  function Take<T>(xs: seq<T>, n: nat): (r: seq<T>) {
    if |xs| <= n then xs else xs[..n]
  }

  /** Capping commutes with putting one element in front. */
  lemma TakeCons<T>(x: T, tail: seq<T>, n: nat)
    requires n > 0
    ensures Take([x] + tail, n) == [x] + Take(tail, n - 1)
  {
  }

  /** Unfolding both scans once past a token. */
  lemma ScansStep(s: string, budget: nat, token: string, rest: string)
    requires budget > 0 && NextToken(s) == Some((token, rest))
    ensures Scan(s, budget) == [token] + Scan(rest, budget - 1)
    ensures AllTokens(s) == [token] + AllTokens(rest)
  {
  }

  /** The scan keeps the first `budget` tokens, in order, and drops the rest. */
  lemma {:induction false} ScanIsPrefix(s: string, budget: nat)
    ensures Scan(s, budget) == Take(AllTokens(s), budget)
    decreases |s|
  {
    if budget > 0 && NextToken(s).Some? {
      var token := NextToken(s).value.0;
      var rest := NextToken(s).value.1;
      ScansStep(s, budget, token, rest);
      ScanIsPrefix(rest, budget - 1);
      TakeCons(token, AllTokens(rest), budget);
    }
  }

  /** With at most 99 words every one is kept; with more, the first 99 are. */
  lemma TokenizeCapsAtMaxTokens(line: string)
    ensures |AllTokens(line)| <= MaxTokens ==> Tokenize(line) == AllTokens(line)
    ensures |AllTokens(line)| > MaxTokens ==> Tokenize(line) == AllTokens(line)[..MaxTokens]
  {
    ScanIsPrefix(line, MaxTokens);
  }

  /** An empty or delimiter-only line, and only such a line, yields no tokens. */
  lemma BlankLineHasNoTokens(line: string)
    ensures Tokenize(line) == [] <==> AllDelims(line)
  {
  }
}
