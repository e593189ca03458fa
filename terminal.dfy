/**
 A model of compose-joiner's quoting helper (lib/terminal.js): the naive
 quote swap that moves a JSON manifest through a shell argument.
 */
module Terminal {

  const SingleQuote: char := '\''
  const DoubleQuote: char := '"'

  /** `s` with every `from` replaced by `to`, as `String.replace` with a global pattern does. */
  function ReplaceAll(s: string, from: char, to: char): (r: string)
    ensures |r| == |s|
    ensures forall i :: 0 <= i < |s| ==> r[i] == (if s[i] == from then to else s[i])
  {
    if s == [] then [] else [if s[0] == from then to else s[0]] + ReplaceAll(s[1..], from, to)
  }

  /** `read`: every single quote becomes a double quote; nothing else changes. */
  function Read(data: string): (r: string)
    ensures |r| == |data|
    ensures forall i :: 0 <= i < |data| ==> r[i] == (if data[i] == SingleQuote then DoubleQuote else data[i])
    ensures SingleQuote !in r
  {
    ReplaceAll(data, SingleQuote, DoubleQuote)
  }

  /** `write`: every double quote becomes a single quote, and the whole is wrapped in double quotes. */
  function Write(data: string): (r: string)
    ensures |r| == |data| + 2
    ensures r[0] == DoubleQuote && r[|r| - 1] == DoubleQuote
    ensures forall i :: 0 <= i < |data| ==> r[i + 1] == (if data[i] == DoubleQuote then SingleQuote else data[i])
    ensures DoubleQuote !in r[1..|r| - 1]
  {
    [DoubleQuote] + ReplaceAll(data, DoubleQuote, SingleQuote) + [DoubleQuote]
  }

  /** `read` leaves its input alone exactly when the input holds no single quote. */
  lemma ReadIdentityIff(x: string)
    ensures Read(x) == x <==> SingleQuote !in x
  {
  }

  /** `read` is idempotent, since its output holds no single quote. */
  lemma ReadIdempotent(x: string)
    ensures Read(Read(x)) == Read(x)
  {
  }

  /** Inputs that differ only by which quote character sits at some positions give the same `write` output. */
  lemma WriteConflatesQuotes(x: string, y: string)
    requires |x| == |y|
    requires forall i :: 0 <= i < |x| ==>
      x[i] == y[i] || ((x[i] == SingleQuote || x[i] == DoubleQuote) && (y[i] == SingleQuote || y[i] == DoubleQuote))
    ensures Write(x) == Write(y)
  {
  }

  /** `write` is not injective: a lone single quote and a lone double quote are written alike. */
  lemma WriteNotInjective()
    ensures [SingleQuote] != [DoubleQuote] && Write([SingleQuote]) == Write([DoubleQuote])
  {
  }

  /** Reading back a written string turns every quote of either kind into a double quote and keeps the wrapping quotes. */
  lemma ReadAfterWrite(x: string)
    ensures Read(Write(x)) == [DoubleQuote] + Read(x) + [DoubleQuote]
  {
  }

  /** The round trip is lossy: a written and read-back string is never the original. */
  lemma ReadAfterWriteIsNotIdentity(x: string)
    ensures Read(Write(x)) != x
  {
  }

  /** `read` on a single-quoted, otherwise quote-free argument swaps only the two outer quotes. */
  lemma ReadSingleQuoted(body: string)
    requires SingleQuote !in body
    ensures Read([SingleQuote] + body + [SingleQuote]) == [DoubleQuote] + body + [DoubleQuote]
  {
  }

  /** The argument of the repository's `read` test is changed by `read`, although the test expects it back unchanged. */
  lemma ReadScenario()
    ensures var body := "{\"services\":{\"nginx\":{\"name\":\"hello\"}}}";
            var arg := [SingleQuote] + body + [SingleQuote];
            && Read(arg) == [DoubleQuote] + body + [DoubleQuote]
            && Read(arg) != arg
  {
  }

  /** `write` never yields a single-quoted shell word: its first character is a double quote. */
  lemma WriteIsNotSingleQuoted(x: string, word: string)
    requires |word| > 0 && word[0] == SingleQuote
    ensures Write(x) != word
  {
  }

  /**
   On the argument of the repository's `write` test, `write` yields a string
   that opens with a double quote and is only two characters longer, whereas
   the test expects a single-quoted word in which each of the two `'` became
   the five characters `'"'"'`.
   */
  lemma WriteScenario()
    ensures var arg := "{\"services\":{\"nginx\":{\"name\":\"hello\",\"command\":\"\"route -n | awk '/UG[ \\t]/{print $$2}'\"\"}}}";
            var posix := [SingleQuote] + "{\"services\":{\"nginx\":{\"name\":\"hello\",\"command\":\"\"route -n | awk '\"'\"'/UG[ \\t]/{print $$2}'\"'\"'\"\"}}}'";
            && Write(arg) != posix
            && |Write(arg)| == |arg| + 2
            && |posix| == |arg| + 10
  {
  }
}
