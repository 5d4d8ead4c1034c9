/** The overlap carried from one chunk into the next (`take_last_tokens_text`,
    ingest_manpages.py:368-386): the text is cut into runs of visible and of
    whitespace characters, and runs are taken from the end while the visible
    ones fit in the token budget. */
module Overlap {
  import opened Strings
  import opened Common

  /** A tokenizer: only the number of tokens it returns matters. */
  type Encoder = string -> seq<int>

  /** `"".join(parts)`. */
  function Concat(parts: seq<string>): string {
    if parts == [] then [] else parts[0] + Concat(parts[1..])
  }

  predicate IsVisible(c: char) { !IsSpace(c) }

  /** `re.findall(r"\S+|\s+", text)`: the maximal runs of visible characters
      and of whitespace, in order. */
  function Runs(s: string): (r: seq<string>)
    ensures forall i :: 0 <= i < |r| ==> r[i] != []
    decreases |s|
  {
    if s == [] then []
    else
      var e := RunEnd(s, 0, if IsSpace(s[0]) then IsSpace else IsVisible);
      [s[..e]] + Runs(s[e..])
  }

  /** The runs put back together give the text. */
  lemma {:induction false} RunsConcat(s: string)
    ensures Concat(Runs(s)) == s
    decreases |s|
  {
    if s != [] {
      var e := RunEnd(s, 0, if IsSpace(s[0]) then IsSpace else IsVisible);
      RunsConcat(s[e..]);
      SplitAppend([s[..e]], Runs(s[e..]));
      TakeDrop(s, e);
    }
  }

  /** `re.match(r"\s+", w)`. */
  predicate IsSpaceRun(w: string) {
    w != [] && IsSpace(w[0])
  }

  /** Where the reverse loop stops, having kept `count` tokens from
      `words[j..]`: it keeps `words[start..]`. A whitespace run is always
      kept; a word is kept if it fits, and the first word always. */
  function KeepFrom(words: seq<string>, enc: Encoder, k: int, j: nat, count: nat): (start: nat)
    requires j <= |words|
    ensures start <= j
    decreases j
  {
    if j == 0 then 0
    else if IsSpaceRun(words[j - 1]) then KeepFrom(words, enc, k, j - 1, count)
    else
      var t := |enc(words[j - 1])|;
      if count + t > k && count > 0 then j
      else KeepFrom(words, enc, k, j - 1, count + t)
  }

  /** `take_last_tokens_text(text, encode_fn, k)`. */
  function TakeLastTokens(text: string, enc: Encoder, k: int): string {
    if k <= 0 then ""
    else if |enc(text)| <= k then text
    else
      var words := Runs(text);
      LStrip(Concat(words[KeepFrom(words, enc, k, |words|, 0)..]))
  }

  /** `s[::-1]`. */
  function Reversed<T>(s: seq<T>): (r: seq<T>)
    ensures |r| == |s|
  {
    if s == [] then [] else [s[|s| - 1]] + Reversed(s[..|s| - 1])
  }

  lemma ReversedSnoc<T>(s: seq<T>, x: T)
    ensures Reversed(s + [x]) == [x] + Reversed(s)
  {
    SplitAppend(s, [x]);
  }

  lemma DropOneLess<T>(s: seq<T>, j: nat)
    requires 0 < j <= |s|
    ensures s[j - 1..] == [s[j - 1]] + s[j..]
  {
  }

  /** `take_last_tokens_text(text, encode_fn, k)`: the reverse loop over the
      runs. */
  method TakeLastTokensText(text: string, enc: Encoder, k: int) returns (r: string)
    ensures r == TakeLastTokens(text, enc, k)
  {
    if k <= 0 {
      return "";
    }
    var tokens := enc(text);
    if |tokens| <= k {
      return text;
    }
    var words := Runs(text);
    var kept: seq<string> := [];
    var count: nat := 0;
    var j: nat := |words|;
    ghost var start := KeepFrom(words, enc, k, |words|, 0);
    while j > 0
      invariant j <= |words|
      invariant Reversed(kept) == words[j..]
      invariant KeepFrom(words, enc, k, j, count) == start
    {
      var stop;
      stop, j, count, kept := KeepRun(words, enc, k, j, count, kept);
      if stop {
        break;
      }
    }
    r := LStrip(Concat(Reversed(kept)));
  }

  /** One pass of the reverse loop: keep the run `words[j - 1]`, or stop
      before a word that does not fit. */
  method KeepRun(words: seq<string>, enc: Encoder, k: int, j: nat, count: nat, kept: seq<string>)
    returns (stop: bool, j': nat, count': nat, kept': seq<string>)
    requires 0 < j <= |words| && Reversed(kept) == words[j..]
    ensures stop ==> KeepFrom(words, enc, k, j, count) == j && j' == j && kept' == kept
    ensures !stop ==> j' == j - 1 && Reversed(kept') == words[j'..]
    ensures !stop ==> KeepFrom(words, enc, k, j', count') == KeepFrom(words, enc, k, j, count)
  {
    var w := words[j - 1];
    DropOneLess(words, j);
    ReversedSnoc(kept, w);
    stop, j', count', kept' := false, j - 1, count, kept + [w];
    if !IsSpaceRun(w) {
      var t := |enc(w)|;
      if count + t > k && count > 0 {
        return true, j, count, kept;
      }
      count' := count + t;
    }
    KeepFromStep(words, enc, k, j, count);
  }

  /** One pass of the reverse loop that does not stop. */
  lemma KeepFromStep(words: seq<string>, enc: Encoder, k: int, j: nat, count: nat)
    requires 0 < j <= |words|
    requires !IsSpaceRun(words[j - 1]) ==> !(count + |enc(words[j - 1])| > k && count > 0)
    ensures KeepFrom(words, enc, k, j, count)
         == KeepFrom(words, enc, k, j - 1, if IsSpaceRun(words[j - 1]) then count else count + |enc(words[j - 1])|)
  {
  }

  // ---------------------------------------------------------------------------
  // properties
  // ---------------------------------------------------------------------------

  lemma {:induction false} ConcatAppend(a: seq<string>, b: seq<string>)
    ensures Concat(a + b) == Concat(a) + Concat(b)
  {
    if a != [] {
      assert (a + b)[1..] == a[1..] + b;
      ConcatAppend(a[1..], b);
      AppendAssoc(a[0], Concat(a[1..]), Concat(b));
    } else {
      assert a + b == b;
    }
  }

  /** The overlap is a suffix of the text. */
  lemma TakeLastIsSuffix(text: string, enc: Encoder, k: int)
    ensures EndsWith(text, TakeLastTokens(text, enc, k))
  {
    if k > 0 && |enc(text)| > k {
      var words := Runs(text);
      var start := KeepFrom(words, enc, k, |words|, 0);
      var tail := Concat(words[start..]);
      assert EndsWith(text, tail) by {
        RunsConcat(text);
        ConcatSplitAt(words, start);
        SplitAppend(Concat(words[..start]), tail);
      }
      SuffixOfSuffix(text, tail, LStrip(tail));
    }
  }

  lemma ConcatSplitAt(words: seq<string>, i: nat)
    requires i <= |words|
    ensures Concat(words) == Concat(words[..i]) + Concat(words[i..])
  {
    TakeDrop(words, i);
    ConcatAppend(words[..i], words[i..]);
  }

  lemma SuffixOfSuffix(a: string, b: string, c: string)
    requires EndsWith(a, b) && |c| <= |b| && c == b[|b| - |c|..]
    ensures EndsWith(a, c)
  {
    assert a[|a| - |c|..] == a[|a| - |b|..][|b| - |c|..];
  }

  /** The tokens counted for the visible runs of `words[j..]`. */
  function TokensFrom(words: seq<string>, enc: Encoder, j: nat): nat
    requires j <= |words|
    decreases |words| - j
  {
    if j == |words| then 0
    else (if IsSpaceRun(words[j]) then 0 else |enc(words[j])|) + TokensFrom(words, enc, j + 1)
  }

  /** The number of visible runs in `words[j..]`. */
  function WordsFrom(words: seq<string>, j: nat): nat
    requires j <= |words|
    decreases |words| - j
  {
    if j == |words| then 0 else (if IsSpaceRun(words[j]) then 0 else 1) + WordsFrom(words, j + 1)
  }

  /** The kept runs fit the budget, unless they hold a single word that alone
      exceeds it. */
  lemma {:induction false} KeepFromBudget(words: seq<string>, enc: Encoder, k: int, j: nat, count: nat)
    requires TokenizesWords(enc)
    requires forall i :: 0 <= i < |words| ==> words[i] != []
    requires j <= |words|
    requires count == TokensFrom(words, enc, j)
    requires count <= k || WordsFrom(words, j) <= 1
    ensures var start := KeepFrom(words, enc, k, j, count);
      TokensFrom(words, enc, start) <= k || WordsFrom(words, start) <= 1
    decreases j
  {
    if j > 0 {
      var w := words[j - 1];
      if IsSpaceRun(w) {
        KeepFromBudget(words, enc, k, j - 1, count);
      } else {
        var t := |enc(w)|;
        if !(count + t > k && count > 0) {
          if count == 0 {
            NoTokensNoWords(words, enc, j);
          }
          KeepFromBudget(words, enc, k, j - 1, count + t);
        }
      }
    }
  }

  /** The loop stops only before a word that would not fit: as many runs
      are kept as the budget allows. */
  lemma {:induction false} KeepFromMaximal(words: seq<string>, enc: Encoder, k: int, j: nat, count: nat)
    requires j <= |words|
    requires count == TokensFrom(words, enc, j)
    ensures var start := KeepFrom(words, enc, k, j, count);
      start > 0 ==> !IsSpaceRun(words[start - 1])
                    && TokensFrom(words, enc, start - 1) > k && TokensFrom(words, enc, start) > 0
    decreases j
  {
    if j > 0 {
      var w := words[j - 1];
      if IsSpaceRun(w) {
        KeepFromMaximal(words, enc, k, j - 1, count);
      } else if !(count + |enc(w)| > k && count > 0) {
        KeepFromMaximal(words, enc, k, j - 1, count + |enc(w)|);
      }
    }
  }

  /** A tokenizer that gives every word at least one token, as both the BPE
      encoder and the `\S+` fallback do. */
  ghost predicate TokenizesWords(enc: Encoder) {
    forall s: string :: s != [] && !IsSpaceRun(s) ==> enc(s) != []
  }

  /** Without counted tokens there is no word. */
  lemma {:induction false} NoTokensNoWords(words: seq<string>, enc: Encoder, j: nat)
    requires TokenizesWords(enc)
    requires forall i :: 0 <= i < |words| ==> words[i] != []
    requires j <= |words| && TokensFrom(words, enc, j) == 0
    ensures WordsFrom(words, j) == 0
    decreases |words| - j
  {
    if j < |words| {
      NoTokensNoWords(words, enc, j + 1);
    }
  }

  /** The overlap keeps the visible runs that fit in `k` tokens, counted run
      by run as the loop counts them, unless the last word alone exceeds
      `k`; it is the end of the text from the first kept run on. */
  lemma OverlapFitsBudget(text: string, enc: Encoder, k: int)
    requires TokenizesWords(enc)
    requires k > 0 && |enc(text)| > k
    ensures var words := Runs(text);
      var start := KeepFrom(words, enc, k, |words|, 0);
      && TakeLastTokens(text, enc, k) == LStrip(Concat(words[start..]))
      && (TokensFrom(words, enc, start) <= k || WordsFrom(words, start) <= 1)
  {
    var words := Runs(text);
    KeepFromBudget(words, enc, k, |words|, 0);
  }

  /** The overlap of a stripped text is stripped. */
  lemma OverlapVisibleEnds(text: string, enc: Encoder, k: int)
    requires text != [] && !IsSpace(text[0]) && !IsSpace(text[|text| - 1])
    ensures var r := TakeLastTokens(text, enc, k);
      r != [] ==> !IsSpace(r[0]) && !IsSpace(r[|r| - 1])
  {
    var r := TakeLastTokens(text, enc, k);
    TakeLastIsSuffix(text, enc, k);
    if r != [] {
      assert r[|r| - 1] == text[|text| - |r|..][|r| - 1];
    }
  }

  /** A text within the budget is its own overlap. */
  lemma ShortTextKept(text: string, enc: Encoder, k: int)
    requires k > 0 && |enc(text)| <= k
    ensures TakeLastTokens(text, enc, k) == text
  {
  }
}
