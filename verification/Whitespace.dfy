// The whitespace counter and the deterministic filler: with them, padding always meets its target.

module Whitespace {
  import opened Basics
  import opened Padding

  /** How many maximal runs of non-space characters a text has. */
  function Tokens(s: string): (n: nat) {
    if s == "" then 0
    else
      var front, c := s[..|s| - 1], s[|s| - 1];
      Tokens(front) + if c !in SPACES && (front == "" || front[|front| - 1] in SPACES) then 1 else 0
  }

  predicate IsWord(s: string) {
    s != "" && forall i :: 0 <= i < |s| ==> s[i] !in SPACES
  }

  lemma {:induction false} WordIsOneToken(s: string)
    requires IsWord(s)
    ensures Tokens(s) == 1
  {
    if |s| > 1 {
      WordIsOneToken(s[..|s| - 1]);
    } else {
      assert s[..0] == "";
    }
  }

  function Starts(s: string, c: char): nat {
    if c !in SPACES && (s == "" || s[|s| - 1] in SPACES) then 1 else 0
  }

  lemma OneMore(s: string, c: char)
    ensures Tokens(s + [c]) == Tokens(s) + Starts(s, c)
  {
    assert (s + [c])[..|s|] == s;
  }

  lemma SameStart(a: string, space: char, front: string, c: char)
    requires space in SPACES
    ensures Starts(a + [space] + front, c) == Starts(front, c)
  {
    var s := a + [space] + front;
    assert s[|s| - 1] == if front == "" then space else front[|front| - 1];
  }

  /** A space separates: the tokens of both sides add up. */
  lemma {:induction false} TokensAdd(a: string, space: char, b: string)
    requires space in SPACES
    ensures Tokens(a + [space] + b) == Tokens(a) + Tokens(b)
  {
    if b == "" {
      OneMore(a, space);
      assert a + [space] + b == a + [space];
    } else {
      var front, c := b[..|b| - 1], b[|b| - 1];
      TokensAdd(a, space, front);
      OneMore(a + [space] + front, c);
      OneMore(front, c);
      assert b == front + [c];
      assert a + [space] + b == a + [space] + front + [c];
      SameStart(a, space, front, c);
    }
  }

  lemma JoinAdds(a: string, b: string)
    ensures Tokens(Join(a, b)) == Tokens(a) + Tokens(b)
  {
    if a != "" && b != "" { TokensAdd(a, '\n', b); }
  }

  lemma {:induction false} BlankHasNone(s: string)
    requires Blank(s)
    ensures Tokens(s) == 0
  {
    if s != "" { BlankHasNone(s[..|s| - 1]); }
  }

  // -- the filler --

  function Term(k: nat): (r: string)
    requires 0 < k < 11
  {
    match k
    case 1 => "telemetry"
    case 2 => "sample"
    case 3 => "unrelated"
    case 4 => "historical"
    case 5 => "cache"
    case 6 => "observation"
    case 7 => "nominal"
    case 8 => "background"
    case 9 => "record"
    case _ => "closed"
  }

  lemma TermIsWord(k: nat)
    requires 0 < k < 11
    ensures IsWord(Term(k))
  {
    match k
    case 1 =>
    case 2 =>
    case 3 =>
    case 4 =>
    case 5 =>
    case 6 =>
    case 7 =>
    case 8 =>
    case 9 =>
    case _ =>
  }

  lemma TwoWords(a: string, b: string)
    requires IsWord(a) && IsWord(b)
    ensures IsWord(a + b)
  {
  }

  const LINE_TOKENS := 44

  function Digits(n: nat): (r: string)
    ensures IsWord(r)
  {
    (if n < 10 then "" else Digits(n / 10)) + [['0', '1', '2', '3', '4', '5', '6', '7', '8', '9'][n % 10]]
  }

  /** Decimal, with leading zeros up to six places. */
  function SixDigits(n: nat): (r: string)
    ensures IsWord(r)
  {
    var d := Digits(n);
    if |d| < 6 then "000000"[|d|..] + d else d
  }

  function Word(index: nat, salt: string): (r: string)
    requires IsWord(salt)
    ensures IsWord(r)
  {
    if index % 11 == 0 then
      TwoWords("[DISTRACTOR-", salt);
      TwoWords("[DISTRACTOR-" + salt, "-");
      TwoWords("[DISTRACTOR-" + salt + "-", SixDigits(index / 11));
      TwoWords("[DISTRACTOR-" + salt + "-" + SixDigits(index / 11), "]");
      "[DISTRACTOR-" + salt + "-" + SixDigits(index / 11) + "]"
    else
      TermIsWord(index % 11);
      Term(index % 11)
  }

  function Words(n: nat, salt: string): (r: seq<string>)
    requires IsWord(salt)
    ensures |r| == n && forall i :: 0 <= i < n ==> r[i] == Word(i, salt)
  {
    seq(n, i requires 0 <= i < n => Word(i, salt))
  }

  function Spaced(words: seq<string>): (r: string) {
    if words == [] then "" else if |words| == 1 then words[0] else Spaced(words[..|words| - 1]) + " " + words[|words| - 1]
  }

  /** Lines of forty-four words. */
  function Grouped(words: seq<string>): (r: string) {
    if |words| <= LINE_TOKENS then Spaced(words) else Spaced(words[..LINE_TOKENS]) + "\n" + Grouped(words[LINE_TOKENS..])
  }

  function Separator(n: nat): string {
    if n == 0 then "" else if n % LINE_TOKENS == 0 then "\n" else " "
  }

  lemma SpacedGrow(words: seq<string>, w: string)
    ensures Spaced(words + [w]) == if words == [] then w else Spaced(words) + " " + w
  {
    assert (words + [w])[..|words|] == words;
  }

  lemma LongLines(words: seq<string>)
    requires |words| > LINE_TOKENS
    ensures Grouped(words) == Spaced(words[..LINE_TOKENS]) + "\n" + Grouped(words[LINE_TOKENS..])
  {
  }

  /** One word more is appended at the end: the text only grows. */
  lemma {:induction false} GroupedGrow(words: seq<string>, w: string)
    ensures Grouped(words + [w]) == Grouped(words) + Separator(|words|) + w
    decreases |words|
  {
    var more := words + [w];
    if |words| < LINE_TOKENS {
      SpacedGrow(words, w);
    } else {
      LongLines(more);
      assert more[..LINE_TOKENS] == words[..LINE_TOKENS];
      assert more[LINE_TOKENS..] == words[LINE_TOKENS..] + [w];
      if |words| == LINE_TOKENS {
        assert words[..LINE_TOKENS] == words && words[LINE_TOKENS..] == [];
      } else {
        LongLines(words);
        GroupedGrow(words[LINE_TOKENS..], w);
        assert Spaced(words[..LINE_TOKENS]) + "\n" + (Grouped(words[LINE_TOKENS..]) + Separator(|words|) + w)
            == Grouped(words) + Separator(|words|) + w;
      }
    }
  }

  /** The same text, word by word. */
  function Lines(words: seq<string>): (r: string) {
    if words == [] then ""
    else Lines(words[..|words| - 1]) + Separator(|words| - 1) + words[|words| - 1]
  }

  lemma {:induction false} LinesAreGrouped(words: seq<string>)
    ensures Lines(words) == Grouped(words)
  {
    if words != [] {
      var front, w := words[..|words| - 1], words[|words| - 1];
      LinesAreGrouped(front);
      GroupedGrow(front, w);
      assert front + [w] == words;
    }
  }

  lemma AppendWord(text: string, sep: string, w: string)
    requires IsWord(w)
    requires (text == "" && sep == "") || (|sep| == 1 && sep[0] in SPACES)
    ensures Tokens(text + sep + w) == Tokens(text) + 1
  {
    WordIsOneToken(w);
    if sep == "" {
      assert text + sep + w == w;
    } else {
      assert sep == [sep[0]];
      TokensAdd(text, sep[0], w);
    }
  }

  /** The filler holds exactly as many tokens as were asked for. */
  lemma {:induction false} LinesAreExact(words: seq<string>)
    requires forall i :: 0 <= i < |words| ==> IsWord(words[i])
    ensures Tokens(Lines(words)) == |words|
  {
    if words != [] {
      var n := |words| - 1;
      LinesAreExact(words[..n]);
      AppendWord(Lines(words[..n]), Separator(n), words[n]);
    }
  }

  lemma FillerIsExact(n: nat, salt: string)
    requires IsWord(salt)
    ensures Tokens(Lines(Words(n, salt))) == n
  {
    LinesAreExact(Words(n, salt));
  }

  lemma StillPrefix(p: string, text: string, sep: string, w: string)
    requires p <= text
    ensures p <= text + sep + w
  {
  }

  lemma {:induction false} LinesPrefix(words: seq<string>, n: nat)
    requires n <= |words|
    ensures Lines(words[..n]) <= Lines(words)
    decreases |words|
  {
    if n < |words| {
      var front, w := words[..|words| - 1], words[|words| - 1];
      LinesPrefix(front, n);
      assert front[..n] == words[..n];
      StillPrefix(Lines(words[..n]), Lines(front), Separator(|front|), w);
    } else {
      assert words[..n] == words;
    }
  }

  /** A longer filler continues a shorter one. */
  lemma FillerIsPrefixStable(n: nat, m: nat, salt: string)
    requires IsWord(salt) && n <= m
    ensures Lines(Words(n, salt)) <= Lines(Words(m, salt))
  {
    assert Words(m, salt)[..n] == Words(n, salt);
    LinesPrefix(Words(m, salt), n);
  }

  method DeterministicPadding(budget: nat, salt: string) returns (text: string)
    requires IsWord(salt)
    ensures text == Grouped(Words(budget, salt)) == Lines(Words(budget, salt)) && Tokens(text) == budget
  {
    var tokens := Listing(budget, (i: nat) => if IsWord(salt) then Word(i, salt) else "");
    assert tokens == Words(budget, salt);
    FillerIsExact(budget, salt);
    LinesAreGrouped(tokens);
    return Grouped(tokens);
  }

  method Listing(budget: nat, word: nat -> string) returns (tokens: seq<string>)
    ensures |tokens| == budget && forall i :: 0 <= i < budget ==> tokens[i] == word(i)
  {
    tokens := [];
    var index := 0;
    while index < budget
      invariant index <= budget && |tokens| == index
      invariant forall i :: 0 <= i < index ==> tokens[i] == word(i)
    {
      tokens := tokens + [word(index)];
      index := index + 1;
    }
  }

  /** A counter that adds up over the parts, and a filler of exactly the missing length. */
  lemma ExactFillerHits(prefix: string, text: string, suffix: string, target: nat, count: Counter, filler: Filler)
    requires count(Join(prefix, suffix)) == count(prefix) + count(suffix) < target
    requires text == filler(target - count(Join(prefix, suffix)), 0)
    requires !Blank(text) && count(text) == target - count(Join(prefix, suffix))
    requires count(Join(prefix, text)) == count(prefix) + count(text)
    requires count(Join(Join(prefix, text), suffix)) == count(Join(prefix, text)) + count(suffix)
    ensures DirectHit(prefix, suffix, 0, target, count, filler)
  {
  }

  lemma NotBlank(text: string)
    requires Tokens(text) > 0
    ensures !Blank(text)
  {
    if Blank(text) { BlankHasNone(text); }
  }

  lemma JoinsAdd(prefix: string, text: string, suffix: string)
    ensures Tokens(Join(prefix, suffix)) == Tokens(prefix) + Tokens(suffix)
    ensures Tokens(Join(prefix, text)) == Tokens(prefix) + Tokens(text)
    ensures Tokens(Join(Join(prefix, text), suffix)) == Tokens(Join(prefix, text)) + Tokens(suffix)
  {
    JoinAdds(prefix, suffix);
    JoinAdds(prefix, text);
    JoinAdds(Join(prefix, text), suffix);
  }

  /** With this counter and this filler a single round suffices, so padding succeeds exactly when the
      fixed text is not already too long. */
  lemma WhitespaceAlwaysHits(prefix: string, suffix: string, target: nat, salts: nat -> string, filler: Filler)
    requires forall a :: IsWord(salts(a))
    requires forall n, a :: filler(n, a) == Lines(Words(n, salts(a)))
    requires Tokens(Join(prefix, suffix)) < target
    ensures DirectHit(prefix, suffix, 0, target, Tokens, filler)
  {
    var n := target - Tokens(Join(prefix, suffix));
    var text := filler(n, 0);
    FillerText(n, salts(0), text);
    JoinsAdd(prefix, text, suffix);
    ExactFillerHits(prefix, text, suffix, target, Tokens, filler);
  }

  lemma FillerText(n: nat, salt: string, text: string)
    requires n > 0 && IsWord(salt) && text == Lines(Words(n, salt))
    ensures Tokens(text) == n && !Blank(text)
  {
    FillerIsExact(n, salt);
    NotBlank(text);
  }
}
