/** `@mention` handling shared by the comment routes and the mention email
    (routes/commentRoutes.js, services/emailService.js).

    The global pattern `@([A-Za-z_]+)` is modelled by a tokenizer: scanning
    left to right, an `@` followed by at least one name character starts a
    mention that takes the maximal run of name characters; every other
    character stays plain text.  Parsing lists the mentions with `_` shown
    as a space; highlighting wraps each mention in a span. */
module Mentions {
  import opened Common

  predicate IsNameChar(c: char) { IsLetter(c) || c == '_' }

  predicate IsName(n: string) {
    |n| >= 1 && forall i :: 0 <= i < |n| ==> IsNameChar(n[i])
  }

  /** The longest prefix made of name characters. */
  function NameRun(s: string): (r: string)
    ensures |r| <= |s| && r == s[..|r|]
    ensures forall i :: 0 <= i < |r| ==> IsNameChar(r[i])
    ensures |r| == |s| || !IsNameChar(s[|r|])
  {
    if s == [] || !IsNameChar(s[0]) then [] else [s[0]] + NameRun(s[1..])
  }

  datatype Token = Plain(c: char) | Mention(name: string)

  /** A mention starts at `i`: an `@` directly followed by a name character. */
  predicate StartsMention(s: string) {
    |s| >= 2 && s[0] == '@' && IsNameChar(s[1])
  }

  function Tokenize(s: string): (ts: seq<Token>)
    decreases |s|
  {
    if s == [] then []
    else if StartsMention(s) then
      var n := NameRun(s[1..]);
      [Mention(n)] + Tokenize(s[1 + |n|..])
    else [Plain(s[0])] + Tokenize(s[1..])
  }

  /** The source text of a token sequence. */
  function Raw(ts: seq<Token>): string {
    if ts == [] then []
    else (match ts[0] case Plain(c) => [c] case Mention(n) => "@" + n) + Raw(ts[1..])
  }

  /** Scanning and then printing the tokens gives back the text. */
  lemma {:induction false} RawTokenize(s: string)
    ensures Raw(Tokenize(s)) == s
    decreases |s|
  {
    if s != [] {
      if StartsMention(s) {
        RawTokenize(s[1 + |NameRun(s[1..])|..]);
        RawMentionStep(s);
      } else {
        RawTokenize(s[1..]);
        RawPlainStep(s);
      }
    }
  }

  /** The round trip through a leading mention, given it for the rest. */
  lemma RawMentionStep(s: string)
    requires StartsMention(s)
    requires var rest := s[1 + |NameRun(s[1..])|..]; Raw(Tokenize(rest)) == rest
    ensures Raw(Tokenize(s)) == s
  {
    var n := NameRun(s[1..]);
    var rest := s[1 + |n|..];
    assert Tokenize(s) == [Mention(n)] + Tokenize(rest);
    RawCons(Mention(n), Tokenize(rest));
    assert s[1..][..|n|] == s[1..1 + |n|];
    MentionSplit(s, n);
  }

  lemma MentionSplit(s: string, n: string)
    requires 1 + |n| <= |s| && s[0] == '@' && s[1..1 + |n|] == n
    ensures s == "@" + n + s[1 + |n|..]
  {
    assert s == s[..1] + s[1..1 + |n|] + s[1 + |n|..];
    assert s[..1] == "@";
  }

  /** The round trip through a leading plain character, given it for the
      rest. */
  lemma RawPlainStep(s: string)
    requires s != [] && !StartsMention(s)
    requires Raw(Tokenize(s[1..])) == s[1..]
    ensures Raw(Tokenize(s)) == s
  {
    RawCons(Plain(s[0]), Tokenize(s[1..]));
    assert s == [s[0]] + s[1..];
  }

  /** Printing a token in front of a sequence prints it in front. */
  lemma RawCons(t: Token, ts: seq<Token>)
    ensures Raw([t] + ts) == (match t case Plain(c) => [c] case Mention(n) => "@" + n) + Raw(ts)
  {
    assert ([t] + ts)[1..] == ts;
  }

  /** A mention token holds a non-empty name. */
  predicate TokenOk(t: Token) {
    t.Mention? ==> IsName(t.name)
  }

  /** After a mention or a plain `@` comes no name character: mentions are
      maximal, and a plain `@` never precedes a name. */
  predicate PairOk(a: Token, b: Token) {
    (a.Mention? || a == Plain('@')) ==> !(b.Plain? && IsNameChar(b.c))
  }

  /** The token sequences the scanner produces. */
  predicate WellFormed(ts: seq<Token>) {
    ts == [] || (TokenOk(ts[0]) && (|ts| > 1 ==> PairOk(ts[0], ts[1])) && WellFormed(ts[1..]))
  }

  lemma {:induction false} NameRunOf(n: string, t: string)
    requires forall i :: 0 <= i < |n| ==> IsNameChar(n[i])
    requires t == [] || !IsNameChar(t[0])
    ensures NameRun(n + t) == n
  {
    if n != [] {
      NameRunOf(n[1..], t);
      assert (n + t)[1..] == n[1..] + t;
    } else {
      assert n + t == t;
    }
  }

  lemma RawHead(ts: seq<Token>)
    requires ts != []
    ensures ts[0].Plain? ==> Raw(ts) == [ts[0].c] + Raw(ts[1..])
    ensures ts[0].Mention? ==> Raw(ts) == "@" + ts[0].name + Raw(ts[1..])
  {
  }

  lemma TokenizePlainHead(c: char, t: string)
    requires !StartsMention([c] + t)
    ensures Tokenize([c] + t) == [Plain(c)] + Tokenize(t)
  {
    assert ([c] + t)[1..] == t;
  }

  lemma TokenizeMentionHead(n: string, t: string)
    requires IsName(n)
    requires t == [] || !IsNameChar(t[0])
    ensures Tokenize("@" + n + t) == [Mention(n)] + Tokenize(t)
  {
    var s := "@" + n + t;
    assert s[1..] == n + t;
    NameRunOf(n, t);
    assert s[1 + |n|..] == t;
  }

  /** The first character printed for a non-empty token sequence. */
  lemma RawFirst(ts: seq<Token>)
    requires ts != []
    ensures |Raw(ts)| >= 1
    ensures Raw(ts)[0] == (if ts[0].Plain? then ts[0].c else '@')
  {
    RawHead(ts);
  }

  /** Printing well-formed tokens and scanning the text gives them back. */
  lemma {:induction false} TokenizeRaw(ts: seq<Token>)
    requires WellFormed(ts)
    ensures Tokenize(Raw(ts)) == ts
  {
    if ts != [] {
      TokenizeRaw(ts[1..]);
      TokenizeRawStep(ts);
    }
  }

  /** The round trip through the first token, given it for the rest. */
  lemma TokenizeRawStep(ts: seq<Token>)
    requires ts != [] && WellFormed(ts)
    requires Tokenize(Raw(ts[1..])) == ts[1..]
    ensures Tokenize(Raw(ts)) == ts
  {
    var rest := ts[1..];
    var t := Raw(rest);
    RawHead(ts);
    if rest != [] {
      RawFirst(rest);
    }
    assert ts == [ts[0]] + rest;
    match ts[0]
    case Plain(c) =>
      TokenizePlainHead(c, t);
    case Mention(n) =>
      TokenizeMentionHead(n, t);
  }

  /** The scanner's output is well formed. */
  lemma {:induction false} TokenizeWellFormed(s: string)
    ensures WellFormed(Tokenize(s))
    decreases |s|
  {
    if s != [] {
      var ts := Tokenize(s);
      if StartsMention(s) {
        var n := NameRun(s[1..]);
        var t := s[1 + |n|..];
        TokenizeWellFormed(t);
        assert ts == [Mention(n)] + Tokenize(t);
        assert ts[1..] == Tokenize(t);
        assert t == [] || !IsNameChar(t[0]);
        HeadOfTokenize(t);
      } else {
        var t := s[1..];
        TokenizeWellFormed(t);
        assert ts == [Plain(s[0])] + Tokenize(t);
        assert ts[1..] == Tokenize(t);
        HeadOfTokenize(t);
      }
    }
  }

  /** The first token of a scan is plain text of the first character unless
      a mention starts there. */
  lemma HeadOfTokenize(t: string)
    ensures t == [] <==> Tokenize(t) == []
    ensures t != [] && !StartsMention(t) ==> Tokenize(t)[0] == Plain(t[0])
    ensures t != [] && StartsMention(t) ==> Tokenize(t)[0].Mention?
  {
  }

  function MentionNames(ts: seq<Token>): seq<string> {
    if ts == [] then []
    else (if ts[0].Mention? then [ts[0].name] else []) + MentionNames(ts[1..])
  }

  /** `name.replace(/_/g, ' ')`. */
  function Display(name: string): (r: string)
    ensures |r| == |name|
    ensures forall i :: 0 <= i < |name| ==> r[i] == (if name[i] == '_' then ' ' else name[i])
  {
    if name == [] then [] else [if name[0] == '_' then ' ' else name[0]] + Display(name[1..])
  }

  function DisplayAll(ns: seq<string>): (r: seq<string>)
    ensures |r| == |ns|
    ensures forall k :: 0 <= k < |ns| ==> r[k] == Display(ns[k])
  {
    if ns == [] then [] else [Display(ns[0])] + DisplayAll(ns[1..])
  }

  /** `parseMentions`: the mentioned names, in order of appearance. */
  function ParseMentions(s: string): seq<string> {
    DisplayAll(MentionNames(Tokenize(s)))
  }

  /** Number of places where a mention can start. */
  function MentionStarts(s: string): nat {
    if s == [] then 0 else (if StartsMention(s) then 1 else 0) + MentionStarts(s[1..])
  }

  lemma {:induction false} NoStartsInName(n: string, t: string)
    requires forall i :: 0 <= i < |n| ==> IsNameChar(n[i])
    ensures MentionStarts(n + t) == MentionStarts(t)
  {
    if n != [] {
      assert (n + t)[1..] == n[1..] + t;
      NoStartsInName(n[1..], t);
    } else {
      assert n + t == t;
    }
  }

  /** Every `@` directly followed by a name character yields one mention,
      and every mention is a non-empty run of letters and spaces. */
  lemma {:induction false} ParseMentionsCount(s: string)
    ensures |ParseMentions(s)| == MentionStarts(s)
    decreases |s|
  {
    if s != [] {
      if StartsMention(s) {
        var n := NameRun(s[1..]);
        ParseMentionsCount(s[1 + |n|..]);
        assert s[1..] == n + s[1 + |n|..];
        NoStartsInName(n, s[1 + |n|..]);
      } else {
        ParseMentionsCount(s[1..]);
      }
    }
  }

  lemma {:induction false} MentionNamesAreNames(ts: seq<Token>)
    requires WellFormed(ts)
    ensures forall k :: 0 <= k < |MentionNames(ts)| ==> IsName(MentionNames(ts)[k])
  {
    if ts != [] {
      MentionNamesAreNames(ts[1..]);
    }
  }

  /** A parsed mention is non-empty and made of letters and spaces. */
  lemma ParsedMentionsShape(s: string)
    ensures forall k :: 0 <= k < |ParseMentions(s)| ==>
      |ParseMentions(s)[k]| >= 1 &&
      forall i :: 0 <= i < |ParseMentions(s)[k]| ==> IsLetter(ParseMentions(s)[k][i]) || ParseMentions(s)[k][i] == ' '
  {
    TokenizeWellFormed(s);
    MentionNamesAreNames(Tokenize(s));
  }

  const SpanOpen: string := "<span style=\"background:#f3f4f6;color:#6B39E7;padding:2px 6px;border-radius:4px;font-weight:600;\">@"
  const SpanClose: string := "</span>"

  /** Print tokens with every mention wrapped in a highlight span. */
  function RenderHighlighted(ts: seq<Token>): string {
    if ts == [] then []
    else (match ts[0] case Plain(c) => [c] case Mention(n) => SpanOpen + Display(n) + SpanClose) + RenderHighlighted(ts[1..])
  }

  /** `highlightMentions`. */
  function HighlightMentions(s: string): string {
    RenderHighlighted(Tokenize(s))
  }

  /** Text without mentions is left exactly as it is. */
  lemma {:induction false} HighlightWithoutMentions(s: string)
    requires MentionStarts(s) == 0
    ensures HighlightMentions(s) == s
    decreases |s|
  {
    if s != [] {
      HighlightWithoutMentions(s[1..]);
      assert s == [s[0]] + s[1..];
    }
  }

  /** Highlighting and parsing agree with the text: there is one token
      sequence that prints back to the text, whose mentions are the parsed
      names, and which the highlighter prints with spans in place of the
      mentions and every other character unchanged. */
  lemma HighlightIsTokenwise(s: string)
    ensures exists ts :: WellFormed(ts) && Raw(ts) == s && HighlightMentions(s) == RenderHighlighted(ts) &&
                         ParseMentions(s) == DisplayAll(MentionNames(ts))
  {
    RawTokenize(s);
    TokenizeWellFormed(s);
    var ts := Tokenize(s);
    assert WellFormed(ts) && Raw(ts) == s;
  }
}
