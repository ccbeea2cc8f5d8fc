/** Manifest directives as text: tokens laid out with a space after each,
    the tokenizer reading them back, and the four directive syntaxes parsed
    from such text. */
module Rendering {
  import opened Text
  import opened FxManifestParser

  /** The text of a token: an identifier as it is, a string between double
      quotes, a punctuation character alone. */
  function Lexeme(t: Tok): string
  {
    match t
    case Ident(name) => name
    case Str(val) => ['"'] + val + ['"']
    case Punct(c) => [c]
  }

  /** A token the tokenizer reads back from its lexeme: a well-formed
      identifier or punctuation character, or a string with no `"` and no
      backslash. */
  predicate Renderable(t: Tok)
  {
    WellFormed(t) && (t.Str? ==> '"' !in t.val && '\\' !in t.val)
  }

  /** From index `i` to its end, `s` holds the lexemes of `toks`, each
      followed by one space. */
  predicate RenderedAt(s: string, i: nat, toks: seq<Tok>)
    decreases |toks|
  {
    if toks == [] then i == |s|
    else LexemeThenSpace(s, i, toks[0]) && RenderedAt(s, i + |Lexeme(toks[0])| + 1, toks[1..])
  }

  /** The lexeme of `t` followed by a space starts at index `i` of `s`. */
  predicate LexemeThenSpace(s: string, i: nat, t: Tok)
  {
    var lex := Lexeme(t);
    i + |lex| < |s| && (forall k :: 0 <= k < |lex| ==> s[i + k] == lex[k]) && s[i + |lex|] == ' '
  }

  /** Every token of `toks` is read back from its lexeme. */
  predicate AllRenderable(toks: seq<Tok>)
  {
    forall k :: 0 <= k < |toks| ==> Renderable(toks[k])
  }

  /** The tokenizer reads tokens laid out this way back unchanged. */
  lemma TokenizeRender(s: string, toks: seq<Tok>)
    requires RenderedAt(s, 0, toks) && AllRenderable(toks)
    ensures Tokens(s) == toks
  {
    ReadBack(s, 0, toks);
  }

  lemma {:induction false} ReadBack(s: string, i: nat, toks: seq<Tok>)
    requires i <= |s| && RenderedAt(s, i, toks) && AllRenderable(toks)
    ensures TokensFrom(s, i) == toks
    decreases |toks|
  {
    if toks != [] {
      var n := RenderedHead(s, i, toks);
      LexemeAt(s, i, toks[0], n);
      ReadBack(s, i + n + 1, toks[1..]);
      assert [toks[0]] + toks[1..] == toks;
    }
  }

  /** The first token of a layout, and the layout of the others after it. */
  lemma RenderedHead(s: string, i: nat, toks: seq<Tok>) returns (n: nat)
    requires RenderedAt(s, i, toks) && AllRenderable(toks) && toks != []
    ensures n == |Lexeme(toks[0])| && i + n + 1 <= |s|
    ensures Renderable(toks[0]) && LexemeThenSpace(s, i, toks[0])
    ensures RenderedAt(s, i + n + 1, toks[1..]) && AllRenderable(toks[1..])
  {
    n := |Lexeme(toks[0])|;
    assert forall k :: 0 <= k < |toks[1..]| ==> toks[1..][k] == toks[k + 1];
  }

  lemma LexemeAt(s: string, i: nat, t: Tok, n: nat)
    requires Renderable(t) && n == |Lexeme(t)| && LexemeThenSpace(s, i, t)
    ensures TokensFrom(s, i) == [t] + TokensFrom(s, i + n + 1)
  {
    if t.Punct? {
      PunctTokenAt(s, i, t, n);
    } else if t.Str? {
      StrTokenAt(s, i, t, n);
    } else {
      IdentTokenAt(s, i, t, n);
    }
  }

  lemma PunctTokenAt(s: string, i: nat, t: Tok, n: nat)
    requires t.Punct? && Renderable(t) && n == |Lexeme(t)| && LexemeThenSpace(s, i, t)
    ensures TokensFrom(s, i) == [t] + TokensFrom(s, i + n + 1)
  {
    assert s[i] == Lexeme(t)[0];
    PunctAt(s, i);
    SkippedAt(s, i + 1);
  }

  lemma StrTokenAt(s: string, i: nat, t: Tok, n: nat)
    requires t.Str? && Renderable(t) && n == |Lexeme(t)| && LexemeThenSpace(s, i, t)
    ensures TokensFrom(s, i) == [t] + TokensFrom(s, i + n + 1)
  {
    assert s[i..i + n] == Lexeme(t);
    StrLexemeAt(s, i, t.val);
    QuotedAt(s, i);
    SkippedAt(s, i + n);
  }

  lemma IdentTokenAt(s: string, i: nat, t: Tok, n: nat)
    requires t.Ident? && Renderable(t) && n == |Lexeme(t)| && LexemeThenSpace(s, i, t)
    ensures TokensFrom(s, i) == [t] + TokensFrom(s, i + n + 1)
  {
    var name := t.name;
    assert s[i..i + n] == name;
    forall k | i + 1 <= k < i + n
      ensures IsIdentChar(s[k])
    {
      assert s[k] == s[i..i + n][k - i];
    }
    IdentEndAt(s, i + 1, i + n);
    IdentAt(s, i);
    SkippedAt(s, i + n);
  }

  lemma StrLexemeAt(s: string, i: nat, v: string)
    requires '"' !in v && '\\' !in v
    requires i + |v| + 2 <= |s| && s[i..i + |v| + 2] == ['"'] + v + ['"']
    ensures s[i] == '"' && StringBody(s, i + 1, '"') == Scan(v, i + |v| + 2)
  {
    var lex := ['"'] + v + ['"'];
    assert s[i] == lex[0];
    forall k | 0 <= k < |v|
      ensures s[i + 1 + k] == v[k]
    {
      assert s[i + 1 + k] == lex[1 + k];
    }
    assert s[i + 1 + |v|] == lex[1 + |v|];
    forall k | i + 1 <= k < i + 1 + |v|
      ensures s[k] != '"' && s[k] != '\\'
    {
      assert s[k] == v[k - i - 1];
    }
    PlainStringBody(s, i + 1, i + 1 + |v|, '"');
    assert s[i + 1..i + 1 + |v|] == v;
  }

  lemma {:induction false} IdentEndAt(s: string, i: nat, j: nat)
    requires i <= j < |s| && !IsIdentChar(s[j])
    requires forall k :: i <= k < j ==> IsIdentChar(s[k])
    ensures IdentEnd(s, i) == j
    decreases j - i
  {
    if i < j {
      IdentEndAt(s, i + 1, j);
    }
  }

  /** A text without newlines and comment markers. */
  predicate NoComment(text: string)
  {
    '\n' !in text && !Contains(text, "//") && !Contains(text, "--")
  }

  lemma StripNoComment(text: string)
    requires NoComment(text)
    ensures StripComments(text) == text
  {
    SplitPiece(text, '\n');
    assert StripLines([text]) == [text];
  }

  /** `k "v"`, `k { "v" }`, `k("v")` and `k({ "v" })`, laid out as text
      with a space after each token, each parse to the one entry
      `normalizeKey(k)` holding `[v]`. */
  lemma FourSyntaxes(form: Syntax, key: string, v: string, text: string)
    requires IsIdentifier(key) && '"' !in v && '\\' !in v
    requires RenderedAt(text, 0, Directive(form, key, v)) && NoComment(text)
    ensures Parse(text) == map[NormalizeKey(key) := [v]]
  {
    var d := Directive(form, key, v);
    StripNoComment(text);
    DirectiveRenderable(form, key, v);
    TokenizeRender(text, d);
    SyntaxesAgree(form, d, 0, map[], key, v);
    assert ParseFrom(d, 0, map[]) == ParseFrom(d, |d|, Add(map[], NormalizeKey(key), [v]));
    assert Add(map[], NormalizeKey(key), [v]) == map[NormalizeKey(key) := [v]];
  }

  lemma DirectiveRenderable(form: Syntax, key: string, v: string)
    requires IsIdentifier(key) && '"' !in v && '\\' !in v
    ensures AllRenderable(Directive(form, key, v))
  {
  }
}
