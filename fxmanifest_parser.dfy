/** The fxmanifest.lua parser (src/server/fxmanifest-parser.ts): comment
    stripping, a hand-written tokenizer, a token-stream directive recogniser for
    the forms `key "v"`, `key { ... }` and `key( ... )`, key normalisation, and
    append-only accumulation into a map from directive key to values.

    The loops of the source (`tokenize`, `readArray`, `parseFxManifest`) are
    methods, each proved equal to a specification function (`Tokens`,
    `ArrayAt`, `Parse`); the properties are proved about those functions. */
module FxManifestParser {
  import opened Text

  /** `FxManifestData`: directive key to the values declared under it. */
  type Manifest = map<string, seq<string>>

  /* ---------------- comment stripping ---------------- */

  /** A line cut at the earliest `//` or `--` (or kept whole if it has neither). */
  function StripLine(line: string): (r: string)
    ensures IsPrefix(r, line)
    ensures !Contains(r, "//") && !Contains(r, "--")
    ensures Contains(line, "//") || Contains(line, "--") || r == line
    ensures forall k :: 0 <= k < |r| ==> !OccursAt(line, "//", k) && !OccursAt(line, "--", k)
    ensures r == line || OccursAt(line, "//", |r|) || OccursAt(line, "--", |r|)
  {
    var idx1 := IndexOf(line, "//");
    var idx2 := IndexOf(line, "--");
    var r :=
      if idx1 < 0 && idx2 < 0 then line
      else if idx2 < 0 || (0 <= idx1 <= idx2) then line[..idx1]
      else line[..idx2];
    PrefixHasNoEarlierMatch(line, |r|, "//");
    PrefixHasNoEarlierMatch(line, |r|, "--");
    r
  }

  lemma PrefixHasNoEarlierMatch(line: string, n: nat, p: string)
    requires n <= |line| && |p| > 0
    requires forall k :: 0 <= k < n ==> !OccursAt(line, p, k)
    ensures !Contains(line[..n], p)
  {
    forall k | 0 <= k <= n - |p|
      ensures !OccursAt(line[..n], p, k)
    {
      assert line[..n][k..k + |p|] == line[k..k + |p|];
      assert !OccursAt(line, p, k);
    }
  }

  /** The lines of `s`, each cut at its first comment marker. */
  function StripLines(lines: seq<string>): (r: seq<string>)
    ensures |r| == |lines|
    ensures forall k :: 0 <= k < |lines| ==> r[k] == StripLine(lines[k])
  {
    seq(|lines|, k requires 0 <= k < |lines| => StripLine(lines[k]))
  }

  /** `stripComments`: split on newlines, cut each line, join again. The lines
      of the result are exactly the input's lines, each cut on its own. */
  function StripComments(s: string): (r: string)
    ensures Split(r, '\n') == StripLines(Split(s, '\n'))
  {
    var lines := Split(s, '\n');
    CutLinesJoin(lines);
    Join(StripLines(lines), '\n')
  }

  /** Cutting never adds a newline, so the cut lines split back apart. */
  lemma CutLinesJoin(lines: seq<string>)
    requires |lines| >= 1 && forall k :: 0 <= k < |lines| ==> '\n' !in lines[k]
    ensures Split(Join(StripLines(lines), '\n'), '\n') == StripLines(lines)
  {
    var cut := StripLines(lines);
    forall k | 0 <= k < |cut|
      ensures '\n' !in cut[k]
    {
      assert cut[k] == lines[k][..|cut[k]|];
    }
    SplitJoin(cut, '\n');
  }

  /** Stripping keeps the number of lines; every line of the result is the
      matching input line cut at its earliest comment marker, so it is a
      prefix of it and holds no marker. */
  lemma StripCommentsLines(s: string)
    ensures |Split(StripComments(s), '\n')| == |Split(s, '\n')|
    ensures forall k :: 0 <= k < |Split(s, '\n')| ==>
              var out := Split(StripComments(s), '\n')[k];
              IsPrefix(out, Split(s, '\n')[k]) && !Contains(out, "//") && !Contains(out, "--")
    ensures forall k :: 0 <= k < |Split(s, '\n')| ==>
              Split(StripComments(s), '\n')[k] == StripLine(Split(s, '\n')[k])
  {
  }

  /** Stripping twice is stripping once. */
  lemma StripCommentsIdempotent(s: string)
    ensures StripComments(StripComments(s)) == StripComments(s)
  {
    var cut := StripLines(Split(s, '\n'));
    assert StripLines(cut) == cut;
  }

  /* ---------------- tokenizer ---------------- */

  /** `Tok`: an identifier, a quoted string's contents, or one of `{ } ( , )`. */
  datatype Tok = Ident(name: string) | Str(val: string) | Punct(p: char)

  /** The `\s` class of JavaScript regular expressions. */
  predicate IsSpace(c: char)
  {
    c in {'\t', '\n', '\U{000B}', '\U{000C}', '\r', ' ', '\U{00A0}', '\U{1680}',
          '\U{2028}', '\U{2029}', '\U{202F}', '\U{205F}', '\U{3000}', '\U{FEFF}'}
    || '\U{2000}' <= c <= '\U{200A}'
  }

  predicate IsPunct(c: char)
  {
    c in {'{', '}', '(', ',', ')'}
  }

  /** `[A-Za-z_]` */
  predicate IsIdentStart(c: char)
  {
    'A' <= c <= 'Z' || 'a' <= c <= 'z' || c == '_'
  }

  /** `[A-Za-z0-9_.]` */
  predicate IsIdentChar(c: char)
  {
    IsIdentStart(c) || '0' <= c <= '9' || c == '.'
  }

  /** `[A-Za-z_][A-Za-z0-9_.]*` */
  predicate IsIdentifier(s: string)
  {
    |s| > 0 && IsIdentStart(s[0]) && forall k :: 1 <= k < |s| ==> IsIdentChar(s[k])
  }

  /** What a scan collected and the index it stopped at. */
  datatype Scan<T> = Scan(items: T, next: nat)

  /** The body of a quoted string from index `i` (just past the opening quote):
      a backslash takes the next character verbatim, the closing quote ends the
      string, and an unterminated string runs to the end of the input. */
  function StringBody(s: string, i: nat, quote: char): (r: Scan<string>)
    requires i <= |s|
    decreases |s| - i
    ensures i <= r.next <= |s|
    ensures |r.items| <= r.next - i
  {
    if i == |s| then Scan([], i)
    else if s[i] == '\\' then
      if i + 1 < |s| then
        var rest := StringBody(s, i + 2, quote);
        Scan([s[i + 1]] + rest.items, rest.next)
      else Scan([], i + 1)
    else if s[i] == quote then Scan([], i + 1)
    else
      var rest := StringBody(s, i + 1, quote);
      Scan([s[i]] + rest.items, rest.next)
  }

  /** The end of the run of identifier characters starting at `i`. */
  function IdentEnd(s: string, i: nat): (j: nat)
    requires i <= |s|
    decreases |s| - i
    ensures i <= j <= |s|
    ensures forall k :: i <= k < j ==> IsIdentChar(s[k])
    ensures j == |s| || !IsIdentChar(s[j])
  {
    if i < |s| && IsIdentChar(s[i]) then IdentEnd(s, i + 1) else i
  }

  /** An identifier token matches `[A-Za-z_][A-Za-z0-9_.]*`; a punctuation
      token is one of `{ } ( , )`. */
  predicate WellFormed(t: Tok)
  {
    match t
    case Ident(name) => IsIdentifier(name)
    case Punct(p) => IsPunct(p)
    case Str(_) => true
  }

  /** The tokens of `s` from index `i` on: never more of them than there are
      characters left. */
  function TokensFrom(s: string, i: nat): (r: seq<Tok>)
    requires i <= |s|
    decreases |s| - i
    ensures |r| <= |s| - i
  {
    if i == |s| then []
    else
      var ch := s[i];
      if IsSpace(ch) then TokensFrom(s, i + 1)
      else if IsPunct(ch) then [Punct(ch)] + TokensFrom(s, i + 1)
      else if ch == '"' || ch == '\'' then
        var body := StringBody(s, i + 1, ch);
        [Str(body.items)] + TokensFrom(s, body.next)
      else if IsIdentStart(ch) then
        var j := IdentEnd(s, i + 1);
        [Ident(s[i..j])] + TokensFrom(s, j)
      else TokensFrom(s, i + 1)
  }

  function Tokens(s: string): seq<Tok>
  {
    TokensFrom(s, 0)
  }

  /** `tokenize` */
  method Tokenize(s: string) returns (toks: seq<Tok>)
    ensures toks == Tokens(s)
  {
    toks := [];
    var i := 0;
    while i < |s|
      invariant i <= |s|
      invariant toks + TokensFrom(s, i) == Tokens(s)
      decreases |s| - i
    {
      var ch := s[i];
      if IsSpace(ch) {
        SkippedAt(s, i);
        i := i + 1;
      } else if IsPunct(ch) {
        PunctAt(s, i);
        EmittedAt(s, i, toks, Punct(ch), i + 1);
        toks := toks + [Punct(ch)];
        i := i + 1;
      } else if ch == '"' || ch == '\'' {
        var val, next := ReadQuoted(s, i + 1, ch);
        QuotedAt(s, i);
        EmittedAt(s, i, toks, Str(val), next);
        toks := toks + [Str(val)];
        i := next;
      } else if IsIdentStart(ch) {
        var id, next := ReadIdent(s, i);
        IdentAt(s, i);
        EmittedAt(s, i, toks, Ident(id), next);
        toks := toks + [Ident(id)];
        i := next;
      } else {
        SkippedAt(s, i);
        i := i + 1;
      }
    }
  }

  /** The inner loop of `tokenize` that reads an identifier: the longest run
      of identifier characters after its first one. */
  method ReadIdent(s: string, start: nat) returns (id: string, i: nat)
    requires start < |s|
    ensures i == IdentEnd(s, start + 1) && id == s[start..i]
  {
    id := [s[start]];
    i := start + 1;
    while i < |s| && IsIdentChar(s[i])
      invariant start < i <= |s|
      invariant id == s[start..i]
      invariant IdentEnd(s, i) == IdentEnd(s, start + 1)
      decreases |s| - i
    {
      id := id + [s[i]];
      i := i + 1;
    }
  }

  /** The inner loop of `tokenize` that reads a quoted string's body, from just
      past the opening quote to just past the closing one (or the end). */
  method ReadQuoted(s: string, start: nat, quote: char) returns (val: string, i: nat)
    requires start <= |s|
    ensures Scan(val, i) == StringBody(s, start, quote)
  {
    i := start;
    val := "";
    while i < |s|
      invariant start <= i <= |s|
      invariant StringBody(s, i, quote).next == StringBody(s, start, quote).next
      invariant val + StringBody(s, i, quote).items == StringBody(s, start, quote).items
      decreases |s| - i
    {
      ghost var at := i;
      var c := s[i];
      i := i + 1;
      if c == '\\' {
        if i < |s| {
          StringBodyTakes(s, at, quote, val);
          val := val + [s[i]];
          i := i + 1;
        }
      } else if c == quote {
        assert StringBody(s, at, quote) == Scan([], i);
        assert val + [] == val;
        break;
      } else {
        StringBodyTakes(s, at, quote, val);
        val := val + [c];
      }
    }
    if i == |s| {
      assert val + StringBody(s, i, quote).items == val;
    }
  }

  /** One step of the quoted-string scan that appends a character to `val`. */
  lemma StringBodyTakes(s: string, at: nat, quote: char, val: string)
    requires at < |s|
    requires if s[at] == '\\' then at + 1 < |s| else s[at] != quote
    ensures var k := if s[at] == '\\' then at + 1 else at;
            var step := if s[at] == '\\' then at + 2 else at + 1;
            && StringBody(s, at, quote).next == StringBody(s, step, quote).next
            && (val + [s[k]]) + StringBody(s, step, quote).items == val + StringBody(s, at, quote).items
  {
  }

  /** A character that starts no token is skipped. */
  lemma SkippedAt(s: string, i: nat)
    requires i < |s|
    requires !IsPunct(s[i]) && s[i] != '"' && s[i] != '\'' && (IsSpace(s[i]) || !IsIdentStart(s[i]))
    ensures TokensFrom(s, i) == TokensFrom(s, i + 1)
  {
  }

  lemma PunctAt(s: string, i: nat)
    requires i < |s| && IsPunct(s[i])
    ensures TokensFrom(s, i) == [Punct(s[i])] + TokensFrom(s, i + 1)
  {
  }

  lemma QuotedAt(s: string, i: nat)
    requires i < |s| && (s[i] == '"' || s[i] == '\'')
    ensures var body := StringBody(s, i + 1, s[i]);
            TokensFrom(s, i) == [Str(body.items)] + TokensFrom(s, body.next)
  {
  }

  lemma IdentAt(s: string, i: nat)
    requires i < |s| && IsIdentStart(s[i])
    ensures var j := IdentEnd(s, i + 1);
            TokensFrom(s, i) == [Ident(s[i..j])] + TokensFrom(s, j)
  {
  }

  /** The token scanned from `i` to `next` is emitted after `toks`. */
  lemma EmittedAt(s: string, i: nat, toks: seq<Tok>, t: Tok, next: nat)
    requires i < next <= |s|
    requires TokensFrom(s, i) == [t] + TokensFrom(s, next)
    ensures (toks + [t]) + TokensFrom(s, next) == toks + TokensFrom(s, i)
  {
  }

  /** The body of a quoted string with no quote and no backslash in it is taken
      as it stands: up to the closing quote, or to the end of the input when the
      string is unterminated. */
  lemma {:induction false} PlainStringBody(s: string, i: nat, j: nat, quote: char)
    requires i <= j <= |s| && quote != '\\'
    requires forall k :: i <= k < j ==> s[k] != quote && s[k] != '\\'
    ensures j == |s| ==> StringBody(s, i, quote) == Scan(s[i..], |s|)
    ensures j < |s| && s[j] == quote ==> StringBody(s, i, quote) == Scan(s[i..j], j + 1)
    decreases j - i
  {
    if i < j {
      assert s[i] != quote && s[i] != '\\';
      PlainStringBody(s, i + 1, j, quote);
      var rest := StringBody(s, i + 1, quote);
      assert StringBody(s, i, quote) == Scan([s[i]] + rest.items, rest.next);
      assert s[i..j] == [s[i]] + s[i + 1..j];
      assert s[i..] == [s[i]] + s[i + 1..];
    } else if j < |s| && s[j] == quote {
      assert StringBody(s, i, quote) == Scan([], j + 1);
      assert s[i..j] == [];
    } else if j == |s| {
      assert s[i..] == [];
    }
  }

  /** An unterminated string literal still yields a string token, holding the
      rest of the input. */
  lemma UnterminatedString(quote: char, text: string)
    requires quote == '"' || quote == '\''
    requires quote !in text && '\\' !in text
    ensures Tokens([quote] + text) == [Str(text)]
  {
    var s := [quote] + text;
    PlainStringBody(s, 1, |s|, quote);
    assert s[1..] == text;
  }

  /** A backslash takes the next character verbatim, so an escaped quote does
      not end the string: `"a\"b"` yields the one token `a"b`. */
  lemma EscapedQuote(quote: char, a: string, b: string)
    requires quote == '"' || quote == '\''
    requires quote !in a && '\\' !in a && quote !in b && '\\' !in b
    ensures Tokens([quote] + a + ['\\', quote] + b + [quote]) == [Str(a + [quote] + b)]
  {
    var s := [quote] + a + ['\\', quote] + b + [quote];
    EscapedBody(quote, a, b);
    assert s[0] == quote;
    QuotedAt(s, 0);
    assert TokensFrom(s, |s|) == [];
  }

  lemma EscapedBody(quote: char, a: string, b: string)
    requires quote == '"' || quote == '\''
    requires quote !in a && '\\' !in a && quote !in b && '\\' !in b
    ensures var s := [quote] + a + ['\\', quote] + b + [quote];
            StringBody(s, 1, quote) == Scan(a + [quote] + b, |s|)
  {
    var s := [quote] + a + ['\\', quote] + b + [quote];
    var j := 1 + |a|;
    assert s[1..j] == a && s[j] == '\\' && s[j + 1] == quote;
    assert s[j + 2..|s| - 1] == b && s[|s| - 1] == quote;
    forall k | j + 2 <= k < |s| - 1
      ensures s[k] != quote && s[k] != '\\'
    {
      assert s[k] == b[k - j - 2];
    }
    forall k | 1 <= k < j
      ensures s[k] != quote && s[k] != '\\'
    {
      assert s[k] == a[k - 1];
    }
    PlainStringBody(s, j + 2, |s| - 1, quote);
    assert StringBody(s, j, quote) == Scan([quote] + b, |s|);
    StringBodyPrefix(s, 1, j, quote);
    assert s[1..j] + ([quote] + b) == a + [quote] + b;
  }

  /** A plain run of characters before index `j` is copied in front of what
      the scan from `j` yields. */
  lemma {:induction false} StringBodyPrefix(s: string, i: nat, j: nat, quote: char)
    requires i <= j <= |s|
    requires forall k :: i <= k < j ==> s[k] != quote && s[k] != '\\'
    ensures StringBody(s, i, quote) == Scan(s[i..j] + StringBody(s, j, quote).items, StringBody(s, j, quote).next)
    decreases j - i
  {
    if i < j {
      assert s[i] != quote && s[i] != '\\';
      StringBodyPrefix(s, i + 1, j, quote);
      var rest := StringBody(s, i + 1, quote);
      assert StringBody(s, i, quote) == Scan([s[i]] + rest.items, rest.next);
      assert s[i..j] == [s[i]] + s[i + 1..j];
      assert [s[i]] + (s[i + 1..j] + StringBody(s, j, quote).items) == s[i..j] + StringBody(s, j, quote).items;
    } else {
      assert s[i..j] == [];
      assert s[i..j] + StringBody(s, j, quote).items == StringBody(s, j, quote).items;
    }
  }

  /* ---------------- keys and accumulation ---------------- */

  /** A key as stored: never `file` and never ending in `_script`. */
  predicate NormalKey(k: string)
  {
    k != "file" && !EndsWith(k, "_script")
  }

  /** `normalizeKey`: `x_script` becomes `x_scripts`, `file` becomes `files`,
      every other key is kept. */
  function NormalizeKey(k: string): (r: string)
    ensures NormalKey(r)
    ensures NormalKey(k) ==> r == k
    ensures !NormalKey(k) ==> r == k + "s"
  {
    if EndsWith(k, "_script") then
      assert (k + "s")[|k + "s"| - 1] == 's';
      k + "s"
    else if k == "file" then "files"
    else k
  }

  /** Normalising is idempotent, and the plural keys the watchdog reads are
      already normal. */
  lemma NormalizeKeyIdempotent(k: string)
    ensures NormalizeKey(NormalizeKey(k)) == NormalizeKey(k)
    ensures NormalizeKey("client_scripts") == "client_scripts"
    ensures NormalizeKey("files") == "files"
    ensures NormalizeKey("shared_script") == "shared_scripts"
  {
    assert "client_scripts"[14 - 7..] != "_script";
    assert "shared_script"[13 - 7..] == "_script";
  }

  /** The values already stored under `key`, or none. */
  function Get(m: Manifest, key: string): seq<string>
  {
    if key in m then m[key] else []
  }

  /** `add`: `vals` go after the values already under `key`; the key is created
      even when `vals` is empty; every other key is left alone. */
  function Add(out: Manifest, key: string, vals: seq<string>): (r: Manifest)
    ensures r.Keys == out.Keys + {key}
    ensures IsPrefix(Get(out, key), r[key]) && r[key][|Get(out, key)|..] == vals
    ensures forall k :: k in out && k != key ==> r[k] == out[k]
  {
    out[key := Get(out, key) + vals]
  }

  /** The names a fresh object literal inherits from `Object.prototype`; for
      each of them `out[key]` is a truthy non-array before any own entry
      exists. */
  const InheritedNames: set<string> := {
    "constructor", "toString", "toLocaleString", "valueOf", "hasOwnProperty",
    "isPrototypeOf", "propertyIsEnumerable", "__proto__", "__defineGetter__",
    "__defineSetter__", "__lookupGetter__", "__lookupSetter__"}

  /** `add` as the source writes it on a plain object: the existence test
      `!out[key]` sees an inherited member, so no array is created and `push`
      is called on that member, which throws; `None` stands for the throw. */
  function AddAsWritten(out: Manifest, key: string, vals: seq<string>): (r: Option<Manifest>)
    ensures r.None? <==> key !in out && key in InheritedNames
    ensures r.Some? ==> r.value == Add(out, key, vals)
  {
    if key in out then Some(out[key := out[key] + vals])
    else if key in InheritedNames then None
    else Some(out[key := [] + vals])
  }

  /** A manifest line `toString "x"` reaches `add` with the key `toString`
      (it is a valid identifier and normalisation keeps it), where the source
      throws, while `Add` records the value. */
  lemma InheritedKeyThrows()
    ensures Step([Ident("toString"), Str("x")], 0, map[]) == Progress(2, map["toString" := ["x"]])
    ensures AddAsWritten(map[], "toString", ["x"]).None?
  {
    assert NormalizeKey("toString") == "toString" by {
      assert !EndsWith("toString", "_script");
    }
  }

  /* ---------------- directive recogniser ---------------- */

  /** `readArray`: from `start`, the values of string tokens up to the first
      `}`, and the index just past it (or the end). */
  function ArrayAt(toks: seq<Tok>, start: nat): (r: Scan<seq<string>>)
    decreases |toks| - start
    ensures start <= r.next
    ensures start <= |toks| ==> r.next <= |toks|
    ensures forall v :: v in r.items ==> Str(v) in toks
  {
    if start >= |toks| then Scan([], start)
    else if toks[start].Str? then
      var after := if start + 1 < |toks| && toks[start + 1] == Punct(',') then start + 2 else start + 1;
      var rest := ArrayAt(toks, after);
      Scan([toks[start].val] + rest.items, rest.next)
    else if toks[start] == Punct('}') then Scan([], start + 1)
    else ArrayAt(toks, start + 1)
  }

  /** `readArray` */
  method ReadArray(tokens: seq<Tok>, startIndex: nat) returns (arr: seq<string>, nextIndex: nat)
    ensures Scan(arr, nextIndex) == ArrayAt(tokens, startIndex)
  {
    arr := [];
    var i := startIndex;
    while i < |tokens|
      invariant startIndex <= i
      invariant ArrayAt(tokens, i).next == ArrayAt(tokens, startIndex).next
      invariant arr + ArrayAt(tokens, i).items == ArrayAt(tokens, startIndex).items
      decreases |tokens| - i
    {
      var tk := tokens[i];
      if tk.Str? {
        ghost var at := i;
        arr := arr + [tk.val];
        i := i + 1;
        if i < |tokens| && tokens[i] == Punct(',') { i := i + 1; }
        assert arr + ArrayAt(tokens, i).items == ArrayAt(tokens, startIndex).items by {
          assert ArrayAt(tokens, at).items == [tk.val] + ArrayAt(tokens, i).items;
        }
      } else if tk == Punct('}') {
        assert ArrayAt(tokens, i) == Scan([], i + 1);
        assert arr + [] == arr;
        i := i + 1;
        break;
      } else {
        i := i + 1;
      }
    }
    if i >= |tokens| {
      assert arr + ArrayAt(tokens, i).items == arr;
    }
    nextIndex := i;
  }

  /** The index of the first `}` at or after `start`, or the end. */
  function CloseAt(toks: seq<Tok>, start: nat): (c: nat)
    requires start <= |toks|
    decreases |toks| - start
    ensures start <= c <= |toks|
    ensures forall k :: start <= k < c ==> toks[k] != Punct('}')
    ensures c == |toks| || toks[c] == Punct('}')
  {
    if start == |toks| || toks[start] == Punct('}') then start else CloseAt(toks, start + 1)
  }

  /** The values of the string tokens of `ts`, in order. */
  function Strings(ts: seq<Tok>): (r: seq<string>)
  {
    if ts == [] then []
    else (if ts[0].Str? then [ts[0].val] else []) + Strings(ts[1..])
  }

  /** `readArray` collects exactly the strings before the first `}`, whatever
      other tokens lie between them, and resumes just past that `}`. */
  lemma {:induction false} ArrayAtMeaning(toks: seq<Tok>, start: nat)
    requires start <= |toks|
    ensures ArrayAtCloses(toks, start)
    decreases |toks| - start
  {
    if start == |toks| || toks[start] == Punct('}') {
      assert CloseAt(toks, start) == start && toks[start..start] == [];
    } else if toks[start].Str? && start + 1 < |toks| && toks[start + 1] == Punct(',') {
      ArrayAtMeaning(toks, start + 2);
      ArrayAtStringComma(toks, start);
    } else {
      ArrayAtMeaning(toks, start + 1);
      ArrayAtOther(toks, start);
    }
  }

  /** The statement of `ArrayAtMeaning` at `start`. */
  predicate ArrayAtCloses(toks: seq<Tok>, start: nat)
    requires start <= |toks|
  {
    var c := CloseAt(toks, start);
    ArrayAt(toks, start) == Scan(Strings(toks[start..c]), if c < |toks| then c + 1 else |toks|)
  }

  lemma ArrayAtStringComma(toks: seq<Tok>, start: nat)
    requires start + 1 < |toks| && toks[start].Str? && toks[start + 1] == Punct(',')
    requires ArrayAtCloses(toks, start + 2)
    ensures ArrayAtCloses(toks, start)
  {
    var c := CloseAt(toks, start);
    assert CloseAt(toks, start + 1) == c && CloseAt(toks, start + 2) == c;
    var ts := toks[start..c];
    assert ts[1..] == toks[start + 1..c] && toks[start + 1..c][1..] == toks[start + 2..c];
    assert Strings(toks[start + 1..c]) == Strings(toks[start + 2..c]);
    assert Strings(ts) == [toks[start].val] + Strings(toks[start + 2..c]);
    var rest := ArrayAt(toks, start + 2);
    assert ArrayAt(toks, start) == Scan([toks[start].val] + rest.items, rest.next);
  }

  lemma ArrayAtOther(toks: seq<Tok>, start: nat)
    requires start < |toks| && toks[start] != Punct('}')
    requires !(toks[start].Str? && start + 1 < |toks| && toks[start + 1] == Punct(','))
    requires ArrayAtCloses(toks, start + 1)
    ensures ArrayAtCloses(toks, start)
  {
    var c := CloseAt(toks, start);
    assert CloseAt(toks, start + 1) == c;
    var ts := toks[start..c];
    assert ts[1..] == toks[start + 1..c];
    var rest := ArrayAt(toks, start + 1);
    if toks[start].Str? {
      assert ArrayAt(toks, start) == Scan([toks[start].val] + rest.items, rest.next);
      assert Strings(ts) == [toks[start].val] + Strings(toks[start + 1..c]);
    } else {
      assert ArrayAt(toks, start) == rest;
      assert Strings(ts) == [] + Strings(toks[start + 1..c]);
      assert Strings(ts) == Strings(toks[start + 1..c]);
    }
  }

  /** The arguments of a call `key( ... )` from index `j`: top-level strings
      and the strings of brace arrays, appended to `acc`, up to the first `)`
      outside an array; an optional comma after each element is consumed. */
  function CallArgs(toks: seq<Tok>, j: nat, acc: seq<string>): (r: Scan<seq<string>>)
    requires j <= |toks|
    decreases |toks| - j
    ensures j <= r.next <= |toks|
    ensures IsPrefix(acc, r.items)
    ensures forall v :: v in r.items[|acc|..] ==> Str(v) in toks
  {
    if j == |toks| then Scan(acc, j)
    else if toks[j].Str? then
      var after := if j + 1 < |toks| && toks[j + 1] == Punct(',') then j + 2 else j + 1;
      CallArgs(toks, after, acc + [toks[j].val])
    else if toks[j] == Punct('{') then
      var a := ArrayAt(toks, j + 1);
      var after := if a.next < |toks| && toks[a.next] == Punct(',') then a.next + 1 else a.next;
      CallArgs(toks, after, acc + a.items)
    else if toks[j] == Punct(')') then Scan(acc, j + 1)
    else CallArgs(toks, j + 1, acc)
  }

  /** Where the main loop goes next, and the map it has built. */
  datatype Progress = Progress(next: nat, out: Manifest)

  /** One iteration of the main loop of `parseFxManifest` at token `i`: it
      always moves forward, never loses a value already stored, and stores only
      normalised keys of identifier tokens and values of string tokens. */
  function Step(toks: seq<Tok>, i: nat, out: Manifest): (r: Progress)
    requires i < |toks|
    ensures i < r.next <= |toks|
    ensures forall k :: k in out ==> k in r.out && IsPrefix(out[k], r.out[k])
    ensures Sourced(toks, out) ==> Sourced(toks, r.out)
  {
    if !toks[i].Ident? then Progress(i + 1, out)
    else
      var key := NormalizeKey(toks[i].name);
      if i + 1 < |toks| && toks[i + 1].Str? then
        Progress(i + 2, Add(out, key, [toks[i + 1].val]))
      else if i + 1 < |toks| && toks[i + 1] == Punct('{') then
        var a := ArrayAt(toks, i + 2);
        Progress(a.next, Add(out, key, a.items))
      else if i + 1 < |toks| && toks[i + 1] == Punct('(') then
        var c := CallArgs(toks, i + 2, []);
        Progress(c.next, if |c.items| > 0 then Add(out, key, c.items) else out)
      else Progress(i + 1, out)
  }

  /** `k` is the normalised name of some identifier token. */
  predicate NamedIn(toks: seq<Tok>, k: string)
  {
    exists j | 0 <= j < |toks| :: toks[j].Ident? && NormalizeKey(toks[j].name) == k
  }

  /** Every key of `m` is the normalised name of an identifier token and every
      value is the contents of a string token. */
  predicate Sourced(toks: seq<Tok>, m: Manifest)
  {
    forall k :: k in m ==> NamedIn(toks, k) && forall v :: v in m[k] ==> Str(v) in toks
  }

  /** The main loop of `parseFxManifest` from token `i` with the map `out`. */
  function ParseFrom(toks: seq<Tok>, i: nat, out: Manifest): Manifest
    requires i <= |toks|
    decreases |toks| - i
  {
    if i == |toks| then out
    else
      var p := Step(toks, i, out);
      ParseFrom(toks, p.next, p.out)
  }

  function ParseTokens(toks: seq<Tok>): Manifest
  {
    ParseFrom(toks, 0, map[])
  }

  /** `parseFxManifest` as a function of the manifest text. */
  function Parse(source: string): Manifest
  {
    ParseTokens(Tokens(StripComments(source)))
  }

  /** `parseFxManifest`: the model returns a map for every input, the one
      `Parse` describes; it uses the corrected `Add` (see Findings in the
      README). */
  method ParseFxManifest(source: string) returns (out: Manifest)
    ensures out == Parse(source)
  {
    var cleaned := StripComments(source);
    var tokens := Tokenize(cleaned);
    out := map[];
    var i := 0;
    while i < |tokens|
      invariant i <= |tokens|
      invariant ParseFrom(tokens, i, out) == ParseTokens(tokens)
      decreases |tokens| - i
    {
      ghost var step := Step(tokens, i, out);
      var k := tokens[i];
      if !k.Ident? {
        i := i + 1;
      } else {
        var key := NormalizeKey(k.name);
        if i + 1 < |tokens| && tokens[i + 1].Str? {
          // pattern A: key "value"
          out := Add(out, key, [tokens[i + 1].val]);
          i := i + 2;
        } else if i + 1 < |tokens| && tokens[i + 1] == Punct('{') {
          // pattern B: key { "a", "b" }
          var arr, nextIndex := ReadArray(tokens, i + 2);
          out := Add(out, key, arr);
          i := nextIndex;
        } else if i + 1 < |tokens| && tokens[i + 1] == Punct('(') {
          // pattern C: key("value") or key({ ... })
          var arr, j := ReadCallArgs(tokens, i + 2);
          if |arr| > 0 { out := Add(out, key, arr); }
          i := j;
        } else {
          i := i + 1;
        }
      }
      assert i == step.next && out == step.out;
    }
  }

  /** The inner loop of pattern C in `parseFxManifest`: from `start` (just
      past the `(`), collect strings and brace arrays up to the closing `)`. */
  method ReadCallArgs(tokens: seq<Tok>, start: nat) returns (arr: seq<string>, j: nat)
    requires start <= |tokens|
    ensures Scan(arr, j) == CallArgs(tokens, start, [])
  {
    j := start;
    arr := [];
    while j < |tokens|
      invariant start <= j <= |tokens|
      invariant CallArgs(tokens, j, arr) == CallArgs(tokens, start, [])
      decreases |tokens| - j
    {
      var tk := tokens[j];
      if tk.Str? {
        arr := arr + [tk.val];
        j := j + 1;
        if j < |tokens| && tokens[j] == Punct(',') { j := j + 1; }
      } else if tk == Punct('{') {
        var items, next := ReadArray(tokens, j + 1);
        arr := arr + items;
        j := next;
        if j < |tokens| && tokens[j] == Punct(',') { j := j + 1; }
      } else if tk == Punct(')') {
        j := j + 1;
        break;
      } else {
        j := j + 1;
      }
    }
  }

  /* ---------------- properties of the tokenizer ---------------- */

  /** Every identifier token matches `[A-Za-z_][A-Za-z0-9_.]*` and every
      punctuation token is one of `{ } ( , )`. */
  lemma {:induction false} TokensWellFormed(s: string, i: nat)
    requires i <= |s|
    ensures forall k :: 0 <= k < |TokensFrom(s, i)| ==> WellFormed(TokensFrom(s, i)[k])
    decreases |s| - i
  {
    if i < |s| {
      var ch := s[i];
      if IsSpace(ch) {
        TokensWellFormed(s, i + 1);
      } else if IsPunct(ch) {
        TokensWellFormed(s, i + 1);
      } else if ch == '"' || ch == '\'' {
        TokensWellFormed(s, StringBody(s, i + 1, ch).next);
      } else if IsIdentStart(ch) {
        var j := IdentEnd(s, i + 1);
        TokensWellFormed(s, j);
        assert IsIdentifier(s[i..j]);
      } else {
        TokensWellFormed(s, i + 1);
      }
    }
  }

  /* ---------------- properties of the parser ---------------- */

  /** The main loop only ever appends: every key already in `out` stays, and its
      earlier values stay in front, in order. */
  lemma {:induction false} ParseFromAppends(toks: seq<Tok>, i: nat, out: Manifest)
    requires i <= |toks|
    ensures forall k :: k in out ==> k in ParseFrom(toks, i, out) && IsPrefix(out[k], ParseFrom(toks, i, out)[k])
    decreases |toks| - i
  {
    if i < |toks| {
      var p := Step(toks, i, out);
      ParseFromAppends(toks, p.next, p.out);
    }
  }

  lemma {:induction false} ParseFromSourced(toks: seq<Tok>, i: nat, out: Manifest)
    requires i <= |toks| && Sourced(toks, out)
    ensures Sourced(toks, ParseFrom(toks, i, out))
    decreases |toks| - i
  {
    if i < |toks| {
      var p := Step(toks, i, out);
      ParseFromSourced(toks, p.next, p.out);
    }
  }

  /** What `parseFxManifest` returns: every key is normalised (never `file`,
      never ending in `_script`) and is the normalised name of an identifier of
      the comment-stripped text; every value is the contents of one of its
      string literals. */
  lemma ParseResult(source: string)
    ensures var toks := Tokens(StripComments(source));
            forall k :: k in Parse(source) ==>
              && NormalKey(k)
              && NamedIn(toks, k)
              && (forall v :: v in Parse(source)[k] ==> Str(v) in toks)
  {
    ParseFromSourced(Tokens(StripComments(source)), 0, map[]);
  }

  /** The four ways of writing one directive with one value. */
  datatype Syntax = KeyString | KeyBraces | CallString | CallBraces

  function Directive(form: Syntax, key: string, v: string): seq<Tok>
  {
    match form
    case KeyString => [Ident(key), Str(v)]
    case KeyBraces => [Ident(key), Punct('{'), Str(v), Punct('}')]
    case CallString => [Ident(key), Punct('('), Str(v), Punct(')')]
    case CallBraces => [Ident(key), Punct('('), Punct('{'), Str(v), Punct('}'), Punct(')')]
  }

  /** `k "v"`, `k { "v" }`, `k("v")` and `k({ "v" })` all append exactly `v` to
      the values of the normalised key and resume just past the directive,
      whatever surrounds them. */
  lemma SyntaxesAgree(form: Syntax, toks: seq<Tok>, i: nat, out: Manifest, key: string, v: string)
    requires i + |Directive(form, key, v)| <= |toks|
    requires forall k :: 0 <= k < |Directive(form, key, v)| ==> toks[i + k] == Directive(form, key, v)[k]
    ensures Step(toks, i, out) == Progress(i + |Directive(form, key, v)|, Add(out, NormalizeKey(key), [v]))
  {
    var d := Directive(form, key, v);
    assert toks[i] == d[0] && toks[i + 1] == d[1];
    match form
    case KeyString =>
    case KeyBraces =>
      assert toks[i + 2] == d[2] && toks[i + 3] == d[3];
      KeyBracesStep(toks, i, out, key, v);
    case CallString =>
      assert toks[i + 2] == d[2] && toks[i + 3] == d[3];
      CallStringStep(toks, i, out, key, v);
    case CallBraces =>
      assert toks[i + 2] == d[2] && toks[i + 3] == d[3] && toks[i + 4] == d[4] && toks[i + 5] == d[5];
      CallBracesStep(toks, i, out, key, v);
  }

  lemma KeyBracesStep(toks: seq<Tok>, i: nat, out: Manifest, key: string, v: string)
    requires i + 4 <= |toks| && toks[i] == Ident(key) && toks[i + 1] == Punct('{')
    requires toks[i + 2] == Str(v) && toks[i + 3] == Punct('}')
    ensures Step(toks, i, out) == Progress(i + 4, Add(out, NormalizeKey(key), [v]))
  {
    assert ArrayAt(toks, i + 3) == Scan([], i + 4);
    assert [v] + [] == [v];
    assert ArrayAt(toks, i + 2) == Scan([v], i + 4);
  }

  lemma CallStringStep(toks: seq<Tok>, i: nat, out: Manifest, key: string, v: string)
    requires i + 4 <= |toks| && toks[i] == Ident(key) && toks[i + 1] == Punct('(')
    requires toks[i + 2] == Str(v) && toks[i + 3] == Punct(')')
    ensures Step(toks, i, out) == Progress(i + 4, Add(out, NormalizeKey(key), [v]))
  {
    assert CallArgs(toks, i + 3, [v]) == Scan([v], i + 4);
    assert CallArgs(toks, i + 2, []) == Scan([v], i + 4);
  }

  lemma CallBracesStep(toks: seq<Tok>, i: nat, out: Manifest, key: string, v: string)
    requires i + 6 <= |toks| && toks[i] == Ident(key) && toks[i + 1] == Punct('(')
    requires toks[i + 2] == Punct('{') && toks[i + 3] == Str(v)
    requires toks[i + 4] == Punct('}') && toks[i + 5] == Punct(')')
    ensures Step(toks, i, out) == Progress(i + 6, Add(out, NormalizeKey(key), [v]))
  {
    assert ArrayAt(toks, i + 4) == Scan([], i + 5);
    assert [v] + [] == [v];
    assert ArrayAt(toks, i + 3) == Scan([v], i + 5);
    assert CallArgs(toks, i + 5, [v]) == Scan([v], i + 6);
    assert CallArgs(toks, i + 2, []) == Scan([v], i + 6);
  }

  /** `k { }` creates the key with no values, while `k()` adds nothing. */
  lemma EmptyForms(toks: seq<Tok>, i: nat, out: Manifest, key: string)
    requires i + 3 <= |toks| && toks[i] == Ident(key) && toks[i + 2] in [Punct('}'), Punct(')')]
    requires toks[i + 1] == (if toks[i + 2] == Punct('}') then Punct('{') else Punct('('))
    ensures toks[i + 2] == Punct('}') ==>
              Step(toks, i, out) == Progress(i + 3, Add(out, NormalizeKey(key), []))
              && NormalizeKey(key) in Step(toks, i, out).out
    ensures toks[i + 2] == Punct(')') ==> Step(toks, i, out) == Progress(i + 3, out)
  {
    if toks[i + 2] == Punct('}') {
      assert ArrayAt(toks, i + 2) == Scan([], i + 3);
    } else {
      assert CallArgs(toks, i + 2, []) == Scan([], i + 3);
    }
  }
}
