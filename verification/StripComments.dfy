/**
 The comment stripper of the coverage probe: a one-pass lexer that drops comments, keeps newlines and
 copies string literals verbatim. Stripping is idempotent, keeps the line structure and the literals.
 */
module StripComments {
  // ---- Lexical steps -----------------------------------------------------------------

  predicate IsQuote(c: char) {
    c == '"' || c == '\'' || c == '`'
  }

  predicate OpensLine(t: string) {
    |t| >= 2 && t[0] == '/' && t[1] == '/'
  }

  predicate OpensBlock(t: string) {
    |t| >= 2 && t[0] == '/' && t[1] == '*'
  }

  /** How many characters of `t` a line comment body takes: up to, not including, the newline. */
  function LineLength(t: string): (n: nat)
    ensures n <= |t|
  {
    if t == "" || t[0] == '\n' then 0 else 1 + LineLength(t[1..])
  }

  /** How many characters of `t` a block comment body takes, closing marker included; all of it if unterminated. */
  function BlockLength(t: string): (n: nat)
    ensures n <= |t|
  {
    if t == "" then 0
    else if |t| >= 2 && t[0] == '*' && t[1] == '/' then 2
    else 1 + BlockLength(t[1..])
  }

  /** How many characters of `t` complete a literal opened by `quote`; all of it if unterminated. */
  function LiteralLength(t: string, quote: char): (n: nat)
    ensures n <= |t|
  {
    if t == "" then 0
    else if t[0] == '\\' && |t| >= 2 then 2 + LiteralLength(t[2..], quote)
    else if t[0] != '\\' && t[0] == quote then 1
    else 1 + LiteralLength(t[1..], quote)
  }

  function Newlines(t: string): string {
    if t == "" then "" else if t[0] == '\n' then "\n" + Newlines(t[1..]) else Newlines(t[1..])
  }

  datatype Kind = Comment | Literal | Plain

  datatype Token = Token(kind: Kind, length: nat, output: string)

  /** The token a text starts with, and what the stripper writes for it. */
  function Lex(t: string): (k: Token)
    requires t != ""
    ensures 1 <= k.length <= |t|
  {
    if OpensLine(t) then Token(Comment, 2 + LineLength(t[2..]), "")
    else if OpensBlock(t) then
      var n := 2 + BlockLength(t[2..]);
      Token(Comment, n, Newlines(t[2..n]))
    else
      var n := if IsQuote(t[0]) then 1 + LiteralLength(t[1..], t[0]) else 1;
      Token(if IsQuote(t[0]) then Literal else Plain, n, t[..n])
  }

  /** The stripped text. */
  function Strip(t: string): string
    decreases |t|
  {
    if t == "" then "" else Lex(t).output + Strip(t[Lex(t).length..])
  }

  /** The string literals a text contains, in order. */
  function Literals(t: string): seq<string>
    decreases |t|
  {
    if t == "" then []
    else (if Lex(t).kind.Literal? then [t[..Lex(t).length]] else []) + Literals(t[Lex(t).length..])
  }

  // ---- The loops -------------------------------------------------------------------------

  method LineCommentEnd(text: string, from: nat) returns (index: nat)
    requires from <= |text|
    ensures index == from + LineLength(text[from..])
  {
    index := from;
    while index < |text| && text[index] != '\n'
      invariant from <= index <= |text|
      invariant from + LineLength(text[from..]) == index + LineLength(text[index..])
    {
      assert text[index..][1..] == text[index + 1..];
      index := index + 1;
    }
  }

  method BlockCommentEnd(text: string, from: nat, out: string) returns (index: nat, out': string)
    requires from <= |text|
    ensures index == from + BlockLength(text[from..])
    ensures index <= |text| && out' == out + Newlines(text[from..index])
  {
    hide BlockLength, Newlines;
    NothingLeft(text);
    index, out' := from, out;
    while index < |text|
      invariant from <= index <= |text|
      invariant from + BlockLength(text[from..]) == index + BlockLength(text[index..])
      invariant out' == out + Newlines(text[from..index])
    {
      BlockStep(text, index);
      if text[index] == '*' && index + 1 < |text| && text[index + 1] == '/' {
        assert text[from..index] + "*/" == text[from..index + 2];
        NewlinesOfConcat(text[from..index], "*/");
        return index + 2, out';
      }
      assert text[from..index] + [text[index]] == text[from..index + 1];
      NewlinesOfConcat(text[from..index], [text[index]]);
      if text[index] == '\n' { out' := out' + "\n"; }
      index := index + 1;
    }
  }

  lemma {:induction false} NothingLeft(text: string)
    ensures text[|text|..] == "" && BlockLength("") == 0 && Newlines("") == "" && Newlines("*/") == ""
    ensures forall i :: 0 <= i <= |text| ==> Newlines(text[i..i]) == ""
    ensures forall c :: Newlines([c]) == if c == '\n' then "\n" else ""
  {
    assert "*/"[1..] == "/" && "/"[1..] == "";
    forall c ensures Newlines([c]) == if c == '\n' then "\n" else "" {
      assert [c][1..] == "";
    }
  }

  lemma {:induction false} BlockStep(text: string, index: nat)
    requires index < |text|
    ensures BlockLength(text[index..]) ==
            if text[index] == '*' && index + 1 < |text| && text[index + 1] == '/' then 2
            else 1 + BlockLength(text[index + 1..])
  {
    assert text[index..][1..] == text[index + 1..];
  }

  lemma {:induction false} LiteralStep(text: string, index: nat, quote: char)
    requires index < |text|
    ensures LiteralLength(text[index..], quote) ==
            if text[index] == '\\' && index + 1 < |text| then 2 + LiteralLength(text[index + 2..], quote)
            else if text[index] != '\\' && text[index] == quote then 1
            else 1 + LiteralLength(text[index + 1..], quote)
  {
    assert text[index..][1..] == text[index + 1..];
    assert index + 1 < |text| ==> text[index..][2..] == text[index + 2..];
  }

  lemma LiteralStepEnd(text: string, quote: char)
    ensures LiteralLength(text[|text|..], quote) == 0
  {}

  method StringLiteralEnd(text: string, from: nat, quote: char, out: string) returns (index: nat, out': string)
    requires from <= |text|
    ensures index == from + LiteralLength(text[from..], quote)
    ensures index <= |text| && out' == out + [quote] + text[from..index]
  {
    hide LiteralLength;
    NothingLeft(text);
    LiteralStepEnd(text, quote);
    index, out' := from, out + [quote];
    while index < |text|
      invariant from <= index <= |text|
      invariant from + LiteralLength(text[from..], quote) == index + LiteralLength(text[index..], quote)
      invariant out' == out + [quote] + text[from..index]
    {
      var current := text[index];
      LiteralStep(text, index, quote);
      assert text[from..index] + [current] == text[from..index + 1];
      out' := out' + [current];
      index := index + 1;
      if current == '\\' && index < |text| {
        assert text[from..index] + [text[index]] == text[from..index + 1];
        out' := out' + [text[index]];
        index := index + 1;
      } else if current == quote {
        break;
      }
    }
  }

  method StripText(text: string) returns (out: string)
    ensures out == Strip(text)
  {
    hide Lex, Strip;
    StripOfNothing(text);
    out := "";
    var index := 0;
    assert text[0..] == text;
    while index < |text|
      invariant 0 <= index <= |text|
      invariant out + Strip(text[index..]) == Strip(text)
    {
      var next, more := OneToken(text, index, out);
      StripSteps(text, index, out);
      index, out := next, more;
    }
  }

  lemma StripOfNothing(text: string)
    ensures Strip(text[|text|..]) == ""
  {}

  lemma {:induction false} StripSteps(text: string, index: nat, out: string)
    requires index < |text|
    ensures var k := Lex(text[index..]);
            out + Strip(text[index..]) == (out + k.output) + Strip(text[index + k.length..])
  {
    hide Lex;
    var k := Lex(text[index..]);
    assert text[index..][k.length..] == text[index + k.length..];
  }

  /** The loop body: which of the four branches applies, how far it moves and what it writes. */
  method OneToken(text: string, from: nat, out: string) returns (index: nat, out': string)
    requires from < |text|
    ensures var k := Lex(text[from..]);
            index == from + k.length && out' == out + k.output
  {
    hide LineLength, BlockLength, LiteralLength, Newlines;
    index, out' := from, out;
    var c := text[index];
    assert text[from..][1..] == text[from + 1..];
    if c == '/' && index + 1 < |text| && text[index + 1] == '/' {
      index := LineCommentEnd(text, index + 2);
      assert text[from..][2..] == text[from + 2..];
    } else if c == '/' && index + 1 < |text| && text[index + 1] == '*' {
      index, out' := BlockCommentEnd(text, index + 2, out);
      assert text[from..][2..] == text[from + 2..];
      assert text[from..][2..index - from] == text[from + 2..index];
    } else if c == '"' || c == '\'' || c == '`' {
      index, out' := StringLiteralEnd(text, index + 1, c, out);
      assert text[from..][..index - from] == [c] + text[from + 1..index];
    } else {
      out' := out + [c];
      index := index + 1;
      assert text[from..][..1] == [c];
    }
  }

  // ---- What becomes of each piece of text -------------------------------------------------------

  /** A character that opens neither a literal nor a comment is copied. */
  lemma {:induction false} PlainIsCopied(c: char, rest: string)
    requires c != '"' && c != '\'' && c != '`'
    requires c == '/' && rest != "" ==> rest[0] != '/' && rest[0] != '*'
    ensures Strip([c] + rest) == [c] + Strip(rest)
  {
    var t := [c] + rest;
    assert t[..1] == [c] && t[1..] == rest;
    hide LineLength, BlockLength, LiteralLength;
  }

  /** A line comment is dropped, up to its newline. */
  lemma {:induction false} LineCommentIsDropped(body: string, rest: string)
    requires '\n' !in body && (rest == "" || rest[0] == '\n')
    ensures Strip("//" + body + rest) == Strip(rest)
  {
    var t := "//" + body + rest;
    assert t[2..] == body + rest && t[2 + |body|..] == rest;
    LineEnds(body, rest);
    assert "" + Strip(rest) == Strip(rest);
  }

  lemma {:induction false} LineEnds(body: string, rest: string)
    requires '\n' !in body && (rest == "" || rest[0] == '\n')
    ensures LineLength(body + rest) == |body|
  {
    if body == "" {
      assert body + rest == rest;
    } else {
      assert (body + rest)[1..] == body[1..] + rest;
      LineEnds(body[1..], rest);
    }
  }

  /** The text holds no end of a block comment. */
  ghost predicate NeverEnds(body: string) {
    forall i :: 0 <= i < |body| - 1 && body[i] == '*' ==> body[i + 1] != '/'
  }

  /** A block comment leaves its newlines, whether it is closed or runs to the end of the text. */
  lemma {:induction false} BlockCommentLeavesNewlines(body: string, rest: string)
    requires NeverEnds(body)
    ensures Strip("/*" + body + "*/" + rest) == Newlines(body) + Strip(rest)
    ensures Strip("/*" + body) == Newlines(body)
  {
    hide LineLength, BlockLength, LiteralLength, Newlines;
    BlockEnds(body, rest);
    var t := "/*" + body + "*/" + rest;
    var n := |body| + 4;
    assert t[2..] == body + "*/" + rest && t[2..n] == body + "*/" && t[n..] == rest;
    NewlinesOfConcat(body, "*/");
    NothingLeft("");
    var u := "/*" + body;
    assert u[2..] == body && u[2..|u|] == body && u[|u|..] == "";
    StripOfNothing(u);
  }

  lemma {:induction false} BlockEnds(body: string, rest: string)
    requires NeverEnds(body)
    ensures BlockLength(body + "*/" + rest) == |body| + 2 && BlockLength(body) == |body|
  {
    var t := body + "*/" + rest;
    if body == "" {
      assert t[0] == '*' && t[1] == '/';
    } else {
      assert t[0] == body[0] && t[1..] == body[1..] + "*/" + rest;
      assert NeverEnds(body[1..]) by {
        assert forall i :: 0 <= i < |body[1..]| ==> body[1..][i] == body[i + 1];
      }
      BlockEnds(body[1..], rest);
      assert t[1] == if |body| > 1 then body[1] else '*';
    }
  }

  /** Text inside a literal: no bare quote of its own kind, every backslash with the character it escapes. */
  ghost predicate Inside(body: string, quote: char) {
    || body == ""
    || (body[0] == '\\' && |body| >= 2 && Inside(body[2..], quote))
    || (body[0] != '\\' && body[0] != quote && Inside(body[1..], quote))
  }

  /** A literal is copied with its quotes, whether it is closed or runs to the end of the text. */
  lemma {:induction false} LiteralIsCopied(quote: char, body: string, rest: string)
    requires (quote == '"' || quote == '\'' || quote == '`') && Inside(body, quote)
    ensures Strip([quote] + body + [quote] + rest) == [quote] + body + [quote] + Strip(rest)
    ensures Strip([quote] + body) == [quote] + body && Strip([quote] + body + "\\") == [quote] + body + "\\"
  {
    hide LineLength, BlockLength, LiteralLength, Newlines;
    LiteralEnds(quote, body, rest);
    var t := [quote] + body + [quote] + rest;
    var n := |body| + 2;
    assert t[1..] == body + [quote] + rest && t[..n] == [quote] + body + [quote] && t[n..] == rest;
    WholeLiteral(quote, body);
    WholeLiteral(quote, body + "\\");
    assert [quote] + body + "\\" == [quote] + (body + "\\");
  }

  lemma {:induction false} WholeLiteral(quote: char, body: string)
    requires IsQuote(quote) && LiteralLength(body, quote) == |body|
    ensures Strip([quote] + body) == [quote] + body
  {
    hide LineLength, BlockLength, LiteralLength, Newlines;
    var t := [quote] + body;
    assert t[1..] == body && t[..|t|] == t;
    StripOfNothing(t);
    assert t + "" == t;
  }

  lemma {:induction false} LiteralEnds(quote: char, body: string, rest: string)
    requires Inside(body, quote) && quote != '\\'
    ensures LiteralLength(body + [quote] + rest, quote) == |body| + 1
    ensures LiteralLength(body, quote) == |body| && LiteralLength(body + "\\", quote) == |body| + 1
    decreases |body|
  {
    var t, u := body + [quote] + rest, body + "\\";
    if body == "" {
      assert t[0] == quote && u == "\\" && u[1..] == "";
    } else if body[0] == '\\' {
      assert t[2..] == body[2..] + [quote] + rest && u[2..] == body[2..] + "\\";
      LiteralEnds(quote, body[2..], rest);
    } else {
      assert t[1..] == body[1..] + [quote] + rest && u[1..] == body[1..] + "\\";
      LiteralEnds(quote, body[1..], rest);
    }
  }

  // ---- Main results ------------------------------------------------------------------------

  lemma {:induction false} NewlinesOfConcat(a: string, b: string)
    ensures Newlines(a + b) == Newlines(a) + Newlines(b)
  {
    if a == "" {
      assert a + b == b;
    } else {
      assert (a + b)[0] == a[0] && (a + b)[1..] == a[1..] + b;
      NewlinesOfConcat(a[1..], b);
      var head := if a[0] == '\n' then "\n" else "";
      assert head + (Newlines(a[1..]) + Newlines(b)) == (head + Newlines(a[1..])) + Newlines(b);
    }
  }

  /** A line comment body and its opening hold no newline. */
  lemma {:induction false} LineHasNoNewline(t: string)
    ensures Newlines(t[..LineLength(t)]) == ""
  {
    if t != "" && t[0] != '\n' {
      LineHasNoNewline(t[1..]);
      assert t[..LineLength(t)][1..] == t[1..][..LineLength(t[1..])];
    }
  }

  lemma {:induction false} NewlinesOfPair(t: string)
    requires OpensLine(t) || OpensBlock(t)
    ensures Newlines(t[..2]) == ""
  {
    assert t[..2][1..] == [t[1]] && [t[1]][1..] == "";
    assert Newlines([t[1]]) == "";
  }

  /** Each token's output has the token's newlines. */
  lemma {:induction false} TokenKeepsNewlines(t: string)
    requires t != ""
    ensures Newlines(Lex(t).output) == Newlines(t[..Lex(t).length])
  {
    if OpensLine(t) || OpensBlock(t) {
      var n := Lex(t).length;
      assert t[..n] == t[..2] + t[2..n];
      NewlinesOfConcat(t[..2], t[2..n]);
      NewlinesOfPair(t);
      if OpensLine(t) {
        LineHasNoNewline(t[2..]);
        assert t[2..n] == t[2..][..LineLength(t[2..])];
      } else {
        NewlinesOfNewlines(t[2..n]);
      }
    }
  }

  /** Stripping keeps every newline. */
  lemma {:induction false} NewlinesAreKept(t: string)
    ensures Newlines(Strip(t)) == Newlines(t)
    decreases |t|
  {
    hide Lex, Newlines;
    if t != "" {
      var k := Lex(t);
      var rest := t[k.length..];
      assert t == t[..k.length] + rest;
      assert Strip(t) == k.output + Strip(rest);
      NewlinesAreKept(rest);
      TokenKeepsNewlines(t);
      NewlinesOfConcat(k.output, Strip(rest));
      NewlinesOfConcat(t[..k.length], rest);
    }
  }

  lemma {:induction false} NewlinesOfNewlines(t: string)
    ensures Newlines(Newlines(t)) == Newlines(t)
    ensures forall i :: 0 <= i < |Newlines(t)| ==> Newlines(t)[i] == '\n'
  {
    if t != "" {
      NewlinesOfNewlines(t[1..]);
      if t[0] == '\n' {
        var rest := Newlines(t[1..]);
        assert Newlines(t) == "\n" + rest && ("\n" + rest)[1..] == rest;
        assert Newlines("\n" + rest) == "\n" + Newlines(rest);
      }
    }
  }

  lemma LiteralHead(t: string, quote: char)
    requires t != ""
    ensures LiteralLength(t, quote) ==
            if t[0] == '\\' && |t| >= 2 then 2 + LiteralLength(t[2..], quote)
            else if t[0] != '\\' && t[0] == quote then 1
            else 1 + LiteralLength(t[1..], quote)
  {}

  /** A literal that closes stays the same literal whatever follows it; one that does not takes everything. */
  lemma {:induction false} LiteralIsSelfContained(t: string, quote: char, rest: string)
    requires LiteralLength(t, quote) < |t| || rest == ""
    ensures var n := LiteralLength(t, quote);
            LiteralLength(t[..n] + rest, quote) == n
    decreases |t|
  {
    hide LiteralLength;
    var n := LiteralLength(t, quote);
    var u := t[..n] + rest;
    if n == |t| {
      assert u == t;
    } else {
      LiteralHead(t, quote);
      LiteralHead(u, quote);
      if t[0] == '\\' && |t| >= 2 {
        assert u[2..] == t[2..][..n - 2] + rest;
        LiteralIsSelfContained(t[2..], quote, rest);
      } else if t[0] == '\\' || t[0] != quote {
        assert u[1..] == t[1..][..n - 1] + rest;
        LiteralIsSelfContained(t[1..], quote, rest);
      }
    }
  }

  lemma NewlineToken(t: string)
    requires t != "" && t[0] == '\n'
    ensures Lex(t) == Token(Plain, 1, "\n")
  {}

  /** A run of newlines is ordinary text: stripping and lexing pass over it. */
  lemma {:induction false} NewlinesPassThrough(blank: string, rest: string)
    requires forall i :: 0 <= i < |blank| ==> blank[i] == '\n'
    ensures Strip(blank + rest) == blank + Strip(rest)
    ensures Literals(blank + rest) == Literals(rest)
  {
    hide Lex;
    if blank == "" {
      assert blank + rest == rest;
    } else {
      NewlinesPassThrough(blank[1..], rest);
      var all := blank + rest;
      NewlineToken(all);
      assert all[1..] == blank[1..] + rest;
      assert "\n" + (blank[1..] + Strip(rest)) == blank + Strip(rest);
    }
  }

  /**
   A copied token is lexed as the same token in the output. A slash cannot gain a partner: the character
   after it in the output is the one after it in the input. An unterminated literal has nothing after it.
   */
  lemma {:induction false} CopiedTokenIsStable(t: string)
    requires t != "" && !Lex(t).kind.Comment?
    ensures var k := Lex(t);
            Lex(k.output + Strip(t[k.length..])) == k
  {
    var k := Lex(t);
    var rest := Strip(t[k.length..]);
    var out := k.output + rest;
    if k.kind.Literal? {
      LiteralIsSelfContained(t[1..], t[0], rest);
      assert out[1..] == t[1..][..k.length - 1] + rest;
      assert out[..k.length] == t[..k.length];
    } else {
      assert out[..1] == t[..1];
      if t[0] == '/' && |t| >= 2 {
        var next := Lex(t[1..]);
        assert !next.kind.Comment? && next.output == t[1..][..next.length];
        assert rest[0] == t[1];
      }
    }
  }

  /** Stripping twice is stripping once, and the output has the input's string literals, in order. */
  lemma {:induction false} StrippingIsIdempotent(t: string)
    ensures Strip(Strip(t)) == Strip(t)
    ensures Literals(Strip(t)) == Literals(t)
    decreases |t|
  {
    hide Lex;
    if t != "" {
      var k := Lex(t);
      var rest := Strip(t[k.length..]);
      StrippingIsIdempotent(t[k.length..]);
      if k.kind.Comment? {
        CommentOutput(t);
        NewlinesPassThrough(k.output, rest);
      } else {
        CopiedTokenIsStable(t);
        CopiedOutput(t);
        var out := k.output + rest;
        assert out[k.length..] == rest && out[..k.length] == t[..k.length];
      }
    }
  }

  lemma {:induction false} CommentOutput(t: string)
    requires t != "" && Lex(t).kind.Comment?
    ensures forall i :: 0 <= i < |Lex(t).output| ==> Lex(t).output[i] == '\n'
    ensures |Lex(t).output| < Lex(t).length
  {
    if OpensBlock(t) {
      NewlinesOfNewlines(t[2..Lex(t).length]);
      NewlinesShrink(t[2..Lex(t).length]);
    }
  }

  lemma CopiedOutput(t: string)
    requires t != "" && !Lex(t).kind.Comment?
    ensures Lex(t).output == t[..Lex(t).length]
  {}

  lemma {:induction false} NewlinesShrink(t: string)
    ensures |Newlines(t)| <= |t|
  {
    if t != "" {
      NewlinesShrink(t[1..]);
    }
  }

  /** No token of the text is a comment. */
  ghost predicate CommentFree(t: string)
    decreases |t|
  {
    t != "" ==> !Lex(t).kind.Comment? && CommentFree(t[Lex(t).length..])
  }

  lemma {:induction false} StripShrinks(t: string)
    ensures |Strip(t)| <= |t|
    ensures |Strip(t)| == |t| <==> CommentFree(t)
    ensures CommentFree(t) ==> Strip(t) == t
    decreases |t|
  {
    hide Lex;
    if t != "" {
      var k := Lex(t);
      StripShrinks(t[k.length..]);
      if k.kind.Comment? {
        CommentOutput(t);
      } else {
        CopiedOutput(t);
        assert t == t[..k.length] + t[k.length..];
      }
    }
  }

  /** The output holds no comment, and stripping changes a text exactly when the text holds one. */
  lemma {:induction false} OutputIsCommentFree(t: string)
    ensures CommentFree(Strip(t))
    ensures Strip(t) == t <==> CommentFree(t)
  {
    StrippingIsIdempotent(t);
    StripShrinks(Strip(t));
    StripShrinks(t);
  }
}
