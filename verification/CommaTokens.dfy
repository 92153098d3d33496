/**
 What the comma scanner means for a text made of plain characters, quoted strings and comments, without reference to
 the scanner's state: it cuts at the commas outside strings and comments with no bracket left open before them.
 */
module CommaTokens {
  import opened Common
  import opened CommaScanner

  /** `Quoted`: a string in either kind of quotes.  `Block`, `Line`: the two kinds of comment. */
  datatype Token = Plain(ch: char) | Quoted(quote: char, body: string) | Block(body: string) | Line(body: string)

  function Text(token: Token): string {
    match token
    case Plain(ch) => [ch]
    case Quoted(quote, body) => [quote] + body + [quote]
    case Block(body) => "/*" + body + "*/"
    case Line(body) => "//" + body + "\n"
  }

  function Render(tokens: seq<Token>): string {
    if tokens == [] then "" else Text(tokens[0]) + Render(tokens[1..])
  }

  /** Two characters that start a comment, also inside a string. */
  predicate OpensComment(a: char, b: char) { a == '/' && (b == '/' || b == '*') }

  /** What is between the quotes ends the string nowhere, and starts no comment. */
  predicate IsBody(quote: char, body: string) {
    && (forall i :: 0 <= i < |body| ==> BodyAt(quote, body, i))
    && (body != [] ==> body[|body| - 1] != '\\')
  }

  predicate BodyAt(quote: char, body: string, i: nat)
    requires i < |body|
  {
    && (body[i] == quote ==> i > 0 && body[i - 1] == '\\')
    && (i > 0 ==> !OpensComment(body[i - 1], body[i]))
  }

  predicate CommentAt(body: string, i: nat)
    requires i < |body|
  {
    i > 0 ==> !(body[i - 1] == '*' && body[i] == '/')
  }

  predicate IsToken(token: Token) {
    match token
    case Plain(ch) => ch != '\'' && ch != '"'
    case Quoted(quote, body) => (quote == '\'' || quote == '"') && IsBody(quote, body)
    case Block(body) =>
      && (forall i :: 0 <= i < |body| ==> CommentAt(body, i))
      && (body != [] ==> body[|body| - 1] != '*')
    case Line(body) => forall i :: 0 <= i < |body| ==> body[i] != '\n'
  }

  /** The second may follow the first: they make no comment between them, and escape no quote. */
  predicate MayFollow(first: Token, second: Token) {
    first.Plain? ==>
      && !OpensComment(first.ch, Text(second)[0])
      && (second.Quoted? ==> first.ch != '\\')
  }

  predicate TokenAt(tokens: seq<Token>, i: nat)
    requires i < |tokens|
  {
    IsToken(tokens[i]) && (i > 0 ==> MayFollow(tokens[i - 1], tokens[i]))
  }

  /** Every token is one, and may follow the one before it. */
  predicate AreTokens(tokens: seq<Token>) {
    forall i :: 0 <= i < |tokens| ==> TokenAt(tokens, i)
  }

  // ---------------------------------------------------------------- brackets

  datatype Bracket = Bracket(open: char, close: char)

  const BRACE := Bracket('{', '}')
  const SQUARE := Bracket('[', ']')
  const PAREN := Bracket('(', ')')
  const ANGLE := Bracket('<', '>')

  /** How often a plain character occurs among tokens `j..i`. */
  function Count(tokens: seq<Token>, j: nat, i: nat, ch: char): nat
    requires j <= i <= |tokens|
    decreases i
  {
    if j == i then 0 else Count(tokens, j, i - 1, ch) + if tokens[i - 1] == Plain(ch) then 1 else 0
  }

  predicate NoneOpenFrom(tokens: seq<Token>, j: nat, i: nat, b: Bracket)
    requires j <= i <= |tokens|
  {
    Count(tokens, j, i, b.open) <= Count(tokens, j, i, b.close)
  }

  /** From no token up to `i` are there more brackets opened than closed: before `i` none is left open. */
  predicate NoneOpen(tokens: seq<Token>, i: nat, b: Bracket)
    requires i <= |tokens|
  {
    forall j :: 0 <= j <= i ==> NoneOpenFrom(tokens, j, i, b)
  }

  /** A comma at the top level. */
  predicate IsTop(tokens: seq<Token>, i: nat)
    requires i < |tokens|
  {
    && tokens[i] == Plain(',')
    && NoneOpen(tokens, i, BRACE) && NoneOpen(tokens, i, SQUARE) && NoneOpen(tokens, i, PAREN)
    && NoneOpen(tokens, i, ANGLE)
  }

  /** The text between the commas at the top level; nothing after one at the very end. */
  function TopPieces(tokens: seq<Token>, start: nat, i: nat): seq<string>
    requires start <= i <= |tokens|
    decreases |tokens| - i
  {
    if i == |tokens| then
      if start < |tokens| then [Render(tokens[start..])] else []
    else if IsTop(tokens, i) then [Render(tokens[start..i])] + TopPieces(tokens, i + 1, i + 1)
    else TopPieces(tokens, start, i + 1)
  }

  // ---------------------------------------------------------------- depth

  /** The depth a scanner has reached before token `i` that never goes below zero. */
  function Depth(tokens: seq<Token>, i: nat, b: Bracket): nat
    requires i <= |tokens|
  {
    if i == 0 then 0
    else
      var before := Depth(tokens, i - 1, b);
      if tokens[i - 1] == Plain(b.open) then before + 1
      else if tokens[i - 1] == Plain(b.close) then Less(before)
      else before
  }

  predicate Below(tokens: seq<Token>, j: nat, i: nat, b: Bracket)
    requires j <= i <= |tokens|
  {
    Count(tokens, j, i, b.open) - Count(tokens, j, i, b.close) <= Depth(tokens, i, b)
  }

  /** The depth is the most brackets left open from any token on. */
  lemma {:induction false} DepthIsMost(tokens: seq<Token>, i: nat, b: Bracket) returns (at: nat)
    requires i <= |tokens| && b.open != b.close
    ensures forall j :: 0 <= j <= i ==> Below(tokens, j, i, b)
    ensures at <= i && Count(tokens, at, i, b.open) - Count(tokens, at, i, b.close) == Depth(tokens, i, b)
  {
    if i == 0 {
      at := 0;
    } else {
      at := DepthIsMost(tokens, i - 1, b);
      forall j | 0 <= j <= i ensures Below(tokens, j, i, b) {
        assert j < i ==> Below(tokens, j, i - 1, b);
      }
      if tokens[i - 1] == Plain(b.close) && Depth(tokens, i - 1, b) == 0 { at := i; }
    }
  }

  lemma DepthZeroIff(tokens: seq<Token>, i: nat, b: Bracket)
    requires i <= |tokens| && b.open != b.close
    ensures Depth(tokens, i, b) == 0 <==> NoneOpen(tokens, i, b)
  {
    var at := DepthIsMost(tokens, i, b);
    if Depth(tokens, i, b) == 0 {
      forall j | 0 <= j <= i ensures NoneOpenFrom(tokens, j, i, b) { assert Below(tokens, j, i, b); }
    }
    if NoneOpen(tokens, i, b) { assert NoneOpenFrom(tokens, at, i, b); }
  }

  /** The scanner's state before token `i`. */
  function Between(tokens: seq<Token>, i: nat): Scan
    requires i <= |tokens|
  {
    Scan(Depth(tokens, i, BRACE), Depth(tokens, i, SQUARE), Depth(tokens, i, PAREN), Depth(tokens, i, ANGLE),
         false, false, false, false)
  }

  lemma TopIff(tokens: seq<Token>, i: nat)
    requires i < |tokens|
    ensures IsTop(tokens, i) <==> tokens[i] == Plain(',') && Between(tokens, i) == NEUTRAL
  {
    DepthZeroIff(tokens, i, BRACE);
    DepthZeroIff(tokens, i, SQUARE);
    DepthZeroIff(tokens, i, PAREN);
    DepthZeroIff(tokens, i, ANGLE);
  }

  // ---------------------------------------------------------------- one token after another

  /** From `i` in state `st` the scanner gets to `j` in state `t` without a cut. */
  ghost predicate Passes(chars: string, i: nat, st: Scan, j: nat, t: Scan)
    requires i <= j <= |chars|
  {
    forall start :: 0 <= start <= i ==> Pieces(chars, start, i, st) == Pieces(chars, start, j, t)
  }

  lemma PassesOn(chars: string, i: nat, st: Scan, j: nat, t: Scan, k: nat, u: Scan)
    requires i <= j <= k <= |chars| && Passes(chars, i, st, j, t) && Passes(chars, j, t, k, u)
    ensures Passes(chars, i, st, k, u)
  {
  }

  lemma OneTurn(chars: string, i: nat, st: Scan)
    requires i < |chars| && !TurnAt(chars, i, st).cut
    ensures var turn := TurnAt(chars, i, st);
            i + turn.width <= |chars| && Passes(chars, i, st, i + turn.width, turn.scan)
  {
    TurnFacts(chars, i, st);
  }

  /** Inside a string of this kind. */
  function Inside(st: Scan, quote: char): Scan {
    if quote == '\'' then st.(inSingle := true) else st.(inDouble := true)
  }

  predicate Outside(st: Scan) {
    !st.inSingle && !st.inDouble && !st.inBlockComment && !st.inLineComment
  }

  /** `part` stands in the text at `at`. */
  predicate Stands(chars: string, part: string, at: nat) {
    at + |part| <= |chars| && chars[at..at + |part|] == part
  }

  lemma {:induction false} BodyPasses(chars: string, at: nat, quote: char, body: string, n: nat, st: Scan)
    requires (quote == '\'' || quote == '"') && IsBody(quote, body) && Outside(st)
    requires Stands(chars, [quote] + body + [quote], at) && n <= |body|
    ensures Passes(chars, at + 1, Inside(st, quote), at + 1 + n, Inside(st, quote))
  {
    if n > 0 {
      BodyPasses(chars, at, quote, body, n - 1, st);
      var text := [quote] + body + [quote];
      var i := at + n;
      assert chars[i] == text[n] == body[n - 1] && chars[i + 1] == text[n + 1] && chars[i - 1] == text[n - 1];
      assert n < |body| ==> text[n + 1] == body[n] && BodyAt(quote, body, n);
      assert n > 1 ==> text[n - 1] == body[n - 2];
      assert BodyAt(quote, body, n - 1);
      OneTurn(chars, i, Inside(st, quote));
      PassesOn(chars, at + 1, Inside(st, quote), i, Inside(st, quote), i + 1, Inside(st, quote));
    }
  }

  lemma QuotedPasses(chars: string, at: nat, quote: char, body: string, st: Scan)
    requires (quote == '\'' || quote == '"') && IsBody(quote, body) && Outside(st)
    requires Stands(chars, Text(Quoted(quote, body)), at) && (at > 0 ==> chars[at - 1] != '\\')
    ensures Passes(chars, at, st, at + |body| + 2, st)
  {
    var text := Text(Quoted(quote, body));
    var last := at + |body| + 1;
    assert chars[at] == text[0] && chars[last] == text[|body| + 1] && chars[last - 1] == text[|body|];
    assert body != [] ==> text[|body|] == body[|body| - 1];
    OneTurn(chars, at, st);
    BodyPasses(chars, at, quote, body, |body|, st);
    OneTurn(chars, last, Inside(st, quote));
    PassesOn(chars, at, st, at + 1, Inside(st, quote), last, Inside(st, quote));
    PassesOn(chars, at, st, last, Inside(st, quote), last + 1, st);
  }

  lemma {:induction false} BlockBodyPasses(chars: string, at: nat, body: string, n: nat, st: Scan)
    requires IsToken(Block(body)) && Outside(st) && Stands(chars, Text(Block(body)), at) && n <= |body|
    ensures Passes(chars, at + 2, st.(inBlockComment := true), at + 2 + n, st.(inBlockComment := true))
  {
    if n > 0 {
      BlockBodyPasses(chars, at, body, n - 1, st);
      var text, inside := Text(Block(body)), st.(inBlockComment := true);
      var i := at + 1 + n;
      assert chars[i] == text[n + 1] == body[n - 1] && chars[i + 1] == text[n + 2];
      assert n < |body| ==> text[n + 2] == body[n] && CommentAt(body, n);
      OneTurn(chars, i, inside);
      PassesOn(chars, at + 2, inside, i, inside, i + 1, inside);
    }
  }

  lemma BlockPasses(chars: string, at: nat, body: string, st: Scan)
    requires IsToken(Block(body)) && Outside(st) && Stands(chars, Text(Block(body)), at)
    ensures Passes(chars, at, st, at + |body| + 4, st)
  {
    var text, inside := Text(Block(body)), st.(inBlockComment := true);
    var last := at + |body| + 2;
    assert chars[at] == text[0] && chars[at + 1] == text[1];
    assert chars[last] == text[|body| + 2] && chars[last + 1] == text[|body| + 3];
    OneTurn(chars, at, st);
    BlockBodyPasses(chars, at, body, |body|, st);
    OneTurn(chars, last, inside);
    PassesOn(chars, at, st, at + 2, inside, last, inside);
    PassesOn(chars, at, st, last, inside, last + 2, st);
  }

  lemma {:induction false} LineBodyPasses(chars: string, at: nat, body: string, n: nat, st: Scan)
    requires IsToken(Line(body)) && Outside(st) && Stands(chars, Text(Line(body)), at) && n <= |body|
    ensures Passes(chars, at + 2, st.(inLineComment := true), at + 2 + n, st.(inLineComment := true))
  {
    if n > 0 {
      LineBodyPasses(chars, at, body, n - 1, st);
      var text, inside := Text(Line(body)), st.(inLineComment := true);
      var i := at + 1 + n;
      assert chars[i] == text[n + 1] == body[n - 1];
      OneTurn(chars, i, inside);
      PassesOn(chars, at + 2, inside, i, inside, i + 1, inside);
    }
  }

  lemma LinePasses(chars: string, at: nat, body: string, st: Scan)
    requires IsToken(Line(body)) && Outside(st) && Stands(chars, Text(Line(body)), at)
    ensures Passes(chars, at, st, at + |body| + 3, st)
  {
    var text, inside := Text(Line(body)), st.(inLineComment := true);
    var last := at + |body| + 2;
    assert chars[at] == text[0] && chars[at + 1] == text[1] && chars[last] == text[|body| + 2];
    OneTurn(chars, at, st);
    LineBodyPasses(chars, at, body, |body|, st);
    OneTurn(chars, last, inside);
    PassesOn(chars, at, st, at + 2, inside, last, inside);
    PassesOn(chars, at, st, last, inside, last + 1, st);
  }

  // ---------------------------------------------------------------- the whole text

  lemma {:induction false} RenderAppend(a: seq<Token>, b: seq<Token>)
    ensures Render(a + b) == Render(a) + Render(b)
    decreases |a|
  {
    if a == [] {
      assert a + b == b;
    } else {
      assert (a + b)[1..] == a[1..] + b;
      RenderAppend(a[1..], b);
    }
  }

  lemma RenderOne(token: Token, rest: seq<Token>)
    ensures Render([token] + rest) == Text(token) + Render(rest)
  {
    assert ([token] + rest)[1..] == rest;
  }

  lemma RenderFrom(tokens: seq<Token>, i: nat)
    requires i < |tokens|
    ensures Render(tokens[i..]) == Text(tokens[i]) + Render(tokens[i + 1..])
  {
    assert tokens[i..] == [tokens[i]] + tokens[i + 1..];
    RenderOne(tokens[i], tokens[i + 1..]);
  }

  function LastChar(token: Token): char {
    match token
    case Plain(ch) => ch
    case Quoted(quote, _) => quote
    case Block(_) => '/'
    case Line(_) => '\n'
  }

  lemma EndsOfText(token: Token)
    ensures |Text(token)| > 0 && Text(token)[|Text(token)| - 1] == LastChar(token)
  {
  }

  /** The text from `at` on is the tokens from `i` on, and before it is the end of the token before. */
  ghost predicate Reads(chars: string, at: nat, tokens: seq<Token>, i: nat)
    requires i <= |tokens|
  {
    && at <= |chars| && chars[at..] == Render(tokens[i..])
    && (i == 0 ==> at == 0)
    && (i > 0 ==> at > 0 && chars[at - 1] == LastChar(tokens[i - 1]))
  }

  lemma ReadsOn(chars: string, at: nat, tokens: seq<Token>, i: nat)
    requires i < |tokens| && Reads(chars, at, tokens, i)
    ensures Stands(chars, Text(tokens[i]), at) && Reads(chars, at + |Text(tokens[i])|, tokens, i + 1)
  {
    RenderFrom(tokens, i);
    EndsOfText(tokens[i]);
    Behind(chars, at, Text(tokens[i]), Render(tokens[i + 1..]));
  }

  lemma Behind(chars: string, at: nat, a: string, b: string)
    requires at <= |chars| && chars[at..] == a + b
    ensures Stands(chars, a, at) && at + |a| <= |chars| && chars[at + |a|..] == b
    ensures |a| > 0 ==> chars[at + |a| - 1] == a[|a| - 1]
  {
    var rest := chars[at..];
    assert rest[..|a|] == a && rest[|a|..] == b;
    assert |a| > 0 ==> rest[|a| - 1] == a[|a| - 1];
  }

  /** The character that comes next is the first of the next token. */
  lemma NextIs(chars: string, at: nat, tokens: seq<Token>, i: nat)
    requires i <= |tokens| && Reads(chars, at, tokens, i)
    ensures Peek(chars, at) == if i < |tokens| then Some(Text(tokens[i])[0]) else None
  {
    if i < |tokens| {
      RenderFrom(tokens, i);
      assert chars[at] == chars[at..][0];
    }
  }

  lemma BetweenNext(tokens: seq<Token>, i: nat)
    requires i < |tokens|
    ensures Between(tokens, i + 1)
            == if tokens[i].Plain? then Nest(Between(tokens, i), tokens[i].ch) else Between(tokens, i)
  {
  }

  lemma PlainTurnAt(chars: string, at: nat, st: Scan)
    requires at < |chars| && Outside(st) && chars[at] != '\'' && chars[at] != '"'
    requires var next := Peek(chars, at + 1); next.Some? ==> !OpensComment(chars[at], next.value)
    ensures TurnAt(chars, at, st) == Turn(Nest(st, chars[at]), 1, chars[at] == ',' && st == NEUTRAL)
  {
  }

  /** Between two tokens, where the scanner is about to take on token `i`. */
  lemma TokenPassesAt(chars: string, at: nat, token: Token, st: Scan, next: Scan)
    requires IsToken(token) && Outside(st) && Stands(chars, Text(token), at)
    requires token.Plain? ==> TurnAt(chars, at, st) == Turn(next, 1, false)
    requires !token.Plain? ==> next == st
    requires token.Quoted? ==> at > 0 ==> chars[at - 1] != '\\'
    ensures Passes(chars, at, st, at + |Text(token)|, next)
  {
    match token
    case Plain(_) => OneTurn(chars, at, st);
    case Quoted(quote, body) => QuotedPasses(chars, at, quote, body, st);
    case Block(body) => BlockPasses(chars, at, body, st);
    case Line(body) => LinePasses(chars, at, body, st);
  }

  /** What the scanner takes for a comma at the top level. */
  predicate IsCutAt(tokens: seq<Token>, i: nat)
    requires i < |tokens|
  {
    tokens[i] == Plain(',') && Between(tokens, i) == NEUTRAL
  }

  function CutPieces(tokens: seq<Token>, start: nat, i: nat): seq<string>
    requires start <= i <= |tokens|
    decreases |tokens| - i
  {
    if i == |tokens| then
      if start < |tokens| then [Render(tokens[start..])] else []
    else if IsCutAt(tokens, i) then [Render(tokens[start..i])] + CutPieces(tokens, i + 1, i + 1)
    else CutPieces(tokens, start, i + 1)
  }

  lemma {:induction false} CutsAreTop(tokens: seq<Token>, start: nat, i: nat)
    requires start <= i <= |tokens|
    ensures CutPieces(tokens, start, i) == TopPieces(tokens, start, i)
    decreases |tokens| - i
  {
    if i < |tokens| {
      TopIff(tokens, i);
      CutsAreTop(tokens, if IsTop(tokens, i) then i + 1 else start, i + 1);
    }
  }

  /** The first `n` are tokens. */
  predicate TokensTo(tokens: seq<Token>, n: nat)
    requires n <= |tokens|
  {
    n == 0 || (TokensTo(tokens, n - 1) && TokenAt(tokens, n - 1))
  }

  lemma {:induction false} TokenIs(tokens: seq<Token>, n: nat, i: nat)
    requires i < n <= |tokens| && TokensTo(tokens, n)
    ensures TokenAt(tokens, i)
  {
    if i < n - 1 { TokenIs(tokens, n - 1, i); }
  }

  lemma {:induction false} AllTokens(tokens: seq<Token>, n: nat)
    requires AreTokens(tokens) && n <= |tokens|
    ensures TokensTo(tokens, n)
  {
    if n > 0 {
      AllTokens(tokens, n - 1);
      assert TokenAt(tokens, n - 1);
    }
  }

  /** A plain character stands there, and what comes next makes no comment of it. */
  lemma PlainStands(chars: string, at: nat, tokens: seq<Token>, i: nat)
    requires TokensTo(tokens, |tokens|) && i < |tokens| && tokens[i].Plain? && Reads(chars, at, tokens, i)
    ensures at < |chars| && chars[at] == tokens[i].ch && chars[at] != '\'' && chars[at] != '"'
    ensures var next := Peek(chars, at + 1); next.Some? ==> !OpensComment(chars[at], next.value)
  {
    NextIs(chars, at, tokens, i);
    TokenIs(tokens, |tokens|, i);
    ReadsOn(chars, at, tokens, i);
    NextIs(chars, at + 1, tokens, i + 1);
    if i + 1 < |tokens| { TokenIs(tokens, |tokens|, i + 1); }
  }

  /** A plain character is one turn, and a cut exactly when it is a comma at the top level. */
  lemma PlainTurn(chars: string, at: nat, tokens: seq<Token>, i: nat)
    requires TokensTo(tokens, |tokens|) && i < |tokens| && tokens[i].Plain? && Reads(chars, at, tokens, i)
    ensures at < |chars|
    ensures TurnAt(chars, at, Between(tokens, i)) == Turn(Between(tokens, i + 1), 1, IsCutAt(tokens, i))
  {
    PlainStands(chars, at, tokens, i);
    PlainTurnAt(chars, at, Between(tokens, i));
    BetweenNext(tokens, i);
  }

  lemma TokenPasses(chars: string, at: nat, tokens: seq<Token>, i: nat)
    requires TokensTo(tokens, |tokens|) && i < |tokens| && !IsCutAt(tokens, i) && Reads(chars, at, tokens, i)
    ensures at + |Text(tokens[i])| <= |chars|
    ensures Passes(chars, at, Between(tokens, i), at + |Text(tokens[i])|, Between(tokens, i + 1))
  {
    ReadsOn(chars, at, tokens, i);
    BetweenNext(tokens, i);
    if tokens[i].Plain? { PlainTurn(chars, at, tokens, i); }
    TokenIs(tokens, |tokens|, i);
    if i > 0 { TokenIs(tokens, |tokens|, i - 1); }
    TokenPassesAt(chars, at, tokens[i], Between(tokens, i), Between(tokens, i + 1));
  }

  lemma CutStep(chars: string, start: nat, i: nat, st: Scan, t: Scan)
    requires start <= i < |chars| && TurnAt(chars, i, st) == Turn(t, 1, true)
    ensures Pieces(chars, start, i, st) == [chars[start..i]] + Pieces(chars, i + 1, i + 1, t)
  {
  }

  lemma EndStep(chars: string, start: nat, st: Scan)
    requires start <= |chars|
    ensures Pieces(chars, start, |chars|, st) == if start < |chars| then [chars[start..]] else []
  {
  }

  lemma {:induction false} PiecesOfTokens(chars: string, s: nat, at: nat, tokens: seq<Token>, start: nat, i: nat)
    requires TokensTo(tokens, |tokens|) && start <= i <= |tokens| && Reads(chars, at, tokens, i)
    requires s <= at && chars[s..at] == Render(tokens[start..i])
    ensures Pieces(chars, s, at, Between(tokens, i)) == CutPieces(tokens, start, i)
    decreases |tokens| - i, 1
  {
    if i == |tokens| {
      EndCase(chars, s, at, tokens, start);
    } else if IsCutAt(tokens, i) {
      TopCase(chars, s, at, tokens, start, i);
    } else {
      PassCase(chars, s, at, tokens, start, i);
    }
  }

  lemma {:induction false} TopCase(chars: string, s: nat, at: nat, tokens: seq<Token>, start: nat, i: nat)
    requires TokensTo(tokens, |tokens|) && start <= i < |tokens| && IsCutAt(tokens, i) && Reads(chars, at, tokens, i)
    requires s <= at && chars[s..at] == Render(tokens[start..i])
    ensures Pieces(chars, s, at, Between(tokens, i)) == CutPieces(tokens, start, i)
    decreases |tokens| - i, 0
  {
    var next := TopStep(chars, s, at, tokens, i);
    EmptyBetween(chars, next, tokens, i + 1);
    PiecesOfTokens(chars, next, next, tokens, i + 1, i + 1);
    CutPiecesStep(tokens, start, i);
  }

  lemma {:induction false} PassCase(chars: string, s: nat, at: nat, tokens: seq<Token>, start: nat, i: nat)
    requires TokensTo(tokens, |tokens|) && start <= i < |tokens| && !IsCutAt(tokens, i) && Reads(chars, at, tokens, i)
    requires s <= at && chars[s..at] == Render(tokens[start..i])
    ensures Pieces(chars, s, at, Between(tokens, i)) == CutPieces(tokens, start, i)
    decreases |tokens| - i, 0
  {
    var next := at + |Text(tokens[i])|;
    ReadsOn(chars, at, tokens, i);
    PassText(chars, s, at, tokens, start, i);
    PassPieces(chars, s, at, tokens, i);
    PiecesOfTokens(chars, s, next, tokens, start, i + 1);
    CutPiecesStep(tokens, start, i);
  }

  lemma TopStep(chars: string, s: nat, at: nat, tokens: seq<Token>, i: nat) returns (next: nat)
    requires TokensTo(tokens, |tokens|) && i < |tokens| && IsCutAt(tokens, i) && Reads(chars, at, tokens, i) && s <= at
    ensures at < next && Reads(chars, next, tokens, i + 1)
    ensures Pieces(chars, s, at, Between(tokens, i))
            == [chars[s..at]] + Pieces(chars, next, next, Between(tokens, i + 1))
  {
    next := at + 1;
    ReadsOn(chars, at, tokens, i);
    PlainTurn(chars, at, tokens, i);
    CutStep(chars, s, at, Between(tokens, i), Between(tokens, i + 1));
  }

  lemma PassPieces(chars: string, s: nat, at: nat, tokens: seq<Token>, i: nat)
    requires TokensTo(tokens, |tokens|) && i < |tokens| && !IsCutAt(tokens, i) && Reads(chars, at, tokens, i)
    requires s <= at
    ensures at + |Text(tokens[i])| <= |chars|
    ensures Pieces(chars, s, at, Between(tokens, i))
            == Pieces(chars, s, at + |Text(tokens[i])|, Between(tokens, i + 1))
  {
    TokenPasses(chars, at, tokens, i);
  }

  lemma PassText(chars: string, s: nat, at: nat, tokens: seq<Token>, start: nat, i: nat)
    requires start <= i < |tokens| && s <= at && Stands(chars, Text(tokens[i]), at)
    requires chars[s..at] == Render(tokens[start..i])
    ensures chars[s..at + |Text(tokens[i])|] == Render(tokens[start..i + 1])
  {
    RenderOneMore(tokens, start, i);
    OneMoreText(chars, s, at, Render(tokens[start..i]), Text(tokens[i]));
  }

  lemma OneMoreText(chars: string, s: nat, at: nat, before: string, text: string)
    requires s <= at && Stands(chars, text, at) && chars[s..at] == before
    ensures chars[s..at + |text|] == before + text
  {
    JoinSlices(chars, s, at, at + |text|);
  }

  lemma EndCase(chars: string, s: nat, at: nat, tokens: seq<Token>, start: nat)
    requires start <= |tokens| && Reads(chars, at, tokens, |tokens|)
    requires s <= at && chars[s..at] == Render(tokens[start..|tokens|])
    ensures Pieces(chars, s, at, Between(tokens, |tokens|)) == CutPieces(tokens, start, |tokens|)
  {
    LastPiece(chars, s, at, tokens, start);
    EndStep(chars, s, Between(tokens, |tokens|));
    CutPiecesStep(tokens, start, |tokens|);
  }

  lemma CutPiecesStep(tokens: seq<Token>, start: nat, i: nat)
    requires start <= i <= |tokens|
    ensures CutPieces(tokens, start, i) ==
              if i == |tokens| then (if start < |tokens| then [Render(tokens[start..])] else [])
              else if IsCutAt(tokens, i) then [Render(tokens[start..i])] + CutPieces(tokens, i + 1, i + 1)
              else CutPieces(tokens, start, i + 1)
  {
  }

  lemma EmptyBetween(chars: string, at: nat, tokens: seq<Token>, i: nat)
    requires at <= |chars| && i <= |tokens|
    ensures chars[at..at] == Render(tokens[i..i])
  {
    assert tokens[i..i] == [];
  }

  lemma RenderOneMore(tokens: seq<Token>, start: nat, i: nat)
    requires start <= i < |tokens|
    ensures Render(tokens[start..i + 1]) == Render(tokens[start..i]) + Text(tokens[i])
  {
    assert tokens[start..i + 1] == tokens[start..i] + [tokens[i]];
    RenderAppend(tokens[start..i], [tokens[i]]);
    RenderOne(tokens[i], []);
    assert [tokens[i]] + [] == [tokens[i]];
  }

  lemma JoinSlices(chars: string, a: nat, b: nat, c: nat)
    requires a <= b <= c <= |chars|
    ensures chars[a..b] + chars[b..c] == chars[a..c]
  {
  }

  lemma LastPiece(chars: string, s: nat, at: nat, tokens: seq<Token>, start: nat)
    requires start <= |tokens| && Reads(chars, at, tokens, |tokens|)
    requires s <= at && chars[s..at] == Render(tokens[start..|tokens|])
    ensures at == |chars| && chars[s..] == Render(tokens[start..]) && (s < |chars| <==> start < |tokens|)
  {
    assert tokens[start..|tokens|] == tokens[start..];
    assert chars[s..at] == chars[s..];
    if start < |tokens| { EndsOfText(tokens[start]); }
  }

  /**
   A text of plain characters, strings and comments is split at exactly its commas at the top level: those outside
   strings and comments before which, for each of the four kinds of bracket, none is left open.
   */
  lemma SplitsAtTopCommas(tokens: seq<Token>)
    requires AreTokens(tokens)
    ensures Split(Render(tokens)) == TopPieces(tokens, 0, 0)
  {
    AllTokens(tokens, |tokens|);
    assert Render(tokens)[0..] == Render(tokens) && tokens[0..] == tokens && tokens[0..0] == [];
    PiecesOfTokens(Render(tokens), 0, 0, tokens, 0, 0);
    CutsAreTop(tokens, 0, 0);
  }
}
