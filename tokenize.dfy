/**
 * The lexer of the mini-shell (tokenize_lib.c).
 *
 * `Lex` is the specification: a line is scanned left to right; spaces are
 * skipped, each of the seven special characters is a token of its own, a
 * double quote at a token boundary opens a quoted token that runs to the next
 * double quote, and anything else is a maximal word.  `Tokenize` is the
 * cursor-driven loop of the source, filling the token array (with a NULL
 * sentinel) and the parallel array of "quoted" flags; it is proved to write
 * exactly what `Lex` computes.  `Render` is an inverse of `Lex`.
 */
module TokenizeLib {
  import opened Wrappers

  /** A token: its text and whether it came from inside a quoted span. */
  datatype Token = Token(text: string, quoted: bool)

  /** The characters that always form a one-character token. */
  const Specials: set<char> := {'(', ')', '<', '>', ';', '|', '\t'}

  /** is_special: 1 for a special character, 0 for every other one. */
  function IsSpecial(ch: char): (r: int)
    ensures r == 0 || r == 1
    ensures r == 1 <==> ch in Specials
  {
    if ch == '(' || ch == ')' || ch == '<' || ch == '>' || ch == ';' || ch == '|' || ch == '\t' then 1 else 0
  }

  /** A character that may continue a word: neither a space nor special. */
  predicate IsWordChar(ch: char)
  {
    ch != ' ' && IsSpecial(ch) == 0
  }

  /** Number of characters before the first double quote of `s` (|s| if none). */
  function QuoteLen(s: string): (n: nat)
    ensures n <= |s|
    ensures forall k :: 0 <= k < n ==> s[k] != '"'
    ensures n < |s| ==> s[n] == '"'
  {
    if s == [] || s[0] == '"' then 0 else 1 + QuoteLen(s[1..])
  }

  /** Length of the longest prefix of `s` made of word characters. */
  function WordLen(s: string): (n: nat)
    ensures n <= |s|
    ensures forall k :: 0 <= k < n ==> IsWordChar(s[k])
    ensures n < |s| ==> !IsWordChar(s[n])
  {
    if s == [] || !IsWordChar(s[0]) then 0 else 1 + WordLen(s[1..])
  }

  /** The shape of every token the lexer can produce. */
  predicate WellFormed(t: Token)
  {
    if t.quoted then '"' !in t.text
    else
      (|t.text| == 1 && IsSpecial(t.text[0]) == 1)
      || (t.text != [] && t.text[0] != '"' && forall ch :: ch in t.text ==> IsWordChar(ch))
  }

  function Cons(t: Token, rest: Option<seq<Token>>): Option<seq<Token>>
  {
    match rest
    case None => None
    case Some(ts) => Some([t] + ts)
  }

  /**
   * The tokens of `s`.  None when a double quote at a token boundary is never
   * closed: the source then steps past the string terminator.
   */
  function Lex(s: string): (r: Option<seq<Token>>)
    ensures r.Some? ==> |r.value| <= |s|
    decreases |s|
  {
    if s == [] then Some([])
    else if s[0] == ' ' then Lex(s[1..])
    else if s[0] == '"' then
      var n := QuoteLen(s[1..]);
      if n == |s| - 1 then None
      else Cons(Token(s[1..n + 1], true), Lex(s[n + 2..]))
    else if IsSpecial(s[0]) == 1 then Cons(Token([s[0]], false), Lex(s[1..]))
    else
      var n := WordLen(s);
      Cons(Token(s[..n], false), Lex(s[n..]))
  }

  /** The line with one trailing newline removed, as tokenize does first. */
  function StripNewline(line: string): string
  {
    if |line| > 0 && line[|line| - 1] == '\n' then line[..|line| - 1] else line
  }

  /** Stripping removes at most one character, a newline, from the end. */
  lemma StripNewlineShape(line: string)
    ensures StripNewline(line) == line || StripNewline(line) + ['\n'] == line
    ensures '\n' in line || StripNewline(line) == line
    ensures StripNewline(line) == line[..|StripNewline(line)|]
  {
  }

  /** The tokens tokenize produces for a whole line. */
  function LexLine(line: string): Option<seq<Token>>
  {
    Lex(StripNewline(line))
  }

  // ---------------------------------------------------------------------------
  // Properties of the lexer

  /** Only the ASCII space is skipped; a tab is special; a quote is neither. */
  lemma SpecialCharacters()
    ensures IsSpecial(' ') == 0 && IsSpecial('"') == 0 && IsSpecial('\t') == 1
    ensures forall ch :: IsSpecial(ch) == 1 <==> ch in {'(', ')', '<', '>', ';', '|', '\t'}
  {
  }

  /**
   * Every token has the shape WellFormed describes: quoted text holds no
   * double quote; an unquoted token is one special character or a non-empty
   * run of word characters that does not start with a double quote.
   */
  lemma {:induction false} LexWellFormed(s: string)
    requires Lex(s).Some?
    ensures forall k :: 0 <= k < |Lex(s).value| ==> WellFormed(Lex(s).value[k])
    decreases |s|
  {
    if s == [] {
    } else if s[0] == ' ' {
      LexWellFormed(s[1..]);
    } else if s[0] == '"' {
      var n := QuoteLen(s[1..]);
      var text := s[1..n + 1];
      assert forall k :: 0 <= k < |text| ==> text[k] == s[1..][k];
      LexWellFormed(s[n + 2..]);
    } else if IsSpecial(s[0]) == 1 {
      LexWellFormed(s[1..]);
    } else {
      var n := WordLen(s);
      var text := s[..n];
      assert forall ch :: ch in text ==> IsWordChar(ch) by {
        forall ch | ch in text ensures IsWordChar(ch) {
          var k :| 0 <= k < |text| && text[k] == ch;
          assert s[k] == ch;
        }
      }
      LexWellFormed(s[n..]);
    }
  }

  /** No unquoted token contains a space. */
  lemma {:induction false} NoSpaceOutsideQuotes(s: string, k: nat)
    requires Lex(s).Some? && k < |Lex(s).value|
    requires !Lex(s).value[k].quoted
    ensures ' ' !in Lex(s).value[k].text
  {
    var t := Lex(s).value[k];
    LexWellFormed(s);
    assert WellFormed(t);
    if |t.text| == 1 && IsSpecial(t.text[0]) == 1 {
      assert t.text == [t.text[0]];
    }
  }

  /**
   * A token written back as text: a quoted token inside its quotes, any
   * other as it is.  Render and Glued below write a token list back as a
   * line; RenderLexRoundTrip and GluedLexRoundTrip show that the lexer reads
   * those lines back as the same tokens.  Nothing here relates a token to
   * where it stood in the original line.
   */
  function RenderToken(t: Token): string
  {
    if t.quoted then ['"'] + t.text + ['"'] else t.text
  }

  /** Tokens written back as a line, separated by single spaces. */
  function Render(ts: seq<Token>): string
    decreases |ts|
  {
    if ts == [] then []
    else if |ts| == 1 then RenderToken(ts[0])
    else RenderToken(ts[0]) + [' '] + Render(ts[1..])
  }

  /** Tokens written back with nothing at all between them. */
  function Concat(ts: seq<Token>): string
    decreases |ts|
  {
    if ts == [] then [] else RenderToken(ts[0]) + Concat(ts[1..])
  }

  /** An unquoted token that is not a single special character. */
  predicate IsWord(t: Token)
  {
    !t.quoted && !(|t.text| == 1 && IsSpecial(t.text[0]) == 1)
  }

  /** Every word is followed by a special-character token or ends the list. */
  predicate Gluable(ts: seq<Token>)
  {
    forall k :: 0 <= k < |ts| - 1 ==> IsWord(ts[k]) ==> !ts[k + 1].quoted && !IsWord(ts[k + 1])
  }

  lemma {:induction false} QuoteLenAt(s: string, a: nat, b: nat)
    requires a <= b <= |s|
    requires forall k :: a <= k < b ==> s[k] != '"'
    requires b < |s| ==> s[b] == '"'
    ensures QuoteLen(s[a..]) == b - a
    decreases b - a
  {
    if a < b {
      assert s[a..][0] == s[a];
      assert s[a..][1..] == s[a + 1..];
      QuoteLenAt(s, a + 1, b);
    } else if b < |s| {
      assert s[a..][0] == s[b];
    } else {
      assert s[a..] == [];
    }
  }

  lemma {:induction false} WordLenAt(s: string, a: nat, b: nat)
    requires a <= b <= |s|
    requires forall k :: a <= k < b ==> IsWordChar(s[k])
    requires b < |s| ==> !IsWordChar(s[b])
    ensures WordLen(s[a..]) == b - a
    decreases b - a
  {
    if a < b {
      assert s[a..][0] == s[a];
      assert s[a..][1..] == s[a + 1..];
      WordLenAt(s, a + 1, b);
    } else if b < |s| {
      assert s[a..][0] == s[b];
    } else {
      assert s[a..] == [];
    }
  }

  /** A space before position i is skipped. */
  lemma LexSkipsSpace(s: string, i: nat)
    requires i < |s| && s[i] == ' '
    ensures Lex(s[i..]) == Lex(s[i + 1..])
  {
    assert s[i..][0] == s[i];
    assert s[i..][1..] == s[i + 1..];
  }

  /**
   * A double quote at position i, whose span ends at j (the next double
   * quote, or |s| when there is none): without a closing quote there is no
   * result, otherwise the quoted token is s[i+1..j].
   */
  lemma LexQuotedAt(s: string, i: nat, j: nat)
    requires i < |s| && s[i] == '"'
    requires j == i + 1 + QuoteLen(s[i + 1..])
    ensures j == |s| ==> Lex(s[i..]) == None
    ensures j < |s| ==> Lex(s[i..]) == Cons(Token(s[i + 1..j], true), Lex(s[j + 1..]))
  {
    var r := s[i..];
    assert r[0] == '"';
    assert r[1..] == s[i + 1..];
    if j < |s| {
      assert r[1..j - i] == s[i + 1..j];
      assert r[j - i + 1..] == s[j + 1..];
    }
  }

  /** A special character at position i is a one-character token. */
  lemma LexSpecialAt(s: string, i: nat)
    requires i < |s| && IsSpecial(s[i]) == 1
    ensures Lex(s[i..]) == Cons(Token([s[i]], false), Lex(s[i + 1..]))
  {
    assert s[i..][0] == s[i];
    assert s[i..][1..] == s[i + 1..];
  }

  /** A word starting at position i is the longest run of word characters, ending at j. */
  lemma LexWordAt(s: string, i: nat, j: nat)
    requires i < |s| && s[i] != '"' && IsWordChar(s[i])
    requires j == i + WordLen(s[i..])
    ensures i < j
    ensures Lex(s[i..]) == Cons(Token(s[i..j], false), Lex(s[j..]))
  {
    var r := s[i..];
    assert r[0] == s[i];
    assert r[..j - i] == s[i..j];
    assert r[j - i..] == s[j..];
  }

  lemma LexRenderQuoted(text: string, rest: string)
    requires '"' !in text
    ensures Lex(['"'] + text + ['"'] + rest) == Cons(Token(text, true), Lex(rest))
  {
    var s := ['"'] + text + ['"'] + rest;
    var j := |text| + 1;
    forall k | 0 < k < j ensures s[k] != '"' {
      assert s[k] == text[k - 1];
    }
    assert s[j] == '"';
    QuoteLenAt(s, 1, j);
    assert s[1..] == s[0 + 1..];
    LexQuotedAt(s, 0, j);
    assert s[1..j] == text;
    assert s[j + 1..] == rest;
    assert s[0..] == s;
  }

  lemma LexRenderSpecial(ch: char, rest: string)
    requires IsSpecial(ch) == 1
    ensures Lex([ch] + rest) == Cons(Token([ch], false), Lex(rest))
  {
    var s := [ch] + rest;
    LexSpecialAt(s, 0);
    assert s[1..] == rest;
    assert s[0..] == s;
  }

  lemma LexRenderWord(text: string, rest: string)
    requires text != [] && text[0] != '"' && forall ch :: ch in text ==> IsWordChar(ch)
    requires rest == [] || !IsWordChar(rest[0])
    ensures Lex(text + rest) == Cons(Token(text, false), Lex(rest))
  {
    var s := text + rest;
    var j := |text|;
    forall k | 0 <= k < j ensures IsWordChar(s[k]) {
      assert s[k] == text[k];
      assert text[k] in text;
    }
    assert j < |s| ==> s[j] == rest[0];
    WordLenAt(s, 0, j);
    assert s[0..] == s;
    LexWordAt(s, 0, j);
    assert s[..j] == text;
    assert s[j..] == rest;
  }

  /**
   * Lexing the rendering of one token followed by more text: a word must not
   * run on into a following word character.
   */
  lemma LexRenderToken(t: Token, rest: string)
    requires WellFormed(t)
    requires IsWord(t) ==> rest == [] || !IsWordChar(rest[0])
    ensures Lex(RenderToken(t) + rest) == Cons(t, Lex(rest))
  {
    if t.quoted {
      LexRenderQuoted(t.text, rest);
    } else if |t.text| == 1 && IsSpecial(t.text[0]) == 1 {
      LexRenderSpecial(t.text[0], rest);
      assert [t.text[0]] == t.text;
    } else {
      LexRenderWord(t.text, rest);
    }
  }

  /** The lexer inverts Render on every list of well-formed tokens. */
  lemma {:induction false} RenderLexRoundTrip(ts: seq<Token>)
    requires forall k :: 0 <= k < |ts| ==> WellFormed(ts[k])
    ensures Lex(Render(ts)) == Some(ts)
    decreases |ts|
  {
    if ts == [] {
    } else if |ts| == 1 {
      var r := RenderToken(ts[0]);
      LexRenderToken(ts[0], []);
      assert r + [] == r == Render(ts);
      assert Lex([]) == Some([]);
      assert [ts[0]] + [] == [ts[0]];
      assert Cons(ts[0], Some([])) == Some([ts[0]]);
      assert [ts[0]] == ts;
    } else {
      var rest := [' '] + Render(ts[1..]);
      LexRenderToken(ts[0], rest);
      assert Render(ts) == RenderToken(ts[0]) + rest;
      assert rest[1..] == Render(ts[1..]);
      RenderLexRoundTrip(ts[1..]);
      LexSkipsSpace(rest, 0);
      assert rest[0..] == rest;
      assert [ts[0]] + ts[1..] == ts;
    }
  }

  /**
   * Operators need no surrounding spaces: tokens glued together with nothing
   * between them lex back to the same tokens, as long as no word directly
   * precedes another word or a quoted token.
   */
  lemma {:induction false} GluedLexRoundTrip(ts: seq<Token>)
    requires forall k :: 0 <= k < |ts| ==> WellFormed(ts[k])
    requires Gluable(ts)
    ensures Lex(Concat(ts)) == Some(ts)
    decreases |ts|
  {
    if ts != [] {
      var rest := Concat(ts[1..]);
      if |ts| > 1 {
        assert ts[1..][0] == ts[1] && ts[1..][1..] == ts[2..];
        assert rest == RenderToken(ts[1]) + Concat(ts[2..]);
        if IsWord(ts[0]) {
          assert rest[0] == ts[1].text[0];
        }
      }
      LexRenderToken(ts[0], rest);
      assert Gluable(ts[1..]) by {
        forall k | 0 <= k < |ts[1..]| - 1
          ensures IsWord(ts[1..][k]) ==> !ts[1..][k + 1].quoted && !IsWord(ts[1..][k + 1])
        {
          assert ts[1..][k] == ts[k + 1] && ts[1..][k + 1] == ts[k + 2];
        }
      }
      GluedLexRoundTrip(ts[1..]);
      assert [ts[0]] + ts[1..] == ts;
    }
  }

  /** Rendering the tokens of a line and lexing again gives the same tokens. */
  lemma LexRenderLex(s: string)
    requires Lex(s).Some?
    ensures Lex(Render(Lex(s).value)) == Lex(s)
  {
    LexWellFormed(s);
    RenderLexRoundTrip(Lex(s).value);
  }

  // ---------------------------------------------------------------------------
  // The cursor-driven implementation

  /** The inner scan over a quoted span: the index of the closing quote, or |s|. */
  method ScanQuoted(s: string, start: nat) returns (i: nat)
    requires start <= |s|
    ensures i == start + QuoteLen(s[start..])
  {
    i := start;
    while i < |s| && s[i] != '"'
      invariant start <= i <= |s|
      invariant forall k :: start <= k < i ==> s[k] != '"'
    {
      i := i + 1;
    }
    QuoteLenAt(s, start, i);
  }

  /** The inner scan over a word: the index just past its last character. */
  method ScanWord(s: string, start: nat) returns (i: nat)
    requires start <= |s|
    ensures i == start + WordLen(s[start..])
  {
    i := start;
    while i < |s| && IsSpecial(s[i]) != 1 && s[i] != ' '
      invariant start <= i <= |s|
      invariant forall k :: start <= k < i ==> IsWordChar(s[k])
    {
      i := i + 1;
    }
    WordLenAt(s, start, i);
  }

  /**
   * The first i characters of s have been scanned into the first `count` of
   * its tokens `all`: the rest of the line lexes to the remaining ones.
   */
  ghost predicate Scanned(s: string, i: nat, all: seq<Token>, count: nat)
  {
    i <= |s| && count <= |all| && Lex(s[i..]) == Some(all[count..])
  }

  lemma ScannedStart(s: string)
    requires Lex(s).Some?
    ensures Scanned(s, 0, Lex(s).value, 0)
  {
    assert s[0..] == s;
    assert Lex(s).value[0..] == Lex(s).value;
  }

  lemma ScannedAll(s: string, all: seq<Token>, count: nat)
    requires Scanned(s, |s|, all, count)
    ensures count == |all|
  {
    assert s[|s|..] == [];
    assert Lex(s[|s|..]) == Some([]);
  }

  lemma ScannedSkip(s: string, i: nat, all: seq<Token>, count: nat)
    requires Scanned(s, i, all, count) && i < |s| && s[i] == ' '
    ensures Scanned(s, i + 1, all, count)
  {
    LexSkipsSpace(s, i);
  }

  lemma ScannedToken(s: string, i: nat, j: nat, all: seq<Token>, count: nat, t: Token)
    requires Scanned(s, i, all, count) && i < j <= |s|
    requires Lex(s[i..]) == Cons(t, Lex(s[j..]))
    ensures count < |all| && all[count] == t && Scanned(s, j, all, count + 1)
  {
    var rest := Lex(s[j..]).value;
    assert [t] + rest == all[count..];
    assert all[count..][0] == t;
    assert all[count..][1..] == all[count + 1..];
  }

  /** Where the rest of the line lexes, a quoted span is closed. */
  lemma QuoteClosed(s: string, i: nat, j: nat)
    requires i < |s| && s[i] == '"' && Lex(s[i..]).Some?
    requires j == i + 1 + QuoteLen(s[i + 1..])
    ensures j < |s| && Lex(s[i..]) == Cons(Token(s[i + 1..j], true), Lex(s[j + 1..]))
  {
    LexQuotedAt(s, i, j);
  }

  /** A quoted token is closed (the line is scanned), and it is the next token. */
  lemma ScannedQuoted(s: string, i: nat, j: nat, all: seq<Token>, count: nat)
    requires Scanned(s, i, all, count) && i < |s| && s[i] == '"'
    requires j == i + 1 + QuoteLen(s[i + 1..])
    ensures j < |s| && count < |all| && all[count] == Token(s[i + 1..j], true)
    ensures Scanned(s, j + 1, all, count + 1)
  {
    QuoteClosed(s, i, j);
    ScannedToken(s, i, j + 1, all, count, Token(s[i + 1..j], true));
  }

  lemma ScannedSpecial(s: string, i: nat, all: seq<Token>, count: nat)
    requires Scanned(s, i, all, count) && i < |s| && IsSpecial(s[i]) == 1
    ensures count < |all| && all[count] == Token([s[i]], false)
    ensures Scanned(s, i + 1, all, count + 1)
  {
    LexSpecialAt(s, i);
    ScannedToken(s, i, i + 1, all, count, Token([s[i]], false));
  }

  lemma ScannedWord(s: string, i: nat, j: nat, all: seq<Token>, count: nat)
    requires Scanned(s, i, all, count) && i < |s| && s[i] != '"' && IsWordChar(s[i])
    requires j == i + WordLen(s[i..])
    ensures i < j && count < |all| && all[count] == Token(s[i..j], false)
    ensures Scanned(s, j, all, count + 1)
  {
    LexWordAt(s, i, j);
    ScannedToken(s, i, j, all, count, Token(s[i..j], false));
  }

  /**
   * One turn of tokenize's outer loop at position i: skips a space, or scans
   * the next token, stores its text in cell `count` and, for a quoted token,
   * sets its flag.  No other cell changes.
   */
  method ScanNext(s: string, i: nat, ghost all: seq<Token>, count: nat,
                  tokenList: array<Option<string>>, quotedTokens: array<bool>)
    returns (next: nat, newCount: nat)
    requires Scanned(s, i, all, count) && i < |s|
    requires count < tokenList.Length && count < quotedTokens.Length
    modifies tokenList, quotedTokens
    ensures i < next && Scanned(s, next, all, newCount)
    ensures newCount == count || newCount == count + 1
    ensures newCount == count + 1 ==> count < |all| && tokenList[count] == Some(all[count].text)
    ensures newCount == count + 1 ==>
      quotedTokens[count] == if all[count].quoted then true else old(quotedTokens[count])
    ensures forall k :: 0 <= k < tokenList.Length && k != count ==> tokenList[k] == old(tokenList[k])
    ensures forall k :: 0 <= k < quotedTokens.Length && k != count ==> quotedTokens[k] == old(quotedTokens[k])
    ensures newCount == count ==> tokenList[count] == old(tokenList[count])
    ensures newCount == count ==> quotedTokens[count] == old(quotedTokens[count])
  {
    if s[i] == ' ' {
      ScannedSkip(s, i, all, count);
      next, newCount := i + 1, count;
    } else if s[i] == '"' {
      var quoteStart := i + 1;
      var quoteEnd := ScanQuoted(s, quoteStart);
      ScannedQuoted(s, i, quoteEnd, all, count);
      StoreToken(tokenList, quotedTokens, count, s[quoteStart..quoteEnd], true);
      next, newCount := quoteEnd + 1, count + 1;
    } else if IsSpecial(s[i]) == 1 {
      ScannedSpecial(s, i, all, count);
      StoreToken(tokenList, quotedTokens, count, [s[i]], false);
      next, newCount := i + 1, count + 1;
    } else {
      next := ScanWord(s, i);
      ScannedWord(s, i, next, all, count);
      StoreToken(tokenList, quotedTokens, count, s[i..next], false);
      newCount := count + 1;
    }
  }

  /** Stores one token in cell `count`; a quoted one also sets its flag. */
  method StoreToken(tokenList: array<Option<string>>, quotedTokens: array<bool>, count: nat,
                    text: string, quoted: bool)
    requires count < tokenList.Length && count < quotedTokens.Length
    modifies tokenList, quotedTokens
    ensures tokenList[count] == Some(text)
    ensures quotedTokens[count] == if quoted then true else old(quotedTokens[count])
    ensures forall k :: 0 <= k < tokenList.Length && k != count ==> tokenList[k] == old(tokenList[k])
    ensures forall k :: 0 <= k < quotedTokens.Length && k != count ==> quotedTokens[k] == old(quotedTokens[k])
  {
    tokenList[count] := Some(text);
    if quoted {
      quotedTokens[count] := true;
    }
  }

  /**
   * tokenize: scans `line` with a cursor, writes each token's text into
   * `tokenList` and a NULL after the last one, sets the flag of each quoted
   * token, and returns the number of tokens.  Flags of unquoted tokens keep
   * whatever the caller stored there.
   */
  method Tokenize(line: string, tokenList: array<Option<string>>, quotedTokens: array<bool>) returns (count: nat)
    requires |line| > 0 && '\0' !in line
    requires LexLine(line).Some?
    requires |line| < tokenList.Length && |line| <= quotedTokens.Length
    modifies tokenList, quotedTokens
    ensures count == |LexLine(line).value| && count < tokenList.Length
    ensures forall k :: 0 <= k < count ==> tokenList[k] == Some(LexLine(line).value[k].text)
    ensures tokenList[count] == None
    ensures forall k :: 0 <= k < count ==>
      quotedTokens[k] == if LexLine(line).value[k].quoted then true else old(quotedTokens[k])
    ensures forall k :: count < k < tokenList.Length ==> tokenList[k] == old(tokenList[k])
    ensures forall k :: count <= k < quotedTokens.Length ==> quotedTokens[k] == old(quotedTokens[k])
  {
    var s := StripNewline(line);
    StripNewlineShape(line);
    ghost var all := Lex(s).value;
    var i := 0;
    count := 0;
    ScannedStart(s);
    while i < |s|
      invariant count <= i
      invariant Scanned(s, i, all, count)
      invariant forall k :: 0 <= k < count ==> tokenList[k] == Some(all[k].text)
      invariant forall k :: 0 <= k < count ==>
        quotedTokens[k] == if all[k].quoted then true else old(quotedTokens[k])
      invariant forall k :: count <= k < tokenList.Length ==> tokenList[k] == old(tokenList[k])
      invariant forall k :: count <= k < quotedTokens.Length ==> quotedTokens[k] == old(quotedTokens[k])
    {
      i, count := ScanNext(s, i, all, count, tokenList, quotedTokens);
    }
    ScannedAll(s, all, count);
    tokenList[count] := None;
  }

  // ---------------------------------------------------------------------------
  // Examples of command lines and the tokens they give

  lemma ExampleOptions()
    ensures LexLine("ls -l") == Some([Token("ls", false), Token("-l", false)])
  {
    var ts := [Token("ls", false), Token("-l", false)];
    assert WellFormed(ts[0]) && WellFormed(ts[1]);
    assert Render(ts) == "ls -l";
    RenderLexRoundTrip(ts);
  }

  lemma ExampleQuotedSpace()
    ensures LexLine("echo \"a b\" c") == Some([Token("echo", false), Token("a b", true), Token("c", false)])
  {
    var ts := [Token("echo", false), Token("a b", true), Token("c", false)];
    assert WellFormed(ts[0]) && WellFormed(ts[1]) && WellFormed(ts[2]);
    assert Render(ts) == "echo \"a b\" c";
    RenderLexRoundTrip(ts);
  }

  lemma ExampleQuotedOperator()
    ensures LexLine("echo \"a;b\"") == Some([Token("echo", false), Token("a;b", true)])
  {
    var ts := [Token("echo", false), Token("a;b", true)];
    assert WellFormed(ts[0]) && WellFormed(ts[1]);
    assert Render(ts) == "echo \"a;b\"";
    RenderLexRoundTrip(ts);
  }

  lemma ExampleOperatorsNeedNoSpaces()
    ensures LexLine("ls|wc>out") == Some([Token("ls", false), Token("|", false), Token("wc", false),
      Token(">", false), Token("out", false)])
  {
    var ts := [Token("ls", false), Token("|", false), Token("wc", false), Token(">", false), Token("out", false)];
    forall k | 0 <= k < |ts| ensures WellFormed(ts[k]) {
    }
    assert Concat(ts) == "ls|wc>out";
    GluedLexRoundTrip(ts);
  }
}
