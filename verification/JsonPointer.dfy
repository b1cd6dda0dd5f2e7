/** JSON Pointers as the transformation engine reads them: `pointerTokens` splits at "/",
    then replaces every "~1" and after that every "~0". */
module JsonPointer {
  import opened Text

  /** `strings.ReplaceAll` of the two-character text `a b` by the character `c`. */
  function ReplacePair(s: string, a: char, b: char, c: char): string {
    if s == "" then ""
    else if |s| >= 2 && s[0] == a && s[1] == b then [c] + ReplacePair(s[2..], a, b, c)
    else [s[0]] + ReplacePair(s[1..], a, b, c)
  }

  function Unescape(part: string): string {
    ReplacePair(ReplacePair(part, '~', '1', '/'), '~', '0', '~')
  }

  function UnescapeAll(parts: seq<string>): (tokens: seq<string>)
    ensures |tokens| == |parts|
    ensures forall i | 0 <= i < |parts| :: tokens[i] == Unescape(parts[i])
  {
    seq(|parts|, i requires 0 <= i < |parts| => Unescape(parts[i]))
  }

  /** The tokens of a pointer. Both "" and "/" name the document root: section 5 of
      RFC 6901 would read "/" as the single key "". */
  function Tokens(path: string): seq<string> {
    if path == "" || path == "/" then []
    else UnescapeAll(Split(if path[0] == '/' then path[1..] else path, '/'))
  }

  /** `pointerTokens` as written: a loop that appends one unescaped part at a time. */
  method PointerTokens(path: string) returns (tokens: seq<string>)
    ensures tokens == Tokens(path)
  {
    tokens := [];
    if path == "" || path == "/" {
      return;
    }
    var raw := Split(if path[0] == '/' then path[1..] else path, '/');
    for i := 0 to |raw|
      invariant |tokens| == i
      invariant forall k | 0 <= k < i :: tokens[k] == Unescape(raw[k])
    {
      var part := ReplacePair(raw[i], '~', '1', '/');
      part := ReplacePair(part, '~', '0', '~');
      tokens := tokens + [part];
    }
  }

  /** Printing, as sections 3 and 4 of RFC 6901 prescribe. */
  function EscapeChar(c: char): string {
    if c == '~' then "~0" else if c == '/' then "~1" else [c]
  }

  function Escape(token: string): string {
    if token == "" then "" else EscapeChar(token[0]) + Escape(token[1..])
  }

  function EscapeEach(tokens: seq<string>): (parts: seq<string>)
    ensures |parts| == |tokens|
    ensures forall i | 0 <= i < |tokens| :: parts[i] == Escape(tokens[i])
  {
    seq(|tokens|, i requires 0 <= i < |tokens| => Escape(tokens[i]))
  }

  function Print(tokens: seq<string>): string {
    if tokens == [] then "" else "/" + Join(EscapeEach(tokens), '/')
  }

  /** The text between the two unescaping passes: slashes are back, tildes are not. */
  function TildeChar(c: char): string {
    if c == '~' then "~0" else [c]
  }

  function EscapeTildes(token: string): string {
    if token == "" then "" else TildeChar(token[0]) + EscapeTildes(token[1..])
  }

  lemma ReplaceMisses(c: char, rest: string, a: char, b: char, x: char)
    requires c != a || rest == "" || rest[0] != b
    ensures ReplacePair([c] + rest, a, b, x) == [c] + ReplacePair(rest, a, b, x)
  {
    assert ([c] + rest)[1..] == rest;
  }

  lemma ReplaceHits(rest: string, a: char, b: char, x: char)
    ensures ReplacePair([a, b] + rest, a, b, x) == [x] + ReplacePair(rest, a, b, x)
  {
    assert ([a, b] + rest)[2..] == rest;
  }

  lemma FirstPassChar(c: char, rest: string)
    ensures ReplacePair(EscapeChar(c) + rest, '~', '1', '/') == TildeChar(c) + ReplacePair(rest, '~', '1', '/')
  {
    if c == '~' {
      assert EscapeChar(c) + rest == ['~'] + (['0'] + rest);
      ReplaceMisses('~', ['0'] + rest, '~', '1', '/');
      ReplaceMisses('0', rest, '~', '1', '/');
    } else if c == '/' {
      ReplaceHits(rest, '~', '1', '/');
    } else {
      ReplaceMisses(c, rest, '~', '1', '/');
    }
  }

  lemma SecondPassChar(c: char, rest: string)
    ensures ReplacePair(TildeChar(c) + rest, '~', '0', '~') == [c] + ReplacePair(rest, '~', '0', '~')
  {
    if c == '~' {
      ReplaceHits(rest, '~', '0', '~');
    } else {
      ReplaceMisses(c, rest, '~', '0', '~');
    }
  }

  lemma {:induction false} FirstPass(token: string)
    ensures ReplacePair(Escape(token), '~', '1', '/') == EscapeTildes(token)
  {
    if token != "" {
      FirstPassChar(token[0], Escape(token[1..]));
      FirstPass(token[1..]);
    }
  }

  lemma {:induction false} EscapeHidesSlashes(token: string)
    ensures '/' !in Escape(token)
  {
    if token != "" {
      EscapeHidesSlashes(token[1..]);
    }
  }

  lemma {:induction false} SecondPass(token: string)
    ensures ReplacePair(EscapeTildes(token), '~', '0', '~') == token
  {
    if token != "" {
      SecondPassChar(token[0], EscapeTildes(token[1..]));
      SecondPass(token[1..]);
      assert token == [token[0]] + token[1..];
    }
  }

  lemma {:induction false} EscapedPartsNonEmpty(tokens: seq<string>)
    requires tokens != [] && tokens != [""]
    ensures Join(EscapeEach(tokens), '/') != ""
  {
    if |tokens| == 1 {
      assert tokens == [tokens[0]];
      assert Escape(tokens[0]) == EscapeChar(tokens[0][0]) + Escape(tokens[0][1..]);
    }
  }

  /** The printed pointer of a token list reads back as that list, for every token list
      but one: `[""]` prints as "/", which names the root. */
  lemma PointerRoundTrip(tokens: seq<string>)
    ensures Tokens(Print(tokens)) == tokens <==> tokens != [""]
  {
    if tokens == [""] {
      assert EscapeEach(tokens) == [""];
      assert Print(tokens) == "/";
    } else if tokens != [] {
      EscapedPartsNonEmpty(tokens);
      var parts := EscapeEach(tokens);
      forall i | 0 <= i < |tokens|
        ensures '/' !in parts[i] && Unescape(parts[i]) == tokens[i]
      {
        EscapeHidesSlashes(tokens[i]);
        FirstPass(tokens[i]);
        SecondPass(tokens[i]);
      }
      SplitJoin(parts, '/');
      assert Print(tokens)[1..] == Join(parts, '/');
    }
  }
}
