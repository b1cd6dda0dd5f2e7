/** The text that gets hashed: `json.Marshal` of records whose members are all strings,
    with Go's string escaping written out. */
module CanonicalJson {
  import opened Text
  import opened Binary

  function Unicode(code: nat): (s: string)
    requires code < 0x1_0000
    ensures |s| == 6 && s[0] == '\\' && s[1] == 'u'
  {
    ['\\', 'u', HexDigit(code / 0x1000), HexDigit(code % 0x1000 / 0x100), HexDigit(code % 0x100 / 16), HexDigit(code % 16)]
  }

  /** One character inside a JSON string. */
  function EscapeChar(c: char): (s: string)
    ensures |s| >= 1 && s[0] != '"'
  {
    match c
    case '"' => ['\\', '"']
    case '\\' => ['\\', '\\']
    case '\n' => ['\\', 'n']
    case '\r' => ['\\', 'r']
    case '\t' => ['\\', 't']
    case '\U{08}' => ['\\', 'b']
    case '\U{0C}' => ['\\', 'f']
    case _ =>
      var code := c as int;
      if code < 0x20 || c in {'<', '>', '&', '\U{2028}', '\U{2029}'} then Unicode(code) else [c]
  }

  function Escape(s: string): string {
    if s == "" then "" else EscapeChar(s[0]) + Escape(s[1..])
  }

  function Quote(s: string): string {
    "\"" + Escape(s) + "\""
  }

  lemma Nibbles(n: nat)
    ensures n == 0x1000 * (n / 0x1000) + 0x100 * (n % 0x1000 / 0x100) + 16 * (n % 0x100 / 16) + n % 16
  {
    assert n % 0x1000 == 0x100 * (n % 0x1000 / 0x100) + n % 0x100;
    assert n % 0x100 == 16 * (n % 0x100 / 16) + n % 16;
  }

  /** The members of a record after the opening brace, each behind a comma. */
  function Members(keys: seq<string>, values: seq<string>): string
    requires |keys| == |values|
  {
    if keys == [] then "}"
    else "," + Quote(keys[0]) + ":" + Quote(values[0]) + Members(keys[1..], values[1..])
  }

  /** A record with string members, keys in the order given. */
  function Record(keys: seq<string>, values: seq<string>): string
    requires |keys| == |values| && keys != []
  {
    "{" + Members(keys, values)[1..]
  }

  // ----- reading records back -----

  /** The character a four-digit escape stands for, unless it is half of a surrogate pair. */
  function ReadUnicode(s: string): Option<char>
    requires |s| == 4
  {
    var a, b, c, d := HexValue(s[0]), HexValue(s[1]), HexValue(s[2]), HexValue(s[3]);
    if a.None? || b.None? || c.None? || d.None? then None
    else
      var code := 0x1000 * a.value + 0x100 * b.value + 16 * c.value + d.value;
      if 0xD800 <= code < 0xE000 then None else Some(code as char)
  }

  /** The character a one-letter escape stands for. */
  function ReadEscape(c: char): Option<char> {
    match c
    case '"' => Some('"')
    case '\\' => Some('\\')
    case '/' => Some('/')
    case 'b' => Some(8 as char)
    case 'f' => Some(12 as char)
    case 'n' => Some('\n')
    case 'r' => Some('\r')
    case 't' => Some('\t')
    case _ => None
  }

  /** Reads one character of a string and what is left, as section 7 of RFC 8259 has it. */
  function ReadChar(s: string): (r: Option<(char, string)>)
    ensures r.Some? ==> |r.value.1| < |s|
  {
    if s == "" || s[0] == '"' || s[0] as int < 0x20 then None
    else if s[0] != '\\' then Some((s[0], s[1..]))
    else if |s| < 2 then None
    else if s[1] == 'u' then
      if |s| < 6 || ReadUnicode(s[2..6]).None? then None else Some((ReadUnicode(s[2..6]).value, s[6..]))
    else if ReadEscape(s[1]).None? then None
    else Some((ReadEscape(s[1]).value, s[2..]))
  }

  /** Reads a string up to its closing quote. */
  function ReadString(s: string): (r: Option<(string, string)>)
    ensures r.Some? ==> |r.value.1| < |s|
    decreases |s|
  {
    if s != "" && s[0] == '"' then Some(("", s[1..]))
    else
      var first := ReadChar(s);
      if first.None? then None
      else
        var rest := ReadString(first.value.1);
        if rest.None? then None else Some(([first.value.0] + rest.value.0, rest.value.1))
  }

  lemma CharReads(c: char, rest: string)
    ensures ReadChar(EscapeChar(c) + rest) == Some((c, rest))
  {
    var s := EscapeChar(c) + rest;
    if EscapeChar(c) == [c] {
      assert s[1..] == rest;
    } else if |EscapeChar(c)| == 2 {
      assert s[2..] == rest;
    } else {
      UnicodeReads(c as int);
      assert EscapeChar(c) == Unicode(c as int);
      assert s[2..6] == Unicode(c as int)[2..6] && s[6..] == rest;
    }
  }

  lemma UnicodeReads(code: nat)
    requires code < 0xD800
    ensures ReadUnicode(Unicode(code)[2..6]) == Some(code as char)
  {
    HexDigitRoundTrip(code / 0x1000);
    HexDigitRoundTrip(code % 0x1000 / 0x100);
    HexDigitRoundTrip(code % 0x100 / 16);
    HexDigitRoundTrip(code % 16);
    Nibbles(code);
    hide HexDigit, HexValue;
  }

  /** A quoted string reads back as itself. */
  lemma {:induction false} StringReads(a: string, rest: string)
    ensures ReadString(Escape(a) + "\"" + rest) == Some((a, rest))
  {
    var s := Escape(a) + "\"" + rest;
    if a == "" {
      assert s == "\"" + rest && s[1..] == rest;
    } else {
      var tail := Escape(a[1..]) + "\"" + rest;
      EscapeSplit(a, rest);
      CharReads(a[0], tail);
      assert s[0] == EscapeChar(a[0])[0];
      hide EscapeChar, ReadChar, Escape;
      StringReads(a[1..], rest);
      ReadOneMore(s, a[0], tail);
      assert a == [a[0]] + a[1..];
    }
  }

  lemma EscapeSplit(a: string, rest: string)
    requires a != ""
    ensures Escape(a) + "\"" + rest == EscapeChar(a[0]) + (Escape(a[1..]) + "\"" + rest)
  {
    hide EscapeChar;
  }

  lemma ReadOneMore(s: string, c: char, tail: string)
    requires s != "" && s[0] != '"' && ReadChar(s) == Some((c, tail)) && ReadString(tail).Some?
    ensures ReadString(s) == Some(([c] + ReadString(tail).value.0, ReadString(tail).value.1))
  {
    hide ReadChar;
  }

  /** Reads the members of a record, each behind a comma, and the closing brace. */
  function ReadMembers(s: string): Option<seq<(string, string)>>
    decreases |s|
  {
    if s == "}" then Some([])
    else if |s| < 2 || s[..2] != ",\"" then None
    else
      var key := ReadString(s[2..]);
      if key.None? || |key.value.1| < 2 || key.value.1[..2] != ":\"" then None
      else
        var value := ReadString(key.value.1[2..]);
        if value.None? then None
        else
          var more := ReadMembers(value.value.1);
          if more.None? then None else Some([(key.value.0, value.value.0)] + more.value)
  }

  /** Reads an object whose members are strings: their names and values, in order. */
  function ReadRecord(s: string): Option<seq<(string, string)>> {
    if s == "" || s[0] != '{' then None else ReadMembers("," + s[1..])
  }

  function Pairs(keys: seq<string>, values: seq<string>): (pairs: seq<(string, string)>)
    requires |keys| == |values|
    ensures |pairs| == |keys| && forall i | 0 <= i < |keys| :: pairs[i] == (keys[i], values[i])
  {
    seq(|keys|, i requires 0 <= i < |keys| => (keys[i], values[i]))
  }

  lemma {:induction false} MembersRead(keys: seq<string>, values: seq<string>)
    requires |keys| == |values|
    ensures ReadMembers(Members(keys, values)) == Some(Pairs(keys, values))
    decreases |keys|
  {
    var s := Members(keys, values);
    if keys == [] {
    } else {
      var more := Members(keys[1..], values[1..]);
      var afterKey := ":\"" + (Escape(values[0]) + "\"" + more);
      MembersShape(keys, values);
      assert s[..2] == ",\"" && s[2..] == Escape(keys[0]) + "\"" + afterKey;
      hide Escape, Members, ReadString;
      StringReads(keys[0], afterKey);
      assert afterKey[..2] == ":\"" && afterKey[2..] == Escape(values[0]) + "\"" + more;
      StringReads(values[0], more);
      MembersRead(keys[1..], values[1..]);
      assert Pairs(keys, values) == [(keys[0], values[0])] + Pairs(keys[1..], values[1..]);
    }
  }

  lemma MembersShape(keys: seq<string>, values: seq<string>)
    requires |keys| == |values| && keys != []
    ensures Members(keys, values) ==
            ",\"" + (Escape(keys[0]) + "\"" + (":\"" + (Escape(values[0]) + "\"" + Members(keys[1..], values[1..]))))
  {
    hide Escape;
  }

  /** A printed record reads back as its members, names and values in order. */
  lemma RecordReads(keys: seq<string>, values: seq<string>)
    requires |keys| == |values| && keys != []
    ensures ReadRecord(Record(keys, values)) == Some(Pairs(keys, values))
  {
    MembersRead(keys, values);
    MembersShape(keys, values);
    assert "," + Record(keys, values)[1..] == Members(keys, values);
  }

  /** So a quoted string ends at its first bare quote and determines the text in it. */
  lemma EscapeInjective(a: string, b: string, x: string, y: string)
    requires Escape(a) + "\"" + x == Escape(b) + "\"" + y
    ensures a == b && x == y
  {
    StringReads(a, x);
    StringReads(b, y);
  }

  /** Records with the same keys and the same text have the same values, whatever
      characters the values hold. */
  lemma RecordInjective(keys: seq<string>, v: seq<string>, w: seq<string>)
    requires |keys| == |v| == |w| && keys != [] && Record(keys, v) == Record(keys, w)
    ensures v == w
  {
    RecordReads(keys, v);
    RecordReads(keys, w);
    hide Record, ReadRecord;
    forall i | 0 <= i < |v|
      ensures v[i] == w[i]
    {
      assert Pairs(keys, v)[i] == Pairs(keys, w)[i];
    }
  }
}
