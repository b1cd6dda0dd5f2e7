/** Signature headers: what a delivery sends, how a receiver reads it, and that the two agree.
    HMAC-SHA256 (section 2 of RFC 2104) and base64 are parameters. */
module Signature {
  import opened Text
  import opened Binary

  type Mac = (seq<byte>, seq<byte>) -> seq<byte>

  datatype Base64 = Base64(encode: seq<byte> -> string, decode: string -> Option<seq<byte>>)

  datatype Reason = Ok | MissingSignature | MalformedHeader | ExpiredTimestamp | InvalidSignature | UnsupportedAlgorithm

  /** `timestamp` is in seconds, `age` in nanoseconds. */
  datatype Verification = Verification(valid: bool, reason: Reason, timestamp: int, age: int, version: string)

  const DOT: byte := 46

  // ----- signing -----

  /** The signed text: decimal time, a dot, the body. */
  function Payload(t: int, body: seq<byte>): seq<byte> {
    Ascii(Itoa(t)) + [DOT] + body
  }

  function SignHex(mac: Mac, secret: seq<byte>, payload: seq<byte>): string {
    HexEncode(mac(secret, payload))
  }

  /** `TimestampedHeader`. */
  function Header(mac: Mac, version: string, t: int, secret: seq<byte>, body: seq<byte>): string {
    "t=" + Itoa(t) + "," + version + "=" + SignHex(mac, secret, Payload(t, body))
  }

  // ----- reading a header -----

  /** The entry a header part stands for. */
  function Entry(part: string): Option<(string, string)> {
    var pair := Cut(TrimSpace(part), '=');
    if pair.None? || pair.value.0 == "" then None else Some((ToLower(pair.value.0), pair.value.1))
  }

  /** The entries of the parts; a later entry replaces an earlier one with the same key. */
  function Entries(parts: seq<string>): map<string, string> {
    if parts == [] then map[]
    else
      var before := Entries(parts[..|parts| - 1]);
      var entry := Entry(parts[|parts| - 1]);
      if entry.None? then before else before[entry.value.0 := entry.value.1]
  }

  function ReadHeader(header: string): map<string, string> {
    Entries(Split(header, ','))
  }

  /** A header part says that a key has a value: the key stands before its first equals sign, in
      any case, and is not empty. */
  ghost predicate Says(part: string, key: string, value: string) {
    exists k :: '=' !in k && k != "" && ToLower(k) == key && TrimSpace(part) == k + "=" + value
  }

  lemma EntryIs(part: string, key: string, value: string)
    ensures Entry(part) == Some((key, value)) <==> Says(part, key, value)
  {
    var pair := Cut(TrimSpace(part), '=');
    if Entry(part) == Some((key, value)) {
      assert TrimSpace(part) == pair.value.0 + "=" + value;
    }
    if Says(part, key, value) {
      var k :| '=' !in k && k != "" && ToLower(k) == key && TrimSpace(part) == k + "=" + value;
      CutAtFirst(k, value, '=');
      assert k + ['='] + value == TrimSpace(part);
    }
  }

  ghost predicate Silent(part: string, key: string) {
    forall value :: !Says(part, key, value)
  }

  /** The last part with the key says what its value is. */
  ghost predicate LastSays(parts: seq<string>, key: string, value: string) {
    exists k: nat | k < |parts| :: Says(parts[k], key, value) && forall j | k < j < |parts| :: Silent(parts[j], key)
  }

  lemma LastSaysStep(parts: seq<string>, key: string, value: string)
    requires parts != []
    ensures var n := |parts| - 1;
            LastSays(parts, key, value) <==> Says(parts[n], key, value) || (LastSays(parts[..n], key, value) && Silent(parts[n], key))
  {
    hide Says, Silent;
    var n := |parts| - 1;
    var before := parts[..n];
    if LastSays(before, key, value) && Silent(parts[n], key) {
      var k: nat :| k < n && Says(before[k], key, value) && forall j | k < j < n :: Silent(before[j], key);
      assert Says(parts[k], key, value);
      assert forall j | k < j < n :: Silent(before[j], key) && parts[j] == before[j];
    }
    if LastSays(parts, key, value) && !Says(parts[n], key, value) {
      var k: nat :| k < |parts| && Says(parts[k], key, value) && forall j | k < j < |parts| :: Silent(parts[j], key);
      assert k < n && Says(before[k], key, value);
      assert forall j | k < j < n :: before[j] == parts[j];
    }
  }

  lemma {:induction false} EntriesAre(parts: seq<string>, key: string, value: string)
    ensures key in Entries(parts) && Entries(parts)[key] == value <==> LastSays(parts, key, value)
    decreases |parts|
  {
    if parts != [] {
      var n := |parts| - 1;
      EntriesAre(parts[..n], key, value);
      LastSaysStep(parts, key, value);
      forall v ensures Entry(parts[n]) == Some((key, v)) <==> Says(parts[n], key, v) { EntryIs(parts[n], key, v); }
      hide Says, LastSays, Entry;
    }
  }

  /** `parseKVHeader`: a key has the value that the last part with that key says. */
  method ParseKVHeader(header: string) returns (values: map<string, string>)
    ensures values == ReadHeader(header)
    ensures forall key, value :: key in values && values[key] == value <==> LastSays(Split(header, ','), key, value)
  {
    forall key, value
      ensures key in ReadHeader(header) && ReadHeader(header)[key] == value <==> LastSays(Split(header, ','), key, value)
    {
      EntriesAre(Split(header, ','), key, value);
    }
    hide LastSays;
    values := map[];
    var parts := Split(header, ',');
    for i := 0 to |parts|
      invariant values == Entries(parts[..i])
    {
      assert parts[..i + 1][..i] == parts[..i];
      var pair := Cut(TrimSpace(parts[i]), '=');
      if pair.None? || pair.value.0 == "" {
        continue;
      }
      values := values[ToLower(pair.value.0) := pair.value.1];
    }
    assert parts[..|parts|] == parts;
  }

  // ----- verification -----

  /** Subtraction of times: it saturates. */
  function Saturate(n: int): int {
    if n < MIN_INT64 then MIN_INT64 else if n > MAX_INT64 then MAX_INT64 else n
  }

  /** The age of a timestamp, in 64 bits: the negation of the least duration is itself. */
  function Age(now: int, t: int): int {
    var age := Saturate(now - t * SECOND);
    if age >= 0 || age == MIN_INT64 then age else -age
  }

  predicate Expired(now: int, t: int, tolerance: int) {
    tolerance > 0 && Age(now, t) > tolerance
  }

  function Lookup(values: map<string, string>, key: string): string {
    if key in values then values[key] else ""
  }

  predicate HexMatches(mac: Mac, secret: seq<byte>, payload: seq<byte>, signature: string) {
    HexDecode(signature) == Some(mac(secret, payload))
  }

  predicate Base64Matches(mac: Mac, code: Base64, secret: seq<byte>, payload: seq<byte>, signature: string) {
    var got, want := code.decode(signature), code.decode(code.encode(mac(secret, payload)));
    got.Some? && got == want
  }

  /** What a header is worth. */
  function Verify(mac: Mac, code: Base64, header: string, secret: seq<byte>, body: seq<byte>, now: int, tolerance: int,
                  version: string, encoding: string): Verification
  {
    var values := ReadHeader(header);
    var t := ParseInt(Lookup(values, "t"));
    if t.None? then Verification(false, MalformedHeader, 0, 0, "")
    else
      var age := Age(now, t.value);
      var signature := Lookup(values, version);
      if Expired(now, t.value, tolerance) then Verification(false, ExpiredTimestamp, t.value, age, "")
      else if signature == "" then Verification(false, MissingSignature, t.value, age, version)
      else if encoding !in {"", "hex", "base64"} then Verification(false, UnsupportedAlgorithm, t.value, age, version)
      else
        var payload := Payload(t.value, body);
        var matches := if encoding == "base64" then Base64Matches(mac, code, secret, payload, signature)
                       else HexMatches(mac, secret, payload, signature);
        if matches then Verification(true, Ok, t.value, age, version)
        else Verification(false, InvalidSignature, t.value, age, version)
  }

  ghost predicate TooFar(now: int, t: int, tolerance: int) {
    && 0 < tolerance < MAX_INT64
    && (now - t * SECOND > tolerance || (t * SECOND - now > tolerance && t * SECOND - now < -MIN_INT64))
  }

  /** The time a header gives, and the signature it gives for a version. */
  ghost predicate Time(values: map<string, string>, t: int) {
    "t" in values && ParseInt(values["t"]) == Some(t)
  }

  ghost predicate Signed(values: map<string, string>, version: string) {
    version in values && values[version] != ""
  }

  ghost predicate Right(mac: Mac, code: Base64, values: map<string, string>, secret: seq<byte>, text: seq<byte>, version: string, encoding: string)
    requires Signed(values, version)
  {
    if encoding == "base64" then
      && code.decode(values[version]).Some?
      && code.decode(values[version]) == code.decode(code.encode(mac(secret, text)))
    else (encoding == "" || encoding == "hex") && HexDecode(values[version]) == Some(mac(secret, text))
  }

  /** Which reason is given when, and what else a verification says. */
  ghost predicate Judged(mac: Mac, code: Base64, values: map<string, string>, secret: seq<byte>, body: seq<byte>, now: int, tolerance: int,
                         version: string, encoding: string, r: Verification)
  {
    && (r.valid <==> r.reason == Ok)
    && ((exists t :: Time(values, t)) || r == Verification(false, MalformedHeader, 0, 0, ""))
    && (forall t | Time(values, t) :: JudgedAt(mac, code, values, secret, body, now, tolerance, version, encoding, t, r))
  }

  ghost predicate JudgedAt(mac: Mac, code: Base64, values: map<string, string>, secret: seq<byte>, body: seq<byte>, now: int, tolerance: int,
                           version: string, encoding: string, t: int, r: Verification)
  {
    var late, signed := TooFar(now, t, tolerance), Signed(values, version);
    && r.timestamp == t && IsAge(now, t, r.age) && r.version == (if late then "" else version)
    && r.reason != MalformedHeader
    && (r.reason == ExpiredTimestamp <==> late)
    && (r.reason == MissingSignature <==> !late && !signed)
    && (r.reason == UnsupportedAlgorithm <==> !late && signed && encoding != "" && encoding != "hex" && encoding != "base64")
    && (r.reason == Ok <==> !late && signed && Right(mac, code, values, secret, Ascii(Itoa(t)) + Ascii(".") + body, version, encoding))
  }

  /** The distance from now in nanoseconds, where it fits. */
  ghost predicate IsAge(now: int, t: int, age: int) {
    var d := now - t * SECOND;
    if d > MAX_INT64 then age == MAX_INT64
    else if d <= MIN_INT64 then age == MIN_INT64
    else age == if d < 0 then -d else d
  }

  lemma JudgedTime(mac: Mac, code: Base64, header: string, secret: seq<byte>, body: seq<byte>, now: int, tolerance: int,
                   version: string, encoding: string, t: int)
    requires Time(ReadHeader(header), t)
    ensures JudgedAt(mac, code, ReadHeader(header), secret, body, now, tolerance, version, encoding, t,
                     Verify(mac, code, header, secret, body, now, tolerance, version, encoding))
  {
    hide ReadHeader, ParseInt, HexDecode, Ascii, Itoa, Expired, TooFar, IsAge, Age, Payload;
    ExpiredExactly(now, t, tolerance);
    AgeIs(now, t);
    PayloadIs(t, body);
  }

  lemma AgeIs(now: int, t: int)
    ensures IsAge(now, t, Age(now, t))
  {
  }

  lemma PayloadIs(t: int, body: seq<byte>)
    ensures Payload(t, body) == Ascii(Itoa(t)) + Ascii(".") + body
  {
    assert Ascii(".") == [DOT];
  }

  lemma JudgedUntimed(mac: Mac, code: Base64, header: string, secret: seq<byte>, body: seq<byte>, now: int, tolerance: int,
                      version: string, encoding: string)
    ensures var r := Verify(mac, code, header, secret, body, now, tolerance, version, encoding);
            && (r.valid <==> r.reason == Ok)
            && ((exists t :: Time(ReadHeader(header), t)) || r == Verification(false, MalformedHeader, 0, 0, ""))
  {
    assert ParseInt("").None?;
    hide ReadHeader, ParseInt, HexMatches, Base64Matches, Payload, Age, Expired;
    var values := ReadHeader(header);
    if "t" in values && ParseInt(values["t"]).Some? {
      assert Time(values, ParseInt(values["t"]).value);
    }
  }

  lemma JudgedExactly(mac: Mac, code: Base64, header: string, secret: seq<byte>, body: seq<byte>, now: int, tolerance: int,
                      version: string, encoding: string)
    ensures Judged(mac, code, ReadHeader(header), secret, body, now, tolerance, version, encoding,
                   Verify(mac, code, header, secret, body, now, tolerance, version, encoding))
  {
    hide JudgedAt, ReadHeader, Verify, Time;
    JudgedUntimed(mac, code, header, secret, body, now, tolerance, version, encoding);
    forall t | Time(ReadHeader(header), t)
      ensures JudgedAt(mac, code, ReadHeader(header), secret, body, now, tolerance, version, encoding, t,
                       Verify(mac, code, header, secret, body, now, tolerance, version, encoding))
    {
      JudgedTime(mac, code, header, secret, body, now, tolerance, version, encoding, t);
    }
  }

  /** `VerifyHMACSHA256Hex`. */
  method VerifyHex(mac: Mac, secret: seq<byte>, payload: seq<byte>, signature: string) returns (ok: bool)
    ensures ok == HexMatches(mac, secret, payload, signature)
  {
    var expected := SignHex(mac, secret, payload);
    HexRoundTrip(mac(secret, payload));
    var got := HexDecode(signature);
    if got.None? {
      return false;
    }
    var want := HexDecode(expected);
    ok := got == want;
  }

  /** `VerifyTimestampedHMAC`. */
  method VerifyTimestampedHMAC(mac: Mac, code: Base64, header: string, secret: seq<byte>, body: seq<byte>, now: int, tolerance: int,
                               version: string, encoding: string) returns (r: Verification)
    ensures r == Verify(mac, code, header, secret, body, now, tolerance, version, encoding)
    ensures r.valid <==> r.reason == Ok
    ensures Judged(mac, code, ReadHeader(header), secret, body, now, tolerance, version, encoding, r)
  {
    JudgedExactly(mac, code, header, secret, body, now, tolerance, version, encoding);
    hide Judged;
    var values := ParseKVHeader(header);
    hide ReadHeader, HexMatches, Base64Matches, Payload;
    var raw := Lookup(values, "t");
    if raw == "" {
      return Verification(false, MalformedHeader, 0, 0, "");
    }
    var unix := ParseInt(raw);
    if unix.None? {
      return Verification(false, MalformedHeader, 0, 0, "");
    }
    var age := Saturate(now - unix.value * SECOND);
    if age < 0 {
      age := if age == MIN_INT64 then age else -age;
    }
    if tolerance > 0 && age > tolerance {
      return Verification(false, ExpiredTimestamp, unix.value, age, "");
    }
    var signature := Lookup(values, version);
    if signature == "" {
      return Verification(false, MissingSignature, unix.value, age, version);
    }
    var payload := Payload(unix.value, body);
    var valid := false;
    if encoding == "" || encoding == "hex" {
      valid := VerifyHex(mac, secret, payload, signature);
    } else if encoding == "base64" {
      valid := Base64Matches(mac, code, secret, payload, signature);
    } else {
      return Verification(false, UnsupportedAlgorithm, unix.value, age, version);
    }
    if !valid {
      return Verification(false, InvalidSignature, unix.value, age, version);
    }
    r := Verification(true, Ok, unix.value, age, version);
  }

  // ----- what is signed -----

  /** The signed text determines time and body. */
  lemma PayloadInjective(s: int, a: seq<byte>, t: int, b: seq<byte>)
    ensures Payload(s, a) == Payload(t, b) <==> s == t && a == b
  {
    if Payload(s, a) == Payload(t, b) {
      DecimalDotFree(s);
      DecimalDotFree(t);
      SplitAtFirstDot(Ascii(Itoa(s)), a, Ascii(Itoa(t)), b);
      AsciiInjective(Itoa(s), Itoa(t));
      ItoaInjective(s, t);
    }
  }

  ghost predicate DotFree(b: seq<byte>) {
    forall i | 0 <= i < |b| :: b[i] != DOT
  }

  lemma DecimalDotFree(t: int)
    ensures IsAscii(Itoa(t)) && DotFree(Ascii(Itoa(t)))
  {
    hide Itoa, Ascii;
    forall i | 0 <= i < |Itoa(t)|
      ensures Itoa(t)[i] as int < 128 && Itoa(t)[i] != '.'
    {
      assert Itoa(t)[i] in Itoa(t);
    }
  }

  lemma SplitAtFirstDot(s: seq<byte>, a: seq<byte>, t: seq<byte>, b: seq<byte>)
    requires DotFree(s) && DotFree(t) && s + [DOT] + a == t + [DOT] + b
    ensures s == t && a == b
  {
    var whole := s + [DOT] + a;
    assert forall k | 0 <= k < |s| :: whole[k] == s[k];
    assert forall k | 0 <= k < |t| :: whole[k] == t[k];
    assert whole[|s|] == DOT && whole[|t|] == DOT;
    assert s == whole[..|s|] && t == whole[..|t|];
    assert a == whole[|s| + 1..] && b == whole[|t| + 1..];
  }

  /** Exactly which timestamps count as expired: those further from now than the tolerance, but
      not those so far in the future that the difference does not fit a duration. Without a
      tolerance, or with the greatest one, none do. */
  lemma ExpiredExactly(now: int, t: int, tolerance: int)
    ensures Expired(now, t, tolerance) <==> TooFar(now, t, tolerance)
  {
  }

  // ----- headers read back -----

  /** A text that can be a key of a read header. */
  predicate Plain(key: string) {
    key != "" && ToLower(key) == key && ',' !in key && '=' !in key && !IsSpace(key[0])
  }

  lemma LowerPlain(key: string)
    requires key != "" && ',' !in key && '=' !in key && !IsSpace(key[0])
    ensures Plain(ToLower(key))
  {
    var low := ToLower(key);
    assert ToLower(low) == low;
    assert forall i | 0 <= i < |key| :: key[i] in key;
  }

  lemma EntryPlain(part: string)
    requires ',' !in part
    ensures Entry(part).Some? ==> Plain(Entry(part).value.0)
  {
    TrimSpaceEnds(part);
    var pair := Cut(TrimSpace(part), '=');
    if pair.Some? && pair.value.0 != "" {
      var key := pair.value.0;
      assert key[0] == TrimSpace(part)[0];
      assert ',' !in key by {
        assert forall c | c in key :: c in TrimSpace(part);
      }
      LowerPlain(key);
    }
  }

  lemma {:induction false} KeysPlain(parts: seq<string>)
    requires forall i | 0 <= i < |parts| :: ',' !in parts[i]
    ensures forall key | key in Entries(parts) :: Plain(key)
    decreases |parts|
  {
    hide Plain, Entry;
    if parts != [] {
      KeysPlain(parts[..|parts| - 1]);
      EntryPlain(parts[|parts| - 1]);
    }
  }

  lemma EntryOf(key: string, value: string)
    requires Plain(key) && value != "" && !IsSpace(value[|value| - 1])
    ensures Entry(key + "=" + value) == Some((key, value))
  {
    var part := key + "=" + value;
    assert part[|part| - 1] == value[|value| - 1] && part[0] == key[0];
    TrimSpaceTrimmed(part);
    CutAtFirst(key, value, '=');
    assert key + ['='] + value == part;
  }

  lemma HexEnds(b: seq<byte>)
    requires b != []
    ensures var s := HexEncode(b); s != "" && !IsSpace(s[|s| - 1]) && ',' !in s
    decreases |b|
  {
    var s := HexEncode(b);
    if |b| > 1 {
      HexEnds(b[1..]);
      assert s[2..] == HexEncode(b[1..]);
      assert s == s[..2] + s[2..];
    } else {
      assert s == [HexDigit(b[0] / 16), HexDigit(b[0] % 16)];
    }
  }

  lemma DecimalEnds(t: int)
    ensures var s := Itoa(t); s != "" && !IsSpace(s[0]) && !IsSpace(s[|s| - 1]) && ',' !in s
  {
    var s := Itoa(t);
    assert s[|s| - 1] in s && s[0] in s;
  }

  lemma {:induction false} TwoEntries(a: string, b: string)
    requires ',' !in a && ',' !in b && Entry(a).Some? && Entry(b).Some?
    ensures ReadHeader(a + "," + b) == map[Entry(a).value.0 := Entry(a).value.1][Entry(b).value.0 := Entry(b).value.1]
  {
    hide Entry;
    SplitAtFirst(a, b, ',');
    assert a + [','] + b == a + "," + b;
    assert Split(a + "," + b, ',') == [a, b];
    assert [a, b][..1] == [a] && [a][..0] == [];
    assert Entries([a]) == map[Entry(a).value.0 := Entry(a).value.1];
  }

  /** A printed header reads back as its two entries. */
  lemma HeaderReadsBack(mac: Mac, version: string, t: int, secret: seq<byte>, body: seq<byte>)
    requires Plain(version) && mac(secret, Payload(t, body)) != []
    ensures ReadHeader(Header(mac, version, t, secret, body))
            == map["t" := Itoa(t)][version := SignHex(mac, secret, Payload(t, body))]
  {
    var signature := SignHex(mac, secret, Payload(t, body));
    HexEnds(mac(secret, Payload(t, body)));
    DecimalEnds(t);
    TPlain();
    EntryOf("t", Itoa(t));
    EntryOf(version, signature);
    PlainConcat("t", Itoa(t));
    PlainConcat(version, signature);
    hide *;
    TwoEntries("t" + "=" + Itoa(t), version + "=" + signature);
    HeaderParts(mac, version, t, secret, body);
  }

  lemma TPlain()
    ensures Plain("t")
  {
    assert ToLower("t") == "t";
  }

  lemma PlainConcat(key: string, value: string)
    requires Plain(key) && ',' !in value
    ensures ',' !in key + "=" + value
  {
  }

  lemma Regroup(a: string, b: string, c: string, d: string, e: string, f: string)
    ensures a + b + c + d + e + f == (a + b) + c + (d + e + f)
  {
  }

  lemma HeaderParts(mac: Mac, version: string, t: int, secret: seq<byte>, body: seq<byte>)
    ensures Header(mac, version, t, secret, body)
            == ("t" + "=" + Itoa(t)) + "," + (version + "=" + SignHex(mac, secret, Payload(t, body)))
  {
    hide Itoa, SignHex, Payload;
    assert "t" + "=" == "t=";
    Regroup("t=", Itoa(t), ",", version, "=", SignHex(mac, secret, Payload(t, body)));
  }

  /** Sign and verify agree, for every version label but "t": the header verifies if and only if
      the label can be a key of a header and the timestamp has not expired. */
  lemma SignedHeaderVerifies(mac: Mac, code: Base64, version: string, t: int, secret: seq<byte>, body: seq<byte>, now: int, tolerance: int)
    requires IsInt64(t) && version != "t" && mac(secret, Payload(t, body)) != []
    ensures var r := Verify(mac, code, Header(mac, version, t, secret, body), secret, body, now, tolerance, version, "hex");
            && (r.valid <==> Plain(version) && !Expired(now, t, tolerance))
            && (Plain(version) ==> r.timestamp == t && r.reason == if Expired(now, t, tolerance) then ExpiredTimestamp else Ok)
  {
    var header := Header(mac, version, t, secret, body);
    if Plain(version) {
      HeaderReadsBack(mac, version, t, secret, body);
      HexRoundTrip(mac(secret, Payload(t, body)));
      HexEnds(mac(secret, Payload(t, body)));
      ParseIntRoundTrip(t);
      hide Header, ReadHeader, Payload, Plain, Itoa, ParseInt, HexEncode, HexDecode;
      assert Lookup(ReadHeader(header), "t") == Itoa(t);
    } else {
      SplitPartsPlain(header, ',');
      KeysPlain(Split(header, ','));
      assert Lookup(ReadHeader(header), version) == "";
      hide Header, ReadHeader, Payload, Plain;
    }
  }

  /** Under the label "t" the signature takes the place of the time, so the header verifies if
      and only if the signature reads as a number that is a time itself, has not expired, and has
      the same code as the time that was signed. */
  lemma TimeLabelVerifies(mac: Mac, code: Base64, t: int, secret: seq<byte>, body: seq<byte>, now: int, tolerance: int)
    requires mac(secret, Payload(t, body)) != []
    ensures var r := Verify(mac, code, Header(mac, "t", t, secret, body), secret, body, now, tolerance, "t", "hex");
            var read := ParseInt(SignHex(mac, secret, Payload(t, body)));
            r.valid <==> && read.Some? && !Expired(now, read.value, tolerance)
                         && mac(secret, Payload(read.value, body)) == mac(secret, Payload(t, body))
  {
    var signature := SignHex(mac, secret, Payload(t, body));
    TPlain();
    HeaderReadsBack(mac, "t", t, secret, body);
    HexRoundTrip(mac(secret, Payload(t, body)));
    HexEnds(mac(secret, Payload(t, body)));
    hide Header, ReadHeader, Payload, Plain, Itoa, ParseInt, HexEncode, HexDecode, Expired;
    assert Lookup(ReadHeader(Header(mac, "t", t, secret, body)), "t") == signature;
  }

  // ----- deliveries -----

  /** The signature headers of a delivery; an empty text is a header not sent. */
  datatype Sent = Sent(signature: string, keyId: string, keyVersion: string)

  /** The signing part of `BuildRequest`. */
  function Send(mac: Mac, secret: seq<byte>, body: seq<byte>, t: int, keyId: string, keyVersion: int): Sent {
    Sent("t=" + Itoa(t) + ",v1=" + SignHex(mac, secret, Ascii(Itoa(t)) + [DOT] + body),
         keyId,
         if keyVersion > 0 then Itoa(keyVersion) else "")
  }

  datatype Receipt = Receipt(verification: Verification, keyId: string, keyVersion: int)

  const NO_BASE64 := Base64(_ => "", _ => None)

  /** `VerifyWebhookerySignature`. */
  function Receive(mac: Mac, secret: seq<byte>, body: seq<byte>, sent: Sent, now: int, tolerance: int): Receipt {
    var text := TrimSpace(sent.keyVersion);
    var parsed := ParseInt(text);
    if text != "" && (parsed.None? || parsed.value <= 0)
    then Receipt(Verification(false, MalformedHeader, 0, 0, ""), TrimSpace(sent.keyId), 0)
    else
      Receipt(Verify(mac, NO_BASE64, sent.signature, secret, body, now, tolerance, "v1", "hex"),
              TrimSpace(sent.keyId), if text == "" then 0 else parsed.value)
  }

  /** A key version that is sent has to be a positive number, or nothing else is looked at. */
  lemma KeyVersionFirst(mac: Mac, secret: seq<byte>, body: seq<byte>, sent: Sent, now: int, tolerance: int)
    ensures var r := Receive(mac, secret, body, sent, now, tolerance);
            && r.keyId == TrimSpace(sent.keyId)
            && (forall n: int | n > 0 && ParseInt(TrimSpace(sent.keyVersion)) == Some(n) :: r.keyVersion == n)
            && (r.keyVersion <= 0 && TrimSpace(sent.keyVersion) != "" ==> r.verification == Verification(false, MalformedHeader, 0, 0, ""))
            && (r.keyVersion > 0 || TrimSpace(sent.keyVersion) == "" ==>
                  r.verification == Verify(mac, NO_BASE64, sent.signature, secret, body, now, tolerance, "v1", "hex"))
            && r.keyVersion >= 0 && (TrimSpace(sent.keyVersion) == "" ==> r.keyVersion == 0)
  {
    assert ParseInt("").None?;
    hide Verify, TrimSpace, ParseInt;
  }

  lemma V1Plain()
    ensures Plain("v1")
  {
    assert ToLower("v1") == "v1";
  }

  /** Every delivery verifies at the receiver exactly until its timestamp expires; the receiver
      learns the time, the key and a positive key version. */
  lemma DeliveryVerifies(mac: Mac, secret: seq<byte>, body: seq<byte>, t: int, keyId: string, keyVersion: int, now: int, tolerance: int)
    requires IsInt64(t) && IsInt64(keyVersion) && mac(secret, Payload(t, body)) != []
    ensures var r := Receive(mac, secret, body, Send(mac, secret, body, t, keyId, keyVersion), now, tolerance);
            && (r.verification.valid <==> !Expired(now, t, tolerance))
            && r.verification.timestamp == t
            && r.keyId == TrimSpace(keyId) && r.keyVersion == if keyVersion > 0 then keyVersion else 0
  {
    V1Plain();
    SignedHeaderVerifies(mac, NO_BASE64, "v1", t, secret, body, now, tolerance);
    SentHeader(mac, secret, body, t, keyId, keyVersion);
    if keyVersion > 0 {
      DecimalEnds(keyVersion);
      TrimSpaceTrimmed(Itoa(keyVersion));
      ParseIntRoundTrip(keyVersion);
    } else {
      assert TrimSpace("") == "";
    }
    hide Verify, Header, TrimSpace, Itoa, ParseInt, Plain, Expired, SignHex, Ascii;
  }

  lemma SentHeader(mac: Mac, secret: seq<byte>, body: seq<byte>, t: int, keyId: string, keyVersion: int)
    ensures Send(mac, secret, body, t, keyId, keyVersion).signature == Header(mac, "v1", t, secret, body)
  {
    var signature := SignHex(mac, secret, Payload(t, body));
    hide Itoa, SignHex, Ascii;
    assert ",v1=" == "," + "v1" + "=";
    assert "t=" + Itoa(t) + ("," + "v1" + "=") + signature == "t=" + Itoa(t) + "," + "v1" + "=" + signature;
  }

  /** One header does not vouch for two bodies, and one signature not for two times: or else
      two different messages have the same code under the secret. */
  lemma SignatureBinds(mac: Mac, secret: seq<byte>, x: string, y: string, a: seq<byte>, b: seq<byte>, now: int, later: int, tolerance: int)
    requires var r := Verify(mac, NO_BASE64, x, secret, a, now, tolerance, "v1", "hex"); r.valid
    requires var r := Verify(mac, NO_BASE64, y, secret, b, later, tolerance, "v1", "hex"); r.valid
    requires Lookup(ReadHeader(x), "v1") == Lookup(ReadHeader(y), "v1")
    ensures var s := Verify(mac, NO_BASE64, x, secret, a, now, tolerance, "v1", "hex").timestamp;
            var t := Verify(mac, NO_BASE64, y, secret, b, later, tolerance, "v1", "hex").timestamp;
            (s == t && a == b) || (Payload(s, a) != Payload(t, b) && mac(secret, Payload(s, a)) == mac(secret, Payload(t, b)))
  {
    var s := ParseInt(Lookup(ReadHeader(x), "t")).value;
    var t := ParseInt(Lookup(ReadHeader(y), "t")).value;
    PayloadInjective(s, a, t, b);
    hide Payload, ReadHeader, ParseInt;
  }
}
