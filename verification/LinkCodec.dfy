/** wingsv:// links (internal/preview/builder.go, internal/preview/parser.go). */
module LinkCodec {
  import opened Wrappers
  import opened Bytes
  import opened Text

  const SCHEME := "wingsv://"
  const FORMAT_DEFLATE: Byte := 0x12
  const FORMAT_BROTLI: Byte := 0x13

  // ---- base64url without padding, sections 3.2 and 5 of RFC 4648 ---------------------------

  type Sextet = x: int | 0 <= x < 64

  function Letter(n: Sextet): char {
    if n < 26 then 'A' + n as char
    else if n < 52 then 'a' + (n - 26) as char
    else if n < 62 then '0' + (n - 52) as char
    else if n == 62 then '-' else '_'
  }

  function Digit(c: char): Option<Sextet> {
    if 'A' <= c <= 'Z' then Some((c - 'A') as int)
    else if 'a' <= c <= 'z' then Some((c - 'a') as int + 26)
    else if '0' <= c <= '9' then Some((c - '0') as int + 52)
    else if c == '-' then Some(62) else if c == '_' then Some(63) else None
  }

  function Encode(b: seq<Byte>): string {
    if b == [] then ""
    else if |b| == 1 then [Letter(b[0] / 4), Letter(b[0] % 4 * 16)]
    else if |b| == 2 then [Letter(b[0] / 4), Letter(b[0] % 4 * 16 + b[1] / 16), Letter(b[1] % 16 * 4)]
    else
      [Letter(b[0] / 4), Letter(b[0] % 4 * 16 + b[1] / 16), Letter(b[1] % 16 * 4 + b[2] / 64), Letter(b[2] % 64)]
        + Encode(b[3..])
  }

  /** Left-over low bits of the last letter are ignored, as the library does by default. */
  function DecodeLetters(s: string): Option<seq<Byte>> {
    if s == "" then Some([])
    else if |s| == 1 then None
    else
      var p, q := Digit(s[0]), Digit(s[1]);
      if p.None? || q.None? then None
      else
        var first := p.value * 4 + q.value / 16;
        if |s| == 2 then Some([first])
        else
          var r := Digit(s[2]);
          if r.None? then None
          else
            var second := q.value % 16 * 16 + r.value / 4;
            if |s| == 3 then Some([first, second])
            else
              var t := Digit(s[3]);
              if t.None? then None
              else
                var rest := DecodeLetters(s[4..]);
                if rest.None? then None else Some([first, second, r.value % 4 * 64 + t.value] + rest.value)
  }

  /** The decoder skips line breaks wherever they stand. */
  function NoBreaks(s: string): string {
    if s == "" then "" else (if s[0] == '\r' || s[0] == '\n' then "" else [s[0]]) + NoBreaks(s[1..])
  }

  function Decode(s: string): Option<seq<Byte>> { DecodeLetters(NoBreaks(s)) }

  /** With padding, only whole groups of four count, and only the last may end in one or two
      equals signs. */
  function DecodePaddedLetters(s: string): Option<seq<Byte>> {
    if s == "" then Some([])
    else if |s| < 4 then None
    else if s[3] == '=' then
      if |s| > 4 then None
      else if s[2] == '=' then DecodeLetters(s[..2])
      else DecodeLetters(s[..3])
    else
      var first, rest := DecodeLetters(s[..4]), DecodePaddedLetters(s[4..]);
      if first.None? || rest.None? then None else Some(first.value + rest.value)
  }

  function DecodePadded(s: string): Option<seq<Byte>> { DecodePaddedLetters(NoBreaks(s)) }

  /** What a link body decodes to: unpadded, or failing that padded. */
  function DecodeBody(s: string): Option<seq<Byte>> {
    if Decode(s).Some? then Decode(s) else DecodePadded(s)
  }

  lemma {:induction false} DigitOfLetter(n: Sextet)
    ensures Digit(Letter(n)) == Some(n)
    ensures !Blank(Letter(n)) && Letter(n) !in {'=', '.', ':'}
  {}

  /** Everything the encoder writes is in the alphabet. */
  lemma {:induction false} EncodeLetters(b: seq<Byte>)
    ensures forall i :: 0 <= i < |Encode(b)| ==> Digit(Encode(b)[i]).Some?
    ensures b != [] <==> Encode(b) != ""
  {
    if |b| >= 3 { EncodeLetters(b[3..]); }
  }

  lemma {:induction false} OnlyLetters(c: char)
    requires Digit(c).Some?
    ensures !Blank(c) && c != '=' && c != '.'
  {}

  lemma {:induction false} NoBreaksInLetters(s: string)
    requires forall i :: 0 <= i < |s| ==> Digit(s[i]).Some?
    ensures NoBreaks(s) == s
  {
    if s != "" {
      OnlyLetters(s[0]);
      NoBreaksInLetters(s[1..]);
      assert s == [s[0]] + s[1..];
    }
  }

  /** The bits of three bytes, cut into four sextets and put together again. */
  lemma {:induction false} SextetsOf(x: Byte, y: Byte, z: Byte)
    ensures x / 4 < 64 && x % 4 * 16 + y / 16 < 64 && y % 16 * 4 + z / 64 < 64
    ensures x / 4 * 4 + (x % 4 * 16 + y / 16) / 16 == x
    ensures (x % 4 * 16 + y / 16) % 16 * 16 + (y % 16 * 4 + z / 64) / 4 == y
    ensures (y % 16 * 4 + z / 64) % 4 * 64 + z % 64 == z
  {
    assert (x % 4 * 16 + y / 16) / 16 == x % 4 && (x % 4 * 16 + y / 16) % 16 == y / 16;
    assert (y % 16 * 4 + z / 64) / 4 == y % 16 && (y % 16 * 4 + z / 64) % 4 == z / 64;
  }

  lemma {:induction false} DecodeGroup(s: string)
    requires |s| >= 4 && forall i :: 0 <= i < 4 ==> Digit(s[i]).Some?
    ensures DecodeLetters(s) ==
      var p, q, r, t := Digit(s[0]).value, Digit(s[1]).value, Digit(s[2]).value, Digit(s[3]).value;
      var rest := DecodeLetters(s[4..]);
      if rest.None? then None
      else Some([p * 4 + q / 16, q % 16 * 16 + r / 4, r % 4 * 64 + t] + rest.value)
  {}

  lemma {:induction false} DecodeThree(s: string)
    requires |s| == 3 && forall i :: 0 <= i < 3 ==> Digit(s[i]).Some?
    ensures var p, q, r := Digit(s[0]).value, Digit(s[1]).value, Digit(s[2]).value;
      DecodeLetters(s) == Some([p * 4 + q / 16, q % 16 * 16 + r / 4])
  {}

  /** The letters of a whole group decode to its bytes. */
  lemma {:induction false} GroupRoundTrip(x: Byte, y: Byte, z: Byte, s: string)
    requires |s| >= 4 && s[0] == Letter(x / 4) && s[1] == Letter(x % 4 * 16 + y / 16)
    requires s[2] == Letter(y % 16 * 4 + z / 64) && s[3] == Letter(z % 64)
    ensures DecodeLetters(s) ==
      var rest := DecodeLetters(s[4..]); if rest.None? then None else Some([x, y, z] + rest.value)
  {
    SextetsOf(x, y, z);
    DigitOfLetter(x / 4);
    DigitOfLetter(x % 4 * 16 + y / 16);
    DigitOfLetter(y % 16 * 4 + z / 64);
    DigitOfLetter(z % 64);
    DecodeGroup(s);
  }

  lemma {:induction false} ShortRoundTrip(b: seq<Byte>)
    requires 1 <= |b| <= 2
    ensures DecodeLetters(Encode(b)) == Some(b)
  {
    var s, y := Encode(b), if |b| == 2 then b[1] else 0;
    SextetsOf(b[0], y, 0);
    DigitOfLetter(b[0] / 4);
    DigitOfLetter(b[0] % 4 * 16 + y / 16);
    if |b| == 2 {
      DigitOfLetter(y % 16 * 4);
      DecodeThree(s);
      assert b == [b[0], b[1]];
    } else {
      assert b == [b[0]];
    }
  }

  lemma {:induction false} LettersRoundTrip(b: seq<Byte>)
    ensures DecodeLetters(Encode(b)) == Some(b)
  {
    if |b| >= 3 {
      LettersRoundTrip(b[3..]);
      var s := Encode(b);
      assert s[4..] == Encode(b[3..]);
      GroupRoundTrip(b[0], b[1], b[2], s);
      assert b == [b[0], b[1], b[2]] + b[3..];
    } else if b != [] {
      ShortRoundTrip(b);
    }
  }

  lemma {:induction false} Base64RoundTrip(b: seq<Byte>)
    ensures Decode(Encode(b)) == Some(b)
  {
    EncodeLetters(b);
    NoBreaksInLetters(Encode(b));
    LettersRoundTrip(b);
  }

  // ---- the body of a link -------------------------------------------------------------------

  /** A dot instead of the underscore, and a closing equals sign after a final dot. */
  function EncodeLinkPayload(framed: seq<Byte>): string {
    var encoded := ReplaceAll(Encode(framed), '_', '.');
    if encoded != "" && encoded[|encoded| - 1] == '.' then encoded + "=" else encoded
  }

  function NormalizeBase64(value: string): string {
    ReplaceAll(TrimRightOf(TrimSpace(value), '='), '.', '_')
  }

  lemma {:induction false} DotsAndBack(s: string)
    requires forall i :: 0 <= i < |s| ==> s[i] != '.'
    ensures ReplaceAll(ReplaceAll(s, '_', '.'), '.', '_') == s
  {}

  /** Normalising a link body gives back plain base64url, for both alphabets. */
  lemma {:induction false} NormalizeUndoes(framed: seq<Byte>)
    ensures NormalizeBase64(EncodeLinkPayload(framed)) == Encode(framed)
    ensures NormalizeBase64(Encode(framed)) == Encode(framed)
  {
    var plain := Encode(framed);
    EncodeLetters(framed);
    forall i | 0 <= i < |plain| ensures !Blank(plain[i]) && plain[i] != '=' && plain[i] != '.' {
      OnlyLetters(plain[i]);
    }
    DotsAndBack(plain);
    var dotted := ReplaceAll(plain, '_', '.');
    var body := EncodeLinkPayload(framed);
    TrimNothing(body);
    TrimNothing(plain);
    assert dotted + "=" == body ==> body[..|body| - 1] == dotted;
    assert TrimRightOf(body, '=') == dotted;
    assert ReplaceAll(plain, '.', '_') == plain;
  }

  /** For every frame, decoding the normalised body gives the frame back in both alphabets. */
  lemma {:induction false} LinkBodyRoundTrip(framed: seq<Byte>)
    ensures Decode(NormalizeBase64(EncodeLinkPayload(framed))) == Some(framed)
    ensures Decode(NormalizeBase64(Encode(framed))) == Some(framed)
  {
    NormalizeUndoes(framed);
    Base64RoundTrip(framed);
  }

  /** White space around a link's body does no harm. */
  lemma {:induction false} SpaceAroundIsIgnored(before: string, framed: seq<Byte>, after: string)
    requires framed != []
    requires forall i :: 0 <= i < |before| ==> Blank(before[i])
    requires forall i :: 0 <= i < |after| ==> Blank(after[i])
    ensures Decode(NormalizeBase64(before + EncodeLinkPayload(framed) + after)) == Some(framed)
  {
    var body := EncodeLinkPayload(framed);
    var plain := Encode(framed);
    EncodeLetters(framed);
    forall i | 0 <= i < |plain| ensures !Blank(plain[i]) { OnlyLetters(plain[i]); }
    TrimIsCore(before, body, after);
    TrimNothing(body);
    LinkBodyRoundTrip(framed);
  }

  /** Nothing in the new body is markup to a messenger: no underscore, no final dot; and
      different frames have different bodies. */
  lemma {:induction false} LinkBodyIsSafe(framed: seq<Byte>, other: seq<Byte>)
    ensures '_' !in EncodeLinkPayload(framed)
    ensures EncodeLinkPayload(framed) != "" ==> EncodeLinkPayload(framed)[|EncodeLinkPayload(framed)| - 1] != '.'
    ensures EncodeLinkPayload(framed) == EncodeLinkPayload(other) ==> framed == other
  {
    LinkBodyRoundTrip(framed);
    LinkBodyRoundTrip(other);
  }

  // ---- whole links -----------------------------------------------------------------------

  datatype Inflation = NoHeader | Corrupt | Inflated(bytes: seq<Byte>)

  /** The message format and the compressors. A zlib reader either refuses the header, or
      fails later, or inflates; raw deflate is the fallback for the first case only. */
  datatype Codecs<!Config> = Codecs(
    marshal: Config -> Option<seq<Byte>>, unmarshal: seq<Byte> -> Option<Config>,
    brotli: seq<Byte> -> seq<Byte>, unbrotli: seq<Byte> -> Option<seq<Byte>>,
    zlib: seq<Byte> -> seq<Byte>, unzlib: seq<Byte> -> Inflation, unflate: seq<Byte> -> Option<seq<Byte>>)

  /** Each pair undoes itself, and zlib never writes nothing. */
  ghost predicate Inverse<Config(!new)>(k: Codecs<Config>) {
    && (forall c :: k.marshal(c).Some? ==> k.unmarshal(k.marshal(c).value) == Some(c))
    && (forall b :: k.unbrotli(k.brotli(b)) == Some(b))
    && (forall b :: k.unzlib(k.zlib(b)) == Inflated(b) && k.zlib(b) != [])
  }

  datatype LinkError = NotALink | BadBase64 | EmptyPayload | BadFormat | BadCompression | BadMessage | CannotMarshal

  function BuildWingsLink<Config>(k: Codecs<Config>, c: Config): Result<string, LinkError> {
    var raw := k.marshal(c);
    if raw.None? then Err(CannotMarshal) else Ok(SCHEME + EncodeLinkPayload([FORMAT_BROTLI] + k.brotli(raw.value)))
  }

  function BuildWingsLinkLegacyAlphabet<Config>(k: Codecs<Config>, c: Config): Result<string, LinkError> {
    var raw := k.marshal(c);
    if raw.None? then Err(CannotMarshal) else Ok(SCHEME + Encode([FORMAT_BROTLI] + k.brotli(raw.value)))
  }

  function BuildWingsLinkDeflate<Config>(k: Codecs<Config>, c: Config): Result<string, LinkError> {
    var raw := k.marshal(c);
    if raw.None? then Err(CannotMarshal) else Ok(SCHEME + Encode([FORMAT_DEFLATE] + k.zlib(raw.value)))
  }

  function InflatePayload<Config>(k: Codecs<Config>, payload: seq<Byte>): Result<seq<Byte>, LinkError> {
    if payload == [] then Err(BadCompression)
    else match k.unzlib(payload)
      case Inflated(bytes) => Ok(bytes)
      case Corrupt => Err(BadCompression)
      case NoHeader =>
        var flat := k.unflate(payload);
        if flat.None? then Err(BadCompression) else Ok(flat.value)
  }

  function DecompressPayload<Config>(k: Codecs<Config>, decoded: seq<Byte>): Result<seq<Byte>, LinkError>
    requires decoded != []
  {
    if decoded[0] == FORMAT_BROTLI then
      var b := k.unbrotli(decoded[1..]);
      if b.None? then Err(BadCompression) else Ok(b.value)
    else if decoded[0] == FORMAT_DEFLATE then InflatePayload(k, decoded[1..])
    else Err(BadFormat)
  }

  function LowerChar(c: char): char { if 'A' <= c <= 'Z' then c - 'A' + 'a' else c }

  function Lower(s: string): string {
    seq(|s|, i requires 0 <= i < |s| => LowerChar(s[i]))
  }

  function TrimPrefix(s: string, prefix: string): string {
    if prefix <= s then s[|prefix|..] else s
  }

  function ParseWingsConfig<Config>(k: Codecs<Config>, raw: string): Result<Config, LinkError> {
    if !(SCHEME <= Lower(raw)) then Err(NotALink)
    else
      var decoded := DecodeBody(NormalizeBase64(TrimPrefix(raw, SCHEME)));
      if decoded.None? then Err(BadBase64)
      else if decoded.value == [] then Err(EmptyPayload)
      else
        var inflated := DecompressPayload(k, decoded.value);
        if inflated.Err? then Err(inflated.error)
        else
          var config := k.unmarshal(inflated.value);
          if config.None? then Err(BadMessage) else Ok(config.value)
  }

  lemma {:induction false} SchemeRecognised(body: string)
    ensures SCHEME <= Lower(SCHEME + body)
    ensures TrimPrefix(SCHEME + body, SCHEME) == body
  {
    forall i | 0 <= i < |SCHEME| ensures Lower(SCHEME + body)[i] == SCHEME[i] {
      assert (SCHEME + body)[i] == SCHEME[i];
    }
  }

  /** Parsing undoes all three builders. */
  lemma {:induction false} ParseUndoesBuilders<Config(!new)>(k: Codecs<Config>, c: Config)
    requires Inverse(k)
    ensures BuildWingsLink(k, c).Ok? ==> ParseWingsConfig(k, BuildWingsLink(k, c).value) == Ok(c)
    ensures BuildWingsLinkLegacyAlphabet(k, c).Ok? ==>
      ParseWingsConfig(k, BuildWingsLinkLegacyAlphabet(k, c).value) == Ok(c)
    ensures BuildWingsLinkDeflate(k, c).Ok? ==> ParseWingsConfig(k, BuildWingsLinkDeflate(k, c).value) == Ok(c)
  {
    if k.marshal(c).Some? {
      var raw := k.marshal(c).value;
      FrameParses(k, c, FORMAT_BROTLI, k.brotli(raw));
      FrameParses(k, c, FORMAT_DEFLATE, k.zlib(raw));
    }
  }

  /** A frame that decompresses to the message parses to it under either alphabet. */
  lemma {:induction false} FrameParses<Config(!new)>(k: Codecs<Config>, c: Config, format: Byte, packed: seq<Byte>)
    requires var plain := DecompressPayload(k, [format] + packed); plain.Ok? && k.unmarshal(plain.value) == Some(c)
    ensures ParseWingsConfig(k, SCHEME + EncodeLinkPayload([format] + packed)) == Ok(c)
    ensures ParseWingsConfig(k, SCHEME + Encode([format] + packed)) == Ok(c)
  {
    var framed := [format] + packed;
    LinkBodyRoundTrip(framed);
    SchemeRecognised(EncodeLinkPayload(framed));
    SchemeRecognised(Encode(framed));
  }

  /** The scheme test ignores case but the prefix is removed only in lower case, so a link
      that passes the test in any other spelling is always refused as bad base64. */
  lemma {:induction false} OtherSpellingsFail<Config>(k: Codecs<Config>, raw: string)
    requires SCHEME <= Lower(raw) && !(SCHEME <= raw)
    ensures ParseWingsConfig(k, raw) == Err(BadBase64)
  {
    ColonAt(raw);
    ColonSurvives(raw);
  }

  lemma {:induction false} ColonAt(raw: string)
    requires SCHEME <= Lower(raw)
    ensures |raw| >= 9 && raw[6] == ':' && !Blank(raw[0])
  {
    assert Lower(raw)[6] == SCHEME[6] && Lower(raw)[0] == SCHEME[0];
  }

  /** Trimming and replacing leave a colon in the middle where a letter must stand. */
  lemma {:induction false} ColonSurvives(raw: string)
    requires |raw| >= 9 && raw[6] == ':' && !Blank(raw[0])
    ensures DecodeBody(NormalizeBase64(raw)) == None
  {
    assert TrimLeft(raw) == raw;
    TrimRightKeeps(raw, 6);
    var trimmed := TrimRight(raw);
    TrimEqualsKeeps(trimmed, 6);
    var s := NormalizeBase64(raw);
    assert s[6] == ':';
    NoBreaksKeeps(s, ':');
    BadLetterFails(NoBreaks(s), ':');
    BadLetterFailsPadded(NoBreaks(s), ':');
  }

  lemma {:induction false} TrimRightKeeps(s: string, i: nat)
    requires i < |s| && !Blank(s[i])
    ensures i < |TrimRight(s)| && TrimRight(s)[i] == s[i]
    decreases |s|
  {
    if Blank(s[|s| - 1]) { TrimRightKeeps(s[..|s| - 1], i); }
  }

  lemma {:induction false} TrimEqualsKeeps(s: string, i: nat)
    requires i < |s| && s[i] != '='
    ensures i < |TrimRightOf(s, '=')| && TrimRightOf(s, '=')[i] == s[i]
    decreases |s|
  {
    if s[|s| - 1] == '=' { TrimEqualsKeeps(s[..|s| - 1], i); }
  }

  lemma {:induction false} NoBreaksKeeps(s: string, c: char)
    requires c in s && c != '\r' && c != '\n'
    ensures c in NoBreaks(s)
  {
    if s[0] != c { NoBreaksKeeps(s[1..], c); }
  }

  lemma {:induction false} BadLetterFails(s: string, c: char)
    requires c in s && Digit(c).None?
    ensures DecodeLetters(s) == None
  {
    if |s| >= 4 && c !in s[..4] {
      assert c in s[4..];
      BadLetterFails(s[4..], c);
    }
  }

  lemma {:induction false} BadLetterFailsPadded(s: string, c: char)
    requires c in s && Digit(c).None? && c != '='
    ensures DecodePaddedLetters(s) == None
  {
    if |s| >= 4 {
      if s[3] == '=' {
        if |s| == 4 {
          assert s == s[..2] + [s[2], s[3]] && s == s[..3] + [s[3]];
          if s[2] == '=' { BadLetterFails(s[..2], c); } else { BadLetterFails(s[..3], c); }
        }
      } else {
        assert s == s[..4] + s[4..];
        if c in s[..4] { BadLetterFails(s[..4], c); } else { BadLetterFailsPadded(s[4..], c); }
      }
    }
  }

  // ---- what the second attempt is for ----------------------------------------------------------

  /** Without an equals sign the padded reading accepts nothing the plain one refuses. */
  lemma {:induction false} PaddedWithoutPadding(s: string)
    requires '=' !in s && DecodePaddedLetters(s).Some?
    ensures DecodeLetters(s) == DecodePaddedLetters(s)
  {
    if |s| >= 4 {
      assert s[3] in s;
      assert s == s[..4] + s[4..];
      PaddedWithoutPadding(s[4..]);
      assert s[..4][4..] == "";
      WholeGroup(s);
    }
  }

  predicate StartsWithGroup(s: string) { |s| >= 4 && forall i :: 0 <= i < 4 ==> Digit(s[i]).Some? }

  function GroupBytes(s: string): seq<Byte>
    requires StartsWithGroup(s)
  {
    var p, q, r, t := Digit(s[0]).value, Digit(s[1]).value, Digit(s[2]).value, Digit(s[3]).value;
    [p * 4 + q / 16, q % 16 * 16 + r / 4, r % 4 * 64 + t]
  }

  lemma {:induction false} GroupBytesAre(s: string)
    requires StartsWithGroup(s)
    ensures DecodeLetters(s) ==
      var rest := DecodeLetters(s[4..]); if rest.None? then None else Some(GroupBytes(s) + rest.value)
  {
    DecodeGroup(s);
  }

  lemma {:induction false} WholeGroup(s: string)
    requires |s| >= 4
    ensures var first, rest := DecodeLetters(s[..4]), DecodeLetters(s[4..]);
      DecodeLetters(s) == if first.None? || rest.None? then None else Some(first.value + rest.value)
  {
    var g := s[..4];
    assert g[0] == s[0] && g[1] == s[1] && g[2] == s[2] && g[3] == s[3] && g[4..] == "";
    if StartsWithGroup(s) {
      GroupBytesAre(s);
      GroupBytesAre(g);
      assert GroupBytes(g) + [] == GroupBytes(g) == GroupBytes(s);
    } else {
      var i :| 0 <= i < 4 && Digit(s[i]).None?;
      assert s[i] in s && g[i] in g;
      BadLetterFails(s, s[i]);
      BadLetterFails(g, s[i]);
    }
  }

  /** The second attempt decides exactly when its reading succeeds with real padding: an equals
      sign that survives the trimming because a line break follows it. */
  lemma {:induction false} SecondAttemptDecides(s: string)
    ensures Decode(s).None? && DecodePadded(s).Some? <==> DecodePadded(s).Some? && '=' in NoBreaks(s)
  {
    var t := NoBreaks(s);
    if '=' in t {
      BadLetterFails(t, '=');
    } else if DecodePaddedLetters(t).Some? {
      PaddedWithoutPadding(t);
    }
  }

  lemma {:induction false} SecondAttemptExample()
    ensures NormalizeBase64("EAA=\n=") == "EAA=\n"
    ensures Decode("EAA=\n") == None && DecodeBody("EAA=\n") == Some([16, 0])
  {
    var s := "EAA=\n=";
    TrimNothing(s);
    TrimOfExample(s);
    NoBreaksOfExample();
    ExampleLetters();
  }

  lemma {:induction false} ExampleLetters()
    ensures DecodeLetters("EAA=") == None && DecodePaddedLetters("EAA=") == Some([16, 0])
  {
    BadLetterFails("EAA=", '=');
    assert "EAA="[..3] == "EAA";
    DecodeThree("EAA");
  }

  lemma {:induction false} TrimOfExample(s: string)
    requires s == "EAA=\n="
    ensures ReplaceAll(TrimRightOf(s, '='), '.', '_') == "EAA=\n"
  {
    var t := s[..5];
    assert t == "EAA=\n" && t[4] == '\n' && s[5] == '=';
    assert TrimRightOf(s, '=') == TrimRightOf(t, '=') == t;
    assert forall i :: 0 <= i < 5 ==> t[i] != '.';
    assert ReplaceAll(t, '.', '_') == t;
  }

  lemma {:induction false} NoBreaksOfExample()
    ensures NoBreaks("EAA=\n") == "EAA="
  {
    assert "EAA=\n"[1..] == "AA=\n" && "AA=\n"[1..] == "A=\n";
    assert "A=\n"[1..] == "=\n" && "=\n"[1..] == "\n" && "\n"[1..] == "";
    assert NoBreaks("\n") == "";
    assert NoBreaks("=\n") == "=";
    assert NoBreaks("A=\n") == "A=";
    assert NoBreaks("AA=\n") == "AA=";
  }

  /** A good body under a scheme in capitals. */
  lemma {:induction false} OtherSpellingExample<Config>(k: Codecs<Config>, body: string)
    ensures SCHEME <= Lower("WINGSV://" + body) && ParseWingsConfig(k, "WINGSV://" + body) == Err(BadBase64)
  {
    var raw := "WINGSV://" + body;
    forall i | 0 <= i < |SCHEME| ensures Lower(raw)[i] == SCHEME[i] {
      assert raw[i] == "WINGSV://"[i];
    }
    assert raw[0] == 'W' && SCHEME[0] == 'w';
    OtherSpellingsFail(k, raw);
  }

  // ---- fixed points of the format ----------------------------------------------------------------

  /** The test vectors of section 10 of RFC 4648, without padding, and the two letters in which
      the URL alphabet differs. */
  lemma {:induction false} KnownEncodings()
    ensures Encode([]) == "" && Encode(['f' as int]) == "Zg" && Encode(['f' as int, 'o' as int]) == "Zm8"
    ensures Encode(['f' as int, 'o' as int, 'o' as int]) == "Zm9v"
    ensures Encode([0xFB, 0xFF]) == "-_8" && EncodeLinkPayload([0xFB, 0xFF]) == "-.8"
    ensures EncodeLinkPayload([0, 0, 63]) == "AAA.="
  {
    assert Encode([]) == "";
    assert Encode(['f' as int, 'o' as int, 'o' as int]) == "Zm9v" + Encode([]);
    assert Encode([0xFB, 0xFF]) == "-_8";
    assert ReplaceAll("-_8", '_', '.') == "-.8";
    assert Encode([0, 0, 63]) == "AAA_" + Encode([]) == "AAA_";
    assert ReplaceAll("AAA_", '_', '.') == "AAA.";
  }

  /** The first byte under a link says how it is packed: 0x13 for brotli, 0x12 for zlib. */
  lemma {:induction false} FormatBytes<Config(!new)>(k: Codecs<Config>, c: Config)
    requires k.marshal(c).Some?
    ensures var main, legacy, deflate := BuildWingsLink(k, c).value, BuildWingsLinkLegacyAlphabet(k, c).value,
        BuildWingsLinkDeflate(k, c).value;
      && "wingsv://" <= main && "wingsv://" <= legacy && "wingsv://" <= deflate
      && DecodeBody(NormalizeBase64(main[9..])) == Some([0x13] + k.brotli(k.marshal(c).value))
      && DecodeBody(NormalizeBase64(legacy[9..])) == Some([0x13] + k.brotli(k.marshal(c).value))
      && DecodeBody(NormalizeBase64(deflate[9..])) == Some([0x12] + k.zlib(k.marshal(c).value))
  {
    var raw := k.marshal(c).value;
    LinkBodyRoundTrip([0x13] + k.brotli(raw));
    LinkBodyRoundTrip([0x12] + k.zlib(raw));
    assert BuildWingsLink(k, c).value[9..] == EncodeLinkPayload([0x13] + k.brotli(raw));
    assert BuildWingsLinkLegacyAlphabet(k, c).value[9..] == Encode([0x13] + k.brotli(raw));
    assert BuildWingsLinkDeflate(k, c).value[9..] == Encode([0x12] + k.zlib(raw));
  }

  /** Older links hold raw deflate: they are read if and only if the payload has no zlib header,
      inflates raw, and is a message; a payload with a zlib header never gets that second chance. */
  lemma {:induction false} RawDeflateIsRead<Config(!new)>(k: Codecs<Config>, packed: seq<Byte>, c: Config)
    requires packed != [] && !k.unzlib(packed).Inflated?
    ensures ParseWingsConfig(k, SCHEME + Encode([FORMAT_DEFLATE] + packed)) == Ok(c) <==>
      k.unzlib(packed) == NoHeader && k.unflate(packed).Some? && k.unmarshal(k.unflate(packed).value) == Some(c)
  {
    var framed := [FORMAT_DEFLATE] + packed;
    LinkBodyRoundTrip(framed);
    SchemeRecognised(Encode(framed));
    assert framed[1..] == packed;
  }

  /** Every other first byte is refused, and so are a body without bytes and a deflate body
      without payload. */
  lemma {:induction false} OtherFormatsFail<Config(!new)>(k: Codecs<Config>, framed: seq<Byte>)
    ensures framed == [] ==> ParseWingsConfig(k, SCHEME + Encode(framed)) == Err(EmptyPayload)
    ensures framed != [] && framed[0] != 0x12 && framed[0] != 0x13 ==>
      ParseWingsConfig(k, SCHEME + Encode(framed)) == Err(BadFormat)
    ensures framed == [0x12] ==> ParseWingsConfig(k, SCHEME + Encode(framed)) == Err(BadCompression)
  {
    LinkBodyRoundTrip(framed);
    SchemeRecognised(Encode(framed));
  }

  /** The equals signs that fill up the last group of four. */
  function Padding(n: nat): string { if n % 3 == 0 then "" else if n % 3 == 1 then "==" else "=" }

  lemma {:induction false} ShortPadded(b: seq<Byte>)
    requires 1 <= |b| <= 2
    ensures DecodePaddedLetters(Encode(b) + Padding(|b|)) == Some(b)
  {
    var s := Encode(b) + Padding(|b|);
    EncodeLetters(b);
    ShortRoundTrip(b);
    assert s[..|Encode(b)|] == Encode(b);
    assert |s| == 4 && s[3] == '=';
    if |b| == 1 { assert s[2] == '='; } else { assert s[2] == Encode(b)[2]; }
  }

  /** A group before padded letters adds its bytes in front. */
  lemma {:induction false} GroupBeforePadded(s: string)
    requires |s| >= 4 && s[3] != '='
    ensures var first, rest := DecodeLetters(s[..4]), DecodePaddedLetters(s[4..]);
      DecodePaddedLetters(s) == if first.None? || rest.None? then None else Some(first.value + rest.value)
  {}

  lemma {:induction false} EncodeSplits(b: seq<Byte>)
    requires |b| >= 3
    ensures |Encode(b)| >= 4 && Encode(b)[3] != '=' && Encode(b)[4..] == Encode(b[3..])
  {
    EncodeLetters(b);
  }

  lemma {:induction false} PaddedStep(b: seq<Byte>, s: string)
    requires |b| >= 3 && |s| >= 4 && s[..4] == Encode(b)[..4] && s[3] != '='
    requires DecodePaddedLetters(s[4..]) == Some(b[3..])
    ensures DecodePaddedLetters(s) == Some(b)
  {
    HeadGroup(b, s);
    GroupBeforePadded(s);
    assert b == [b[0], b[1], b[2]] + b[3..];
  }

  lemma {:induction false} SplitAt(a: string, b: string, n: nat)
    requires n <= |a|
    ensures (a + b)[n..] == a[n..] + b && (a + b)[..n] == a[..n]
    ensures forall i :: 0 <= i < |a| ==> (a + b)[i] == a[i]
  {}

  lemma {:induction false} SamePadding(n: nat)
    requires n >= 3
    ensures Padding(n - 3) == Padding(n)
  {}

  /** What a padding encoder writes is read back whole by the padded attempt. */
  lemma {:induction false} PaddedRoundTrip(b: seq<Byte>)
    ensures DecodePaddedLetters(Encode(b) + Padding(|b|)) == Some(b)
  {
    if |b| >= 3 {
      var letters, pad := Encode(b), Padding(|b|);
      PaddedRoundTrip(b[3..]);
      EncodeSplits(b);
      var s := letters + pad;
      SplitAt(letters, pad, 4);
      SamePadding(|b|);
      PaddedStep(b, s);
    } else if b != [] {
      ShortPadded(b);
    } else {
      assert Encode(b) + Padding(0) == "";
    }
  }

  lemma {:induction false} HeadGroup(b: seq<Byte>, s: string)
    requires |b| >= 3 && |s| >= 4 && s[..4] == Encode(b)[..4]
    ensures DecodeLetters(s[..4]) == Some([b[0], b[1], b[2]])
  {
    var g := s[..4];
    GroupRoundTrip(b[0], b[1], b[2], g);
    assert g[4..] == "";
    assert [b[0], b[1], b[2]] + [] == [b[0], b[1], b[2]];
  }
}
