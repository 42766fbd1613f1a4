/**
 * The RGBA colour value of the renderer and its decoding from the
 * host's colour parameter, a string `#RRGGBBAA` of a marker and eight hex
 * digits.
 */
module Colors {
  import opened Bytes
  import opened Results

  /** Four 8-bit channels. The value is copied, never shared. */
  datatype Color = Color(red: U8, green: U8, blue: U8, alpha: U8)
  {
    function Red(): U8 { red }
    function Green(): U8 { green }
    function Blue(): U8 { blue }
    function Alpha(): U8 { alpha }

    /** `set_red`: replaces the red channel, keeps the other three. */
    function SetRed(value: U8): (c: Color)
      ensures c.Red() == value
      ensures c.Green() == Green() && c.Blue() == Blue() && c.Alpha() == Alpha()
    {
      this.(red := value)
    }

    /** `set_green`: replaces the green channel, keeps the other three. */
    function SetGreen(value: U8): (c: Color)
      ensures c.Green() == value
      ensures c.Red() == Red() && c.Blue() == Blue() && c.Alpha() == Alpha()
    {
      this.(green := value)
    }

    /** `set_blue`: replaces the blue channel, keeps the other three. */
    function SetBlue(value: U8): (c: Color)
      ensures c.Blue() == value
      ensures c.Red() == Red() && c.Green() == Green() && c.Alpha() == Alpha()
    {
      this.(blue := value)
    }

    /** `set_alpha`: replaces the alpha channel, keeps the other three. */
    function SetAlpha(value: U8): (c: Color)
      ensures c.Alpha() == value
      ensures c.Red() == Red() && c.Green() == Green() && c.Blue() == Blue()
    {
      this.(alpha := value)
    }
  }

  /** `red()`, `green()`, `blue()` and `alpha()` read back the channel
      they are named for, and two colours with the same four channels are
      the same colour. */
  lemma Getters(red: U8, green: U8, blue: U8, alpha: U8, c: Color, d: Color)
    ensures Color(red, green, blue, alpha).Red() == red && Color(red, green, blue, alpha).Green() == green
    ensures Color(red, green, blue, alpha).Blue() == blue && Color(red, green, blue, alpha).Alpha() == alpha
    ensures c == Color(c.Red(), c.Green(), c.Blue(), c.Alpha())
    ensures c == d <==> c.Red() == d.Red() && c.Green() == d.Green() && c.Blue() == d.Blue() && c.Alpha() == d.Alpha()
  {
  }

  /** `from_rgba`: a colour holding exactly the four given channels. */
  function FromRgba(red: U8, green: U8, blue: U8, alpha: U8): (c: Color)
    ensures c.Red() == red && c.Green() == green && c.Blue() == blue && c.Alpha() == alpha
  {
    Color(red, green, blue, alpha)
  }

  /** `from_rgb`: the three given channels, fully opaque. */
  function FromRgb(red: U8, green: U8, blue: U8): (c: Color)
    ensures c == FromRgba(red, green, blue, 255)
    ensures c.Red() == red && c.Green() == green && c.Blue() == blue && c.Alpha() == 255
  {
    Color(red, green, blue, 255)
  }

  /** The accessor laws of the four channels: a setter is seen by its getter
      only, setting a channel to its own value changes nothing, the last of
      two writes to a channel wins, and writes to different channels commute. */
  lemma ChannelLaws(c: Color, v: U8, w: U8)
    ensures c.SetRed(v).Red() == v && c.SetRed(v).SetRed(w) == c.SetRed(w)
    ensures c.SetGreen(v).Green() == v && c.SetGreen(v).SetGreen(w) == c.SetGreen(w)
    ensures c.SetBlue(v).Blue() == v && c.SetBlue(v).SetBlue(w) == c.SetBlue(w)
    ensures c.SetAlpha(v).Alpha() == v && c.SetAlpha(v).SetAlpha(w) == c.SetAlpha(w)
    ensures c.SetRed(c.Red()) == c && c.SetGreen(c.Green()) == c
    ensures c.SetBlue(c.Blue()) == c && c.SetAlpha(c.Alpha()) == c
    ensures c.SetRed(v).SetGreen(w) == c.SetGreen(w).SetRed(v)
    ensures c.SetRed(v).SetBlue(w) == c.SetBlue(w).SetRed(v)
    ensures c.SetRed(v).SetAlpha(w) == c.SetAlpha(w).SetRed(v)
    ensures c.SetGreen(v).SetBlue(w) == c.SetBlue(w).SetGreen(v)
    ensures c.SetGreen(v).SetAlpha(w) == c.SetAlpha(w).SetGreen(v)
    ensures c.SetBlue(v).SetAlpha(w) == c.SetAlpha(w).SetBlue(v)
  {
  }

  // ---------------------------------------------------------------------
  // UTF-8 length. Rust's `String::len` counts bytes, not characters.
  // ---------------------------------------------------------------------

  predicate IsAscii(ch: char) {
    (ch as int) < 0x80
  }

  /** The number of bytes UTF-8 spends on one Unicode scalar value. */
  function Utf8Width(ch: char): (w: nat)
    ensures 1 <= w <= 4
    ensures w == 1 <==> IsAscii(ch)
  {
    if (ch as int) < 0x80 then 1
    else if (ch as int) < 0x800 then 2
    else if (ch as int) < 0x1_0000 then 3
    else 4
  }

  /** The byte length of `s` encoded as UTF-8: at least its number of
      characters, and equal to it exactly when every character is ASCII. */
  function Utf8Len(s: string): (n: nat)
    ensures n >= |s|
    ensures n == |s| <==> forall i :: 0 <= i < |s| ==> IsAscii(s[i])
  {
    if s == [] then 0
    else
      var rest := Utf8Len(s[1..]);
      assert forall i :: 1 <= i < |s| ==> s[i] == s[1..][i - 1];
      Utf8Width(s[0]) + rest
  }

  // ---------------------------------------------------------------------
  // Hex digits, as the `hex` crate reads and writes them.
  // ---------------------------------------------------------------------

  /** `0-9`, `a-f` and `A-F`. */
  predicate IsHexDigit(ch: char) {
    '0' <= ch <= '9' || 'a' <= ch <= 'f' || 'A' <= ch <= 'F'
  }

  predicate AllHex(s: string) {
    forall i :: 0 <= i < |s| ==> IsHexDigit(s[i])
  }

  function HexDigitValue(ch: char): (v: nat)
    requires IsHexDigit(ch)
    ensures v < 16
  {
    if '0' <= ch <= '9' then (ch as int) - ('0' as int)
    else if 'a' <= ch <= 'f' then (ch as int) - ('a' as int) + 10
    else (ch as int) - ('A' as int) + 10
  }

  /** The lower-case digit for a nibble; its value is that nibble. */
  function LowerHexDigit(v: nat): (ch: char)
    requires v < 16
    ensures IsHexDigit(ch) && HexDigitValue(ch) == v
  {
    if v < 10 then (('0' as int) + v) as char else (('a' as int) + v - 10) as char
  }

  /** One byte from two digits, high nibble first. */
  function HexPair(hi: char, lo: char): U8
    requires IsHexDigit(hi) && IsHexDigit(lo)
  {
    HexDigitValue(hi) * 16 + HexDigitValue(lo)
  }

  /** The bytes of a string of hex digit pairs: byte `i` is the pair at
      characters `2i` and `2i + 1`. */
  function DecodePairs(s: string): (bytes: seq<U8>)
    requires |s| % 2 == 0 && AllHex(s)
    ensures |bytes| == |s| / 2
    ensures forall i :: 0 <= i < |bytes| ==> bytes[i] == HexPair(s[2 * i], s[2 * i + 1])
  {
    if s == [] then []
    else
      var tail := s[2..];
      var rest := DecodePairs(tail);
      var bytes := [HexPair(s[0], s[1])] + rest;
      forall i | 1 <= i < |bytes|
        ensures bytes[i] == HexPair(s[2 * i], s[2 * i + 1])
      {
        assert bytes[i] == rest[i - 1];
        assert tail[2 * (i - 1)] == s[2 * i] && tail[2 * (i - 1) + 1] == s[2 * i + 1];
      }
      bytes
  }

  /** Lower-case hex text of a byte string, two digits per byte, high
      nibble first. */
  function EncodePairs(bytes: seq<U8>): (s: string)
    ensures |s| == 2 * |bytes| && AllHex(s)
    ensures forall i :: 0 <= i < |bytes| ==>
      s[2 * i] == LowerHexDigit(bytes[i] / 16) && s[2 * i + 1] == LowerHexDigit(bytes[i] % 16)
  {
    if bytes == [] then []
    else
      var rest := EncodePairs(bytes[1..]);
      var s := [LowerHexDigit(bytes[0] / 16), LowerHexDigit(bytes[0] % 16)] + rest;
      assert forall i :: 1 <= i < |bytes| ==> bytes[i] == bytes[1..][i - 1] && s[2 * i] == rest[2 * (i - 1)];
      s
  }

  /** Decoding undoes encoding. */
  lemma DecodeEncodePairs(bytes: seq<U8>)
    ensures DecodePairs(EncodePairs(bytes)) == bytes
  {
  }

  /** Why decoding fails. `ParamLength` is `from_param`'s length assertion;
      the other three are the errors of the `hex` crate. */
  datatype DecodeError =
    | ParamLength(len: nat)
    | OddLength
    | InvalidStringLength
    | InvalidHexCharacter

  /**
   * `<[u8; n]>::from_hex`. The crate checks the byte length (odd, then not
   * `2 n`) before any digit. Its digit test runs on bytes; once the byte
   * length is `2 n`, every byte is a hex digit exactly when every character
   * is one, because a non-ASCII character encodes to bytes of 0x80 and above.
   */
  function FromHex(s: string, n: nat): (r: Result<seq<U8>, DecodeError>)
    ensures r.Ok? <==> |s| == 2 * n && AllHex(s)
    ensures r.Ok? ==> |r.value| == n
    ensures r.Ok? ==> forall i :: 0 <= i < n ==> r.value[i] == HexPair(s[2 * i], s[2 * i + 1])
  {
    var len := Utf8Len(s);
    if len % 2 != 0 then Err(OddLength)
    else if len / 2 != n then Err(InvalidStringLength)
    else if !AllHex(s) then Err(InvalidHexCharacter)
    else Ok(DecodePairs(s))
  }

  /** The strings the decoder accepts: nine characters, an ASCII marker
      first (any one: the marker is dropped unchecked), then eight hex digits. */
  predicate WellFormedParam(param: string) {
    |param| == 9 && IsAscii(param[0]) && AllHex(param[1..])
  }

  /**
   * The decoding part of `from_param`: the raw parameter string must be
   * nine bytes long, its first character is dropped, and the rest is
   * decoded into red, green, blue and alpha, in that order. Where
   * `from_param` panics, the result is an error.
   */
  function FromParam(param: string): (r: Result<Color, DecodeError>)
    ensures r.Ok? <==> WellFormedParam(param)
    ensures r.Ok? ==> r.value == Color(HexPair(param[1], param[2]), HexPair(param[3], param[4]),
                                       HexPair(param[5], param[6]), HexPair(param[7], param[8]))
  {
    var len := Utf8Len(param);
    if len != 9 then Err(ParamLength(len))
    else
      var rest := param[1..];
      assert Utf8Len(param) == Utf8Width(param[0]) + Utf8Len(rest);
      assert forall i :: 0 <= i < |rest| ==> rest[i] == param[i + 1];
      match FromHex(rest, 4)
      case Err(e) => Err(e)
      case Ok(bytes) => Ok(Color(bytes[0], bytes[1], bytes[2], bytes[3]))
  }

  /** A colour as the host writes it: `#` and eight lower-case hex digits. */
  function ToParam(c: Color): (param: string)
    ensures WellFormedParam(param)
  {
    ['#'] + EncodePairs([c.red, c.green, c.blue, c.alpha])
  }

  /** Every colour survives the trip through its parameter string. */
  lemma ParamRoundTrip(c: Color)
    ensures FromParam(ToParam(c)) == Ok(c)
  {
  }

  /** Worked examples: `#00112233` decodes channel by channel, and
      upper-case and mixed-case digits are accepted. */
  lemma DecodeExamples()
    ensures FromParam("#00112233") == Ok(Color(0x00, 0x11, 0x22, 0x33))
    ensures FromParam("#A0b1C2fF") == Ok(Color(0xA0, 0xB1, 0xC2, 0xFF))
  {
    var p := "#00112233";
    assert WellFormedParam(p);
    assert HexPair('0', '0') == 0x00 && HexPair('1', '1') == 0x11;
    assert HexPair('2', '2') == 0x22 && HexPair('3', '3') == 0x33;
    var q := "#A0b1C2fF";
    assert WellFormedParam(q);
    assert HexPair('A', '0') == 0xA0 && HexPair('b', '1') == 0xB1;
    assert HexPair('C', '2') == 0xC2 && HexPair('f', 'F') == 0xFF;
  }

  /** Rejected examples: a string one digit short, and one with a non-hex
      digit. */
  lemma RejectExamples()
    ensures FromParam("#0011223").Err?
    ensures FromParam("#0011223g").Err?
  {
    assert |"#0011223"| == 8;
    assert !IsHexDigit("#0011223g"[8]);
  }
}
