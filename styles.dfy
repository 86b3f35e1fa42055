/** Style inputs: the horizontal alignment lookup and the hex colour parser. */
module Styles {
  import opened Wrappers
  import opened Text

  datatype Alignment = Left | Center | Right

  /** The option name the alignment selector uses for each alignment. */
  function AlignmentName(a: Alignment): string {
    match a
    case Left => "left"
    case Center => "center"
    case Right => "right"
  }

  /** Default alignment of dictionary and authored-quote documents (`TA_LEFT`). */
  const EntryAlignmentDefault: Alignment := Left
  /** Default alignment of plain quote documents. */
  const QuoteAlignmentDefault: Alignment := Center

  /**
   * `get_alignment_constant`: the table lookup `{"left", "center", "right"}.get(name, default)`.
   */
  function AlignmentConstant(name: string, default: Alignment): (a: Alignment)
    ensures name == "left" || name == "center" || name == "right" ==> AlignmentName(a) == name
    ensures name != "left" && name != "center" && name != "right" ==> a == default
  {
    if name == "left" then Left
    else if name == "center" then Center
    else if name == "right" then Right
    else default
  }

  /**
   * An unrecognised alignment name leaves dictionary and authored-quote documents
   * left-aligned and plain quote documents centred; a recognised name gives the same
   * alignment in every document kind.
   */
  lemma AlignmentDefaults(name: string)
    ensures name != "left" && name != "center" && name != "right" ==>
      AlignmentConstant(name, EntryAlignmentDefault) == Left && AlignmentConstant(name, QuoteAlignmentDefault) == Center
    ensures name == "left" || name == "center" || name == "right" ==>
      AlignmentConstant(name, EntryAlignmentDefault) == AlignmentConstant(name, QuoteAlignmentDefault)
  {
  }

  /** Looking up an alignment's own name gives that alignment back, whatever the default. */
  lemma AlignmentRoundTrip(a: Alignment, default: Alignment)
    ensures AlignmentConstant(AlignmentName(a), default) == a
  {
  }

  /** A colour with channels as fractions of 255. */
  datatype Rgb = Rgb(red: real, green: real, blue: real)

  /** A string made only of the character `c`. */
  predicate AllChar(t: string, c: char) {
    forall j :: 0 <= j < |t| ==> t[j] == c
  }

  /**
   * Python's `s.lstrip(c)`: drops every leading `c`, so the result is a suffix of `s`
   * after a prefix made only of `c`, and does not start with `c`.
   */
  function LStripChar(s: string, c: char): (r: string)
    ensures |r| <= |s| && r == s[|s| - |r|..]
    ensures AllChar(s[..|s| - |r|], c)
    ensures r != [] ==> r[0] != c
    decreases |s|
  {
    if s != [] && s[0] == c then
      var r := LStripChar(s[1..], c);
      assert s[..|s| - |r|] == [c] + s[1..][..|s| - 1 - |r|];
      r
    else
      s
  }

  /** Python's slice `s[i:j]` for `0 <= i <= j`: clamped to the string. */
  function Slice(s: string, i: nat, j: nat): (r: string)
    requires i <= j
    ensures |r| <= j - i
  {
    if |s| <= i then [] else if |s| <= j then s[i..] else s[i..j]
  }

  /** The value of one hexadecimal digit, either case. */
  function HexDigit(c: char): (d: Option<nat>)
    ensures d.Some? ==> d.value < 16 && !IsSpace(c) && c != '+' && c != '-' && c != '#'
  {
    if '0' <= c <= '9' then Some(c as int - '0' as int)
    else if 'a' <= c <= 'f' then Some(c as int - 'a' as int + 10)
    else if 'A' <= c <= 'F' then Some(c as int - 'A' as int + 10)
    else None
  }

  /** The value of a non-empty string of hexadecimal digits. */
  function HexDigitsValue(t: string): (v: Option<nat>)
    ensures v.Some? <==> t != [] && forall i :: 0 <= i < |t| ==> HexDigit(t[i]).Some?
    ensures v.Some? && |t| <= 2 ==> v.value <= 255
    ensures v.Some? && |t| <= 1 ==> v.value <= 15
    decreases |t|
  {
    if t == [] then None
    else
      var last := HexDigit(t[|t| - 1]);
      if last.None? then None
      else if |t| == 1 then last
      else
        var high := HexDigitsValue(t[..|t| - 1]);
        if high.None? then None else Some(high.value * 16 + last.value)
  }

  /** A string of hexadecimal digits has no surrounding whitespace to strip. */
  lemma DigitsUnstripped(t: string)
    ensures (t != [] && forall i :: 0 <= i < |t| ==> HexDigit(t[i]).Some?) ==> Strip(t) == t
  {
    if t != [] && forall i :: 0 <= i < |t| ==> HexDigit(t[i]).Some? {
      assert HexDigit(t[0]).Some? && HexDigit(t[|t| - 1]).Some?;
      StripUnchanged(t);
    }
  }

  /**
   * Python's `int(t, 16)`: surrounding whitespace, then an optional sign, then hexadecimal
   * digits. `None` stands for the `ValueError` it raises otherwise.
   */
  function ParseInt16(t: string): (v: Option<int>)
    ensures v.Some? ==> !IsBlank(t)
    ensures v.Some? && |t| <= 2 ==> -15 <= v.value <= 255
  {
    var u := Strip(t);
    if u != [] && (u[0] == '+' || u[0] == '-') then
      var v := HexDigitsValue(u[1..]);
      if v.None? then None
      else
        var magnitude: int := v.value;
        Some(if u[0] == '-' then -magnitude else magnitude)
    else
      var v := HexDigitsValue(u);
      if v.None? then None else Some(v.value)
  }

  /** A string of hexadecimal digits, without sign or spaces, reads as the value of its digits. */
  lemma ParseInt16OfDigits(t: string)
    requires t != [] && forall i :: 0 <= i < |t| ==> HexDigit(t[i]).Some?
    ensures HexDigitsValue(t).Some? && ParseInt16(t) == Some(HexDigitsValue(t).value as int)
  {
    DigitsUnstripped(t);
    assert HexDigit(t[0]).Some?;
  }

  /**
   * `hex_to_rgb`: drop leading `#`, read characters 0-1, 2-3 and 4-5 as base-16 numbers
   * and divide each by 255. `None` stands for the `ValueError` a malformed colour raises.
   */
  function HexToRgb(color: string): (rgb: Option<Rgb>)
    ensures rgb.Some? ==> 5 <= |LStripChar(color, '#')|
    ensures rgb.Some? ==> InChannelRange(rgb.value.red) && InChannelRange(rgb.value.green)
                          && InChannelRange(rgb.value.blue)
  {
    var h := LStripChar(color, '#');
    match (ParseInt16(Slice(h, 0, 2)), ParseInt16(Slice(h, 2, 4)), ParseInt16(Slice(h, 4, 6)))
    case (Some(r), Some(g), Some(b)) => Some(Rgb(Channel(r), Channel(g), Channel(b)))
    case _ => None
  }

  /** One channel on the 0-1 scale: `v / 255`. */
  function Channel(v: int): real {
    v as real / 255.0
  }

  /**
   * The values a channel can take: a two-character slice reads as at most `ff`, and as
   * low as `-f` when it starts with a sign.
   */
  predicate InChannelRange(x: real) {
    -15.0 / 255.0 <= x <= 1.0
  }

  /** The lower-case hexadecimal digit of `d`. */
  function HexChar(d: nat): char
    requires d < 16
  {
    if d < 10 then ('0' as int + d) as char else ('a' as int + d - 10) as char
  }

  /** Two hexadecimal digits of a byte. */
  function HexByte(b: nat): string
    requires b < 256
  {
    [HexChar(b / 16), HexChar(b % 16)]
  }

  /** The `#rrggbb` form a colour picker produces. */
  function FormatHexColor(r: nat, g: nat, b: nat): string
    requires r < 256 && g < 256 && b < 256
  {
    "#" + HexByte(r) + HexByte(g) + HexByte(b)
  }

  /** The value of two hexadecimal digits, the first one the high digit. */
  function PairValue(high: char, low: char): (v: nat)
    requires HexDigit(high).Some? && HexDigit(low).Some?
    ensures v <= 255
  {
    16 * HexDigit(high).value + HexDigit(low).value
  }

  /** Two hexadecimal digits of either case read through `int(_, 16)` as their value. */
  lemma {:induction false} HexPairValue(high: char, low: char)
    requires HexDigit(high).Some? && HexDigit(low).Some?
    ensures ParseInt16([high, low]) == Some(PairValue(high, low))
  {
    var t := [high, low];
    ParseInt16OfDigits(t);
    assert t[..1] == [high];
    assert HexDigitsValue(t) == Some(PairValue(high, low));
  }

  /** The two digits written for a byte are hexadecimal digits whose pair value is the byte. */
  lemma {:induction false} HexByteDigits(b: nat)
    requires b < 256
    ensures var t := HexByte(b);
      |t| == 2 && HexDigit(t[0]).Some? && HexDigit(t[1]).Some? && PairValue(t[0], t[1]) == b
  {
    assert HexDigit(HexChar(b / 16)) == Some(b / 16);
    assert HexDigit(HexChar(b % 16)) == Some(b % 16);
  }

  /** The digits written for a byte read back as that byte. */
  lemma {:induction false} HexByteValue(b: nat)
    requires b < 256
    ensures ParseInt16(HexByte(b)) == Some(b)
  {
    HexByteDigits(b);
    HexPairValue(HexChar(b / 16), HexChar(b % 16));
  }

  /** Leading `#` characters, however many, are all dropped before the digits. */
  lemma {:induction false} StripHashes(hashes: string, h: string)
    requires forall j :: 0 <= j < |hashes| ==> hashes[j] == '#'
    requires h != [] && h[0] != '#'
    ensures LStripChar(hashes + h, '#') == h
    decreases |hashes|
  {
    if hashes != [] {
      assert (hashes + h)[1..] == hashes[1..] + h;
      StripHashes(hashes[1..], h);
    } else {
      assert hashes + h == h;
    }
  }

  lemma {:induction false} ChannelSlices(x: string, y: string, z: string)
    requires |x| == 2 && |y| == 2 && |z| == 2
    ensures var h := x + y + z;
      Slice(h, 0, 2) == x && Slice(h, 2, 4) == y && Slice(h, 4, 6) == z
  {
    var h := x + y + z;
    assert h[0..2] == x;
    assert h[2..4] == y;
    assert h[4..] == z;
  }

  /** Six hexadecimal digits without a prefix read as the three channels their pairs encode. */
  lemma {:induction false} HexDigitsColor(digits: string)
    requires |digits| == 6 && forall i :: 0 <= i < 6 ==> HexDigit(digits[i]).Some?
    ensures HexToRgb(digits) == Some(Rgb(Channel(PairValue(digits[0], digits[1])),
                                         Channel(PairValue(digits[2], digits[3])),
                                         Channel(PairValue(digits[4], digits[5]))))
  {
    var x, y, z := [digits[0], digits[1]], [digits[2], digits[3]], [digits[4], digits[5]];
    assert digits == x + y + z;
    assert LStripChar(digits, '#') == digits by {
      assert HexDigit(digits[0]).Some?;
    }
    ChannelSlices(x, y, z);
    HexPairValue(digits[0], digits[1]);
    HexPairValue(digits[2], digits[3]);
    HexPairValue(digits[4], digits[5]);
  }

  /** Leading `#` characters, however many, do not change the colour read. */
  lemma {:induction false} HashesIgnored(hashes: string, h: string)
    requires forall j :: 0 <= j < |hashes| ==> hashes[j] == '#'
    requires h != [] && h[0] != '#'
    ensures HexToRgb(hashes + h) == HexToRgb(h)
  {
    StripHashes(hashes, h);
    assert LStripChar(h, '#') == h;
  }

  /**
   * Any six hexadecimal digits, of either case and behind any number of `#`, read as the
   * three channels their pairs encode, each divided by 255.
   */
  lemma {:induction false} HexColorDigits(hashes: string, digits: string)
    requires forall j :: 0 <= j < |hashes| ==> hashes[j] == '#'
    requires |digits| == 6 && forall i :: 0 <= i < 6 ==> HexDigit(digits[i]).Some?
    ensures HexToRgb(hashes + digits) == Some(Rgb(Channel(PairValue(digits[0], digits[1])),
                                                  Channel(PairValue(digits[2], digits[3])),
                                                  Channel(PairValue(digits[4], digits[5]))))
  {
    assert HexDigit(digits[0]).Some?;
    HashesIgnored(hashes, digits);
    HexDigitsColor(digits);
  }

  /** Every `#rrggbb` colour a colour picker writes reads back as its three channels divided by 255. */
  lemma {:induction false} HexColorRoundTrip(r: nat, g: nat, b: nat)
    requires r < 256 && g < 256 && b < 256
    ensures HexToRgb(FormatHexColor(r, g, b)) == Some(Rgb(Channel(r), Channel(g), Channel(b)))
  {
    var x, y, z := HexByte(r), HexByte(g), HexByte(b);
    HexByteDigits(r);
    HexByteDigits(g);
    HexByteDigits(b);
    var digits := x + y + z;
    assert digits == [x[0], x[1], y[0], y[1], z[0], z[1]];
    assert FormatHexColor(r, g, b) == "#" + digits;
    HexColorDigits("#", digits);
  }

  /** The colour every generator starts from, `#FFFFFF`, reads as white. */
  const White: string := "#FFFFFF"

  lemma {:induction false} WhiteDefault()
    ensures HexToRgb(White) == Some(Rgb(1.0, 1.0, 1.0))
  {
    var digits := White[1..];
    assert White == "#" + digits;
    HexColorDigits("#", digits);
    assert HexDigit('F') == Some(15);
  }

  /** A colour with fewer than five characters after its `#` prefix raises (e.g. `#FFF`). */
  lemma {:induction false} ShortColorRejected(color: string)
    requires |LStripChar(color, '#')| <= 4
    ensures HexToRgb(color).None?
  {
    var h := LStripChar(color, '#');
    assert Slice(h, 4, 6) == [];
    assert Strip([]) == [];
  }
}
