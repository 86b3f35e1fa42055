/**
 * Font naming: which name a requested font ends up registered under, and the name
 * test the height estimators use to decide that a font is a custom one.
 */
module Fonts {
  import opened Wrappers
  import opened Text

  /** The names accepted as built-in fonts without registration. */
  const BuiltinFonts: seq<string> :=
    ["Times-Bold", "Helvetica-Bold", "Helvetica", "Times-Roman", "Courier", "Courier-Bold"]

  /** The font used when a request cannot be honoured. */
  const FallbackFont: string := "Times-Bold"

  /**
   * A request that is registered from a file: a non-empty path ending in `.ttf` that
   * exists (`fileExists` stands for the filesystem check). `None` is Python's `None`.
   */
  predicate IsRegistrable(fontPath: Option<string>, fileExists: bool) {
    fontPath.Some? && fontPath.value != "" && EndsWith(fontPath.value, ".ttf") && fileExists
  }

  /** The unique name `f"{base}_{millis}"` a registered font gets (`millis` is the clock). */
  function RegisteredName(baseName: string, millis: nat): string {
    baseName + "_" + DecimalString(millis)
  }

  /**
   * `register_font_safe`: the name of the font a style will use. `registers` says whether
   * the font library accepted the file.
   */
  function RegisterFontName(fontPath: Option<string>, baseName: string, fileExists: bool,
                            registers: bool, millis: nat): (name: string)
    ensures IsRegistrable(fontPath, fileExists) && registers ==> name == RegisteredName(baseName, millis)
    ensures !(IsRegistrable(fontPath, fileExists) && registers) ==> name in BuiltinFonts
    ensures (!IsRegistrable(fontPath, fileExists) && fontPath.Some? && fontPath.value in BuiltinFonts)
      ==> name == fontPath.value
    ensures IsRegistrable(fontPath, fileExists) && !registers ==> name == FallbackFont
    ensures !IsRegistrable(fontPath, fileExists) && !(fontPath.Some? && fontPath.value in BuiltinFonts)
      ==> name == FallbackFont
  {
    if IsRegistrable(fontPath, fileExists) then
      (if registers then RegisteredName(baseName, millis) else FallbackFont)
    else if fontPath.Some? && fontPath.value in BuiltinFonts then fontPath.value
    else FallbackFont
  }

  /**
   * The estimators' custom-font test: the name holds an underscore, or a digit among
   * its last ten characters.
   */
  predicate IsCustomFontName(name: string): (custom: bool)
    ensures '_' in name ==> custom
    ensures |name| <= 10 ==> (custom <==> exists i :: 0 <= i < |name| && (name[i] == '_' || IsAsciiDigit(name[i])))
    ensures (forall i :: 0 <= i < |name| ==> name[i] != '_' && !IsAsciiDigit(name[i])) ==> !custom
  {
    '_' in name || exists i :: 0 <= i < |name| && |name| - 10 <= i && IsAsciiDigit(name[i])
  }

  /** The 20% padding a style of the given scaled size gets when its font is custom. */
  function FontPadding(fontName: string, scaledSize: int): (pad: real)
    ensures 0 < scaledSize ==> (0.0 < pad <==> IsCustomFontName(fontName))
    ensures !IsCustomFontName(fontName) ==> pad == 0.0
    ensures 0 <= scaledSize ==> 5.0 * pad <= scaledSize as real
  {
    if IsCustomFontName(fontName) then scaledSize as real * 0.20 else 0.0
  }

  /** No built-in font is taken for a custom one. */
  lemma {:induction false} BuiltinFontsArePlain()
    ensures forall n :: n in BuiltinFonts ==> !IsCustomFontName(n)
  {
    forall n | n in BuiltinFonts
      ensures !IsCustomFontName(n)
    {
      assert n == "Times-Bold" || n == "Helvetica-Bold" || n == "Helvetica"
          || n == "Times-Roman" || n == "Courier" || n == "Courier-Bold";
      assert forall i :: 0 <= i < |n| ==> n[i] != '_' && !IsAsciiDigit(n[i]);
    }
  }

  /**
   * The font padding applies exactly to fonts registered from a `.ttf` file: every
   * other outcome of registration is a built-in name.
   */
  lemma {:induction false} PaddedExactlyWhenRegistered(fontPath: Option<string>, baseName: string,
                                                      fileExists: bool, registers: bool, millis: nat)
    ensures IsCustomFontName(RegisterFontName(fontPath, baseName, fileExists, registers, millis))
            <==> IsRegistrable(fontPath, fileExists) && registers
  {
    var name := RegisterFontName(fontPath, baseName, fileExists, registers, millis);
    if IsRegistrable(fontPath, fileExists) && registers {
      assert name[|baseName|] == '_';
    } else {
      BuiltinFontsArePlain();
    }
  }

  /** The padding is never negative for a non-negative size, and is zero for built-in fonts. */
  lemma FontPaddingBounds(fontName: string, scaledSize: int)
    requires 0 <= scaledSize
    ensures 0.0 <= FontPadding(fontName, scaledSize) <= scaledSize as real / 5.0
    ensures fontName in BuiltinFonts ==> FontPadding(fontName, scaledSize) == 0.0
  {
    BuiltinFontsArePlain();
  }
}
