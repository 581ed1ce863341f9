/**
 * The text processa_display draws on the SSD1306 panel
 * (bitdoglab-serial-peripherals.c:110-137), as pure functions of the values
 * it reads, and the `%d` conversion its second line uses.
 */
module DisplayText {

  /** A C `char` on the RP2040: an unsigned 8-bit code. */
  type Char8 = n: int | 0 <= n < 256

  /** One ssd1306_draw_string call: `text` drawn with its top-left corner at (x, y). */
  datatype TextLine = TextLine(x: nat, y: nat, text: string)

  /** `c >= '0' && c <= '9'`. */
  predicate IsDigit(c: Char8) {
    '0' as int <= c <= '9' as int
  }

  /** The character whose code is `c`, as `%c` prints it. */
  function CharOf(c: Char8): char {
    c as char
  }

  function DigitChar(d: int): (c: char)
    requires 0 <= d <= 9
    ensures '0' <= c <= '9'
  {
    ('0' as int + d) as char
  }

  predicate AllDigits(s: string) {
    forall i :: 0 <= i < |s| ==> '0' <= s[i] <= '9'
  }

  /** The `%d` conversion of snprintf: optional minus sign, then decimal digits. */
  function Decimal(n: int): (s: string)
    ensures |s| >= 1
    ensures s[0] == '-' <==> n < 0
    decreases if n < 0 then 1 - n else n
  {
    if n < 0 then "-" + Decimal(-n)
    else if n < 10 then [DigitChar(n)]
    else Decimal(n / 10) + [DigitChar(n % 10)]
  }

  /** The number a string of decimal digits denotes. */
  function DigitsValue(s: string): nat
    requires AllDigits(s)
  {
    if s == [] then 0 else DigitsValue(s[..|s| - 1]) * 10 + (s[|s| - 1] as int - '0' as int)
  }

  /** `%d` of a non-negative number writes only digits, and they denote the number. */
  lemma {:induction false} DecimalRoundTrip(n: nat)
    ensures AllDigits(Decimal(n))
    ensures DigitsValue(Decimal(n)) == n
  {
    if n >= 10 {
      DecimalRoundTrip(n / 10);
      var s := Decimal(n);
      assert s[..|s| - 1] == Decimal(n / 10);
    }
  }

  /** Line y = 0: the last received character, or `-` when there is none (lines 115-120). */
  function SerialText(c: Char8): (t: string)
    ensures |t| == 9 && t[..8] == "Serial: "
    ensures c != 0 ==> t[8] == CharOf(c)
    ensures t == "Serial: -" <==> c == 0 || c == '-' as int
  {
    if c != 0 then "Serial: " + [CharOf(c)] else "Serial: -"
  }

  /** Line y = 16: the received digit as a character, otherwise `numero` via `%d` (lines 123-128). */
  function MatrizText(c: Char8, numero: int): (t: string)
    ensures |t| >= 9 && t[..8] == "Matriz: "
    ensures IsDigit(c) ==> t[8] == CharOf(c)
    ensures !IsDigit(c) && 0 <= numero <= 9 ==> t == "Matriz: " + [DigitChar(numero)]
  {
    if IsDigit(c) then "Matriz: " + [CharOf(c)] else "Matriz: " + Decimal(numero)
  }

  /** Lines y = 32 and y = 48: an LED state as ON or OFF (lines 131-134). */
  function LedText(name: string, on: bool): (t: string)
    ensures |t| >= |name| && t[..|name|] == name
    ensures t == name + "ON" <==> on
    ensures t == name + "OFF" <==> !on
  {
    name + (if on then "ON" else "OFF")
  }

  /** One image of the panel: the four lines in drawing order. */
  function Screen(c: Char8, numero: int, verde: bool, azul: bool): (lines: seq<TextLine>)
    ensures |lines| == 4
    ensures forall i :: 0 <= i < 4 ==> lines[i].x == 0 && lines[i].y == 16 * i
  {
    [ TextLine(0, 0, SerialText(c)),
      TextLine(0, 16, MatrizText(c, numero)),
      TextLine(0, 32, LedText("LED Verde: ", verde)),
      TextLine(0, 48, LedText("LED Azul: ", azul)) ]
  }

  /**
   * The panel shows four lines at x = 0, y = 0, 16, 32 and 48. The first
   * reads "Serial: -" exactly when no character is pending or the pending
   * character is '-' itself; the last two say ON exactly when the LED is on.
   */
  lemma ScreenReportsState(c: Char8, numero: int, verde: bool, azul: bool)
    ensures |Screen(c, numero, verde, azul)| == 4
    ensures forall i :: 0 <= i < 4 ==>
      Screen(c, numero, verde, azul)[i].x == 0 && Screen(c, numero, verde, azul)[i].y == 16 * i
    ensures Screen(c, numero, verde, azul)[0].text == "Serial: -" <==> c == 0 || c == '-' as int
    ensures c != 0 ==> Screen(c, numero, verde, azul)[0].text == "Serial: " + [CharOf(c)]
    ensures Screen(c, numero, verde, azul)[2].text == "LED Verde: ON" <==> verde
    ensures Screen(c, numero, verde, azul)[2].text == "LED Verde: OFF" <==> !verde
    ensures Screen(c, numero, verde, azul)[3].text == "LED Azul: ON" <==> azul
    ensures Screen(c, numero, verde, azul)[3].text == "LED Azul: OFF" <==> !azul
  {
    var s := Screen(c, numero, verde, azul);
    if c != 0 && c != '-' as int {
      assert s[0].text[8] != "Serial: -"[8];
    }
    if !verde {
      assert s[2].text[12] != "LED Verde: ON"[12];
    } else {
      assert |s[2].text| != |"LED Verde: OFF"|;
    }
    if !azul {
      assert s[3].text[11] != "LED Azul: ON"[11];
    } else {
      assert |s[3].text| != |"LED Azul: OFF"|;
    }
  }

  /**
   * Whichever branch line y = 16 takes, it shows the current digit, as long
   * as a pending digit character agrees with `numero`.
   */
  lemma MatrizTextAgrees(c: Char8, numero: int)
    requires 0 <= numero <= 9
    requires IsDigit(c) ==> numero == c - '0' as int
    ensures MatrizText(c, numero) == "Matriz: " + [DigitChar(numero)]
    ensures MatrizText(c, numero) == "Matriz: " + Decimal(numero)
  {
  }
}
