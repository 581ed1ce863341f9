/**
 * Colour-word encoding and frame emission for the 5x5 WS2812 matrix driven
 * through a PIO state machine (include/matriz_led_control.c).
 *
 * A word pushed to the state machine is a `bv32` laid out G | R | B | 0,
 * most significant byte first. Pattern values are doubles in the source;
 * here they are exact reals, and the conversion `x * 255` to `unsigned char`
 * is `Scale`.
 */
module MatrizLed {

  /** Number of LEDs in the matrix; the source indexes patterns with `24 - i`. */
  const NUM_PIXELS: nat := 25

  /** A channel value: what an `unsigned char` holds. */
  type Byte = n: int | 0 <= n < 256

  /** Byte `k` of a word, byte 0 being the least significant. */
  function ByteOf(w: bv32, k: nat): bv8
    requires k < 4
  {
    (if k == 0 then w & 0xFF
     else if k == 1 then (w >> 8) & 0xFF
     else if k == 2 then (w >> 16) & 0xFF
     else w >> 24) as bv8
  }

  /**
   * Bit `j` of `w`, counting from the least significant bit 0, is 1: the
   * word contains the whole single-bit mask `1 << j`.
   */
  predicate BitSet(w: bv32, j: nat)
    requires j < 32
  {
    w & (1 << j) == 1 << j
  }

  /**
   * The character imprimir_binario prints for bit `j` of `w`: it masks the
   * word with `1 << j` and prints '1' when the result is non-zero.
   */
  function BitChar(w: bv32, j: nat): (c: char)
    requires j < 32
    ensures c == '1' <==> BitSet(w, j)
    ensures c == '0' <==> !BitSet(w, j)
  {
    if w & (1 << j) != 0 then '1' else '0'
  }

  /**
   * C's conversion of `x * 255` to `unsigned char` is defined exactly when
   * the product lies strictly between -1 and 256.
   */
  predicate Convertible(x: real) {
    -1.0 < x * 255.0 < 256.0
  }

  /** The `unsigned char` value of `x * 255`: the product truncated toward zero. */
  function Scale(x: real): (c: Byte)
    requires Convertible(x)
    ensures x >= 0.0 ==> c as real <= x * 255.0 < c as real + 1.0
    ensures x < 0.0 ==> c == 0
  {
    if x <= 0.0 then 0 else (x * 255.0).Floor
  }

  /** The channel byte `Scale(x)`, as the bits matrix_rgb shifts into place. */
  function Channel(x: real): bv8
    requires Convertible(x)
  {
    Scale(x) as bv8
  }

  /**
   * matrix_rgb (matriz_led_control.c:30-37): the channel bytes of the
   * parameters `b`, `r`, `g` packed as G in byte 3 (bits 31-24), R in byte 2
   * and B in byte 1, byte 0 left zero. The C shifts are on `int`; their bit
   * pattern is the one computed here on 32 bits.
   */
  function MatrixRgb(b: bv8, r: bv8, g: bv8): (w: bv32)
    ensures ByteOf(w, 3) == g && ByteOf(w, 2) == r
    ensures ByteOf(w, 1) == b && ByteOf(w, 0) == 0
  {
    ((g as bv32) << 24) | ((r as bv32) << 16) | ((b as bv32) << 8)
  }

  /**
   * For intensities in [0, 1] every conversion is defined, and the word
   * matrix_rgb returns carries floor(g * 255), floor(r * 255) and
   * floor(b * 255) in bytes 3, 2 and 1, with byte 0 zero.
   */
  lemma PixelEncoding(b: real, r: real, g: real)
    requires 0.0 <= b <= 1.0 && 0.0 <= r <= 1.0 && 0.0 <= g <= 1.0
    ensures Convertible(b) && Convertible(r) && Convertible(g)
    ensures ByteOf(MatrixRgb(Channel(b), Channel(r), Channel(g)), 3) == (g * 255.0).Floor as bv8
    ensures ByteOf(MatrixRgb(Channel(b), Channel(r), Channel(g)), 2) == (r * 255.0).Floor as bv8
    ensures ByteOf(MatrixRgb(Channel(b), Channel(r), Channel(g)), 1) == (b * 255.0).Floor as bv8
    ensures ByteOf(MatrixRgb(Channel(b), Channel(r), Channel(g)), 0) == 0
  {
    FloorIsScale(b);
    FloorIsScale(r);
    FloorIsScale(g);
  }

  lemma FloorIsScale(x: real)
    requires 0.0 <= x <= 1.0
    ensures Convertible(x) && 0 <= (x * 255.0).Floor < 256 && Scale(x) == (x * 255.0).Floor
  {
  }

  predicate AllConvertible(d: seq<real>) {
    forall i :: 0 <= i < |d| ==> Convertible(d[i])
  }

  /** A pixel value multiplied by each of the three channel multipliers converts. */
  predicate TintableValue(x: real, mb: real, mr: real, mg: real) {
    Convertible(x * mb) && Convertible(x * mr) && Convertible(x * mg)
  }

  predicate TintConvertible(d: seq<real>, mb: real, mr: real, mg: real) {
    forall i :: 0 <= i < |d| ==> TintableValue(d[i], mb, mr, mg)
  }

  /** The input of one of the three drawing routines. */
  datatype Drawing =
    | Pattern(desenho: seq<real>)                              // desenho_pio
    | Tinted(desenho: seq<real>, mb: real, mr: real, mg: real)  // desenho_pio_rgb, with meu_pio->b, r, g
    | AllOff                                                    // desliga_tudo

  /** The routine's conversions are all defined and its pattern has one value per LED. */
  predicate Drawable(dr: Drawing) {
    match dr
    case Pattern(d) => |d| == NUM_PIXELS && AllConvertible(d)
    case Tinted(d, mb, mr, mg) => |d| == NUM_PIXELS && TintConvertible(d, mb, mr, mg)
    case AllOff => true
  }

  /**
   * The word the routine computes at loop index `i`: always zero in byte 0;
   * for desenho_pio, pattern element 24 - i in byte 1 and nothing else; for
   * desliga_tudo, zero.
   */
  function WordAt(dr: Drawing, i: nat): (w: bv32)
    requires Drawable(dr) && i < NUM_PIXELS
    ensures ByteOf(w, 0) == 0
    ensures dr.Pattern? ==> ByteOf(w, 1) == Channel(dr.desenho[24 - i]) && w & 0xFFFF_00FF == 0
    ensures dr.AllOff? ==> w == 0
  {
    match dr
    case Pattern(d) => MatrixRgb(Channel(d[24 - i]), Channel(0.0), Channel(0.0))
    case Tinted(d, mb, mr, mg) => TintedWord(d, mb, mr, mg, i)
    case AllOff => MatrixRgb(Channel(0.0), Channel(0.0), Channel(0.0))
  }

  /**
   * The word desenho_pio_rgb computes at loop index `i`: pattern element
   * 24 - i times the g, r and b multipliers in bytes 3, 2 and 1.
   */
  function TintedWord(d: seq<real>, mb: real, mr: real, mg: real, i: nat): (w: bv32)
    requires |d| == NUM_PIXELS && TintConvertible(d, mb, mr, mg) && i < NUM_PIXELS
    ensures ByteOf(w, 3) == Channel(d[24 - i] * mg) && ByteOf(w, 2) == Channel(d[24 - i] * mr)
    ensures ByteOf(w, 1) == Channel(d[24 - i] * mb) && ByteOf(w, 0) == 0
  {
    MatrixRgb(Channel(d[24 - i] * mb), Channel(d[24 - i] * mr), Channel(d[24 - i] * mg))
  }

  /** The words sent by the routine's first `n` iterations, oldest first. */
  function Emitted(dr: Drawing, n: nat): (ws: seq<bv32>)
    requires Drawable(dr) && n <= NUM_PIXELS
    ensures |ws| == n
  {
    if n == 0 then [] else Emitted(dr, n - 1) + [WordAt(dr, n - 1)]
  }

  /** Everything the routine sends: one word per LED. */
  function Frame(dr: Drawing): (ws: seq<bv32>)
    requires Drawable(dr)
    ensures |ws| == NUM_PIXELS
  {
    Emitted(dr, NUM_PIXELS)
  }

  lemma {:induction false} EmittedAt(dr: Drawing, n: nat, k: nat)
    requires Drawable(dr) && k < n <= NUM_PIXELS
    ensures Emitted(dr, n)[k] == WordAt(dr, k)
  {
    if k < n - 1 {
      EmittedAt(dr, n - 1, k);
    }
  }

  /** Each routine sends exactly NUM_PIXELS words, the k-th computed at loop index k. */
  lemma FrameAt(dr: Drawing)
    requires Drawable(dr)
    ensures |Frame(dr)| == NUM_PIXELS
    ensures forall k :: 0 <= k < NUM_PIXELS ==> Frame(dr)[k] == WordAt(dr, k)
  {
    forall k | 0 <= k < NUM_PIXELS
      ensures Frame(dr)[k] == WordAt(dr, k)
    {
      EmittedAt(dr, NUM_PIXELS, k);
    }
  }

  /** A word with only its `b` byte set has bits 31-16 and 7-0 clear. */
  lemma OnlyBlueByte(b: bv8)
    ensures MatrixRgb(b, 0, 0) & 0xFFFF_00FF == 0
  {
  }

  /** A sequence of channel bytes read back to front: its last element comes first. */
  function BackToFront(s: seq<bv8>): (r: seq<bv8>)
    ensures |r| == |s|
  {
    if s == [] then [] else [s[|s| - 1]] + BackToFront(s[..|s| - 1])
  }

  /** Position k of `BackToFront(s)` holds position |s| - 1 - k of `s`. */
  lemma {:induction false} BackToFrontAt(s: seq<bv8>, k: nat)
    requires k < |s|
    ensures BackToFront(s)[k] == s[|s| - 1 - k]
  {
    var init := s[..|s| - 1];
    if k > 0 {
      BackToFrontAt(init, k - 1);
      assert BackToFront(s)[k] == BackToFront(init)[k - 1];
      assert init[|init| - 1 - (k - 1)] == s[|s| - 1 - k];
    }
  }

  /** The channel bytes of a pattern, in pattern order. */
  function ScaledPattern(d: seq<real>): (c: seq<bv8>)
    requires AllConvertible(d)
  {
    seq(|d|, i requires 0 <= i < |d| => Channel(d[i]))
  }

  /**
   * desenho_pio sends exactly NUM_PIXELS words; the word sent at position k
   * carries pattern element 24 - k in bits 15-8 (the `b` parameter of
   * matrix_rgb) and nothing else: bits 31-16 and 7-0 are zero.
   */
  lemma PatternFrameLayout(d: seq<real>)
    requires |d| == NUM_PIXELS && AllConvertible(d)
    ensures |Frame(Pattern(d))| == NUM_PIXELS
    ensures forall k :: 0 <= k < NUM_PIXELS ==>
      Frame(Pattern(d))[k] == MatrixRgb(Channel(d[24 - k]), 0, 0) &&
      Frame(Pattern(d))[k] & 0xFFFF_00FF == 0 &&
      ByteOf(Frame(Pattern(d))[k], 1) == Channel(d[24 - k])
  {
    FrameAt(Pattern(d));
    assert Channel(0.0) == 0;
    forall k | 0 <= k < NUM_PIXELS
      ensures Frame(Pattern(d))[k] & 0xFFFF_00FF == 0
      ensures ByteOf(Frame(Pattern(d))[k], 1) == Channel(d[24 - k])
    {
      OnlyBlueByte(Channel(d[24 - k]));
    }
  }

  /**
   * Byte 1 of the words desenho_pio sends, in sending order, is the scaled
   * pattern back to front: the matrix receives the pattern in reverse index
   * order.
   */
  lemma PatternFrameIsReversedPattern(d: seq<real>)
    requires |d| == NUM_PIXELS && AllConvertible(d)
    ensures seq(NUM_PIXELS, k requires 0 <= k < NUM_PIXELS => ByteOf(Frame(Pattern(d))[k], 1))
            == BackToFront(ScaledPattern(d))
  {
    PatternFrameLayout(d);
    var lhs := seq(NUM_PIXELS, k requires 0 <= k < NUM_PIXELS => ByteOf(Frame(Pattern(d))[k], 1));
    var sp := ScaledPattern(d);
    forall k | 0 <= k < NUM_PIXELS
      ensures lhs[k] == BackToFront(sp)[k]
    {
      BackToFrontAt(sp, k);
    }
  }

  /**
   * desenho_pio_rgb sends its words in the same order as desenho_pio: with
   * multipliers b = 1, r = 0 and g = 0 the two frames are identical.
   */
  lemma TintedFrameGeneralizesPatternFrame(d: seq<real>)
    requires |d| == NUM_PIXELS && AllConvertible(d)
    ensures Drawable(Tinted(d, 1.0, 0.0, 0.0))
    ensures Frame(Tinted(d, 1.0, 0.0, 0.0)) == Frame(Pattern(d))
  {
    assert Drawable(Tinted(d, 1.0, 0.0, 0.0)) by {
      forall i | 0 <= i < |d|
        ensures d[i] * 1.0 == d[i] && d[i] * 0.0 == 0.0
      {
      }
    }
    FrameAt(Tinted(d, 1.0, 0.0, 0.0));
    FrameAt(Pattern(d));
    forall k | 0 <= k < NUM_PIXELS
      ensures WordAt(Tinted(d, 1.0, 0.0, 0.0), k) == WordAt(Pattern(d), k)
    {
      assert d[24 - k] * 1.0 == d[24 - k];
      assert d[24 - k] * 0.0 == 0.0;
    }
  }

  /**
   * desenho_pio_rgb sends exactly NUM_PIXELS words; word k is pattern
   * element 24 - k times each multiplier, packed G | R | B | 0.
   */
  lemma TintedFrameLayout(d: seq<real>, mb: real, mr: real, mg: real)
    requires |d| == NUM_PIXELS && TintConvertible(d, mb, mr, mg)
    ensures |Frame(Tinted(d, mb, mr, mg))| == NUM_PIXELS
    ensures forall k :: 0 <= k < NUM_PIXELS ==>
      ByteOf(Frame(Tinted(d, mb, mr, mg))[k], 3) == Channel(d[24 - k] * mg) &&
      ByteOf(Frame(Tinted(d, mb, mr, mg))[k], 2) == Channel(d[24 - k] * mr) &&
      ByteOf(Frame(Tinted(d, mb, mr, mg))[k], 1) == Channel(d[24 - k] * mb) &&
      ByteOf(Frame(Tinted(d, mb, mr, mg))[k], 0) == 0
  {
    FrameAt(Tinted(d, mb, mr, mg));
    forall k | 0 <= k < NUM_PIXELS
      ensures ByteOf(Frame(Tinted(d, mb, mr, mg))[k], 3) == Channel(d[24 - k] * mg)
      ensures ByteOf(Frame(Tinted(d, mb, mr, mg))[k], 2) == Channel(d[24 - k] * mr)
      ensures ByteOf(Frame(Tinted(d, mb, mr, mg))[k], 1) == Channel(d[24 - k] * mb)
      ensures ByteOf(Frame(Tinted(d, mb, mr, mg))[k], 0) == 0
    {
    }
  }

  /** desliga_tudo sends NUM_PIXELS zero words: what desenho_pio sends for an all-dark pattern. */
  lemma OffFrameIsDark()
    ensures |Frame(AllOff)| == NUM_PIXELS
    ensures forall k :: 0 <= k < NUM_PIXELS ==> Frame(AllOff)[k] == 0
    ensures Frame(AllOff) == Frame(Pattern(seq(NUM_PIXELS, _ => 0.0)))
  {
    var dark := seq(NUM_PIXELS, _ => 0.0);
    FrameAt(AllOff);
    FrameAt(Pattern(dark));
    assert Channel(0.0) == 0;
    assert MatrixRgb(0, 0, 0) == 0;
  }

  /**
   * imprimir_binario (matriz_led_control.c:21-27): the 32 characters the
   * source prints for `num`, most significant bit first. The `int`
   * argument is taken as its 32-bit pattern.
   */
  method ImprimirBinario(num: bv32) returns (s: string)
    ensures |s| == 32
    ensures forall k :: 0 <= k < 32 ==> (s[k] == '1' || s[k] == '0')
    ensures forall k :: 0 <= k < 32 ==> (s[k] == '1' <==> BitSet(num, 31 - k))
  {
    s := "";
    var i := 31;
    while i >= 0
      invariant -1 <= i <= 31
      invariant |s| == 31 - i
      invariant forall k :: 0 <= k < |s| ==> s[k] == BitChar(num, 31 - k)
    {
      s := s + [BitChar(num, i)];
      i := i - 1;
    }
  }

  /**
   * The `pio_t` handle `meu_pio` (bitdoglab-serial-peripherals.c:62-70) with
   * its three colour multipliers; the header declaring `pio_t` is not part of
   * this model. `sent` is every word pio_sm_put_blocking has handed to the
   * state machine's transmit FIFO, oldest first.
   */
  class Pio {
    var r: real
    var g: real
    var b: real
    var sent: seq<bv32>

    /** The handle as the firmware declares it: all multipliers 0.0, nothing sent yet. */
    constructor ()
      ensures r == 0.0 && g == 0.0 && b == 0.0 && sent == []
    {
      r, g, b := 0.0, 0.0, 0.0;
      sent := [];
    }

    /** pio_sm_put_blocking: the word joins the end of the output. */
    method Put(word: bv32)
      modifies this`sent
      ensures sent == old(sent) + [word]
    {
      sent := sent + [word];
    }

    /** desenho_pio (matriz_led_control.c:39-49). */
    method DesenhoPio(desenho: seq<real>)
      requires |desenho| == NUM_PIXELS && AllConvertible(desenho)
      modifies this`sent
      ensures sent == old(sent) + Frame(Pattern(desenho))
    {
      var i := 0;
      while i < NUM_PIXELS
        invariant 0 <= i <= NUM_PIXELS
        invariant sent == old(sent) + Emitted(Pattern(desenho), i)
      {
        var valorLed := MatrixRgb(Channel(desenho[24 - i]), Channel(0.0), Channel(0.0));
        Put(valorLed);
        i := i + 1;
      }
    }

    /** desenho_pio_rgb (matriz_led_control.c:52-62). */
    method DesenhoPioRgb(desenho: seq<real>)
      requires |desenho| == NUM_PIXELS && TintConvertible(desenho, b, r, g)
      modifies this`sent
      ensures sent == old(sent) + Frame(Tinted(desenho, b, r, g))
    {
      var i := 0;
      while i < NUM_PIXELS
        invariant 0 <= i <= NUM_PIXELS
        invariant sent == old(sent) + Emitted(Tinted(desenho, b, r, g), i)
      {
        var valorLed := TintedWord(desenho, b, r, g, i);
        Put(valorLed);
        i := i + 1;
      }
    }

    /** desliga_tudo (matriz_led_control.c:65-75). */
    method DesligaTudo()
      modifies this`sent
      ensures sent == old(sent) + Frame(AllOff)
    {
      var i := 0;
      while i < NUM_PIXELS
        invariant 0 <= i <= NUM_PIXELS
        invariant sent == old(sent) + Emitted(AllOff, i)
      {
        var valorLed := MatrixRgb(Channel(0.0), Channel(0.0), Channel(0.0));
        Put(valorLed);
        i := i + 1;
      }
    }
  }
}
