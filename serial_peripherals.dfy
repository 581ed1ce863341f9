/**
 * The firmware of bitdoglab-serial-peripherals.c: the button interrupt
 * handler with its 300 ms debounce, one pass of the polling main loop, the
 * display refresh and the digit-to-pattern dispatch of the LED matrix.
 *
 * The globals of the program are the fields of `Firmware`; `Globals` is
 * a value snapshot of them on which the behaviour is specified.
 */
module SerialPeripherals {
  import opened MatrizLed
  import opened DisplayText

  const BUTTON_A: nat := 5
  const BUTTON_B: nat := 6
  const LED_G_PIN: nat := 11
  const LED_B_PIN: nat := 12
  /** 300 ms in microseconds. */
  const DEBOUNCE_TIME: int := 300000
  const TWO_32: int := 0x1_0000_0000

  /** A `uint32_t`. */
  type U32 = n: int | 0 <= n < TWO_32

  datatype Option<T> = None | Some(value: T)

  /** The program's globals, lines 52-75: `numero_atual` ... `uart_char`. */
  datatype Globals = Globals(
    numeroAtual: int,
    lastTimeA: U32,
    lastTimeB: U32,
    ledVerde: bool,
    ledAzul: bool,
    flagDisplay: bool,
    flagMatriz: bool,
    uartChar: Char8)

  /** The initial values of the globals. */
  const Boot: Globals := Globals(0, 0, 0, false, false, false, false, 0)

  /** `uint32_t current_time = to_us_since_boot(...)`: the low 32 bits of the microsecond clock. */
  function Truncate32(us: int): (t: U32)
    ensures (us - t) % TWO_32 == 0
    ensures 0 <= us < TWO_32 ==> t == us
  {
    us % TWO_32
  }

  /** `a - b` on `uint32_t`: wraps around modulo 2^32. */
  function Sub32(a: U32, b: U32): (d: U32)
    ensures Truncate32(b + d) == a
    ensures a >= b ==> d == a - b
  {
    (a - b) % TWO_32
  }

  /** The debounce test: `current_time - last > DEBOUNCE_TIME` in unsigned 32-bit arithmetic. */
  predicate Accepts(now: U32, last: U32)
    ensures now >= last ==> (Accepts(now, last) <==> now - last > DEBOUNCE_TIME)
    ensures now < last ==> (Accepts(now, last) <==> TWO_32 - last + now > DEBOUNCE_TIME)
  {
    Sub32(now, last) > DEBOUNCE_TIME
  }

  /** gpio_irq_handler on the globals (lines 145-162). */
  function Isr(g: Globals, gpio: nat, now: U32): (h: Globals)
    ensures h.numeroAtual == g.numeroAtual && h.uartChar == g.uartChar && h.flagMatriz == g.flagMatriz
    ensures h != g ==> h.flagDisplay
  {
    if gpio == BUTTON_A && Accepts(now, g.lastTimeA) then
      g.(lastTimeA := now, ledVerde := !g.ledVerde, flagDisplay := true)
    else if gpio == BUTTON_B && Accepts(now, g.lastTimeB) then
      g.(lastTimeB := now, ledAzul := !g.ledAzul, flagDisplay := true)
    else
      g
  }

  /** Lines 218-226: what `getchar_timeout_us` returned; `None` is a timeout or EOF. */
  function Receive(g: Globals, input: Option<Char8>): (r: Globals)
    ensures r.lastTimeA == g.lastTimeA && r.lastTimeB == g.lastTimeB
    ensures r.ledVerde == g.ledVerde && r.ledAzul == g.ledAzul
    ensures input.Some? ==> r.uartChar == input.value && r.flagDisplay
    ensures input.Some? && IsDigit(input.value) ==> r.flagMatriz && 0 <= r.numeroAtual <= 9
    ensures input.None? ==> r == g
  {
    match input
    case None => g
    case Some(c) =>
      if IsDigit(c) then
        g.(uartChar := c, flagDisplay := true, numeroAtual := c - '0' as int, flagMatriz := true)
      else
        g.(uartChar := c, flagDisplay := true)
  }

  /** Lines 227-231: the display branch of the loop. */
  function DrainDisplay(g: Globals): (r: Globals)
    ensures !r.flagDisplay
    ensures g.flagDisplay ==> r.uartChar == 0
    ensures r.numeroAtual == g.numeroAtual && r.flagMatriz == g.flagMatriz
    ensures !g.flagDisplay ==> r == g
  {
    if g.flagDisplay then g.(flagDisplay := false, uartChar := 0) else g
  }

  /** Lines 232-235: the matrix branch of the loop. */
  function DrainMatriz(g: Globals): (r: Globals)
    ensures !r.flagMatriz
    ensures r.numeroAtual == g.numeroAtual && r.flagDisplay == g.flagDisplay && r.uartChar == g.uartChar
  {
    g.(flagMatriz := false)
  }

  /** One pass of the main loop (lines 218-236). */
  function LoopStep(g: Globals, input: Option<Char8>): (r: Globals)
    ensures r.lastTimeA == g.lastTimeA && r.lastTimeB == g.lastTimeB
    ensures r.ledVerde == g.ledVerde && r.ledAzul == g.ledAzul
    ensures !r.flagDisplay && !r.flagMatriz
  {
    DrainMatriz(DrainDisplay(Receive(g, input)))
  }

  /** A call of processa_display or atualizar_matriz_led, with the globals it reads. */
  datatype Refresh = DisplayRefresh(seen: Globals) | MatrixRefresh(seen: Globals)

  /** The display refresh lines 227-231 perform from the globals `r`. */
  function DisplayRefreshes(r: Globals): seq<Refresh> {
    if r.flagDisplay then [DisplayRefresh(r.(flagDisplay := false))] else []
  }

  /** The matrix refresh lines 232-235 perform from the globals `d`. */
  function MatrixRefreshes(d: Globals): seq<Refresh> {
    if d.flagMatriz then [MatrixRefresh(d.(flagMatriz := false))] else []
  }

  /** The refreshes one pass of the loop performs, in order. */
  function LoopRefreshes(g: Globals, input: Option<Char8>): seq<Refresh> {
    var r := Receive(g, input);
    DisplayRefreshes(r) + MatrixRefreshes(DrainDisplay(r))
  }

  lemma ScreensOfOne(r: Refresh)
    ensures ScreensOf([r]) == if r.DisplayRefresh? then [DisplayScreen(r.seen)] else []
  {
    assert [r][1..] == [];
  }

  lemma WordsOfOne(numeros: seq<seq<real>>, r: Refresh)
    requires PatternTable(numeros)
    ensures WordsOf(numeros, [r]) == if r.MatrixRefresh? then MatrixFrame(numeros, r.seen.numeroAtual) else []
  {
    assert [r][1..] == [];
  }

  /** The display branch sends nothing to the matrix and the matrix branch nothing to the panel. */
  lemma NoCrossOutput(numeros: seq<seq<real>>, r: Globals)
    requires PatternTable(numeros)
    ensures WordsOf(numeros, DisplayRefreshes(r)) == []
    ensures ScreensOf(MatrixRefreshes(DrainDisplay(r))) == []
  {
    if r.flagDisplay {
      WordsOfOne(numeros, DisplayRefreshes(r)[0]);
    }
    if DrainDisplay(r).flagMatriz {
      ScreensOfOne(MatrixRefreshes(DrainDisplay(r))[0]);
    }
  }

  /** The panel image processa_display sends for the globals `s`. */
  function DisplayScreen(s: Globals): seq<TextLine> {
    Screen(s.uartChar, s.numeroAtual, s.ledVerde, s.ledAzul)
  }

  /** The ten digit patterns `numero0` ... `numero9`: 25 intensities each. */
  predicate PatternTable(numeros: seq<seq<real>>) {
    |numeros| == 10 &&
    forall n :: 0 <= n < 10 ==> |numeros[n]| == NUM_PIXELS && AllConvertible(numeros[n])
  }

  /** The words atualizar_matriz_led pushes for `numero` (lines 87-99): nothing in the default case. */
  function MatrixFrame(numeros: seq<seq<real>>, n: int): (ws: seq<bv32>)
    requires PatternTable(numeros)
    ensures 0 <= n <= 9 ==> |ws| == NUM_PIXELS
    ensures !(0 <= n <= 9) ==> ws == []
  {
    if 0 <= n <= 9 then Frame(Pattern(numeros[n])) else []
  }

  /** The panel images a log of refreshes sends. */
  function ScreensOf(rs: seq<Refresh>): seq<seq<TextLine>> {
    if rs == [] then []
    else (if rs[0].DisplayRefresh? then [DisplayScreen(rs[0].seen)] else []) + ScreensOf(rs[1..])
  }

  /** The words a log of refreshes pushes to the matrix. */
  function WordsOf(numeros: seq<seq<real>>, rs: seq<Refresh>): seq<bv32>
    requires PatternTable(numeros)
  {
    if rs == [] then []
    else
      (if rs[0].MatrixRefresh? then MatrixFrame(numeros, rs[0].seen.numeroAtual) else [])
      + WordsOf(numeros, rs[1..])
  }

  lemma {:induction false} ScreensOfAppend(a: seq<Refresh>, b: seq<Refresh>)
    ensures ScreensOf(a + b) == ScreensOf(a) + ScreensOf(b)
  {
    if a != [] {
      assert (a + b)[0] == a[0];
      assert (a + b)[1..] == a[1..] + b;
      ScreensOfAppend(a[1..], b);
    } else {
      assert a + b == b;
    }
  }

  lemma {:induction false} WordsOfAppend(numeros: seq<seq<real>>, a: seq<Refresh>, b: seq<Refresh>)
    requires PatternTable(numeros)
    ensures WordsOf(numeros, a + b) == WordsOf(numeros, a) + WordsOf(numeros, b)
  {
    if a != [] {
      assert (a + b)[0] == a[0];
      assert (a + b)[1..] == a[1..] + b;
      WordsOfAppend(numeros, a[1..], b);
    } else {
      assert a + b == b;
    }
  }

  /**
   * What holds between two passes of the loop and between two interrupts:
   * the digit is in range, a pending character always has a display refresh
   * pending, a pending digit agrees with `numero_atual`, and no matrix
   * refresh is pending.
   */
  predicate Invariant(g: Globals) {
    0 <= g.numeroAtual <= 9
    && (g.uartChar != 0 ==> g.flagDisplay)
    && (IsDigit(g.uartChar) ==> g.numeroAtual == g.uartChar - '0' as int)
    && !g.flagMatriz
  }

  // ---------------------------------------------------------------------
  // The debounce
  // ---------------------------------------------------------------------

  /**
   * Two presses at `t0` and `t1` microseconds since boot, less than 2^32 us
   * (about 71 minutes) apart, are compared on their true distance, also when
   * the 32-bit clock wraps between them.
   */
  lemma DebounceAcrossWrap(t0: nat, t1: nat)
    requires t0 <= t1 < t0 + TWO_32
    ensures Accepts(Truncate32(t1), Truncate32(t0)) <==> t1 - t0 > DEBOUNCE_TIME
  {
    var q0, q1 := t0 / TWO_32, t1 / TWO_32;
    assert t0 == q0 * TWO_32 + Truncate32(t0);
    assert t1 == q1 * TWO_32 + Truncate32(t1);
    if q1 == q0 {
      assert Truncate32(t1) - Truncate32(t0) == t1 - t0;
    } else {
      assert q1 == q0 + 1;
      assert Truncate32(t1) - Truncate32(t0) == t1 - t0 - TWO_32;
    }
  }

  /**
   * A press of button A that passes the debounce test stamps the time,
   * toggles the green LED and raises the display flag; one that fails it
   * changes nothing. Button B's timestamp and LED, the digit, the pending
   * character and the matrix flag never change.
   */
  lemma IsrButtonA(g: Globals, now: U32)
    ensures var h := Isr(g, BUTTON_A, now);
      (h != g <==> Accepts(now, g.lastTimeA))
      && (Accepts(now, g.lastTimeA) ==> h.lastTimeA == now && h.ledVerde == !g.ledVerde && h.flagDisplay)
      && h.lastTimeB == g.lastTimeB && h.ledAzul == g.ledAzul
      && h.numeroAtual == g.numeroAtual && h.uartChar == g.uartChar && h.flagMatriz == g.flagMatriz
  {
  }

  /** The same for button B, the blue LED and its own timestamp. */
  lemma IsrButtonB(g: Globals, now: U32)
    ensures var h := Isr(g, BUTTON_B, now);
      (h != g <==> Accepts(now, g.lastTimeB))
      && (Accepts(now, g.lastTimeB) ==> h.lastTimeB == now && h.ledAzul == !g.ledAzul && h.flagDisplay)
      && h.lastTimeA == g.lastTimeA && h.ledVerde == g.ledVerde
      && h.numeroAtual == g.numeroAtual && h.uartChar == g.uartChar && h.flagMatriz == g.flagMatriz
  {
  }

  /** An interrupt from any other pin changes nothing. */
  lemma IsrOtherPin(g: Globals, gpio: nat, now: U32)
    requires gpio != BUTTON_A && gpio != BUTTON_B
    ensures Isr(g, gpio, now) == g
  {
  }

  /**
   * After a press of A accepted at `t0` us since boot, a press 300 ms or less
   * later is ignored and one 300.001 ms later toggles the green LED, also
   * when the clock wraps in between.
   */
  lemma DebounceBoundary(g: Globals, t0: nat)
    requires g.lastTimeA == Truncate32(t0)
    ensures Isr(g, BUTTON_A, Truncate32(t0 + 299999)) == g
    ensures Isr(g, BUTTON_A, Truncate32(t0 + 300000)) == g
    ensures var h := Isr(g, BUTTON_A, Truncate32(t0 + 300001));
      h.ledVerde == !g.ledVerde && h.lastTimeA == Truncate32(t0 + 300001) && h.flagDisplay
  {
    DebounceAcrossWrap(t0, t0 + 299999);
    DebounceAcrossWrap(t0, t0 + 300000);
    DebounceAcrossWrap(t0, t0 + 300001);
  }

  /**
   * With more than 2^32 us between two presses the wrapped clock makes the
   * second look early: a press 2^32 + 100 us after the last one is ignored.
   */
  lemma LongGapLooksEarly(g: Globals, t0: nat)
    requires g.lastTimeA == Truncate32(t0)
    ensures Isr(g, BUTTON_A, Truncate32(t0 + TWO_32 + 100)) == g
  {
    assert Truncate32(t0 + TWO_32 + 100) == Truncate32(t0 + 100);
    DebounceAcrossWrap(t0, t0 + 100);
  }

  // ---------------------------------------------------------------------
  // The main loop
  // ---------------------------------------------------------------------

  lemma BootInvariant()
    ensures Invariant(Boot)
  {
  }

  lemma IsrPreservesInvariant(g: Globals, gpio: nat, now: U32)
    requires Invariant(g)
    ensures Invariant(Isr(g, gpio, now))
  {
  }

  /**
   * A pass of the loop that starts with no unannounced character ends with
   * both flags down and no pending character, whatever it received.
   */
  lemma LoopStepQuiesces(g: Globals, input: Option<Char8>)
    requires g.uartChar != 0 ==> g.flagDisplay
    ensures !LoopStep(g, input).flagDisplay && !LoopStep(g, input).flagMatriz
    ensures LoopStep(g, input).uartChar == 0
  {
  }

  lemma LoopStepPreservesInvariant(g: Globals, input: Option<Char8>)
    requires Invariant(g)
    ensures Invariant(LoopStep(g, input))
  {
    LoopStepQuiesces(g, input);
  }

  /**
   * A pass refreshes the display at most once and the matrix at most once,
   * the display first; each refresh runs with its flag already lowered. From
   * a state satisfying the invariant, every matrix refresh sees a digit in
   * 0..9, so the default branch of the dispatch is never taken, and every
   * display refresh shows "Matriz: " and the current digit.
   */
  lemma LoopRefreshesOrdered(g: Globals, input: Option<Char8>)
    ensures |LoopRefreshes(g, input)| <= 2
    ensures forall i, j :: 0 <= i < j < |LoopRefreshes(g, input)| ==>
      LoopRefreshes(g, input)[i].DisplayRefresh? && LoopRefreshes(g, input)[j].MatrixRefresh?
    ensures forall r :: r in LoopRefreshes(g, input) && r.DisplayRefresh? ==> !r.seen.flagDisplay
    ensures forall r :: r in LoopRefreshes(g, input) && r.MatrixRefresh? ==> !r.seen.flagMatriz
    ensures Invariant(g) ==> forall r :: r in LoopRefreshes(g, input) && r.MatrixRefresh? ==>
      0 <= r.seen.numeroAtual <= 9
    ensures Invariant(g) ==> forall r :: r in LoopRefreshes(g, input) && r.DisplayRefresh? ==>
      0 <= r.seen.numeroAtual <= 9 &&
      DisplayScreen(r.seen)[1].text == "Matriz: " + Decimal(r.seen.numeroAtual)
  {
    var s := Receive(g, input);
    if Invariant(g) && s.flagDisplay {
      MatrizTextAgrees(s.uartChar, s.numeroAtual);
    }
  }

  /**
   * With the digit in range every line processa_display writes fits its
   * 50-byte buffer with room for the terminating NUL, so snprintf never
   * truncates.
   */
  lemma DisplayLinesFit(s: Globals)
    requires 0 <= s.numeroAtual <= 9
    ensures forall i :: 0 <= i < |DisplayScreen(s)| ==> |DisplayScreen(s)[i].text| < 50
  {
    assert |Decimal(s.numeroAtual)| == 1;
  }

  /**
   * Receiving a digit character: the display shows it on both lines, then
   * the matrix draws that digit's pattern, and nothing else is sent.
   */
  lemma DigitKeystroke(numeros: seq<seq<real>>, g: Globals, c: Char8)
    requires PatternTable(numeros)
    requires IsDigit(c)
    ensures var s := g.(numeroAtual := c - '0' as int, uartChar := c, flagDisplay := false, flagMatriz := true);
      LoopRefreshes(g, Some(c)) == [DisplayRefresh(s), MatrixRefresh(s.(uartChar := 0, flagMatriz := false))]
      && ScreensOf(LoopRefreshes(g, Some(c))) == [DisplayScreen(s)]
      && DisplayScreen(s)[0].text == "Serial: " + [CharOf(c)]
      && DisplayScreen(s)[1].text == "Matriz: " + [CharOf(c)]
      && WordsOf(numeros, LoopRefreshes(g, Some(c))) == Frame(Pattern(numeros[c - '0' as int]))
      && LoopStep(g, Some(c)).numeroAtual == c - '0' as int
  {
    var r := Receive(g, Some(c));
    var dr, mr := DisplayRefreshes(r), MatrixRefreshes(DrainDisplay(r));
    NoCrossOutput(numeros, r);
    ScreensOfOne(dr[0]);
    WordsOfOne(numeros, mr[0]);
    ScreensOfAppend(dr, mr);
    WordsOfAppend(numeros, dr, mr);
  }

  /** Sending '7' shows "Matriz: 7" and draws pattern 7. */
  lemma SevenKeystroke(numeros: seq<seq<real>>, g: Globals)
    requires PatternTable(numeros)
    ensures ScreensOf(LoopRefreshes(g, Some('7' as int)))[0][0].text == "Serial: 7"
    ensures ScreensOf(LoopRefreshes(g, Some('7' as int)))[0][1].text == "Matriz: 7"
    ensures WordsOf(numeros, LoopRefreshes(g, Some('7' as int))) == Frame(Pattern(numeros[7]))
  {
    DigitKeystroke(numeros, g, '7' as int);
  }

  /**
   * Receiving any other character: the display shows it and the unchanged
   * digit, and the matrix is not touched.
   */
  lemma OtherKeystroke(numeros: seq<seq<real>>, g: Globals, c: Char8)
    requires PatternTable(numeros)
    requires Invariant(g)
    requires !IsDigit(c)
    ensures var rs := LoopRefreshes(g, Some(c));
      |rs| == 1 && rs[0].DisplayRefresh?
      && DisplayScreen(rs[0].seen)[1].text == "Matriz: " + Decimal(g.numeroAtual)
      && (c != 0 ==> DisplayScreen(rs[0].seen)[0].text == "Serial: " + [CharOf(c)])
      && (c == 0 ==> DisplayScreen(rs[0].seen)[0].text == "Serial: -")
      && WordsOf(numeros, rs) == []
      && LoopStep(g, Some(c)).numeroAtual == g.numeroAtual
  {
    var rs := LoopRefreshes(g, Some(c));
    assert rs == [rs[0]];
    WordsOfOne(numeros, rs[0]);
  }

  /**
   * A pass with no input refreshes the display only if the flag is up, then
   * shows the globals as they are ("Serial: -" after a button press), and
   * never touches the matrix.
   */
  lemma IdlePass(numeros: seq<seq<real>>, g: Globals)
    requires PatternTable(numeros)
    requires Invariant(g)
    ensures var rs := LoopRefreshes(g, None);
      (g.flagDisplay ==> |rs| == 1 && DisplayScreen(rs[0].seen) == DisplayScreen(g))
      && (g.flagDisplay && g.uartChar == 0 ==> DisplayScreen(rs[0].seen)[0].text == "Serial: -")
      && (!g.flagDisplay ==> rs == [])
      && WordsOf(numeros, rs) == []
      && LoopStep(g, None) == g.(flagDisplay := false, uartChar := 0)
  {
    var rs := LoopRefreshes(g, None);
    if g.flagDisplay {
      assert rs == [rs[0]];
      WordsOfOne(numeros, rs[0]);
    }
  }

  /** Every pattern the dispatch can draw is a full frame of 25 words. */
  lemma MatrixFrameComplete(numeros: seq<seq<real>>, n: int)
    requires PatternTable(numeros)
    ensures 0 <= n <= 9 ==> |MatrixFrame(numeros, n)| == NUM_PIXELS
    ensures 0 <= n <= 9 ==> forall k :: 0 <= k < NUM_PIXELS ==>
      MatrixFrame(numeros, n)[k] == MatrixRgb(Channel(numeros[n][24 - k]), 0, 0)
    ensures !(0 <= n <= 9) ==> MatrixFrame(numeros, n) == []
  {
    if 0 <= n <= 9 {
      PatternFrameLayout(numeros[n]);
    }
  }

  // ---------------------------------------------------------------------
  // The firmware's state
  // ---------------------------------------------------------------------

  class Firmware {
    var numeroAtual: int
    var lastTimeA: U32
    var lastTimeB: U32
    var ledVerde: bool
    var ledAzul: bool
    var flagDisplay: bool
    var flagMatriz: bool
    var uartChar: Char8
    /** The level last written to each output pin with gpio_put. */
    var pins: map<nat, bool>
    /** Every image sent to the panel with ssd1306_send_data, in order. */
    var screens: seq<seq<TextLine>>
    /** Every refresh so far, with the globals it saw. */
    ghost var refreshes: seq<Refresh>
    /** `meu_pio`: the state machine driving the WS2812 matrix. */
    const pio: Pio
    const numeros: seq<seq<real>>

    function Snapshot(): Globals
      reads this
    {
      Globals(numeroAtual, lastTimeA, lastTimeB, ledVerde, ledAzul, flagDisplay, flagMatriz, uartChar)
    }

    predicate Valid()
      reads this
    {
      Invariant(Snapshot()) && PatternTable(numeros)
      && LED_G_PIN in pins && pins[LED_G_PIN] == ledVerde
      && LED_B_PIN in pins && pins[LED_B_PIN] == ledAzul
    }

    /**
     * The globals at their initial values, then main's start-up: the matrix
     * shows pattern 0 (line 175) and the LED pins are set up as outputs,
     * which leaves them low (lines 178-181).
     */
    constructor (pio: Pio, numeros: seq<seq<real>>)
      requires PatternTable(numeros)
      modifies pio`sent
      ensures Valid() && Snapshot() == Boot
      ensures this.pio == pio && this.numeros == numeros
      ensures pins == map[LED_G_PIN := false, LED_B_PIN := false]
      ensures screens == []
      ensures refreshes == [MatrixRefresh(Boot)]
      ensures pio.sent == old(pio.sent) + Frame(Pattern(numeros[0]))
    {
      this.pio := pio;
      this.numeros := numeros;
      numeroAtual := 0;
      lastTimeA := 0;
      lastTimeB := 0;
      ledVerde := false;
      ledAzul := false;
      flagDisplay := false;
      flagMatriz := false;
      uartChar := 0;
      screens := [];
      refreshes := [];
      pins := map[];
      new;
      AtualizarMatrizLed();
      pins := pins[LED_G_PIN := false];
      pins := pins[LED_B_PIN := false];
    }

    /** atualizar_matriz_led (lines 85-100). */
    method AtualizarMatrizLed()
      requires PatternTable(numeros)
      modifies pio`sent, this`refreshes
      ensures pio.sent == old(pio.sent) + MatrixFrame(numeros, numeroAtual)
      ensures refreshes == old(refreshes) + [MatrixRefresh(Snapshot())]
    {
      refreshes := refreshes + [MatrixRefresh(Snapshot())];
      match numeroAtual {
        case 0 => pio.DesenhoPio(numeros[0]);
        case 1 => pio.DesenhoPio(numeros[1]);
        case 2 => pio.DesenhoPio(numeros[2]);
        case 3 => pio.DesenhoPio(numeros[3]);
        case 4 => pio.DesenhoPio(numeros[4]);
        case 5 => pio.DesenhoPio(numeros[5]);
        case 6 => pio.DesenhoPio(numeros[6]);
        case 7 => pio.DesenhoPio(numeros[7]);
        case 8 => pio.DesenhoPio(numeros[8]);
        case 9 => pio.DesenhoPio(numeros[9]);
        case _ =>
      }
    }

    /** processa_display (lines 110-137): one image of four lines is sent to the panel. */
    method ProcessaDisplay()
      modifies this`screens, this`refreshes
      ensures screens == old(screens) + [DisplayScreen(Snapshot())]
      ensures refreshes == old(refreshes) + [DisplayRefresh(Snapshot())]
    {
      refreshes := refreshes + [DisplayRefresh(Snapshot())];
      var frame: seq<TextLine> := [];
      var buf: string;
      if uartChar != 0 {
        buf := "Serial: " + [CharOf(uartChar)];
      } else {
        buf := "Serial: -";
      }
      assert buf == SerialText(uartChar);
      frame := frame + [TextLine(0, 0, buf)];
      if IsDigit(uartChar) {
        buf := "Matriz: " + [CharOf(uartChar)];
      } else {
        buf := "Matriz: " + Decimal(numeroAtual);
      }
      assert buf == MatrizText(uartChar, numeroAtual);
      frame := frame + [TextLine(0, 16, buf)];
      buf := "LED Verde: " + (if ledVerde then "ON" else "OFF");
      assert buf == LedText("LED Verde: ", ledVerde);
      frame := frame + [TextLine(0, 32, buf)];
      buf := "LED Azul: " + (if ledAzul then "ON" else "OFF");
      assert buf == LedText("LED Azul: ", ledAzul);
      frame := frame + [TextLine(0, 48, buf)];
      assert frame == DisplayScreen(Snapshot());
      screens := screens + [frame];
    }

    /**
     * gpio_irq_handler (lines 145-162), entered `usSinceBoot` microseconds
     * after boot.
     */
    method GpioIrqHandler(gpio: nat, usSinceBoot: nat)
      requires Valid()
      modifies this`lastTimeA, this`lastTimeB, this`ledVerde, this`ledAzul, this`pins, this`flagDisplay
      ensures Valid()
      ensures Snapshot() == Isr(old(Snapshot()), gpio, Truncate32(usSinceBoot))
      ensures pins == old(pins)[LED_G_PIN := ledVerde][LED_B_PIN := ledAzul]
    {
      var currentTime := Truncate32(usSinceBoot);
      if gpio == BUTTON_A && Sub32(currentTime, lastTimeA) > DEBOUNCE_TIME {
        lastTimeA := currentTime;
        ledVerde := !ledVerde;
        pins := pins[LED_G_PIN := ledVerde];
        flagDisplay := true;
      } else if gpio == BUTTON_B && Sub32(currentTime, lastTimeB) > DEBOUNCE_TIME {
        lastTimeB := currentTime;
        ledAzul := !ledAzul;
        pins := pins[LED_B_PIN := ledAzul];
        flagDisplay := true;
      }
      IsrPreservesInvariant(old(Snapshot()), gpio, currentTime);
    }

    /** Lines 218-226: take in what getchar_timeout_us returned. */
    method Poll(received: Option<Char8>)
      modifies this`numeroAtual, this`flagDisplay, this`flagMatriz, this`uartChar
      ensures Snapshot() == Receive(old(Snapshot()), received)
    {
      match received {
        case Some(ch) =>
          uartChar := ch;
          flagDisplay := true;
          if IsDigit(uartChar) {
            numeroAtual := uartChar - '0' as int;
            flagMatriz := true;
          }
        case None =>
      }
    }

    /** Lines 227-231: refresh the display if its flag is up, then forget the character. */
    method ServiceDisplayFlag()
      modifies this`flagDisplay, this`uartChar, this`screens, this`refreshes
      ensures Snapshot() == DrainDisplay(old(Snapshot()))
      ensures refreshes == old(refreshes) + DisplayRefreshes(old(Snapshot()))
      ensures screens == old(screens) + ScreensOf(DisplayRefreshes(old(Snapshot())))
    {
      if flagDisplay {
        flagDisplay := false;
        ProcessaDisplay();
        ScreensOfOne(DisplayRefresh(Snapshot()));
        uartChar := 0;
      }
    }

    /** Lines 232-235: redraw the matrix if its flag is up. */
    method ServiceMatrizFlag()
      requires PatternTable(numeros)
      modifies this`flagMatriz, this`refreshes, pio`sent
      ensures Snapshot() == DrainMatriz(old(Snapshot()))
      ensures refreshes == old(refreshes) + MatrixRefreshes(old(Snapshot()))
      ensures pio.sent == old(pio.sent) + WordsOf(numeros, MatrixRefreshes(old(Snapshot())))
    {
      if flagMatriz {
        flagMatriz := false;
        AtualizarMatrizLed();
        WordsOfOne(numeros, MatrixRefresh(Snapshot()));
      }
    }

    /**
     * One pass of the `while (true)` loop (lines 218-236); `received` is what
     * getchar_timeout_us returned, `None` for a timeout or EOF.
     */
    method LoopIteration(received: Option<Char8>)
      requires Valid()
      modifies this`numeroAtual, this`flagDisplay, this`flagMatriz, this`uartChar
      modifies this`screens, this`refreshes, pio`sent
      ensures Valid()
      ensures Snapshot() == LoopStep(old(Snapshot()), received)
      ensures refreshes == old(refreshes) + LoopRefreshes(old(Snapshot()), received)
      ensures screens == old(screens) + ScreensOf(LoopRefreshes(old(Snapshot()), received))
      ensures pio.sent == old(pio.sent) + WordsOf(numeros, LoopRefreshes(old(Snapshot()), received))
    {
      ghost var g := Snapshot();
      Poll(received);
      ghost var r := Snapshot();
      ServiceDisplayFlag();
      ServiceMatrizFlag();
      ghost var dr, mr := DisplayRefreshes(r), MatrixRefreshes(DrainDisplay(r));
      NoCrossOutput(numeros, r);
      ScreensOfAppend(dr, mr);
      WordsOfAppend(numeros, dr, mr);
      LoopStepPreservesInvariant(g, received);
    }
  }
}
