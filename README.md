# bitdoglab-serial-peripherals in Dafny

A model of the firmware of the BitDogLab serial-peripherals demo, with proofs about it. The demo runs on an RP2040 board:
- It polls the USB serial line for characters.
- It shows the last character, the current digit and the state of two LEDs on an SSD1306 OLED panel.
- When a digit arrives, it draws that digit on a 5x5 WS2812 LED matrix, driven through a PIO state machine.
- Two push buttons, with a 300 ms debounce, toggle the green and the blue LED from an interrupt handler. The main loop then picks up the change through a flag.

The project has three modules, one per source concern.

- `MatrizLed` (`matriz_led.dfy`) covers `include/matriz_led_control.c`.
  - `MatrixRgb` is the colour-word encoder. `Scale` is C's conversion of `x * 255` to `unsigned char`.
  - The three drawing routines are methods of the class `Pio`. They append the words they push to the state machine to the field `sent`.
  - `Frame` specifies what each routine sends. It builds the words one pixel at a time with `Emitted`.
  - `ImprimirBinario` returns the 32 characters that `imprimir_binario` prints.
- `DisplayText` (`display_text.dfy`) holds the text `processa_display` writes, as pure functions. This includes `Decimal`, the `%d` conversion.
- `SerialPeripherals` (`serial_peripherals.dfy`) covers `bitdoglab-serial-peripherals.c`.
  - The globals are the fields of the class `Firmware`. `Globals` is a value snapshot of them.
  - `Isr`, `Receive`, `DrainDisplay`, `DrainMatriz` and `LoopStep` specify the interrupt handler and one pass of the main loop on snapshots.
  - `LoopRefreshes` lists the display and matrix refreshes a pass performs, with the globals each refresh reads.
  - The `Firmware` methods run the source's statements on the fields. Their postconditions tie the new fields, the images sent to the panel (`screens`) and the words sent to the matrix (`pio.sent`) to those functions.
  - One pass of the loop, `LoopIteration`, runs the loop body's three blocks in source order, each as its own method: `Poll` reads the input, `ServiceDisplayFlag` handles the display flag, `ServiceMatrizFlag` handles the matrix flag.
  - `Invariant` holds at boot and between any two steps. Under it:
    - every matrix refresh sees a digit in 0..9, so the `default` case of the dispatch is never taken;
    - each refresh runs with its flag already lowered;
    - the display refresh comes before the matrix refresh;
    - a pass ends with both flags down and no pending character.

Evaluation order matches the source. `uart_char` is an unsigned 8-bit code (`Char8`), as `char` is on the RP2040. The 32-bit timestamps are integers in [0, 2^32), and their subtraction is written out modulo 2^32 (`Sub32`). The microsecond clock is truncated to 32 bits (`Truncate32`).

The code and its own comments disagree in one place, and the model follows the code: `desenho_pio` passes the pattern value as the first argument of `matrix_rgb`, which is `b`. It therefore lands in bits 15-8, even though the comment beside the call says only the green channel is lit. `PatternFrameLayout` states the layout the code produces.

## Model

| member | source | states |
|---|---|---|
| `MatrizLed.Scale` | include/matriz_led_control.c:32-35 | the `unsigned char` value of `x * 255` truncates toward zero: for x >= 0 it is the largest integer not above x * 255, for negative x it is 0; defined exactly when -1 < x * 255 < 256 |
| `MatrizLed.MatrixRgb` | include/matriz_led_control.c:30-37 | the returned word holds G in byte 3, R in byte 2, B in byte 1, and byte 0 is zero |
| `MatrizLed.PixelEncoding` | include/matriz_led_control.c:30-37 | for intensities in [0, 1] every conversion is defined, and bytes 3, 2, 1 of the word are floor(g*255), floor(r*255), floor(b*255), with byte 0 zero |
| `MatrizLed.WordAt` | include/matriz_led_control.c:44 | the word a drawing loop computes at index i: byte 0 is always zero; for desenho_pio only byte 1 is set, to the scaled element 24-i; for desliga_tudo the word is zero |
| `MatrizLed.TintedWord` | include/matriz_led_control.c:57 | the word desenho_pio_rgb computes at index i holds element 24-i times the g, r, b multipliers in bytes 3, 2, 1, and byte 0 is zero |
| `MatrizLed.Frame` | include/matriz_led_control.c:43-45 | a drawing routine sends one word per LED, 25 in all |
| `MatrizLed.Emitted` | include/matriz_led_control.c:43-47 | the first n iterations of a drawing loop send exactly n words |
| `MatrizLed.EmittedAt` | include/matriz_led_control.c:43-47 | the word sent by iteration k is the one computed at loop index k |
| `MatrizLed.FrameAt` | include/matriz_led_control.c:43-47 | every drawing routine sends exactly 25 words; the k-th is the word computed at loop index k |
| `MatrizLed.OnlyBlueByte` | include/matriz_led_control.c:44 | a word encoded with r = g = 0 has bits 31-16 and 7-0 clear |
| `MatrizLed.PatternFrameLayout` | include/matriz_led_control.c:39-49 | desenho_pio sends 25 words; word k is `matrix_rgb(desenho[24-k], 0, 0)`, carries the scaled element 24-k in byte 1, and is zero elsewhere |
| `MatrizLed.PatternFrameIsReversedPattern` | include/matriz_led_control.c:43-45 | byte 1 of the words, in sending order, is `BackToFront` of the scaled pattern, whose position k holds element 24-k (`BackToFrontAt`) |
| `MatrizLed.TintedFrameGeneralizesPatternFrame` | include/matriz_led_control.c:52-62 | with multipliers b = 1, r = 0, g = 0, desenho_pio_rgb sends exactly what desenho_pio sends |
| `MatrizLed.TintedFrameLayout` | include/matriz_led_control.c:56-58 | desenho_pio_rgb sends 25 words; word k carries element 24-k times the g, r, b multipliers in bytes 3, 2, 1, and byte 0 is zero |
| `MatrizLed.OffFrameIsDark` | include/matriz_led_control.c:65-75 | desliga_tudo sends 25 zero words, the same frame desenho_pio sends for an all-dark pattern |
| `MatrizLed.ImprimirBinario` | include/matriz_led_control.c:21-27 | exactly 32 characters, each '0' or '1'; character k is '1' iff bit 31-k of the argument is set |
| `MatrizLed.Pio.constructor` | bitdoglab-serial-peripherals.c:62-70 | the handle starts with multipliers 0.0 and nothing sent |
| `MatrizLed.Pio.Put` | include/matriz_led_control.c:45 | a blocking put appends its word to the output |
| `MatrizLed.Pio.DesenhoPio` | include/matriz_led_control.c:39-49 | appends exactly `Frame(Pattern(desenho))` to the output |
| `MatrizLed.Pio.DesenhoPioRgb` | include/matriz_led_control.c:52-62 | appends exactly `Frame(Tinted(desenho, b, r, g))`, built from the handle's multipliers |
| `MatrizLed.Pio.DesligaTudo` | include/matriz_led_control.c:65-75 | appends exactly `Frame(AllOff)` |
| `DisplayText.Decimal` | bitdoglab-serial-peripherals.c:126 | `%d` writes at least one character, and its first character is '-' exactly when the number is negative |
| `DisplayText.SerialText` | bitdoglab-serial-peripherals.c:115-119 | the line is "Serial: " and one character: the received one when it is not 0; the line reads "Serial: -" exactly when the character is 0 or '-' |
| `DisplayText.MatrizText` | bitdoglab-serial-peripherals.c:123-127 | the line starts "Matriz: "; a received digit is shown as that character, otherwise a digit value 0..9 is shown as its single decimal digit |
| `DisplayText.LedText` | bitdoglab-serial-peripherals.c:131-133 | the line is the LED's label followed by "ON" exactly when the LED is on and by "OFF" exactly when it is off |
| `DisplayText.Screen` | bitdoglab-serial-peripherals.c:115-134 | one image is four lines at x = 0 and y = 0, 16, 32, 48 |
| `DisplayText.DecimalRoundTrip` | bitdoglab-serial-peripherals.c:126 | `%d` of a non-negative number writes only decimal digits, and reading them back gives the number |
| `DisplayText.ScreenReportsState` | bitdoglab-serial-peripherals.c:110-137 | four lines at x = 0, y = 0/16/32/48; line 0 is "Serial: -" iff no character is pending (or the pending character is '-') and otherwise shows the character; the LED lines say ON iff the LED is on and OFF iff it is off |
| `DisplayText.MatrizTextAgrees` | bitdoglab-serial-peripherals.c:122-128 | when a pending digit agrees with `numero_atual`, both branches of line y = 16 print the same text, "Matriz: " and the digit |
| `SerialPeripherals.Truncate32` | bitdoglab-serial-peripherals.c:146 | the stored time is congruent to the microsecond count modulo 2^32, and equal to it before the first wrap |
| `SerialPeripherals.Sub32` | bitdoglab-serial-peripherals.c:148 | the unsigned difference d of two timestamps is the one that, added to the older stamp modulo 2^32, gives the newer; without a wrap it is the plain difference |
| `SerialPeripherals.Accepts` | bitdoglab-serial-peripherals.c:148 | the debounce test passes iff the elapsed time, counted across at most one wrap of the 32-bit clock, exceeds 300000 us |
| `SerialPeripherals.Isr` | bitdoglab-serial-peripherals.c:145-162 | the handler never changes the digit, the pending character or the matrix flag, and whenever it changes anything it raises the display flag |
| `SerialPeripherals.Receive` | bitdoglab-serial-peripherals.c:218-226 | a received character becomes `uart_char` and raises the display flag; a digit also raises the matrix flag and puts a value in 0..9 in `numero_atual`; a timeout changes nothing; the buttons' state is never touched |
| `SerialPeripherals.DrainDisplay` | bitdoglab-serial-peripherals.c:227-231 | afterwards the display flag is down; if it was up the character is cleared; the digit and the matrix flag are untouched; if it was down nothing changes |
| `SerialPeripherals.DrainMatriz` | bitdoglab-serial-peripherals.c:232-235 | afterwards the matrix flag is down; the digit, the display flag and the character are untouched |
| `SerialPeripherals.LoopStep` | bitdoglab-serial-peripherals.c:218-236 | after a pass both flags are down, and the buttons' timestamps and LED states are as before |
| `SerialPeripherals.MatrixFrame` | bitdoglab-serial-peripherals.c:85-100 | the dispatch sends 25 words for a value 0..9 and nothing for any other value |
| `SerialPeripherals.DisplayLinesFit` | bitdoglab-serial-peripherals.c:112-134 | with the digit in 0..9, every line is shorter than the 50-byte buffer, so snprintf never truncates |
| `SerialPeripherals.DebounceAcrossWrap` | bitdoglab-serial-peripherals.c:146-148 | for presses less than 2^32 us apart, the unsigned 32-bit test accepts iff more than 300000 us really elapsed, including across a wrap of the 32-bit clock |
| `SerialPeripherals.IsrButtonA` | bitdoglab-serial-peripherals.c:148-154 | a press of A changes the globals iff it passes the debounce test; if accepted it stamps the time, toggles the green LED and raises the display flag; B's state, the digit, the pending character and the matrix flag never change |
| `SerialPeripherals.IsrButtonB` | bitdoglab-serial-peripherals.c:155-161 | the same for B, the blue LED and B's timestamp, leaving A's state alone |
| `SerialPeripherals.IsrOtherPin` | bitdoglab-serial-peripherals.c:145-162 | an interrupt from any other pin leaves the globals unchanged |
| `SerialPeripherals.DebounceBoundary` | bitdoglab-serial-peripherals.c:146-148 | after an accepted press of A, further presses 299999 us and 300000 us later are ignored, and one 300001 us later toggles the green LED, stamps its own time and raises the display flag, even across a wrap |
| `SerialPeripherals.LongGapLooksEarly` | bitdoglab-serial-peripherals.c:146-148 | a press 2^32 + 100 us after the last accepted one is ignored, because the 32-bit clock has wrapped |
| `SerialPeripherals.BootInvariant` | bitdoglab-serial-peripherals.c:52-75 | the initial globals satisfy the invariant |
| `SerialPeripherals.IsrPreservesInvariant` | bitdoglab-serial-peripherals.c:145-162 | the interrupt handler preserves the invariant |
| `SerialPeripherals.LoopStepQuiesces` | bitdoglab-serial-peripherals.c:218-236 | when every pending character has its display flag up, a pass ends with both flags down and `uart_char == 0`, whatever it received |
| `SerialPeripherals.LoopStepPreservesInvariant` | bitdoglab-serial-peripherals.c:218-236 | a pass of the main loop preserves the invariant |
| `SerialPeripherals.NoCrossOutput` | bitdoglab-serial-peripherals.c:227-235 | the display branch sends nothing to the matrix, and the matrix branch sends nothing to the panel |
| `SerialPeripherals.LoopRefreshesOrdered` | bitdoglab-serial-peripherals.c:227-235 | a pass makes at most one display refresh and at most one matrix refresh, the display first, each with its flag already cleared; under the invariant every matrix refresh sees a digit in 0..9 and every display refresh shows "Matriz: " and the current digit |
| `SerialPeripherals.DigitKeystroke` | bitdoglab-serial-peripherals.c:219-235 | receiving a digit refreshes first the display, showing the character on lines 0 and 1, then the matrix with that digit's pattern; nothing else is sent, and `numero_atual` becomes the digit |
| `SerialPeripherals.SevenKeystroke` | bitdoglab-serial-peripherals.c:222-224 | receiving '7' shows "Serial: 7" and "Matriz: 7" and draws pattern 7 |
| `SerialPeripherals.OtherKeystroke` | bitdoglab-serial-peripherals.c:219-231 | receiving a non-digit refreshes only the display, which shows the character (or "Serial: -" for a NUL) and the unchanged digit; nothing is sent to the matrix |
| `SerialPeripherals.IdlePass` | bitdoglab-serial-peripherals.c:218-235 | a pass with no input refreshes the display iff its flag is up, showing the globals as they are, never touches the matrix, and only lowers the flag and clears the character |
| `SerialPeripherals.MatrixFrameComplete` | bitdoglab-serial-peripherals.c:85-100 | for digits 0..9 the dispatch sends the 25 words of that digit's pattern; for any other value it sends nothing |
| `SerialPeripherals.Firmware.constructor` | bitdoglab-serial-peripherals.c:52-75 | globals at their initial values; the start-up `atualizar_matriz_led()` draws pattern 0; the LED pins are initialised low |
| `SerialPeripherals.Firmware.AtualizarMatrizLed` | bitdoglab-serial-peripherals.c:85-100 | appends `MatrixFrame(numeros, numero_atual)` to the matrix output and logs a matrix refresh of the current globals |
| `SerialPeripherals.Firmware.ProcessaDisplay` | bitdoglab-serial-peripherals.c:110-137 | sends one image, the four lines of `DisplayScreen` for the current globals, and logs a display refresh |
| `SerialPeripherals.Firmware.GpioIrqHandler` | bitdoglab-serial-peripherals.c:145-162 | the globals become `Isr(old globals, gpio, Truncate32(us))`; the LED pins follow the LED states; the invariant is kept |
| `SerialPeripherals.Firmware.Poll` | bitdoglab-serial-peripherals.c:218-226 | the globals become `Receive(old globals, received)` |
| `SerialPeripherals.Firmware.ServiceDisplayFlag` | bitdoglab-serial-peripherals.c:227-231 | if the display flag is up, it is cleared, one image is sent, and the character is then forgotten; otherwise nothing happens |
| `SerialPeripherals.Firmware.ServiceMatrizFlag` | bitdoglab-serial-peripherals.c:232-235 | if the matrix flag is up, it is cleared and the current digit's pattern is sent; otherwise nothing happens |
| `SerialPeripherals.Firmware.LoopIteration` | bitdoglab-serial-peripherals.c:217-237 | the globals become `LoopStep(old globals, received)`; the images and words sent are exactly those of `LoopRefreshes`, in order; the invariant is kept |

## Left out

- Peripheral bring-up is hardware configuration with no state this model tracks. This covers `init_pio_routine` (clock setting, PIO program loading) and the stdio, I2C, SSD1306, UART and button initialisation in `main`. It also covers the IRQ registration and the 2 s start-up delay.
- The start-up screen of `main` (the lower-case alphabet) is not modelled. `screens` records only the images `processa_display` sends.
- Every `printf` is console output to the debug stream. This includes the diagnostics in `atualizar_matriz_led`, the interrupt handler and the drawing routines. `ImprimirBinario` returns its characters instead of printing them.
- SSD1306 glyph rendering and the frame buffer are not modelled. An image is the list of `ssd1306_draw_string` calls between `ssd1306_fill` and `ssd1306_send_data`.
- `getchar_timeout_us` and `to_us_since_boot` are inputs. `LoopIteration` takes what the read returned, with `None` for a timeout or EOF. `GpioIrqHandler` takes the microsecond count.
- The unused `events` argument of the interrupt handler is dropped.
- Preemption is not modelled. On the hardware, the interrupt handler can run between any two statements of the main loop. The model runs the handler and a pass of the loop as separate atomic steps, and `volatile` has no counterpart.
- The `while (true)` itself is not modelled. The model gives one pass (`LoopIteration`), and the invariant it keeps holds between any number of them.
- The pattern tables `numero0` to `numero9` come from `include/animacoesnumero.h`, which is not part of this model. They are a constructor parameter, constrained only by `PatternTable`: 10 patterns of 25 convertible values.
- Doubles are exact reals, so the rounding of `x * 255` and of `desenho[24-i] * meu_pio->b` in double precision is not modelled.
- MatrizLed.Pio.DesenhoPio and MatrizLed.Pio.DesenhoPioRgb require every `x * 255` they convert to lie in (-1, 256). Outside that range C's double to `unsigned char` conversion is undefined behaviour.
- MatrizLed.MatrixRgb computes the packed word on 32 bits. In C, `G << 24` is a shift on `int`, which overflows for G >= 128; the model gives the bit pattern that results on the RP2040 compiler.
- SerialPeripherals.Firmware.GpioIrqHandler and SerialPeripherals.Firmware.LoopIteration both require the class invariant `Valid()`. The C code has no such precondition. The constructor establishes the invariant, and `GpioIrqHandler` and `LoopIteration` keep it. `Poll`, `ServiceDisplayFlag` and `ServiceMatrizFlag` are the three blocks of one pass and do not keep it on their own: after `Poll` receives a digit the matrix flag is up until `ServiceMatrizFlag` lowers it.
- MatrizLed.ImprimirBinario takes its `int` argument as a 32-bit pattern and reads `1 << 31` as the mask of bit 31. In C, `1 << 31` on `int` is signed overflow, which is undefined behaviour; the model gives what the RP2040 compiler produces.
