# Replayable random-byte cache of the fxhash Rust/wasm boilerplate

This project is a Dafny model of the core of the wasm renderer in
`project/src/lib.rs`. The renderer draws one circle on a coloured canvas and
redraws it every time the window is resized. Its random choices must stay the
same no matter how often it redraws.

That guarantee comes from `RandCache`. The cache keeps an append-only ledger
(`cache`) of the bytes drawn so far and a cursor (`index`) into it:

- `get_u8` replays the byte under the cursor if that slot is filled.
- Otherwise it draws a fresh byte from the host's seeded generator `fxrand`
  and appends it.
- Either way, the cursor then advances by one.
- `draw` rewinds the cursor to 0 and then reads red, green and blue in that
  order. So every redraw paints the same foreground.

The model has three parts:

- **`CacheModel`** (`cache_model.dfy`): the cache as a state machine on
  values. It has the functions `GetU8`, `RewindTo`, `Rewind` and `GetN`
  (`n` reads in a row), with the invariant `Inv`: the cursor stays within the
  ledger, and the ledger stays addressable by a `u32`.
- **`StatefulCache`** (`stateful_cache.dfy`): the cache as the renderer holds it.
  `RandCache` is a class whose methods update `index` and `cache` in place.
  Each method is proved to step as the matching `CacheModel` function does.
  The generator is the class `Fxrand`: its `k`-th call yields `stream(k)`.
  The cache's object invariant proves three things:
  - the generator is called only on a miss;
  - ledger slot `k` always holds `stream(k)`;
  - so `get_u8` at cursor position `k` returns `stream(k)` on every pass.
- **`Colors`** (`colors.dfy`) and **`Render`** (`render.dfy`):
  - `Colors` holds the `Color` value, its constructors and accessors, and the
    decoding of the host's colour parameter `#RRGGBBAA`.
  - `Render` holds the draw cycle, reduced to what it does with randomness
    and colour. Above it sits a session: the initial draw, then one cycle per
    resize event.

`bytes.dfy` defines the integer types `U8` and `U32`; `results.dfy` defines
the `Result` type.

This model follows the code:

- `rewind_to(i)` succeeds only when `i` is below the ledger length. So `rewind_to(0)` fails on
  an empty ledger. `rewind` ignores that failure, and on a reachable state the
  cursor is then already 0.
- The length check of `from_param` counts UTF-8 bytes (`String::len`), not
  characters. `remove(0)` drops the first character. So the decoder accepts
  exactly this: one ASCII character, then eight hex digits. The marker
  character is not checked to be `#`.
- Digits `0-9`, `a-f` and `A-F` are accepted, and each pair is read high
  nibble first.

## Model

| member | source | states |
|---|---|---|
| `Colors.FromRgba` | project/src/lib.rs:68-70 | the colour holds exactly the four given channels |
| `Colors.FromRgb` | project/src/lib.rs:65-67 | the colour holds the three given channels and alpha 255, i.e. it equals `from_rgba(r, g, b, 255)` |
| `Colors.Getters` | project/src/lib.rs:97-108 | `red()`, `green()`, `blue()` and `alpha()` each return their own channel of the colour, and the four together determine the colour |
| `Colors.Color.SetRed` | project/src/lib.rs:85-87 | the red channel becomes the value; green, blue and alpha are unchanged |
| `Colors.Color.SetGreen` | project/src/lib.rs:88-90 | the green channel becomes the value; the other three are unchanged |
| `Colors.Color.SetBlue` | project/src/lib.rs:91-93 | the blue channel becomes the value; the other three are unchanged |
| `Colors.Color.SetAlpha` | project/src/lib.rs:94-96 | the alpha channel becomes the value; the other three are unchanged |
| `Colors.ChannelLaws` | project/src/lib.rs:85-108 | each getter sees its own setter; setting a channel to its current value is the identity; the last write wins; setters of different channels commute |
| `Colors.Utf8Len` | project/src/lib.rs:73 | the byte length `len()` checks is at least the number of characters, and equals it exactly when every character is ASCII |
| `Colors.DecodePairs` | project/src/lib.rs:77 | decoded byte `i` is hex digits `2i` and `2i+1`, high nibble first; there are half as many bytes as digits |
| `Colors.DecodeEncodePairs` | project/src/lib.rs:77 | decoding the lower-case hex text of any byte string gives back that byte string |
| `Colors.FromHex` | project/src/lib.rs:77 | `<[u8; n]>::from_hex` succeeds exactly on `2n` hex digits; byte `i` is the pair at `2i` and `2i+1` |
| `Colors.FromParam` | project/src/lib.rs:71-81 | decoding succeeds exactly on one ASCII marker followed by 8 hex digits (any other length or non-hex digit is an error); red, green, blue and alpha are pairs 1-2, 3-4, 5-6 and 7-8 after the marker |
| `Colors.ParamRoundTrip` | project/src/lib.rs:71-81 | every colour written as `#rrggbbaa` decodes back to itself |
| `Colors.DecodeExamples` | project/src/lib.rs:71-81 | `#00112233` decodes to (0x00, 0x11, 0x22, 0x33); mixed-case digits decode |
| `Colors.RejectExamples` | project/src/lib.rs:71-81 | a string one digit short, or with a `g` among its digits, is rejected |
| `CacheModel.New` | project/src/lib.rs:125-127 | a new cache has cursor 0 and an empty ledger, which satisfies the invariant and records any generator's (empty) output |
| `CacheModel.GetU8` | project/src/lib.rs:146-154 | a hit returns `cache[index]` with the ledger unchanged; a miss appends exactly the fresh byte and returns it; the returned byte sits at the old cursor; the ledger only grows, by at most one; the cursor advances by exactly 1; the invariant is preserved |
| `CacheModel.RewindTo` | project/src/lib.rs:131-142 | succeeds iff `i` is below the ledger length, then sets the cursor to `i` and returns the old cursor; on failure nothing changes; the ledger is never changed; the invariant is preserved |
| `CacheModel.Rewind` | project/src/lib.rs:128-130 | never changes the ledger, and on every state satisfying the invariant leaves the cursor at 0 (on an empty ledger it changes nothing) |
| `CacheModel.GetN` | project/src/lib.rs:146-154 | `n` reads advance the cursor by `n`; the old ledger is a prefix of the new one; every byte returned is recorded at the position it was read from; a ledger that records the generator's output keeps doing so |
| `CacheModel.GetNReplaysLedger` | project/src/lib.rs:146-153 | reading a range of filled slots returns exactly those slots and does not change the ledger |
| `CacheModel.ReplayAfterRewind` | project/src/lib.rs:128-154 | after a rewind, the `k`-th byte read equals the `k`-th byte read after the previous rewind, for runs of any lengths and any generator output |
| `CacheModel.ReadsFollowSource` | project/src/lib.rs:146-157 | when the ledger records the generator's output, the byte read at cursor position `k` is the generator's `k`-th byte |
| `StatefulCache.Fxrand.Next` | project/src/lib.rs:155-157 | the `k`-th draw from the generator yields `stream(k)` |
| `StatefulCache.RandCache.constructor` | project/src/lib.rs:125-127 | a new cache has cursor 0 and an empty ledger, and holds a generator that has not been called yet |
| `StatefulCache.RandCache.RewindTo` | project/src/lib.rs:131-142 | steps as `CacheModel.RewindTo`: succeeds iff `i` is below the ledger length, sets the cursor and returns the old one, else leaves it unchanged; keeps the invariant |
| `StatefulCache.RandCache.Rewind` | project/src/lib.rs:128-130 | leaves the cursor at 0 and the ledger unchanged; keeps the invariant |
| `StatefulCache.RandCache.GetCacheIndex` | project/src/lib.rs:143-145 | returns the cursor and changes nothing |
| `StatefulCache.RandCache.GetU8` | project/src/lib.rs:146-157 | steps as `CacheModel.GetU8` with the generator's next byte; returns the generator's byte number `index` on every pass; calls the generator only on a miss; keeps the invariant (cursor within the ledger, ledger = generator output so far) |
| `Render.DrawCycle` | project/src/lib.rs:181-210 | a cycle succeeds iff the colour parameter is well formed; it fails after the rewind and before any read; on success it paints the decoded background and the colour of ledger slots 0, 1, 2, with the cursor left at 3; the ledger only grows |
| `Render.RedrawRepeatsForeground` | project/src/lib.rs:181-210 | a redraw paints the same foreground as the cycle before it, whatever the surface sizes and the generator |
| `Render.ForegroundIsFirstThreeDraws` | project/src/lib.rs:183-210 | from a ledger recording the generator's output, the foreground is the generator's first three bytes as red, green, blue |
| `Render.Session` | project/src/lib.rs:160-179 | a session yields one frame per viewport size; each frame succeeds iff the colour parameter is well formed, and has that size and the decoded background |
| `Render.CycleReplaysSlots` | project/src/lib.rs:183-210 | once slots 0 to 2 are filled, a cycle keeps them and paints them |
| `Render.SessionReplaysSlots` | project/src/lib.rs:166-183 | once slots 0 to 2 are filled, every successful cycle of the rest of the session paints them |
| `Render.SessionForegroundIsStable` | project/src/lib.rs:166-210 | all successful frames of a session have the same foreground, however many resize events arrive |
| `Render.Draw` | project/src/lib.rs:181-210 | steps as `DrawCycle` on the session's cache; a successful cycle paints the generator's first three bytes |
| `Render.RunSession` | project/src/lib.rs:160-179 | creating the cache, drawing once and redrawing on each resize event yields `Session`; every successful frame paints the generator's first three bytes |

## Left out

- The `extern "C"` block (project/src/lib.rs:11-54) is not modelled: console
  logging, `fxpreview` and the feature and parameter getters. The colour
  parameter that `getFxHashParamColor("color_id")` returns becomes an
  argument. It is the same string for every cycle of a session.
- `get_random_u8` (`(fxrand() * 256.0).floor() as u8`) is floating point. It
  is replaced by the byte stream of `Fxrand`.
- The cache owns its generator from construction. In the program `fxrand` is
  a global function, but `get_random_u8` is its only caller, so the two agree.
- `Color::to_string` is not modelled: it formats floats, and divides alpha by
  256.0.
- The `println!` in `from_param` is I/O and is not modelled.
- `DecodeError.InvalidHexCharacter` does not carry the character and byte
  index that the `hex` crate reports.
- The DOM and canvas parts of `start` and `draw` are not modelled: window and
  canvas lookup, `as u32` casts of the viewport size, the float geometry of
  `rect` and `arc`, logging of an `arc` error, event-listener wiring and
  `closure.forget`. A `Frame` records only the surface size and the two
  colours.
- The `Arc<Mutex<…>>` sharing is not modelled. Cycles run one after another.
- `Render.Session` and `Render.RunSession` do not stop at a failed cycle. In
  the program a malformed colour parameter panics in the initial
  `closure_func()` (project/src/lib.rs:173). That exits `start` before the
  resize listener is added (project/src/lib.rs:175-177), so no resize event
  ever draws: the program yields one failed frame, where the model yields
  one `Err` per size. Every frame after the first is then an `Err` in the
  model, and `Render.Session` states that each is.
- `StatefulCache.RandCache.GetU8` requires the cursor to be below `u32::MAX`.
  The overflow of `self.index += 1` (a panic in debug builds, wrap-around in
  release builds) is not modelled.
- `CacheModel.GetU8` and `CacheModel.GetN` have the same precondition as
  `StatefulCache.RandCache.GetU8`, for the same reason.
- src/lib.rs (an older three-channel colour with no cache) is not part of
  this model.
- lib/config/webpack.config.js (build configuration) is not part of this
  model.
