# XF obfuscation engine in Dafny

This project models the transformation routine of the XF obfuscation tool,
`obfuscate(input, name, counter, level)`. The routine turns a chunk of Lua
source text into a Lua "build" made of four parts:

- a header comment naming the build counter and the level;
- a block of dead junk statements;
- a loader body, stripped of all whitespace, that holds the input as a
  base64 text written as shifted decimal escapes, together with a decoder
  function and a dispatch loop that decodes and runs it;
- a shorter block of junk statements.

Blank input yields the sentinel `-- ERR_EMPTY_BUFFER` instead of a build.

The model is pure, as the routine is: functions and lemmas over values.
`Math.random()` becomes an explicit stream of draws (`RandomSource.Stream`).
Each draw has a real value in [0, 1) and the text JavaScript prints for it.
Every generator takes the position of its first draw and returns the
position after its last one, so the order in which the source consumes
random numbers is part of the model.

The modules follow the source:

- `JsText`: the JavaScript string primitives the engine relies on. These are
  the `\s` class, `trim()`, `replace(/\s+/g, '')` and integer rendering.
- `Base64`: `btoa` on Latin-1 strings, and a reference decoder.
- `RandomSource`: the draw stream and `Math.floor(Math.random() * n)`.
- `Identifiers`: `generateHex` and `getVar`.
- `Payload`: `polymorphicEncode`, and the decoder that the build carries,
  as a function.
- `JunkLogic`: `generateJunkLogic` and the junk blocks.
- `Template`: the multi-line template literal as lines of words, and what the
  whitespace strip does to it.
- `Engine`: `obfuscate` itself.

## Model

| member | source | states |
|---|---|---|
| JsText.Strip | services/obfuscatorEngine.ts:88 | Deleting every whitespace character leaves a string with no whitespace, never longer than the original. |
| JsText.StripKeepsOthers | services/obfuscatorEngine.ts:88 | Every character that is not whitespace survives the strip, as many times as it occurs. |
| JsText.TrimEmptyIff | services/obfuscatorEngine.ts:37 | `trim()` gives the empty string exactly when every character is whitespace (both directions). |
| JsText.Trim | services/obfuscatorEngine.ts:37 | `trim()` keeps the run of the string after its leading whitespace, drops only whitespace after it, and leaves text that neither starts nor ends with whitespace. |
| JsText.TrimIdentity | services/obfuscatorEngine.ts:88 | The trim after the strip changes nothing, because the stripped text holds no whitespace. |
| JsText.IntToString | services/obfuscatorEngine.ts:90 | An integer prints as its decimal numeral, with a minus sign in front when it is negative. |
| JsText.IntToStringInjective | services/obfuscatorEngine.ts:90 | Distinct integers print differently. |
| Base64.Encode | services/obfuscatorEngine.ts:15 | `btoa` writes 4 characters for every started group of 3 input characters, all from the base64 alphabet or `=`. |
| Base64.EncodeCodes | services/obfuscatorEngine.ts:15-17 | Every character `btoa` emits has a code between 43 and 122, so `code + seed` lies between 48 and 146. |
| Base64.DecodeEncode | services/obfuscatorEngine.ts:15 | `btoa` loses nothing: the reference decoder gives back the input. |
| RandomSource.Scale | services/obfuscatorEngine.ts:8 | `Math.floor(Math.random() * n)` lies in [0, n) for positive n, and in [n, 0] otherwise. |
| RandomSource.PrintedDraw | services/obfuscatorEngine.ts:57 | A printed draw is non-empty number text: digits, point, exponent and sign. |
| Identifiers.GenerateHex | services/obfuscatorEngine.ts:7-9 | `generateHex(len)` yields `len` lower-case hex digits from `len` draws; digit i is the floor of 16 times draw i. |
| Identifiers.GetVar | services/obfuscatorEngine.ts:11 | `getVar()` yields `_0x` followed by 8 hex digits, from 8 draws. |
| Identifiers.GetVarDigits | services/obfuscatorEngine.ts:11 | The 8 digits of a name are the 8 draws behind it, in order. |
| Identifiers.GetVars | services/obfuscatorEngine.ts:43-47 | n consecutive `getVar()` calls yield n well-formed names and use 8n draws. |
| Identifiers.VarNameIsLuaName | services/obfuscatorEngine.ts:11 | Every generated name is a valid Lua identifier. |
| Payload.PolymorphicEncode | services/obfuscatorEngine.ts:13-21 | The seed lies in [5, 24], uses one draw, and the data is the escape text of `btoa(str)` shifted by the seed. |
| Payload.Fields | services/obfuscatorEngine.ts:16-19 | The joined escapes hold only backslashes and digits, one backslash per numeral, and at least 3 characters per numeral of 2 or more digits. |
| Payload.Escapes | services/obfuscatorEngine.ts:16-19 | The payload text of a base64 string is escape text with one backslash per base64 character, starting with a backslash. |
| Payload.Shifted | services/obfuscatorEngine.ts:17 | Each numeral is the character code plus the seed, one per base64 character. |
| Payload.EncodedShape | services/obfuscatorEngine.ts:13-21 | The payload is escape text with one backslash per base64 character and numerals in [48, 146], at least 4 characters per input character. |
| Payload.ToNumber | services/obfuscatorEngine.ts:62 | Lua `tonumber` on a slice gives a number exactly when the slice is a non-empty run of digits. |
| Payload.LuaDecode | services/obfuscatorEngine.ts:59-66 | The emitted decoder, when it does not raise an error, yields one character per started group of 4 input characters. |
| Payload.UnshiftShifted | services/obfuscatorEngine.ts:62-63 | Subtracting the seed and converting back to a character undoes the encoder's shift. |
| Payload.DecodeShortInner | services/obfuscatorEngine.ts:62 | A 2-digit numeral followed by another escape makes the slice end in `\`, so the decoder raises an error. |
| Payload.DecodeShortLast | services/obfuscatorEngine.ts:62 | A 2-digit numeral at the very end is still read correctly, because the slice stops at the end of the string. |
| Payload.DecodeFields | services/obfuscatorEngine.ts:59-66 | For numerals of 2 or 3 digits, the decoder recovers them exactly when every numeral except the last has 3 digits (both directions). |
| Payload.RoundTripIff | services/obfuscatorEngine.ts:59-66 | The decoder applied to the payload and its seed returns `btoa(input)` exactly when every shifted code except the last is at least 100 (both directions). |
| Payload.RoundTripThreeDigits | services/obfuscatorEngine.ts:59-66 | When every shifted code has 3 digits, the decoder inverts the encoder. |
| Payload.MisalignedPayload | services/obfuscatorEngine.ts:18 | `btoa("a")` with seed 5 gives the numerals 94, 86, 66, 66, and the decoder fails on that payload. |
| Payload.PrintNeverDecodes | services/obfuscatorEngine.ts:18 | For any input of 3 or more characters starting with `pr`, `print('hi')` included, no seed lets the decoder recover the base64 text. |
| Payload.ShortLastNumeral | services/obfuscatorEngine.ts:59-66 | A 2-digit last numeral is harmless: `btoa("zz")` with seed 24 still decodes. |
| Payload.PaddedEncode | services/obfuscatorEngine.ts:13-21 | The fixed-width encoder draws the same seed as the original encoder, from the same draw, and writes the same shifted codes, each zero-padded to 3 digits. |
| Payload.PaddedRoundTrip | services/obfuscatorEngine.ts:59-66 | With numerals zero-padded to 3 digits, the decoder inverts the encoder for every input and every seed. |
| JunkLogic.Render | services/obfuscatorEngine.ts:27-31 | Every junk statement is non-empty and ends with `;`. |
| JunkLogic.RenderHasSpace | services/obfuscatorEngine.ts:27-31 | Every junk template contains whitespace, so the junk blocks are not compacted the way the body is. |
| JunkLogic.LoopTemplate | services/obfuscatorEngine.ts:27 | The loop bound lies in the range of `floor(random * 50 * intensity)`. |
| JunkLogic.ArithTemplate | services/obfuscatorEngine.ts:30 | The byte string holds 2 hex digits, and the addend lies in the range of `floor(random * intensity)`. |
| JunkLogic.TupleSwapTemplate | services/obfuscatorEngine.ts:31 | The last template holds 6 generated names and 2 printed draws, and uses 50 draws. |
| JunkLogic.Pick | services/obfuscatorEngine.ts:33 | The chosen statement is well formed and is the filled-in template, in source order, at the index the pick draw selects. |
| JunkLogic.GenerateJunkLogic | services/obfuscatorEngine.ts:23-34 | One call yields a well-formed statement and uses 79 draws, whichever template is chosen. |
| JunkLogic.ChosenTemplate | services/obfuscatorEngine.ts:33 | The template is the one that the call's last draw selects. |
| JunkLogic.JunkList | services/obfuscatorEngine.ts:58 | `Array.from` of n junk calls yields max(n, 0) well-formed statements and uses 79 draws for each. |
| JunkLogic.Join | services/obfuscatorEngine.ts:58 | `join('')` of a block has at least one character per statement and ends with the last statement's `;`. |
| JunkLogic.JoinHasSpace | services/obfuscatorEngine.ts:91 | A non-empty junk block always contains whitespace. |
| Template.StripText | services/obfuscatorEngine.ts:54-88 | Stripping the whitespace from the template gives the words of every line run together, in order. |
| Template.FlattenHas | services/obfuscatorEngine.ts:54-88 | Every line of every section appears, compacted, in the compacted template. |
| Engine.Header | services/obfuscatorEngine.ts:90 | Every header starts with `-- [XF_OBFUSCATION_BUILD_`. |
| Engine.HeaderInjective | services/obfuscatorEngine.ts:90 | The header determines both the counter and the level. |
| Engine.HeaderNotSentinel | services/obfuscatorEngine.ts:37 | No build can equal the sentinel. |
| Engine.JunkCount | services/obfuscatorEngine.ts:40 | The junk count is the floor of 1.5 times the level. |
| Engine.BodyJunkCount | services/obfuscatorEngine.ts:58 | The body holds half the junk count, rounded up. |
| Engine.PrefixCount | services/obfuscatorEngine.ts:91 | The prefix holds half the junk count, rounded down. |
| Engine.SuffixCount | services/obfuscatorEngine.ts:92 | The suffix holds a quarter of the junk count, rounded down. |
| Engine.JunkSplit | services/obfuscatorEngine.ts:58-91 | The body's junk plus the prefix add up to the junk count, at every level. |
| Engine.SuffixShorter | services/obfuscatorEngine.ts:91-92 | The suffix never has more statements than the prefix. |
| Engine.CountsMonotone | services/obfuscatorEngine.ts:40-92 | Raising the level never lowers any junk count. |
| Engine.SwapDraws | services/obfuscatorEngine.ts:52 | Above level 3 the decoy swap holds 2 names and 2 hex strings of 4 digits, from 24 draws; otherwise it is absent and uses no draws. |
| Engine.SwapText | services/obfuscatorEngine.ts:52 | The swap text is empty exactly when there is no swap. |
| Engine.ExtraText | services/obfuscatorEngine.ts:77 | The state-1 branch's statement text is empty exactly when no extra junk was drawn. |
| Engine.ExtraDraws | services/obfuscatorEngine.ts:77 | Above level 7, and only then, the state-1 branch holds a well-formed junk statement. |
| Engine.Declare | services/obfuscatorEngine.ts:43-52 | The 5 names are well formed, and the payload is the encoding made with the draw after the 40 name draws. |
| Engine.Fill | services/obfuscatorEngine.ts:57-77 | The body's junk has the rounded-up half count; the initial state lies in [10 level, 10 level + 499]; the branch junk is well formed. |
| Engine.Assemble | services/obfuscatorEngine.ts:43-77 | A build holds 5 generated names and the encoded input, with the declarations drawn before the template's own draws. |
| Engine.AssembleGates | services/obfuscatorEngine.ts:52-77 | The level gates hold: swap iff level > 3; extra junk iff level > 7; the initial state's range. |
| Engine.AssembleFilled | services/obfuscatorEngine.ts:43-49 | Every assembled build has generated names and an escape-text payload. |
| Engine.Generate | services/obfuscatorEngine.ts:90-92 | The header matches the counter and the level. The prefix block is drawn right after the body's draws, and the suffix block right after the prefix block. |
| Engine.GenerateCounts | services/obfuscatorEngine.ts:58-92 | The three junk blocks have the rounded-up half, the rounded-down half and the rounded-down quarter of the junk count. |
| Engine.Sections | services/obfuscatorEngine.ts:54-87 | The template is 34 lines in 9 sections, one line per template line. |
| Engine.Prologue | services/obfuscatorEngine.ts:54-58 | The template opens with an empty line and binds the environment handle to `getfenv()`. The body's junk block closes the prologue, ahead of the decoder. |
| Engine.DecoderLines | services/obfuscatorEngine.ts:59-66 | The decoder is declared under its generated name with parameters `s` and `k`. It steps through `s` 4 characters at a time, reads the 3 characters after each step start as a number, subtracts `k` and appends that character, which is what `Payload.LuaDecode` models. |
| Engine.Setup | services/obfuscatorEngine.ts:67-68 | The decoy declaration comes first, then the state variable is declared with its initial value. |
| Engine.LoopHead | services/obfuscatorEngine.ts:69 | The dispatch loop runs until the state is -1. |
| Engine.JunkBranch | services/obfuscatorEngine.ts:70-72 | Above the state `100 + 5 level`, the loop runs the branch junk and moves to state 0. |
| Engine.StoreBranch | services/obfuscatorEngine.ts:73-75 | In state 0, the loop stores the quoted payload in the table's `ptr` entry and moves to state 2. |
| Engine.ExitBranch | services/obfuscatorEngine.ts:76-78 | In state 1, the loop runs the extra junk, if any, and moves to state -1. |
| Engine.RunBranch | services/obfuscatorEngine.ts:79-83 | In state 2, the loop decodes the stored payload with the seed, runs the result through the environment's escaped `loadstring` entry, and moves to state 1. |
| Engine.LoopEnd | services/obfuscatorEngine.ts:84-87 | In any other state, the loop moves to state -1; then the branches and the loop close. |
| Engine.Body | services/obfuscatorEngine.ts:54-88 | The body holds no whitespace and is never longer than the template text. |
| Engine.BodyCompact | services/obfuscatorEngine.ts:88 | The body is the template's words run together, with no whitespace at all. |
| Engine.BodyDeclaresDecoder | services/obfuscatorEngine.ts:59 | The body declares the decoder under its generated name. |
| Engine.BodySetsInitialState | services/obfuscatorEngine.ts:68 | The body sets the state variable to the drawn initial state. |
| Engine.BodyThreshold | services/obfuscatorEngine.ts:70 | The body's first branch compares the state with 100 + 5 level. |
| Engine.BodyStoresPayload | services/obfuscatorEngine.ts:74 | The body stores the quoted payload in the table's `ptr` entry. |
| Engine.BodyCallsDecoder | services/obfuscatorEngine.ts:80 | The body passes the `ptr` entry and the seed to the decoder. |
| Engine.OutputText | services/obfuscatorEngine.ts:94 | The joined output begins with the header, ends with the suffix block, and is exactly as long as the four parts together. |
| Engine.Obfuscate | services/obfuscatorEngine.ts:36-37 | The result is the sentinel exactly when the input is blank (both directions). |
| Engine.ObfuscateLayout | services/obfuscatorEngine.ts:94 | For non-blank input, the result is the header, the prefix, the body and the suffix, in that order. |
| Engine.ObfuscateHeader | services/obfuscatorEngine.ts:90-94 | Every build starts with its header. |
| Engine.ObfuscateIgnoresName | services/obfuscatorEngine.ts:36 | The name argument does not affect the result. |
| Engine.ObfuscateHasBody | services/obfuscatorEngine.ts:94 | The whole body appears in the result. |
| Engine.ObfuscateCarriesPayload | services/obfuscatorEngine.ts:74-80 | The result stores `polymorphicEncode(input)` and passes it, with its seed, to the decoder. |
| Engine.ObfuscateLonger | services/obfuscatorEngine.ts:94 | A build is more than 4 times as long as its input. |

## Left out

- `App.tsx`, the user interface, the counter's storage and the export are not part of this model.
- `flowIntensity` (services/obfuscatorEngine.ts:41) is computed but never read, so it is not modelled.
- Floating point: draws are reals in [0, 1). The text JavaScript prints for a draw is opaque; the model requires only that it is number text.
- Levels are integers. A non-integer level would print differently and scale differently; that is not modelled.
- Engine.Obfuscate: `btoa` throws on a code unit above 0xFF. The model requires Latin-1 input, or blank input, where the sentinel is returned before `btoa` runs. It does not model the exception.
- Payload.PolymorphicEncode: requires Latin-1 input, for the same reason as `btoa`.
- Payload.ToNumber: models Lua `tonumber` only on the slices the decoder can see (backslashes and digits). It does not model hexadecimal, exponent or whitespace forms.
- The Lua runtime meaning of the build is not modelled. That covers the dispatch loop's execution, `getfenv` and `loadstring`, and the run of the decoded chunk. It also covers the effect of the whitespace strip on Lua keywords: for example, `local function` becomes `localfunction`. The model states what text the strip produces, not how Lua would parse it.
- Probability is not modelled. The stream is arbitrary, so every property holds for every sequence of draws, not just on average.
- There is no single lemma from `Engine.Obfuscate` to the decoded payload. `Engine.ObfuscateCarriesPayload` shows that the build holds `polymorphicEncode(input)` and its seed, and `Payload.RoundTripIff` states when the decoder recovers `btoa(input)` from them.
- Base64 encodes the string's code units, as `btoa` does, not a UTF-8 byte encoding of them.
- The encoder writes numerals without padding, although the decoder reads fixed 3-character slices. The model follows the code as written; see Findings.
- The payload is written inside a Lua double-quoted string literal (services/obfuscatorEngine.ts:74). Lua reads each `\ddd` in such a literal as the single character with code ddd. The running decoder at line 62 therefore receives the shifted characters, not the escape text. The model does not process Lua string literals: `Payload.LuaDecode` and every round-trip lemma apply the decoder to the escape text itself. They say nothing about a run of the emitted Lua, where, under either encoder, the decoder would get one character per escape.
- The level comes from a 1-to-10 slider read with `parseInt` (App.tsx:355-360), and the counter from browser storage (App.tsx:34-37). The engine checks neither, so the model accepts any integer for both.
- JsText.IntToString: integers are unbounded. In JavaScript, `counter` and `level` are double-precision numbers: `${n}` prints exponent form from 1e21, and integers above 2^53 are not exact. The model is faithful only for |n| < 2^53. Engine.Header, Engine.HeaderInjective and Engine.JunkCount rely on the unbounded reading.

## Findings

| source | as written | input that shows it | evidently intended | confidence | as-written member | corrected member |
|---|---|---|---|---|---|---|
| services/obfuscatorEngine.ts:18 | Each escape is written with as many digits as `code + seed` needs, while the decoder at line 62 always reads a 3-character slice every 4 characters. Applied to the escape text, a numeral below 100 that is not the last therefore shifts every slice after it, and `tonumber` returns nil. This, like the fix, concerns the decoder applied to the escape text; in the emitted Lua the literal's escapes are processed first (see Left out). | `btoa("a")` is `YQ==`; with seed 5 the payload is `\94\86\66\66`, and its first slice `94\` is not a number. Every input that starts with `pr`, `print('hi')` included, has `H` (code 72) as its second base64 character, so it never decodes whatever the seed. | Zero-pad every numeral to 3 digits, so the decoder's fixed stride reads every escape of the escape text back. | not executed | Payload.MisalignedPayload | Payload.PaddedRoundTrip |

The engine keeps the encoder as written (`Payload.PolymorphicEncode`), since that is what the builds contain. `Payload.RoundTripIff` states exactly which inputs and seeds still decode. `Payload.PaddedEncode` is the corrected encoder, and `Payload.PaddedRoundTrip` proves that it always round-trips.
