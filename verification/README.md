# Best-fit font size cache — a Dafny model

The Tetris skeleton draws a score panel and picks the text size for it with
`FindBestFontSize` (font_cache.c). That one function is modelled here. It has
three parts:

- **Key.** A 64-bit FNV-1a hash. It starts at the offset basis
  0xcbf29ce484222325 and handles each byte as `h := (h xor byte) * 0x100000001b3 mod 2^64`.
  The bytes come in this order: the parameter bytes (font base size, texture id,
  maxWidth, maxHeight, maxSize, minSize, gap), then the characters of `a`, one
  0xFF separator, then the characters of `b`. A null string gives no bytes.
- **Search.** Sizes are tried from `maxSize` down to `minSize`. The first size
  where both strings are at most `maxWidth` wide, and their heights plus `gap`
  are at most `maxHeight`, is the answer. If no size fits, the answer is `minSize`.
- **Table.** A static table of 256 `(key, size, used)` entries. The slot is the
  key's low byte. A hit needs the slot to be used and to hold exactly the key.
  A miss runs the search and overwrites that slot.

Modules, one per concept:

- `Wrappers` (wrappers.dfy): the `Option` type.
- `CStrings` (cstrings.dfy): null pointers and NUL-terminated strings.
- `Fnv` (fnv.dfy): the FNV-1a step and fold.
- `Fingerprint` (fingerprint.dfy): the key stream and the loop that computes it.
- `SizeSearch` (size_search.dfy): the fit test, the downward scan and the loop that mirrors font_cache.c.
- `SizeSearchScenarios` (size_search.dfy): the score panel's call, worked through with a stand-in measurement.
- `DirectMapped` (table.dfy): the 256-slot table.
- `FontCache` (font_cache.dfy): one call as a pure function on the table, the coherence invariant, and a `Cache` class that owns the table as an array.

Text measurement (raylib's `MeasureTextEx`, then the `(int)` casts) is a
parameter `m: (Font, Option<seq<bv8>>, int) -> Dims`. Being a total function
value makes it deterministic. It gets `None` for a null pointer and otherwise
the string's characters before the NUL, so it may measure a null string and an
empty string differently. The parameter bytes of the key are a
per-call input `params`. The number of measurement calls is returned next to
the size, so "a hit measures nothing" can be stated.

The code truncates each height on its own, `(int)A.y + (int)B.y`
(font_cache.c:44), and the measurement returns heights that are already
truncated, so the model's sum is the code's sum.

The separator byte does not separate in every case. If `a` contains no 0xFF
byte, the key stream decides `params`, `a` and `b` (`StreamUnambiguous`). If
`a` may contain 0xFF, ("x\xFF", "") and ("x", "\xFF") give the same stream
(`SeparatorInTextIsAmbiguous`). UTF-8 text never contains the byte 0xFF.

## Model

| member | source | states |
|---|---|---|
| CStrings.UpToNul | font_cache.c:29 | the scanned bytes are the prefix of the memory before its first NUL: none of them is NUL, and the next byte is NUL or the memory ends |
| CStrings.Chars | font_cache.c:29-31 | a null pointer contributes no bytes; otherwise the characters are the prefix of the string's memory before its first NUL: none of them is NUL, and the byte after them is NUL or the memory ends |
| Fnv.FoldSnoc | font_cache.c:22-25 | hashing one more byte is one more FNV-1a step after the hash of the bytes before it |
| Fnv.FoldAppend | font_cache.c:13-31 | hashing a concatenation is hashing the second part from the state the first part left, so the separate loops compute one hash over the whole stream |
| Fnv.TestVectors | font_cache.c:11-12 | the constants give the published FNV-1a 64-bit values: the empty input hashes to 0xcbf29ce484222325 and "a" hashes to 0xaf63dc4c8601ec8c |
| Fingerprint.MixString | font_cache.c:29 | the per-string loop folds exactly the characters before the NUL, and none for a null pointer |
| Fingerprint.ComputeKey | font_cache.c:11-31 | the loops give the FNV-1a hash of params, then a, then 0xFF, then b, from the offset basis |
| Fingerprint.StreamUnambiguous | font_cache.c:28-31 | with parameter prefixes of the same width and no 0xFF in the characters of `a`, equal key streams mean equal parameter bytes and equal characters of `a` and of `b` |
| Fingerprint.SeparatorInTextIsAmbiguous | font_cache.c:29-31 | when `a` contains 0xFF, two different pairs of strings give the same key stream |
| SizeSearch.ScanDown | font_cache.c:41-47 | the scan from a size downward gives a size at most that size and at least minSize; no larger scanned size fits; the result fits, or it is minSize and no size in the range fits |
| SizeSearch.BestFit | font_cache.c:40-48 | an empty range gives minSize; otherwise the result lies in [minSize, maxSize], no larger size up to maxSize fits, and the result fits whenever any size in the range fits, else it is minSize |
| SizeSearch.BestFitCharacterized | font_cache.c:40-48 | the search result is the only size meeting the independent description: the largest fitting size in range, or minSize when none fits or the range is empty |
| SizeSearch.SizesTried | font_cache.c:41-43 | the scan tries no size exactly when minSize > maxSize, and never more sizes than the range holds |
| SizeSearch.SearchSize | font_cache.c:40-48 | the C loop with its break returns the best fit and calls the measurement twice for each size from maxSize down to the answer (zero times for an empty range) |
| SizeSearchScenarios.WideBoxTakesMaxSize | main.c:111-124 | with the panel's box (184 by 84, sizes 20 down to 6, gap 4) and a 0.6/1.2 stand-in measurement, the answer is 20 after one size |
| SizeSearchScenarios.NarrowBoxScansDown | main.c:111-124 | the same call with a box 40 wide scans down to size 11 after ten sizes |
| SizeSearchScenarios.ZeroWidthFallsBack | main.c:111-124 | the same call with a box 0 wide fits nowhere, tries all 15 sizes and falls back to 6 |
| DirectMapped.EmptyTable | font_cache.c:9 | the table starts with 256 entries, none of them used |
| DirectMapped.Slot | font_cache.c:33 | the slot index is below 256 and equals the key modulo 256 |
| DirectMapped.Store | font_cache.c:50-52 | the key's slot becomes (key, size, used) and the other 255 slots are unchanged |
| DirectMapped.EmptyTableMisses | font_cache.c:9 | the initial table misses every key |
| DirectMapped.LookupStoreSame | font_cache.c:35-36 | after a store, looking up the same key returns the stored size |
| DirectMapped.LookupStoreOtherSlot | font_cache.c:33-37 | a store does not change the lookup of a key in another slot |
| DirectMapped.LookupStoreEvicts | font_cache.c:35 | after a store, a different key of the same slot misses |
| DirectMapped.StoreKeepsKeysInOwnSlots | font_cache.c:33-34 | every used entry stays in the slot its own key selects |
| FontCache.Call | font_cache.c:33-54 | a hit returns the stored size, measures nothing and leaves the table alone; a miss returns the best fit for the arguments, writes (key, size, used) into the key's slot only, and measures twice per size tried |
| FontCache.CallOnHit | font_cache.c:35-37 | on a hit the call returns the stored size with no measurement and the same table |
| FontCache.CallOnMiss | font_cache.c:40-52 | on a miss the call returns the search result, stores it under the key in the key's slot, and the table stays coherent with the call recorded in that slot |
| FontCache.EmptyTableCoherent | font_cache.c:9 | the initial table is coherent |
| FontCache.CallKeepsCoherent | font_cache.c:33-52 | after any call every used slot still holds the key of the call that filled it, in that key's slot, with that call's search result |
| FontCache.CallAgreesWithSearch | font_cache.c:33-48 | on a coherent table the answer is the search's answer for the arguments, unless the slot was filled by a different call with the same 64-bit key |
| FontCache.RepeatedCallHits | font_cache.c:33-37 | repeating a call with the same arguments returns the same size, measures nothing and leaves the table unchanged |
| FontCache.EvictedCallIsRecomputed | font_cache.c:33-52 | a call whose entry was overwritten by another key of its slot is searched again and gets the correct size, not the other call's entry |
| FontCache.ReloadedFontHitsStaleEntry | font_cache.c:16-17 | a request that differs only in the font's glyphs gets the same key, so right after the first call the second hits: it returns the first call's size, which on a first-call miss is the old font's best fit, without measuring and without changing the table |
| FontCache.Cache.FindBestFontSize | font_cache.c:6-55 | the array-backed version computes the key with the C loops, checks the slot, searches on a miss and stores, updating its one array in place, doing exactly what `Call` does and keeping the table coherent |

## Left out

- Parameter bytes: font_cache.c reads `sizeof(uintptr_t)` bytes from each of the seven parts (font_cache.c:16-26). On a 64-bit target that reads past the 4-byte `int` arguments, so the bytes need not be a function of the values. The model takes these bytes as a per-call input `params` rather than deriving them.
- Text measurement: raylib's `MeasureTextEx`, its `float` results and the `(int)` casts are one abstract integer-valued function. The model assumes nothing about what it returns for a null pointer or an empty string; it only assumes the answer is the same every time for the same font, text and size.
- Font contents: the rest of a raylib `Font` (glyph metrics, rectangles, padding) is one abstract `glyphs` field that the measurement reads and the key does not. The key reads only the base size and texture id (font_cache.c:16-17). So a font reloaded under the same base size and texture id hits the old font's entry and gets its size (`FontCache.ReloadedFontHitsStaleEntry`).
- C integer width: the model uses unbounded integers. It does not model signed overflow of `(int)A.y + (int)B.y + gap`, or the `--sz` past `INT_MIN` when `minSize` is `INT_MIN`, because both are undefined behaviour in C.
- Strings without a terminator: reading past the end of the memory is undefined in C. The model stops at the end of the memory.
- Collision quality of FNV-1a: its injectivity is not claimed. Hit soundness is stated up to equality of 64-bit keys (`FontCache.CallAgreesWithSearch`).
- Concurrency: the static table is used from one thread, and so is the model.
- main.c: window setup, the frame loop, grid and panel drawing, font loading, and the score clamp with its `%06u` formatting are drawing calls and formatting with no cache logic. The three scenario lemmas only reuse the arguments of the panel's call.
- font_cache.h: it holds only the prototype.
