# X12 837 claim viewer translator, modelled in Dafny

This project models the translator behind the Claim Viewer. It reads an X12
837 (professional, institutional or dental) claim file and returns, for every
claim, a list of twelve named sections: transaction, submitter, receiver,
billing provider, pay-to provider, subscriber, payer, claim, diagnosis,
rendering provider, service facility and service lines. All of it lives in
`parser_for_viewer.py`, which the model covers from the decoded file contents
onward.

- `delimiters.dfy` (module `Delimiters`) finds where the X12 data starts and
  which characters separate elements and terminate segments. With an ISA
  interchange control header, the layout fixed by ASC X12.5 is used: sixteen
  element separators, the one-character ISA16 component separator, then the
  terminator. Without one, the first stand-alone `ST` is used and the
  terminator is found by scanning forward.
- `tokenizer.dfy` (module `Tokenizer`) splits the data into segments: one
  piece per terminator, stripped, blank pieces dropped, then split on the
  element separator, with the upper-cased id.
- `values.dfy` (module `Values`) holds the value helpers `parse_date`,
  `parse_time`, `clean_value`, `clean_code`, `safe_int`, `safe_float` and `el`.
  It models Python's `int()` on ASCII text, sign and `_` grouping included.
- `text.dfy` (module `Text`) holds the string primitives these rely on:
  `strip`, `replace` with the empty string, `split` on one character, and
  `upper`.
- `records.dfy` (module `Records`) has one datatype per dictionary the parser
  fills in. A key that only some segments set is an `Option` field.
- `dispatcher.dfy` (module `Dispatcher`) is the segment loop, modelled as a
  fold of `Step` over the segments.
  - There is one handler per segment id: `ISA`, `ST`, `BHT`, `NM1`, `N3`,
    `N4`, `PER`, `SBR`, `DMG`, `CLM`, `HI`, `DTP`, `REF`, `LX` and `SV1`.
  - The state holds the global records, the current party (`current_entity`),
    the `N3` to `N4` address buffer, the open claim and the closed claims.
  - It also holds the proofs that relate the claims the loop builds to the
    segment list.
- `assembly.dfy` (module `Assembly`) builds the output after the loop and
  composes the whole translation. `ParseForViewer` is the imperative loop,
  proved equal to the functional definition `Translate`.
- `wrappers.dfy` (module `Wrappers`) has `Option`, `Result` and the four
  errors the translator raises:
  - too few ISA separators;
  - no terminator after ISA16;
  - neither ISA nor ST;
  - no claims.

Facts about the code that the model follows:

- Without ISA the code requires an `ST` and raises an error otherwise. It does
  not fall back to default delimiters.
- There is no hierarchical-level (`HL`) stack: the parties are tracked only
  through the last recognised `NM1`.
- All twelve sections are always emitted, empty ones included.
- The ISA split uses `split(ele_sep, 17)`. Its element 16 runs from the
  sixteenth separator to the seventeenth, or to the end of the text when no
  seventeenth separator follows. It holds the rest of the file only in that
  last case, not always as the inline comment says. Element 16 of the full
  split is the same piece, so the model uses the full split.
- On the ST path the terminator differs from the element separator, except
  when the scan finds no candidate and the separator is itself `~`: then the
  default `~` terminator coincides with it. `Delimiters.Detect` states this
  exact condition.

## Model

| member | source | states |
|---|---|---|
| Delimiters.FindIsa | Translator-Project/claim_viewer/priv/python/parser_for_viewer.py:84 | the search for `ISA` in any letter case followed by a non-newline: the result is an occurrence and no earlier position is one, or there is none at all |
| Delimiters.FindSt | Translator-Project/claim_viewer/priv/python/parser_for_viewer.py:118 | the search for an `ST` not preceded by a letter or digit and followed by a character that is neither alphanumeric nor whitespace: the first such position, or none |
| Delimiters.ScanTerminator | Translator-Project/claim_viewer/priv/python/parser_for_viewer.py:130-134 | the terminator is the first character from the `ST` on that is not a letter, digit, separator, space, tab, `:` or `-`, and `~` when there is none |
| Delimiters.Detect | Translator-Project/claim_viewer/priv/python/parser_for_viewer.py:84-134 | the data start lies inside the text; the terminator differs from the separator except on the ST path when both are `~`; the "no ISA or ST" error arises exactly when neither header occurs |
| Delimiters.IsaDelimiters | Translator-Project/claim_viewer/priv/python/parser_for_viewer.py:86-111 | with an ISA, the first one decides: separator right after it, error exactly when fewer than 16 separators follow, error exactly when field 16 is shorter than 2; otherwise the terminator is the character after ISA16, which sits right after the sixteenth separator |
| Delimiters.StDelimiters | Translator-Project/claim_viewer/priv/python/parser_for_viewer.py:113-134 | without ISA, the first stand-alone `ST` gives the start and a non-alphanumeric, non-space separator; the terminator is never alphanumeric, space, tab, `:` or `-`; it is a candidate when one exists and `~` otherwise |
| Tokenizer.SegmentOf | Translator-Project/claim_viewer/priv/python/parser_for_viewer.py:139-145 | a piece without the terminator gives a well-formed segment: non-empty element list, id equal to the upper-cased stripped first element and non-empty, no element holding the terminator or the separator |
| Tokenizer.Tokenize | Translator-Project/claim_viewer/priv/python/parser_for_viewer.py:137-145 | every segment the tokenizer emits is well-formed in that sense |
| Tokenizer.TokenizeConcat | Translator-Project/claim_viewer/priv/python/parser_for_viewer.py:138 | segment order is input order: the text before a terminator yields its segments before those of the text after it |
| Tokenizer.TokenizePiece | Translator-Project/claim_viewer/priv/python/parser_for_viewer.py:139-145 | a single piece yields nothing when blank or when its id is empty, and otherwise exactly one segment with the stripped piece's elements |
| Tokenizer.TokenizeBlank | Translator-Project/claim_viewer/priv/python/parser_for_viewer.py:139-141 | whitespace-only text yields no segment |
| Tokenizer.TrailingTerminator | Translator-Project/claim_viewer/priv/python/parser_for_viewer.py:138-141 | a trailing terminator followed by whitespace, such as a final newline, adds no segment |
| Tokenizer.ReadSegments | Translator-Project/claim_viewer/priv/python/parser_for_viewer.py:84-147 | reading fails exactly when delimiter detection fails, with its error; otherwise it returns the detected delimiters and the segments of the text from the detected start, all well-formed |
| Text.StripSpaces | Translator-Project/claim_viewer/priv/python/parser_for_viewer.py:139 | `strip()` is a slice of its input with only whitespace before and after it, itself neither starting nor ending with whitespace; it is empty exactly when the input is all whitespace |
| Text.RemoveChar | Translator-Project/claim_viewer/priv/python/parser_for_viewer.py:187 | `replace(c, '')` keeps exactly the characters other than `c`, and is shorter by the number of occurrences of `c` |
| Text.RemoveConcat | Translator-Project/claim_viewer/priv/python/parser_for_viewer.py:187 | removal works piece by piece and keeps the order of what it keeps |
| Text.Upper | Translator-Project/claim_viewer/priv/python/parser_for_viewer.py:143 | upper-casing keeps the length and maps each character on its own |
| Text.UpperIdempotent | Translator-Project/claim_viewer/priv/python/parser_for_viewer.py:143 | upper-casing twice is upper-casing once, and leaves no lower-case ASCII letter |
| Text.SplitJoin | Translator-Project/claim_viewer/priv/python/parser_for_viewer.py:142 | joining the pieces of a split with the separator gives back the text |
| Text.JoinSplit | Translator-Project/claim_viewer/priv/python/parser_for_viewer.py:142 | splitting the join of separator-free pieces gives back the pieces |
| Text.SplitConcat | Translator-Project/claim_viewer/priv/python/parser_for_viewer.py:138 | splitting text with one more separator in it gives the two splits one after the other |
| Text.SplitLast | Translator-Project/claim_viewer/priv/python/parser_for_viewer.py:199 | the last piece of a split is the longest separator-free suffix |
| Text.SplitPieceAt | Translator-Project/claim_viewer/priv/python/parser_for_viewer.py:99-111 | piece `k` of a split starts right after the `k`-th separator |
| Values.ParseDate | Translator-Project/claim_viewer/priv/python/parser_for_viewer.py:154-164 | an 8-character date becomes 10 characters with `-` at positions 4 and 7, and removing the dashes gives back the input; any other length is returned unchanged |
| Values.ParseTime | Translator-Project/claim_viewer/priv/python/parser_for_viewer.py:167-177 | text of 4 or more characters becomes `HH:MM` from its first four characters; shorter text is returned unchanged |
| Values.CleanValueShape | Translator-Project/claim_viewer/priv/python/parser_for_viewer.py:180-187 | a cleaned value has no `~`, no surrounding whitespace and no character the input lacks; a value that already has neither is returned as is |
| Values.CleanValueIdempotent | Translator-Project/claim_viewer/priv/python/parser_for_viewer.py:180-187 | cleaning twice is cleaning once |
| Values.CleanCodeLastComponent | Translator-Project/claim_viewer/priv/python/parser_for_viewer.py:190-199 | a cleaned code has no `:` and is the suffix of the cleaned value after its last `:`, or the whole cleaned value when it has none |
| Values.LastPieceSuffix | Translator-Project/claim_viewer/priv/python/parser_for_viewer.py:199 | `split(':')[-1]` is the longest suffix free of `:` |
| Values.El | Translator-Project/claim_viewer/priv/python/parser_for_viewer.py:228-233 | the element at the index when it is in range, the default otherwise |
| Values.SafeInt | Translator-Project/claim_viewer/priv/python/parser_for_viewer.py:202-211 | empty input gives the default; a value `int()` reads as a non-zero number gives that number; a value it rejects or reads as zero gives the default (the `or default` of the source) |
| Values.ParseIntText | Translator-Project/claim_viewer/priv/python/parser_for_viewer.py:209 | `int()` reads back the decimal text of every integer |
| Values.SafeIntText | Translator-Project/claim_viewer/priv/python/parser_for_viewer.py:202-211 | `safe_int` reads back every non-zero integer written as text, and turns `0` into the default, following `or default` |
| Dispatcher.OnIsa | Translator-Project/claim_viewer/priv/python/parser_for_viewer.py:282-285 | `ISA` names the submitter after element 6 and names and identifies the receiver after element 8; nothing else changes |
| Dispatcher.OnSt | Translator-Project/claim_viewer/priv/python/parser_for_viewer.py:289-292 | `ST` sets type, control number and version from elements 1 to 3; the other transaction fields and the rest of the state stay |
| Dispatcher.OnBht | Translator-Project/claim_viewer/priv/python/parser_for_viewer.py:296-300 | `BHT` sets purpose and reference id, and the reformatted date and time; nothing else changes |
| Dispatcher.EntityOf | Translator-Project/claim_viewer/priv/python/parser_for_viewer.py:314-367 | the `NM1` code table: 41 submitter, 40 receiver, 85 billing, 87 pay-to, IL subscriber, PR payer, 82 rendering provider, 77 facility, each in both directions, and no party for any other code |
| Dispatcher.OnNm1 | Translator-Project/claim_viewer/priv/python/parser_for_viewer.py:308-367 | an unknown code changes nothing, not even the current party; for each known code, the whole resulting state: the party becomes current and only its record changes, taking name (element 3), first name (4) and id (9) as that record holds them and a fresh empty address for billing, pay-to, subscriber and facility; a payer goes into the open claim, or is the global payer outside one; rendering provider and facility are recorded only inside a claim |
| Dispatcher.OnN3 | Translator-Project/claim_viewer/priv/python/parser_for_viewer.py:371-374 | `N3` buffers a street-only address for the current party, possibly none; the other buffered addresses stay, no other key appears, and nothing else changes |
| Dispatcher.OnN4 | Translator-Project/claim_viewer/priv/python/parser_for_viewer.py:378-395 | without a buffered address nothing changes; otherwise the buffer is completed with city, state and zip from elements 1 to 3 and becomes the address of the billing provider, pay-to provider or subscriber, or of the open claim's facility when it has one, whichever party is current; only the buffer and that record change |
| Dispatcher.OnPer | Translator-Project/claim_viewer/priv/python/parser_for_viewer.py:399-405 | the contact (elements 2, 4 and 6) is set only while the submitter is current, and nothing else changes, in the submitter or elsewhere |
| Dispatcher.OnSbr | Translator-Project/claim_viewer/priv/python/parser_for_viewer.py:409-412 | relationship is element 2, or `self` when that is empty; group number and plan type come from elements 3 and 5; nothing else changes, in the subscriber or elsewhere |
| Dispatcher.OnDmg | Translator-Project/claim_viewer/priv/python/parser_for_viewer.py:416-419 | birth date (element 2, reformatted) and sex (element 3) are set only while the subscriber is current; nothing else changes, in the subscriber or elsewhere |
| Dispatcher.NewClaim | Translator-Project/claim_viewer/priv/python/parser_for_viewer.py:427-443 | a new claim carries the `CLM` id (element 1), the `safe_float` total charge (element 2), the indicators assigned, provider signature, release and patient signature from elements 7, 6, 9 and 8 with an empty related cause, and starts with empty service type, onset date, clearinghouse number, diagnosis, lines and place of service, and no payer, rendering provider or facility |
| Dispatcher.OnClm | Translator-Project/claim_viewer/priv/python/parser_for_viewer.py:423-443 | `CLM` closes the open claim, if any, and opens a new one: the claims handed to assembly grow by exactly the new claim |
| Dispatcher.HiElement | Translator-Project/claim_viewer/priv/python/parser_for_viewer.py:449-455 | one element of `HI`: an empty code changes nothing, and a code from element 2 on is appended to the secondary codes |
| Dispatcher.HiFrom | Translator-Project/claim_viewer/priv/python/parser_for_viewer.py:448-455 | the `HI` loop only appends to the secondary codes, and from element 2 on it leaves the primary code alone |
| Dispatcher.HiSecondary | Translator-Project/claim_viewer/priv/python/parser_for_viewer.py:448-455 | from element 2 on, the `HI` loop only appends the non-empty codes, in element order |
| Dispatcher.HiDiagnosis | Translator-Project/claim_viewer/priv/python/parser_for_viewer.py:447-455 | after `HI`, primary is element 1's code when non-empty and otherwise unchanged; secondary gains the non-empty codes of elements 2 onward, in order |
| Dispatcher.CodesClean | Translator-Project/claim_viewer/priv/python/parser_for_viewer.py:450-451 | every code appended by `HI` is non-empty and free of `:` |
| Dispatcher.OnHi | Translator-Project/claim_viewer/priv/python/parser_for_viewer.py:447-455 | `HI` changes only the open claim's diagnosis |
| Dispatcher.OnDtp | Translator-Project/claim_viewer/priv/python/parser_for_viewer.py:460-467 | qualifier 472 dates the last service line and changes nothing else, and nothing at all without a line; 431 and 454 set the onset date of the open claim and change nothing else; any other qualifier, or no open claim, changes nothing |
| Dispatcher.OnRef | Translator-Project/claim_viewer/priv/python/parser_for_viewer.py:471-473 | only qualifier D9 changes anything, and only the clearinghouse claim number |
| Dispatcher.NewLine | Translator-Project/claim_viewer/priv/python/parser_for_viewer.py:478-488 | a new line is numbered by `safe_int` of element 1; its qualifiers, procedure code, emergency indicator and service date are empty, charge and units the integer 0, and it has no place of service or pointer yet |
| Dispatcher.OnLx | Translator-Project/claim_viewer/priv/python/parser_for_viewer.py:477-488 | `LX` appends exactly one new line to the open claim |
| Dispatcher.Sv1Line | Translator-Project/claim_viewer/priv/python/parser_for_viewer.py:493-515 | `SV1` keeps the line's number, date and emergency indicator; a code without `:` is the procedure code, a composite one gives `parts[0]` as qualifier and `parts[1]` as code; charge and units are `safe_float` of elements 2 and 4, unit qualifier element 3; a non-empty place of service replaces the old; the pointer is set exactly when the raw element 7 is non-empty |
| Dispatcher.OnSv1 | Translator-Project/claim_viewer/priv/python/parser_for_viewer.py:492-515 | only the last line is rewritten; the claim takes the place of service only while it has none |
| Dispatcher.KindOf | Translator-Project/claim_viewer/priv/python/parser_for_viewer.py:282-492 | the dispatch table: each of the fifteen handled ids gets its own handler, in both directions, and every other id is skipped |
| Dispatcher.Step | Translator-Project/claim_viewer/priv/python/parser_for_viewer.py:278-515 | one iteration: an unhandled id changes nothing; only `CLM` touches the closed claims, adding exactly one new claim; no other segment opens or drops the open claim |
| Dispatcher.Run | Translator-Project/claim_viewer/priv/python/parser_for_viewer.py:278-519 | after the loop there are as many claims as before plus one per `CLM`, and a list of only unhandled ids changes nothing |
| Dispatcher.RunPrefix | Translator-Project/claim_viewer/priv/python/parser_for_viewer.py:278 | the loop handles segments one at a time, in order |
| Dispatcher.AllClaims | Translator-Project/claim_viewer/priv/python/parser_for_viewer.py:518-519 | the claims after the loop are the closed claims followed by the open one, if any |
| Dispatcher.StepClaims | Translator-Project/claim_viewer/priv/python/parser_for_viewer.py:423-515 | only `CLM` closes or opens a claim; otherwise the open claim keeps its id, gains a line exactly on `LX`, and takes a place of service only from an `SV1` while it has a line and none yet |
| Dispatcher.ClaimsFromSegments | Translator-Project/claim_viewer/priv/python/parser_for_viewer.py:423-519 | the claims match the `CLM` groups one for one and in order: each has its `CLM`'s id, one line per `LX` of its group numbered as the `LX` says, and the first qualifying `SV1` place of service |
| Dispatcher.ClaimCount | Translator-Project/claim_viewer/priv/python/parser_for_viewer.py:423-519 | as many claims as `CLM` segments |
| Dispatcher.ClosedClaimsFrozen | Translator-Project/claim_viewer/priv/python/parser_for_viewer.py:424-425 | a closed claim is never changed again |
| Dispatcher.NoPlace | Translator-Project/claim_viewer/priv/python/parser_for_viewer.py:507-511 | a claim's place of service is empty exactly when no `SV1` after an `LX` in its group brings a non-empty one |
| Dispatcher.FirstPlace | Translator-Project/claim_viewer/priv/python/parser_for_viewer.py:507-511 | otherwise it is the place of service of the first such `SV1` |
| Dispatcher.UnknownSegment | Translator-Project/claim_viewer/priv/python/parser_for_viewer.py:278-515 | a segment id the loop does not handle changes nothing |
| Dispatcher.HiStep | Translator-Project/claim_viewer/priv/python/parser_for_viewer.py:447-455 | `HI` without an open claim changes nothing; inside one it sets the diagnosis as in `HiDiagnosis` and nothing else |
| Dispatcher.Sv1Step | Translator-Project/claim_viewer/priv/python/parser_for_viewer.py:492-515 | `SV1` never adds a line: without a claim or line it changes nothing, otherwise it keeps the count, the earlier lines, and the last line's number and date |
| Dispatcher.DtpServiceDate | Translator-Project/claim_viewer/priv/python/parser_for_viewer.py:464-465 | `DTP*472` dates only the last line, and changes nothing without one |
| Assembly.PayToOrBilling | Translator-Project/claim_viewer/priv/python/parser_for_viewer.py:522-523 | the pay-to provider is replaced by the billing provider exactly when its name is missing or empty |
| Assembly.GlobalSections | Translator-Project/claim_viewer/priv/python/parser_for_viewer.py:558-564 | the six shared sections, named in order, holding the transaction, submitter, receiver, billing provider, pay-to provider with the billing fallback, and subscriber |
| Assembly.ClaimSections | Translator-Project/claim_viewer/priv/python/parser_for_viewer.py:557-579 | twelve sections named in the fixed order; the payer falls back to the global payer, the rendering provider to `{}`, and the facility to the billing provider |
| Assembly.Results | Translator-Project/claim_viewer/priv/python/parser_for_viewer.py:555-580 | one section list per claim, in claim order |
| Assembly.Translate | Translator-Project/claim_viewer/priv/python/parser_for_viewer.py:240-584 | delimiter errors pass through; after a successful read the only error is the no-claims one; a result holds one section list per claim the loop built |
| Assembly.Finish | Translator-Project/claim_viewer/priv/python/parser_for_viewer.py:518-584 | the error is the no-claims error and arises exactly without claims; one claim gives a flat list, several a list of lists |
| Assembly.FinishOutcome | Translator-Project/claim_viewer/priv/python/parser_for_viewer.py:525-584 | with `n` claims: an error exactly when `n` is 0, otherwise `n` lists of twelve named sections, flat exactly when `n` is 1 |
| Assembly.NamedSections | Translator-Project/claim_viewer/priv/python/parser_for_viewer.py:558-579 | every section list of the output has the twelve names in order |
| Assembly.TranslateOutcome | Translator-Project/claim_viewer/priv/python/parser_for_viewer.py:276-584 | delimiter errors pass through; no `CLM` means the no-claims error; otherwise one list of twelve named sections per `CLM`, a single one returned flat |
| Assembly.SharedSections | Translator-Project/claim_viewer/priv/python/parser_for_viewer.py:557-565 | every claim shows the same first six sections: the records as the last segment left them |
| Assembly.RunLoop | Translator-Project/claim_viewer/priv/python/parser_for_viewer.py:278-515 | the in-place loop computes the fold of `Step` over the segments |
| Assembly.ParseForViewer | Translator-Project/claim_viewer/priv/python/parser_for_viewer.py:240-584 | the translator with the in-place loop gives the functional translation: delimiter errors pass through, no `CLM` is the no-claims error, otherwise one list of twelve named sections per `CLM`, a single one returned flat |

## Left out

- File reading, the UTF-8 byte-order-mark strip and the decoding with UTF-8, cp1252 and latin-1 fallbacks (lines 60-78): byte I/O and codecs. The model starts from the decoded text.
- Unicode letter classes: `isalnum`, `upper` and `IGNORECASE` are restricted to ASCII letters and digits. `int()` accepts ASCII digits only, not other Unicode decimal digits. `strip()` and `\s` use the full whitespace set of `str.isspace`.
- `safe_float` (lines 214-225) is floating-point parsing. A charge or unit count is kept as its cleaned text (`Amount.FloatOf`), standing for the float Python would read from it (0.0 when empty or not a number). The integer literal `0` of a fresh service line is `Amount.IntZero`.
- The wording of the no-claims message (lines 528-550) is message formatting. Only the error itself is modelled.
- The catch-all that rewraps any other exception (lines 586-589). The model has no other failure: every index the code takes is in range or guarded.
- `main()`, argument handling, directory creation and `json.dump` (lines 596-633), and `validate_json.py`: process and file plumbing. JSON key order is not modelled either.
- Dispatcher.OnN4: addresses are values, while in Python the buffered address dictionary is shared with the record it was attached to. The two differ only for an `N4` with no `N3` after it when the same party is current again, for instance a facility address of an earlier claim. That address is changed in place by Python and left alone by the model.
- Values.SafeInt: follows `int()` without the digit limit of Python 3.11 and later. Python raises on text of more than 4300 digits, and `safe_int` then returns the default. `Values.ParseInt` reads any length, so an `LX` or `SV1` element with that many digits gives the number in the model and the default in Python.
- Diagnosis pointers and service-line amounts are typed (`DiagnosisPointer`, `Amount`) rather than the mix of `""`, integers and floats the dictionaries hold.
