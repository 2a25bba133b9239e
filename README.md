# ASHD receipt pipeline: a verified Dafny model

ASHD turns photographed receipts and PDF invoices into product records and
reminds users before refund and warranty deadlines. This project models the
sequential logic at its centre and proves what that logic promises:

- the **redaction engine** (`app/core/redaction.py`): the per-line masking passes
  (approval and terminal numbers, account numbers, keyword-gated and 4-4-4-4
  card numbers, the strict-mode Luhn candidates, e-mail, phone, keyword-gated
  resident registration numbers), the digit maskers, the Luhn check of
  ISO/IEC 7812-1 Annex B, and the walk over nested values;
- the **rule extractor** (`app/extractors/rule.py`): `parse_date` with its four
  `strptime` formats, `parse_amount`, and the label and pattern scans of
  `extract_fields_with_rules`;
- the **document pipeline** (`app/services/document_processing.py`): the field
  helpers, the PDF page-count policy, and `process_document_job` as a class
  holding the job, document and product tables;
- **notification selection and counting** (`app/services/notification_service.py`);
- the **small parsers and filters**: the Vision OCR reply flattener and request
  payload (`app/ocr/external.py`), the response-header filter and dispatch
  decisions of the redaction middleware (`app/api/middlewares/redaction.py`), the
  LLM JSON slice extractor (`app/extractors/llm.py`) and the OpenAI-compatible
  prompt builder and reply reader (`app/llm/openai_compat.py`).

Regular expressions are written as hand-made matchers over `seq<char>`: ASCII
digits only, and Hangul letters as word characters for `\b`. `re.sub` is a
leftmost scan over a table of matches. Python values are the datatype
`Values.Value` (None, bool, int, str, date, list, tuple, set, dict and a
record kind for Pydantic models). The OCR adapter, the LLM adapter, the
senders, `json.loads`/`json.dumps`, the environment, the settings and the
clock are parameters.

Imperative code is modelled as methods with loops. Each method is proved to
compute a specification function, and the lemmas are stated about those
functions. This covers the digit maskers, the Luhn check, the strict
candidate splice, the lines of `redact_text`, `parse_date`, the dictionary
filling of `extract_fields_with_rules`, `merge_fields`, `normalize_fields`,
`serialize_fields`, `_collect_due_items`, `_format_alert_message`, the send
loops of `send_daily_alerts`, the OCR reply loops, `_filter_raw_headers` and
`process_document_job`.

Files: `common.dfy` (strings, Python string built-ins), `values.dfy` (dates and
Python values), `redaction_masks.dfy`, `redaction_patterns.dfy`,
`redaction.dfy`, `redaction_gating.dfy` (which passes touch which numbers, and
the card, RRN and barcode lines of the redaction tests), `redaction_vectors.dfy`
(the keyword-number, e-mail and phone matches, and the phone, e-mail, approval,
transaction and account lines of the redaction tests), `redaction_structure.dfy`, `date_parsing.dfy`,
`rule_extractor.dfy`, `document_processing.dfy`, `notification.dfy`,
`ocr_external.dfy`, `redaction_middleware.dfy`, `openai_compat.dfy`,
`llm_extractor.dfy`.

## Model

| member | source | states |
|---|---|---|
| Common.Lower | app/core/redaction.py:80 | `str.lower` on ASCII: same length, every character lower-cased on its own |
| Common.FindFrom | app/extractors/llm.py:65 | `str.find`: the first index from i holding the character, None exactly when there is none |
| Common.RFindBefore | app/extractors/llm.py:66 | `str.rfind`: the last index holding the character, None exactly when there is none |
| Common.Strip | app/extractors/rule.py:46 | `str.strip`: a slice of the input, only white space cut off either end, none left at either end |
| Common.SplitLines | app/core/redaction.py:213 | `str.splitlines`: some line exactly when the text is non-empty, and no line holds a line break |
| Common.SplitOnJoin | app/core/redaction.py:244 | splitting a `"\n"` join of break-free lines at `"\n"` gives the lines back |
| Common.JoinHasNo | app/core/redaction.py:244 | a join holds no character that neither the parts nor the separator hold |
| Common.DigitsOf | app/extractors/rule.py:31 | `re.sub(r"[^0-9]", "", v)`: only digits, never longer than the input |
| Common.DigitsOfAppend | app/core/redaction.py:87 | the digits of a concatenation are the concatenated digits |
| Common.NatToString | app/services/document_processing.py:111 | the decimal text of a count is a non-empty digit string |
| Common.NatOfNatToString | app/extractors/rule.py:34 | `int()` of the decimal text of n is n |
| Dates.OrdinalNextDay | app/services/notification_service.py:81 | the ordinal of the next day is one more, across month and year ends and leap days |
| Dates.DaysBetweenCalendar | app/services/notification_service.py:81 | `(a - b).days`: the next day is one ahead, a date is 0 from itself, the difference is antisymmetric and adds up along a chain |
| Dates.IsoFormat | app/services/document_processing.py:74-75 | `date.isoformat`: ten characters, dashes at 4 and 7, digits elsewhere |
| Values.IntToString | app/ocr/external.py:114 | `str()` of an int starts with `-` exactly when it is negative |
| DateParsing.MonthAlts | app/extractors/rule.py:19-22 | every way `%m` can match at p ends after p and reads a month 1-12 |
| DateParsing.DayAlts | app/extractors/rule.py:19-22 | every way `%d` can match at q ends after q and reads a day 1-31 |
| DateParsing.AfterSep | app/extractors/rule.py:19-22 | the literal separator of a format is consumed exactly when it is there |
| DateParsing.FirstMonth | app/extractors/rule.py:22 | the first month alternative that a day can follow; None when none can |
| DateParsing.Strptime | app/extractors/rule.py:22 | a parsed date is a valid calendar date, its year is the first four digits, and the separator is at index 4 |
| DateParsing.ParseFrom | app/extractors/rule.py:20-25 | the first format from i that parses wins; None exactly when every remaining format fails |
| DateParsing.ParsedDate | app/extractors/rule.py:11-25 | `parse_date`: a valid date, or None exactly when all four formats fail on the stripped text |
| DateParsing.ParseDate | app/extractors/rule.py:11-25 | the loop over the formats with its early return computes ParsedDate |
| DateParsing.Formatted | app/extractors/rule.py:19 | a valid date written in a format with a separator has 10 characters, without one 8 |
| DateParsing.StrptimeFormatted | app/extractors/rule.py:19-22 | a valid date written in a format parses back under that format |
| DateParsing.StrptimeOtherSep | app/extractors/rule.py:19-22 | written with one separator, it does not parse under a format with another |
| DateParsing.EarlierFormatsFail | app/extractors/rule.py:20-24 | every format before k fails on a date written in format k |
| DateParsing.ParsedDateRoundTrip | app/extractors/rule.py:11-25 | `parse_date` gives back every valid date written in any of its four formats |
| DateParsing.IsoRoundTrip | app/extractors/rule.py:19 | `parse_date(d.isoformat())` is d |
| RedactionMasks.KeptLast | app/core/redaction.py:85-103 | the masked text has the length of the input |
| RedactionMasks.DigitMask | app/core/redaction.py:88-93 | the masked digit string: `*` everywhere except the last keep_last digits, which are kept only when there are more digits than that |
| RedactionMasks.MaskDigitsKeepLast | app/core/redaction.py:85-103 | `_mask_digits_keep_last`: the loop with its index counter computes KeptLast |
| RedactionMasks.KeptLastDigits | app/core/redaction.py:85-103 | same length, every non-digit in place, and the digits left are exactly the last keep_last (none when there are no more than that) |
| RedactionMasks.KeptLastNoDigits | app/core/redaction.py:87-89 | a digit-free input comes back unchanged |
| RedactionMasks.AllMasked | app/core/redaction.py:107-115 | the masked text has the length of the input |
| RedactionMasks.MaskDigitsAll | app/core/redaction.py:107-115 | `_mask_digits_all`: same length, no digit left, every non-digit in place, and masking again changes nothing |
| RedactionMasks.AllMaskedIsKeptLastZero | app/core/redaction.py:107-115 | masking all digits is keeping none of them |
| RedactionMasks.AllMaskedNoDigits | app/core/redaction.py:107-115 | no digit survives `_mask_digits_all` |
| RedactionMasks.LuhnCheck | app/core/redaction.py:159-172 | `_luhn_check` is true exactly for a non-empty digit string whose Luhn sum is 0 mod 10 |
| RedactionMasks.LuhnStep | app/core/redaction.py:165-171 | the sum adds each digit's term by its position from the right, doubling odd positions and subtracting 9 above 9 |
| RedactionMasks.LuhnSumDiff | app/core/redaction.py:159-172 | two digit strings that differ at one place have sums differing by the two terms there |
| RedactionMasks.LuhnDetectsSingleDigitError | app/core/redaction.py:159-172 | a single changed digit changes the sum mod 10, so at most one of the two passes |
| RedactionMasks.LuhnAcceptsTestCard | tests/test_redaction.py:87-93 | `4111111111111111` passes the check |
| RedactionMasks.LuhnRejectsAlteredCard | tests/test_redaction.py:96-101 | `4111111111111112` fails it |
| RedactionMasks.MaskKeywordNumber | app/core/redaction.py:119-124 | `_mask_keyword_number`: keyword and separator kept, no digit left in the number, same length |
| RedactionMasks.MaskEmail | app/core/redaction.py:135-143 | `_mask_email`: `*@domain` for a local part of at most one character, else its first character, `***` and `@domain`; the domain is unchanged |
| RedactionMasks.MaskRrn | app/core/redaction.py:128-131 | `_mask_rrn`: the front kept, eight characters after it, and no digit added |
| RedactionMasks.KeywordFound | app/core/redaction.py:78-81 | a listed keyword that occurs in the text is found |
| RedactionMasks.KeywordIgnoresCase | app/core/redaction.py:78-81 | `_contains_keyword` gives the same answer for the lower-cased text |
| RedactionPatterns.KeywordMatch | app/core/redaction.py:41-47 | an approval or account match starts at i, lies in the text and carries at least the pattern's minimum of number characters |
| RedactionPatterns.LooseMatch | app/core/redaction.py:35 | a loose card match starts at i and lies in the text |
| RedactionPatterns.LooseFrom | app/core/redaction.py:35 | the greedy `(?:\d[ -]?){11,18}\d\b` tail ends after its start |
| RedactionPatterns.PhoneMatch | app/core/redaction.py:50 | a phone match ends after its start, inside the text |
| RedactionPatterns.EmailMatch | app/core/redaction.py:59 | an e-mail match has its `@` between the local part and the domain |
| RedactionPatterns.RrnMatch | app/core/redaction.py:53 | an RRN match starts with six digits, which form its first group |
| RedactionPatterns.MatchAt | app/core/redaction.py:35-59 | every pattern's match at i lies inside the text from i |
| RedactionPatterns.SubSkip | app/core/redaction.py:220 | `re.sub` copies the text up to the next match verbatim |
| RedactionPatterns.SubNoMatch | app/core/redaction.py:220 | without a match `re.sub` changes nothing |
| RedactionPatterns.SubAtMatch | app/core/redaction.py:220 | at a match `re.sub` writes the callback's text and resumes after the match |
| RedactionPatterns.FindAllEmpty | app/core/redaction.py:178-180 | `finditer` finds nothing exactly when no position matches |
| RedactionPatterns.FindAllHead | app/core/redaction.py:178 | the first match found is the leftmost, and the search resumes at its end |
| RedactionPatterns.SubMasksOnly | app/core/redaction.py:220-228 | the approval, account and card passes turn digits into `*` and change nothing else |
| RedactionPatterns.SubChars | app/core/redaction.py:220-240 | every character a pass writes is one of its input's or a mask character |
| RedactionPatterns.GroupedCardMasked | app/core/redaction.py:228 | a 4-4-4-4 group between word boundaries is replaced in place, keeping only its last four digits |
| RedactionPatterns.GroupedKeptDigits | app/core/redaction.py:147-149 | the only digits left of a masked group are its last four |
| RedactionPatterns.GroupedFirstPass | app/core/redaction.py:228 | a group followed by a short tail is masked once and the tail kept |
| RedactionPatterns.GroupedSecondPass | app/core/redaction.py:228 | the kept four digits and a following 4-4-4 run form a new group that the next pass masks |
| RedactionPatterns.GroupedNotIdempotent | app/core/redaction.py:228 | a group followed by 15 characters that form a new group with its last four digits: the second pass changes the first pass's output |
| Redaction.StrictEnabled | app/core/redaction.py:63-74 | `_is_strict_enabled`: the lower-cased variable is one of `1`, `true`, `yes`, `on` when set, else the truth of the setting (false when it cannot be read) |
| Redaction.RedactedLines | app/core/redaction.py:216-242 | one redacted line per input line, in order |
| Redaction.SameMatches | app/core/redaction.py:178 | the strict candidates are the loose card pattern's matches |
| Redaction.CandidateStep | app/core/redaction.py:184-194 | one splice step: the text before the match, the candidate's replacement, then the rest from its end |
| Redaction.MaskCardCandidatesStrict | app/core/redaction.py:176-197 | `_mask_card_candidates_strict`: the splice loop computes the substitution that masks exactly the `*`-free 13-19-digit Luhn-valid candidates, copying all else |
| Redaction.RedactLine | app/core/redaction.py:216-242 | the straight-line passes compute RedactedLine; what RedactedLine does under each keyword is stated by the RedactionGating lemmas (loose runs masked only under a card keyword, RRNs only under an RRN keyword, 4-4-4-4 groups always) |
| Redaction.RedactLines | app/core/redaction.py:213-242 | the line loop computes RedactedLines |
| Redaction.RedactText | app/core/redaction.py:201-244 | `redact_text` computes RedactedText under the effective strictness: an explicit flag, else the environment, else the settings; what RedactedText does to card numbers, RRNs and unlabelled numbers is stated by the RedactionGating lemmas, and what it does to phone numbers, e-mail addresses and labelled approval, transaction, terminal and account numbers by the RedactionVectors lemmas |
| Redaction.RedactedLineChars | app/core/redaction.py:216-242 | every character of a redacted line comes from the line or is a mask character |
| Redaction.RedactedLineNoNewline | app/core/redaction.py:216-242 | redaction adds no line break to a line |
| Redaction.RedactedTextLines | app/core/redaction.py:213-244 | the output's `"\n"` lines are the redacted `splitlines` lines, as many as the input has |
| Redaction.CardStagesMaskOnly | app/core/redaction.py:220-232 | the passes before e-mail change only digits, each into `*` |
| RedactionGating.FewDigitsNoMatch | app/core/redaction.py:227-240 | no card, phone or RRN match starts where fewer than nine digits follow |
| RedactionGating.QuietText | app/core/redaction.py:227-240 | a text with fewer than nine digits and no `@` is left alone by every pass but the two keyword-number passes |
| RedactionGating.NoKeywordNumbers | app/core/redaction.py:220-223 | approval and account numbers are only masked after one of their keywords |
| RedactionGating.NoKeywordInitialMissing | app/core/redaction.py:226 | `_contains_keyword` is false on a line where no keyword's first letter occurs, in either case |
| RedactionGating.LooseRunMaskedWithCardKeyword | app/core/redaction.py:226-227 | on a line that names a card, a 12-19-digit run between non-word characters keeps only its last four digits, in either mode |
| RedactionGating.LooseRunKeptWithoutCardKeyword | app/core/redaction.py:226-232 | on a line that names no card and no RRN, the same run is kept, and in strict mode too when it fails the candidate test |
| RedactionGating.GroupedCardAlwaysMasked | app/core/redaction.py:225-228 | a 4-4-4-4 group between non-word characters keeps only its last four digits whether or not a card is named |
| RedactionGating.RrnMaskedWithRrnKeyword | app/core/redaction.py:238-240 | on a line that names an RRN, an RRN keeps its first six digits and its last seven become `-*******` |
| RedactionGating.RrnKeptWithoutRrnKeyword | app/core/redaction.py:238-240 | on a line that names no RRN, the RRN is kept |
| RedactionGating.LineKept | app/core/redaction.py:216-242 | a line on which no pass matches and no keyword is named comes out unchanged |
| RedactionGating.SingleLineText | app/core/redaction.py:209-244 | a non-empty text without line breaks is redacted as one line |
| RedactionGating.KeptLastRun | app/core/redaction.py:85-97 | in a run of digits all but the last `keep` become `*` |
| RedactionGating.BarcodeAmountDateKept | tests/test_redaction.py:77-83 | the barcode, amount and date line comes out unchanged |
| RedactionGating.RrnMaskedInText | tests/test_redaction.py:60-65 | `주민번호: 900101-1234567` becomes `주민번호: 900101-*******` |
| RedactionGating.UnlabeledCardMaskedStrict | tests/test_redaction.py:87-92 | `결제내역 4111111111111111` in strict mode becomes `결제내역 ************1111` |
| RedactionGating.LuhnFailKeptStrict | tests/test_redaction.py:96-100 | `코드 4111111111111112` comes out unchanged in strict mode |
| RedactionGating.LabelledCardMasked | tests/test_redaction.py:7-12 | `카드번호: 1234-5678-9012-3456` becomes `카드번호: ****-****-****-3456` |
| RedactionGating.NumberTextUnlabelled | app/core/redaction.py:220-240 | a text of digits, `-` and `*` names no keyword, so the keyword-gated passes skip it |
| RedactionGating.NumberLineChanged | app/core/redaction.py:228-236 | when the 4-4-4-4 pass masks a digit of such a text, the redacted line differs from it |
| RedactionGating.RedactedTextNotIdempotent | app/core/redaction.py:201-244 | `1111-2222-3333-4444-5555-6666-7777` redacts to `****-****-****-4444-5555-6666-7777`, which a second call changes |
| RedactionVectors.FewDigitsNoCard | app/core/redaction.py:35-38 | with fewer than twelve digits no card pattern, loose, grouped or strict candidate, changes the text |
| RedactionVectors.DigitFreePhoneRrn | app/core/redaction.py:50-53 | without digits neither the phone nor the RRN pattern changes the text |
| RedactionVectors.KeywordPassesOnly | app/core/redaction.py:216-242 | once the approval and account passes leave no digit and no `@`, the line is their result and holds no digit, in either mode |
| RedactionVectors.ApprovalPassAbsent | app/core/redaction.py:41-44 | the approval pass leaves a text without any approval keyword's initial unchanged |
| RedactionVectors.AccountPassAbsent | app/core/redaction.py:47 | the account pass leaves a text without any account keyword's initial unchanged |
| RedactionVectors.KeywordMatchRun | app/core/redaction.py:41-47 | a keyword-number match ends exactly where the run of `[0-9*\- ]` characters after its separator ends (greedy third group) |
| RedactionVectors.KeywordSkip | app/core/redaction.py:41-47 | alternatives that do not occur at a position are skipped, in the pattern's order |
| RedactionVectors.ColonTail | app/core/redaction.py:42 | after a keyword, a colon, one space and a long enough run: `\s*[:：]?\s*` takes the colon and the space and the number is the whole run |
| RedactionVectors.KeywordAt | app/core/redaction.py:41-47 | the first alternative that occurs, with a separator and number after it, gives the match |
| RedactionVectors.LabelledNumberMatch | app/core/redaction.py:41-47 | keyword, `: ` and a run of at least the minimum of number characters: the groups are the keyword, `: ` and the whole run |
| RedactionVectors.ApprovalMatchAt | app/core/redaction.py:41-44 | the approval pattern matches such a labelled run of four or more characters |
| RedactionVectors.AccountMatchAt | app/core/redaction.py:47 | the account pattern matches such a labelled run of six or more characters |
| RedactionVectors.NoNumberPairNoKeywordNumbers | app/core/redaction.py:41-47 | a line with no two number characters side by side has no approval or account match, whatever keywords it holds |
| RedactionVectors.KeywordPassAt | app/core/redaction.py:119-124 | at a keyword match the pass emits keyword, separator and the number with every digit masked, then goes on after it |
| RedactionVectors.ApprovalLabelledLine | app/core/redaction.py:119-124 | a line `keyword: number` becomes `keyword: ` and the number with every digit replaced by `*` |
| RedactionVectors.AccountLabelledLine | app/core/redaction.py:119-124 | the same for an account keyword |
| RedactionVectors.ApprovalTwoAt | app/core/redaction.py:220 | two labelled approval numbers in a row, the second keyword right after the first run: both numbers are fully masked, the keywords and separators kept |
| RedactionVectors.ApprovalTwoLabelled | app/core/redaction.py:220 | the same stated on the line `kw1: num1kw2: num2` |
| RedactionVectors.LastMatchLine | app/core/redaction.py:220-240 | `re.sub` on a text whose one match runs to its end keeps the text before it and appends the replacement |
| RedactionVectors.DomainBack | app/core/redaction.py:59 | the greedy `[A-Za-z0-9.-]+` backs off to the last dot after which the rest of the pattern matches |
| RedactionVectors.DomainTail | app/core/redaction.py:59 | a domain of host, dot and two or more letters is matched to its end |
| RedactionVectors.EmailNotBefore | app/core/redaction.py:59 | no e-mail match starts in text without `@` that ends with a character the local part cannot hold |
| RedactionVectors.EmailMatchAt | app/core/redaction.py:59 | a local part of 1 to 64 characters after a non-word character, `@` and such a domain at the end of the text is one match, group 1 the local part and group 2 the domain |
| RedactionVectors.EmailLineAt | app/core/redaction.py:135-144 | the e-mail pass keeps the text before such an address and replaces the address by `_mask_email` of its groups |
| RedactionVectors.EmailLineSub | app/core/redaction.py:235 | the same stated on `pre + local@host.tld` |
| RedactionVectors.PhoneRunMatch | app/core/redaction.py:50 | a run of nine to eleven digits starting with `0` between word boundaries is one phone match |
| RedactionVectors.FramedPhoneSub | app/core/redaction.py:153-156 | the phone pass turns such a framed run into all `*` but its last four digits |
| RedactionVectors.FramedPhoneRunMasked | app/core/redaction.py:216-242 | on a line with no keyword number, such a run keeps only its last four digits, in either mode and whatever keywords the line holds |
| RedactionVectors.KeywordPassesOnlyText | app/core/redaction.py:201-244 | a one-line text whose keyword passes leave no digit and no `@` redacts to their result |
| RedactionVectors.EmailOnlyText | app/core/redaction.py:201-244 | a one-line text without digits and without adjacent number characters is changed by the e-mail pass alone |
| RedactionVectors.PhoneMaskedInText | tests/test_redaction.py:15-20 | `전화: 01012345678` becomes `전화: *******5678`, so it ends with `5678` and no longer holds the number, in either mode |
| RedactionVectors.EmailMaskedInText | tests/test_redaction.py:33-38 | `문의: user@example.com` becomes `문의: u***@example.com`, in either mode |
| RedactionVectors.ApprovalMaskedInText | tests/test_redaction.py:42-47 | `승인번호: 99887766` becomes `승인번호: ********`, in either mode |
| RedactionVectors.TransactionMaskedInText | tests/test_redaction.py:50-56 | `거래번호: 2023-9988 단말기ID: 123456` becomes `거래번호: ****-**** 단말기ID: ******`, in either mode; `단말기ID` is tried before `단말기` |
| RedactionVectors.AccountMaskedInText | tests/test_redaction.py:69-74 | `계좌번호: 110-123-456789` becomes `계좌번호: ***-***-******`, in either mode |
| RedactionStructure.RedactInStructure | app/core/redaction.py:248-268 | strings redacted; list, tuple and set kinds kept, list and tuple lengths kept; dict and model keys kept; skipped keys' values identical; other scalars unchanged |
| RedactionStructure.RedactKeepsShape | app/core/redaction.py:248-268 | with the strings erased, the output is the input: same container kinds, lengths, keys and scalars |
| RedactionStructure.RedactedEntry | app/core/redaction.py:258-265 | each dict entry is the value as it was under a skipped key, else its redaction |
| RedactionStructure.TextsRedacted | app/core/redaction.py:248-268 | every string of the output is the redaction of a string of the input, or an input string kept under a skipped key |
| RedactionStructure.RedactDictKeys | app/core/redaction.py:272-290 | same keys; skipped keys' values and non-dict values under other keys returned as they were |
| RedactionStructure.DictKeysKeepShape | app/core/redaction.py:272-290 | with strings erased, `redact_dict_keys` returns its input |
| RedactionStructure.DictKeysTexts | app/core/redaction.py:272-290 | every string it returns was in the input or is the redaction of one |
| RuleExtractor.ParseAmountNone | app/extractors/rule.py:29-34 | `parse_amount` is None exactly when the text holds no digit |
| RuleExtractor.ParseAmountRoundTrip | app/extractors/rule.py:29-34 | the decimal text of n gives n |
| RuleExtractor.ParseAmountIgnoresNonDigits | app/extractors/rule.py:29-34 | digit-free separators change nothing (`12,000` gives 12000) |
| RuleExtractor.RunEnd | app/extractors/rule.py:72 | the end of the longest run of a character class |
| RuleExtractor.SearchFrom | app/extractors/rule.py:65 | `re.search`: the leftmost position where the pattern matches; None when there is none |
| RuleExtractor.SearchFinds | app/extractors/rule.py:65 | a match at p with none before it is what the search returns |
| RuleExtractor.DateGroupAt | app/extractors/rule.py:65 | a date token starts at i with a digit and lies in the text |
| RuleExtractor.AmountGroupAt | app/extractors/rule.py:72 | the amount group is a non-empty run of digits and commas |
| RuleExtractor.OrderGroupAt | app/extractors/rule.py:79 | the order number is a non-empty run of letters, digits and dashes after the label |
| RuleExtractor.PhoneTailAt | app/extractors/rule.py:84 | `\d{3,4}-\d{4}` at p: four or three digits, a dash, four digits |
| RuleExtractor.PhoneGroupAt | app/extractors/rule.py:84 | a phone token starts at i and lies in the text |
| RuleExtractor.PhoneGroupShaped | app/extractors/rule.py:84 | the token has the shape NN(N)-NNN(N)-NNNN |
| RuleExtractor.KeywordDateAt | app/extractors/rule.py:89-95 | the deadline group after the keyword has 8 to 10 date characters |
| RuleExtractor.PurchaseDate | app/extractors/rule.py:65-69 | the purchase date, when found, is a valid date |
| RuleExtractor.OrderId | app/extractors/rule.py:79-81 | the order id, when found, is a non-empty run of letters, digits and dashes |
| RuleExtractor.Phone | app/extractors/rule.py:84-86 | the contact, when found, has the phone shape |
| RuleExtractor.KeywordDate | app/extractors/rule.py:89-99 | a deadline, when found, is a valid date |
| RuleExtractor.NonBlank | app/extractors/rule.py:46 | no kept line is empty |
| RuleExtractor.NonBlankEmpty | app/extractors/rule.py:46 | no line is kept exactly when every line strips to nothing |
| RuleExtractor.ColonFrom | app/extractors/rule.py:51 | the first `:` or `：` from i; None when there is none |
| RuleExtractor.LabelIndex | app/extractors/rule.py:49-54 | the first line from i holding a label and a separator; None when there is none |
| RuleExtractor.Take | app/extractors/rule.py:103 | `s[:255]`: a prefix of at most 255 characters, the whole text when it is short enough |
| RuleExtractor.SearchAll | app/extractors/rule.py:64-99 | the whole-text searches find a valid purchase date, a non-negative amount, an order id with characters, a phone-shaped contact and valid deadlines |
| RuleExtractor.FindLabelled | app/extractors/rule.py:49-62 | the label loop with its `break` computes LabelValue |
| RuleExtractor.SetText | app/extractors/rule.py:53-86 | a found text is stored under its key, else nothing changes |
| RuleExtractor.SetDate | app/extractors/rule.py:69-99 | a found date is stored under its key, else nothing changes |
| RuleExtractor.AddSearchedFields | app/extractors/rule.py:64-99 | the searches add exactly the fields they find |
| RuleExtractor.AddTitleFallback | app/extractors/rule.py:101-103 | the first line, cut to 255 characters, is the title when there is none and some line is left |
| RuleExtractor.ExtractFieldsWithRules | app/extractors/rule.py:38-105 | `extract_fields_with_rules` computes RuleFields |
| RuleExtractor.RuleFieldsFromKeys | app/extractors/rule.py:45-105 | the keys are among the eight field names |
| RuleExtractor.RuleFieldsFromStore | app/extractors/rule.py:49-54 | `store` is present exactly when a labelled line gives it, with that value |
| RuleExtractor.RuleFieldsFromTitle | app/extractors/rule.py:56-103 | `title` is the labelled value, else the first line cut to 255; absent only without lines |
| RuleExtractor.FallbackKeeps | app/extractors/rule.py:101-103 | the fallback touches no key but `title` |
| RuleExtractor.RuleFieldsFromDates | app/extractors/rule.py:64-99 | each date key is present exactly when its search parsed a date, with that date |
| RuleExtractor.RuleFieldsFromOthers | app/extractors/rule.py:71-86 | amount, order id and contact are present exactly when found, with the found value |
| RuleExtractor.RuleFieldsKeys | app/extractors/rule.py:45-105 | nothing is defaulted: every key is one of the eight field names |
| RuleExtractor.RuleFieldsTitle | app/extractors/rule.py:56-103 | `title` is absent exactly for blank text; the labelled value wins, else the first non-blank line cut to 255 |
| RuleExtractor.HasNonBlankLine | app/extractors/rule.py:46-102 | some line is kept exactly when some line is not blank |
| RuleExtractor.RuleFieldsStore | app/extractors/rule.py:49-54 | `store` is present exactly when some kept line carries a store label and a separator, and it is the trimmed text after the first separator of the first such line |
| RuleExtractor.RuleFieldsTyped | app/extractors/rule.py:64-99 | dates are valid dates, the amount a non-negative int, the contact phone-shaped, the order id non-empty |
| RuleExtractor.PurchaseDateFound | app/extractors/rule.py:65-69 | a valid ISO date after digit-free text is the purchase date found |
| RuleExtractor.AmountFound | app/extractors/rule.py:72-76 | a number followed by `원`, after text without digits or commas, is the amount |
| RuleExtractor.RuleFieldsPurchaseDate | app/extractors/rule.py:64-69 | such a date reaches the returned fields |
| DocumentFields.NeedsLlmIff | app/services/document_processing.py:24-33 | `needs_llm` is false exactly when title, purchase date, amount and store are all present and truthy |
| DocumentFields.ZeroAmountNeedsLlm | app/services/document_processing.py:33 | an amount of 0 counts as missing |
| DocumentFields.Merged | app/services/document_processing.py:37-43 | keys of both sides; a rule value kept unless None or `""`; LLM values fill exactly those gaps |
| DocumentFields.MergeFields | app/services/document_processing.py:37-43 | the copy-then-update loop computes Merged |
| DocumentFields.MergedIdentity | app/services/document_processing.py:37-43 | merging with nothing on either side changes nothing |
| DocumentFields.MergedKeepsZero | app/services/document_processing.py:41 | a rule amount of 0 is kept |
| DocumentFields.DateNormalized | app/services/document_processing.py:52-57 | a value becomes a date exactly when it was one or is a string that parses |
| DocumentFields.AmountNormalized | app/services/document_processing.py:60-64 | a value becomes an int exactly when it was one or is a string with some digit |
| DocumentFields.Normalized | app/services/document_processing.py:47-66 | the key set is kept |
| DocumentFields.NormalizeFields | app/services/document_processing.py:47-66 | the loop over the date keys and the amount step compute Normalized |
| DocumentFields.NormalizedKeeps | app/services/document_processing.py:47-66 | other keys, unparseable date strings and digit-free amount strings stay as they were |
| DocumentFields.NormalizedIdempotent | app/services/document_processing.py:47-66 | normalizing twice is normalizing once |
| DocumentFields.Serialized | app/services/document_processing.py:70-78 | the key set is kept |
| DocumentFields.SerializeFields | app/services/document_processing.py:70-78 | the loop computes Serialized |
| DocumentFields.SerializedNoDates | app/services/document_processing.py:70-78 | no date survives and every other value is identical |
| DocumentFields.SerializedDatesRoundTrip | app/services/document_processing.py:52-78 | normalizing a serialized date gives the date back |
| DocumentFields.FileName | app/services/document_processing.py:84 | `Path.name` holds no `/` |
| DocumentFields.Suffix | app/services/document_processing.py:84 | `Path.suffix`: empty, or the last dot and what follows, never the whole name |
| DocumentFields.IsPdfIff | app/services/document_processing.py:82-84 | `_is_pdf` exactly when the file name has something before a final `.pdf`, in any case |
| DocumentFields.SkipSpaceBytes | app/services/document_processing.py:96 | `\s*` over bytes ends at the first non-space |
| DocumentFields.MarkerEnd | app/services/document_processing.py:96 | a page marker, when one starts at i, is at least ten bytes long |
| DocumentFields.CountPdfPages | app/services/document_processing.py:88-99 | `_count_pdf_pages`: the number of markers, None rather than 0 when there is none or the file cannot be read |
| DocumentFields.PagesUpTo | app/services/document_processing.py:112-114 | `list(range(1, n + 1))` |
| DocumentFields.SelectPdfPages | app/services/document_processing.py:103-114 | unknown count gives `[1,2,3]`; above 3 gives `[1,2,3]` with `PDF pages truncated: processed 3 of N`; otherwise `[1..N]`; always contiguous from 1 and at most 3 pages |
| DocumentFields.MarkerLinesCounted | app/services/document_processing.py:96-99 | a slash-free header followed by n `/Type /Page` lines holds n markers |
| DocumentFields.FourPagePdf | tests/test_documents.py:201-216 | the four-marker PDF of the upload test counts 4 pages and gets pages `[1,2,3]` with the truncation warning |
| DocumentProcessing.PdfPlan | app/services/document_processing.py:140-144 | pages and warning only for a PDF; its pages start at 1 and number 1 to 3 |
| DocumentProcessing.SelectPages | app/services/document_processing.py:140-144 | computes PdfPlan |
| DocumentProcessing.PdfPlanOnlyForPdf | app/services/document_processing.py:141-144 | no pages and no warning for other files; `[1,2,3]` without warning for an uncountable PDF |
| DocumentProcessing.ProductOf | app/services/document_processing.py:170-184 | the product's title is always truthy and is the extracted one when that is truthy; user, path and raw text are the ones given |
| DocumentProcessing.Extract | app/services/document_processing.py:154-198 | the steps after the document check compute Extracted |
| DocumentProcessing.RunAttempt | app/services/document_processing.py:139-198 | the OCR call and the steps after it compute Attempted |
| DocumentProcessing.DocumentsAfter | app/services/document_processing.py:149-199 | no document is added or removed |
| DocumentProcessing.EarlyFailures | app/services/document_processing.py:145-151 | an OCR error, blank OCR text and a missing document each fail with their message |
| DocumentProcessing.LlmCalledOnlyWhenNeeded | app/services/document_processing.py:162-164 | the LLM receives the unredacted text exactly when `needs_llm` holds of the rule fields |
| DocumentProcessing.ExtractedOutcome | app/services/document_processing.py:154-207 | stored raw text is the redacted text; a needed LLM call that raises fails the attempt before any product, parsed fields or evidence |
| DocumentProcessing.ExtractedProductOutcome | app/services/document_processing.py:166-207 | once the fields are known: the attempt is stuck exactly when the database rejects the product row, and then writes nothing more; otherwise the product of the normalized merged fields is stored, the parsed fields when their `json.dumps` succeeds, the evidence when both encodings succeed, and the first encoding error is the failure |
| DocumentProcessing.RuleStoreKept | app/services/document_processing.py:166-177 | a non-blank rule store reaches the product |
| DocumentProcessing.MergedNormalizedStore | app/services/document_processing.py:166-167 | merging and normalizing keep a non-blank rule store |
| DocumentProcessing.StoredTextRedacted | app/services/document_processing.py:154-183 | the document's and the product's raw text are `redact_text` of the OCR text |
| DocumentProcessing.JobSettles | app/services/document_processing.py:185-214 | a stuck attempt (the product commit failed, so the handler's own commit raises) leaves the job as it was; otherwise the job ends completed exactly without a failure and failed exactly with one; a failure stores the redacted message and keeps the old product id; a success stores the new product id and the redacted warning, if any |
| DocumentProcessing.CompletedHasProduct | app/services/document_processing.py:185-207 | a success has a product, parsed fields and evidence; a stuck attempt has failed and has no product; a product beside a failure means an encoding raised after the product commit, and no evidence is stored |
| DocumentProcessing.ProductBesideFailedJob | app/services/document_processing.py:185-214 | when the product row is accepted but `json.dumps` raises, the product is created, the job fails with its old product id, and the document still points at the new product |
| DocumentProcessing.RejectedRowLeavesJob | app/services/document_processing.py:185-214 | when the database rejects the product row, no product is created and neither the job nor the document changes |
| DocumentProcessing.AttemptWritesInOrder | app/services/document_processing.py:149-199 | a product is only written after the raw text, parsed fields only after a product, evidence only after parsed fields |
| DocumentProcessing.DocumentUpdates | app/services/document_processing.py:155-198 | the document is untouched when OCR failed or the product commit failed; otherwise it gets the redacted text, the product id, the parsed fields and the evidence each when it exists |
| DocumentProcessing.JobStore.constructor | app/services/document_processing.py:127 | the tables start as given, with no products, commits or adapter calls |
| DocumentProcessing.JobStore.Start | app/services/document_processing.py:132-136 | the job becomes processing and is committed; nothing else changes |
| DocumentProcessing.JobStore.Record | app/services/document_processing.py:138-214 | the attempt's product, document fields and final job state are written, and the adapter calls logged; a stuck attempt adds no final commit |
| DocumentProcessing.JobStore.Commit | app/services/document_processing.py:132-214 | the processing commit, then the settled status unless the attempt is stuck |
| DocumentProcessing.JobStore.ProcessDocumentJob | app/services/document_processing.py:118-214 | a missing job changes nothing; otherwise the job is committed processing, then completed or failed unless the product commit failed, the tables change as the attempt dictates, and OCR and LLM calls are logged |
| Notification.ParseDays | app/services/notification_service.py:58-72 | the decoded list when it is a list of ints, else the fallback |
| Notification.ItemOf | app/services/notification_service.py:101-108 | an item carries the product's fields, a missing id as 0 |
| Notification.DueItems | app/services/notification_service.py:86-110 | no more items than products |
| Notification.CollectDueItems | app/services/notification_service.py:86-110 | the loop computes DueItems |
| Notification.DueItemsExact | app/services/notification_service.py:86-110 | every due product gives an item and every item comes from a due product |
| Notification.IsDueCalendar | app/services/notification_service.py:76-82 | `_is_due`: no missing date is due; tomorrow is due exactly for 1 and today exactly for 0 |
| Notification.DueItemsSingle | app/services/notification_service.py:95-110 | one product gives its item exactly when it is due, else nothing |
| Notification.DueItemsConcat | app/services/notification_service.py:95-110 | the items of two runs of products are the first run's items followed by the second's |
| Notification.NoDueProducts | app/services/notification_service.py:95-99 | no due product, no item |
| Notification.AlertLines | app/services/notification_service.py:114-120 | 2 + n lines: the dated header, `임박 항목:`, then `- title` per item in order |
| Notification.FormatAlertMessage | app/services/notification_service.py:114-120 | the loop computes the `"\n"` join of AlertLines |
| Notification.MessageLines | app/services/notification_service.py:114-120 | split at `"\n"`, the message gives back exactly those lines |
| Notification.AllTrue | app/services/notification_service.py:127-135 | Python's `all`: true exactly when every listed value is true |
| Notification.EmailConfiguredAll | app/services/notification_service.py:124-136 | `_is_email_configured` holds exactly when `all` of host, port, user name, password and sender is truthy, in that order |
| Notification.EmailNeedsEverySetting | app/services/notification_service.py:124-136 | any one of the five SMTP settings unset or empty, or a port of 0, leaves e-mail unconfigured, whatever the others are |
| Notification.EmailConfiguredWhenSet | app/services/notification_service.py:124-136 | four non-empty strings and a non-zero port configure e-mail; a negative port counts as truthy |
| Notification.TelegramConfiguredIff | app/services/notification_service.py:139-143 | `_is_telegram_configured` holds exactly when the bot token is set and not empty |
| Notification.ChannelsConfiguredIndependently | app/services/notification_service.py:124-143 | the bot token does not affect the e-mail answer and the SMTP settings do not affect the Telegram answer |
| Notification.EmailTargets | app/services/notification_service.py:211 | at most one target per alert |
| Notification.TelegramTargets | app/services/notification_service.py:212 | at most one target per alert |
| Notification.SkippedFor | app/services/notification_service.py:214-230 | a channel is skipped exactly when it has targets and is not configured; the reason follows the two flags |
| Notification.ParseInt | app/services/notification_service.py:252 | `int()` succeeds only on text with something left after stripping |
| Notification.ParseIntAccepts | app/services/notification_service.py:252 | `int()` accepts exactly a stripped text of a digit, or a sign with more after it, followed by digits only, with at most 4300 digits |
| Notification.ParseIntOfIntToString | app/services/notification_service.py:252 | `int(str(n)) == n` when `str(n)` has at most 4300 digits, and `int()` raises beyond that |
| Notification.EmailPass | app/services/notification_service.py:235-245 | no more e-mails sent than targets |
| Notification.TelegramPass | app/services/notification_service.py:247-262 | no more messages sent than targets |
| Notification.SendEmails | app/services/notification_service.py:235-245 | the e-mail loop computes EmailPass |
| Notification.SendTelegrams | app/services/notification_service.py:247-262 | the Telegram loop computes TelegramPass |
| Notification.SendDailyAlerts | app/services/notification_service.py:196-273 | `send_daily_alerts` computes DailySummary |
| Notification.EmailPassAccounts | app/services/notification_service.py:235-245 | every e-mail target is either sent or gives exactly one error |
| Notification.TelegramPassAccounts | app/services/notification_service.py:247-262 | every Telegram target is either sent or gives exactly one error |
| Notification.TelegramAttemptsParsed | app/services/notification_service.py:248-259 | messages go only to chat ids that parse as ints |
| Notification.SummaryCounters | app/services/notification_service.py:208-273 | processed is the number of alerts; sent never exceeds targets and is 0 for an unconfigured channel; sent and errors account for every configured target |
| Notification.UnconfiguredSkipsBoth | tests/test_notification_service.py:31-57 | with nothing configured both channels are skipped with `email_and_telegram_not_configured` and nothing is sent |
| Notification.ConfiguredEmailSends | tests/test_notification_service.py:62-87 | a configured e-mail that succeeds counts one sent and no error |
| Notification.InvalidChatId | app/services/notification_service.py:251-255 | a non-integer chat id gives `telegram_invalid_chat_id_user_{id}` and no message |
| OcrExternal.NewExternalClient | app/ocr/external.py:19-24 | the constructor fails with `OCR base_url/api_key is required` exactly when either is empty |
| OcrExternal.BuildOcrClient | app/ocr/external.py:134-138 | the external client exactly when both are truthy, else the mock |
| OcrExternal.BuildPayload | app/ocr/external.py:50-69 | one request under `requests` |
| OcrExternal.PayloadShape | app/ocr/external.py:54-69 | a PDF gets `inputConfig` with `application/pdf` and `DOCUMENT_TEXT_DETECTION`, `pages` only for a non-empty list; an image gets `image` and `TEXT_DETECTION` |
| OcrExternal.PagesOnlyForPdf | app/ocr/external.py:34-60 | `pages` is sent exactly for a PDF with a non-empty page list, and holds those pages |
| OcrExternal.FlattenFiles | app/ocr/external.py:93-100 | flattening the files fails only with the fixed file error or a malformed reply |
| OcrExternal.CollectImageResponses | app/ocr/external.py:91-102 | the extend loop computes FlattenFiles |
| OcrExternal.CollectTexts | app/ocr/external.py:104-119 | the item loop computes ItemTexts |
| OcrExternal.ParseResponse | app/ocr/external.py:85-120 | `_parse_response` computes ParsedResponse |
| OcrExternal.NoResponses | app/ocr/external.py:87-89 | a reply without responses gives `""` |
| OcrExternal.FileErrorIsFixed | app/ocr/external.py:94-98 | a file-level error raises the fixed error (or an earlier malformed file's), never its own message |
| OcrExternal.NonDictSkipped | app/ocr/external.py:106-107 | a non-dict item contributes nothing |
| OcrExternal.ItemErrorMessage | app/ocr/external.py:108-110 | an item error raises its message, or `OCR error` |
| OcrExternal.FullTextWins | app/ocr/external.py:112-115 | a non-empty full text is the item's text |
| OcrExternal.ItemTextsOkIff | app/ocr/external.py:104-119 | the items give texts exactly when none raises, at most one per item |
| OcrExternal.ImagesAnnotateShape | tests/test_ocr_parser.py:11-22 | the images:annotate reply gives `이미지 텍스트` |
| OcrExternal.FilesAnnotateShape | tests/test_ocr_parser.py:25-36 | the nested files:annotate reply gives `PDF 텍스트` |
| RedactionMiddleware.FilterRawHeaders | app/api/middlewares/redaction.py:33-59 | the loop with its seen flag computes FilteredHeaders |
| RedactionMiddleware.TypeHeaders | app/api/middlewares/redaction.py:46 | the content-type headers, in order |
| RedactionMiddleware.PrefixTypeStep | app/api/middlewares/redaction.py:46-51 | a header of another name does not change whether a content-type was seen |
| RedactionMiddleware.TypeHeadersConcat | app/api/middlewares/redaction.py:46 | the content-type headers of a concatenation are the concatenated ones |
| RedactionMiddleware.OtherHeadersConcat | app/api/middlewares/redaction.py:53-54 | so are the other headers |
| RedactionMiddleware.AddedHeader | app/api/middlewares/redaction.py:56-57 | the appended header is a content-type and not a content-length |
| RedactionMiddleware.TypeHeadersEmpty | app/api/middlewares/redaction.py:46-50 | no content-type header exactly when none is seen |
| RedactionMiddleware.KeptHeaders | app/api/middlewares/redaction.py:41-54 | no content-length left; the first content-type only, unless one was seen; every other header kept in order |
| RedactionMiddleware.FilteredHeadersSpec | app/api/middlewares/redaction.py:33-59 | no content-length; one content-type, the input's first or else the given one appended at the end; all other headers, duplicates included, in order; at most one header more |
| RedactionMiddleware.CookiesKept | tests/test_health.py:31-36 | both `set-cookie` headers survive, and only the first content-type |
| RedactionMiddleware.HeaderGet | app/api/middlewares/redaction.py:78 | a header lookup finds a value exactly when some name matches without regard to case |
| RedactionMiddleware.CollectBody | app/api/middlewares/redaction.py:83-86 | the body is the chunks joined |
| RedactionMiddleware.Dispatch | app/api/middlewares/redaction.py:67-120 | `dispatch` computes Dispatched, including the `UnicodeDecodeError` its handler does not catch and an encoding error writing the body back |
| RedactionMiddleware.PassThroughUntouched | app/api/middlewares/redaction.py:71-81 | streaming and file responses, `/auth` paths and non-JSON bodies come back untouched |
| RedactionMiddleware.BrokenJsonKept | app/api/middlewares/redaction.py:88-101 | a body that is text but not JSON is kept byte for byte with its status and media type, and the headers are filtered |
| RedactionMiddleware.DispatchRaises | app/api/middlewares/redaction.py:88-110 | `dispatch` raises exactly for a JSON response whose bytes are not text (`except json.JSONDecodeError` does not catch `UnicodeDecodeError`) or whose redacted value `json.dumps` cannot encode |
| RedactionMiddleware.RedactedBodyTexts | app/api/middlewares/redaction.py:104-108 | the redacted body keeps its shape, and each of its strings is a body string redacted once or twice |
| RedactionMiddleware.JsonBodyRedacted | app/api/middlewares/redaction.py:103-120 | a decoded body is returned exactly when its redaction encodes, written back as that encoding, with the status and one content-type, the response's first |
| RedactionMiddleware.TypeHeaderPresent | app/api/middlewares/redaction.py:78-81 | a response that reaches the body step has a content-type header |
| OpenAiCompat.StripSlashes | app/llm/openai_compat.py:16 | `rstrip("/")`: a prefix without a final slash, only slashes cut |
| OpenAiCompat.NewLlmClient | app/llm/openai_compat.py:15-19 | the client keeps the URL without trailing slashes, and the key, model and timeout |
| OpenAiCompat.UrlHasOneSlash | app/llm/openai_compat.py:16-31 | the endpoint is the stripped URL plus `/chat/completions`, one slash between them |
| OpenAiCompat.Snippets | app/llm/openai_compat.py:48 | only non-empty snippets, each from the evidence |
| OpenAiCompat.SnippetsConcat | app/llm/openai_compat.py:48 | snippets keep the evidence order |
| OpenAiCompat.SnippetsOne | app/llm/openai_compat.py:48 | a missing or empty snippet is dropped, a non-empty one kept |
| OpenAiCompat.PromptShape | app/llm/openai_compat.py:44-51 | the question alone without usable snippets; otherwise question, `"\n"`, `"\n근거:\n"` and the snippets joined by `"\n"` |
| OpenAiCompat.SingleSnippetPrompt | app/llm/openai_compat.py:44-51 | the prompt for a single snippet |
| OpenAiCompat.RequestFor | app/llm/openai_compat.py:24-38 | the request goes to the endpoint with the bearer key and the model, system message first and the prompt second |
| OpenAiCompat.ParsedReply | app/llm/openai_compat.py:54-60 | `""` when `choices` is missing or empty; any text returned has no white space at either end |
| OpenAiCompat.ContentText | app/llm/openai_compat.py:60 | `str(content).strip()`: nothing white at the ends, `""` without content |
| OpenAiCompat.ReplyContent | app/llm/openai_compat.py:56-60 | the first choice's message content, stripped, whatever follows |
| OpenAiCompat.NullContent | app/llm/openai_compat.py:60 | a null content reads `None`, as `str(None)` |
| LlmExtractor.ParsedJsonSpec | app/extractors/llm.py:55-73 | exactly the slice from the first `{` to the last `}` is decoded; `{}` for empty text, a missing brace, reversed braces or a decode error |
| LlmExtractor.FencedReply | app/extractors/llm.py:65-71 | a reply in a code fence still gives its object |
| LlmExtractor.BracesReversed | app/extractors/llm.py:67-68 | a `}` before the first `{` gives `{}` |
| LlmExtractor.MockExtract | app/extractors/llm.py:49-51 | always exactly `title` `LLM-보완-제품` and `store` `LLM-상점` |
| LlmExtractor.ExtractionPrompt | app/extractors/llm.py:32-40 | the extraction request carries the instruction and then the OCR text under the evidence heading |
| LlmExtractor.BuildLlmExtractor | app/extractors/llm.py:77-86 | the Solar extractor exactly when both URL and key are truthy, with a 20-second timeout; else the mock |

## Left out

- I/O is not modelled: file reads, base64, HTTP and `urlopen`, SMTP and Telegram. File bytes, adapters, senders and decoded replies are parameters. `ExternalOCRClient.extract_text`, `SolarLLMFieldExtractor.extract` and `OpenAICompatibleLLMClient.generate` are modelled as compositions over an `exchange` parameter (`OcrExternal.ExtractText`, `LlmExtractor.SolarExtract`, `OpenAiCompat.Generate`). They carry no contract of their own: what they promise is stated about their parts.
- `_build_request_url` depends on urllib's URL parsing and is not part of this model.
- The phone-variants line of tests/test_redaction.py:24-29 (`02-123-4567 / 010 1234 5678`, numbers with separators) has no lemma of its own. The phone lemmas cover runs of nine to eleven plain digits; the pattern's separators are modelled in `RedactionPatterns` but no lemma states a separated number's replacement.
- Environment, settings, `date.today()` and `utc_now` are parameters; timestamps are not stored.
- `_is_strict_enabled` takes the setting as an Option: None stands for a settings object without the field. The repository's config class has no `REDACTION_STRICT` field, so in the repository as it stands the setting path always gives false.
- `AppSettings` (app/core/config.py:14-48) also has no `LLM_BASE_URL`, `LLM_API_KEY`, `LLM_MODEL`, `OCR_API_URL`, `OCR_API_KEY` or `OCR_TIMEOUT_SECONDS` field. So `build_llm_extractor` (app/extractors/llm.py:80) and the OCR client factory of app/api/routes/documents.py:34 raise `AttributeError` in the repository as it stands. The model takes these values as parameters and does not model that error.
- Database sessions and ORM models are left out. The job, document and product tables are maps and a sequence in `JobStore`. Whether the database accepts the product row at the commit of app/services/document_processing.py:186 is a parameter (`RowCheck`): a rejection, such as an unparsed date string in a date column, leaves the session needing a rollback. The handler's own commit at :213 then raises, so the job stays processing and nothing else is written. Which values a given database rejects is not modelled.
- `process_document_job` computes the attempt before it applies the processing commit and the final commit, in that order. The attempt reads nothing the first commit writes, so the tables end up as in the code.
- An exception after the product commit (a `RecursionError` in `redact_in_structure` or `json.dumps` on deeply nested fields, or an encoding error) leaves the product row beside a failed job. The model represents it only as an `Err` of the `JsonDumps` parameter: Python's recursion limit itself is not modelled, and the redaction walk is total on the values modelled.
- DocumentProcessing.CompletedHasProduct: a product does not imply a completed job, because the source can leave a product row beside a failed job (`DocumentProcessing.ProductBesideFailedJob`).
- Concurrency, background tasks and async/await are not modelled.
- `generate_daily_alerts` is pure database querying and is left out; `run_daily_alerts` only chains it to `send_daily_alerts`.
- Regular expressions are per-pattern matchers over ASCII digits. Unicode digit classes and full regex-engine semantics are left out. Line breaks and white space are the ASCII ones plus the Unicode separators `str.splitlines` and `str.isspace` name.
- `.lower()` is ASCII lower-casing. Header names decoded from latin-1 are compared the same way, and the latin-1 encode error for a non-latin-1 content type is not modelled.
- `json.loads` and `json.dumps` are abstract. Encoding is a parameter that may fail (`DocumentProcessing.JsonDumps`, `RedactionMiddleware.Encoder`); which values fail (nesting beyond the recursion limit, a lone surrogate written back to UTF-8) is not modelled. Decoding yields a value, a `JSONDecodeError` or a `UnicodeDecodeError` (`RedactionMiddleware.Loaded`). At app/api/middlewares/redaction.py:88-90, `json.loads` can also raise `RecursionError` on deep nesting, or `ValueError` on an integer literal of more than 4300 digits. `except json.JSONDecodeError` catches neither, so both propagate, as a `UnicodeDecodeError` does. The model represents all of these uncaught errors only as `Loaded.NotText`. Which bytes give which, including the UTF-8/16/32 detection `json.loads` does on bytes, is not modelled.
- Dictionary key order is not modelled (maps), and the evidence key lists are modelled as sets.
- `int()` on a chat id accepts an optional sign and surrounding white space, and raises `ValueError` above 4300 digits (the default `sys.get_int_max_str_digits()`); `Notification.ParseInt` models both. Two things Python's `int()` also accepts are not modelled: `_` digit separators, and non-ASCII Unicode decimal digits (such as `٣` or `３`). `Notification.ParseInt` rejects both.
- RuleExtractor.ParseAmount: `int(cleaned)` raises `ValueError` for more than 4300 digits; the model returns the number instead. In the source that error stops rule extraction and the job fails.
- DocumentFields.AmountNormalized: inherits the same gap from `parse_amount`; an amount string of more than 4300 digits is normalized to its number rather than failing the job.
- LlmExtractor.ParsedJsonSpec: `json.loads` raises `RecursionError` on deeply nested input and `ValueError` on an integer literal of more than 4300 digits. `except json.JSONDecodeError` at app/extractors/llm.py:72 catches neither. The decoder parameter's None is read as a `JSONDecodeError` and gives `{}`. The model has no outcome for the uncaught exceptions, which in the source fail the job.
- `Path.name` and `Path.suffix` ignore `.` and `..` path components.
- `redact_in_structure` on a set: the elements are redacted as a set, so merged elements merge. Set and tuple values inside OCR and LLM replies cannot come from JSON and are skipped or treated as malformed.
- Snippets that are not strings are not modelled (`Option<string>` per evidence item).
- Redaction.RedactedText: it is not idempotent, and no idempotence property is claimed. Redaction is sometimes described as a no-op on its own output; `RedactionGating.RedactedTextNotIdempotent` gives a text that a second call changes.
- RedactionMiddleware.RedactedBodyTexts: the value under a sensitive key is redacted twice. `redact_dict_keys` redacts it and `redact_in_structure` then redacts the result again. The contract therefore allows a double redaction rather than promising a single one.
- DocumentFields.NormalizedKeeps: date strings that do not parse are kept unchanged, as the code does, not dropped.
- RedactionStructure.RedactDictKeys: dictionary keys are never redacted, only values.
