# Transaction/attachment matching engine — a Dafny model

This project models the matching core of a bookkeeping reconciliation
engine (`src/match.py`). Given a bank transaction, the engine picks the
invoice or receipt ("attachment") that belongs to it. Given an attachment,
it picks the transaction instead. The decision has two phases:

1. **Reference first.** The query's payment reference is normalised: spaces
   are removed, the text is upper-cased, and a purely numeric reference that
   `int()` accepts is read as an integer and written back without leading
   zeros. If that normalised reference is non-empty and exactly one
   candidate's normalised reference equals it, that candidate is returned.
2. **Heuristic fallback.** Otherwise every candidate is scored on three
   bucketed signals:
   - amount closeness: 40, 30 or 10 points;
   - date closeness, using the nearest of the invoicing, due and receiving
     dates: 35, 20 or 10 points;
   - counterparty-name similarity, the best over recipient, issuer and
     supplier: 30, 20 or 10 points.

   A best-so-far scan keeps the first candidate with the highest score (it
   is replaced only on a strictly greater score, and starts from 0). That
   candidate is returned when its score is at least `THRESHOLD` = 75.

Layout, one module per file, following the source's structure:

| file | module | contents |
|---|---|---|
| `wrappers.dfy` | `Wrappers` | `Option` |
| `records.dfy` | `Records` | the transaction and attachment records, and the two library routines as a `Library` value |
| `text.dfy` | `Text` | the string built-ins the engine uses (ASCII): replace, upper, lower, strip, isdigit, `int()`, `str()` |
| `normalize.dfy` | `Normalize` | `_normalize_reference` |
| `features.dfy` | `Features` | the amount, date and name extractors |
| `scoring.dfy` | `Scoring` | `_score_pair` |
| `selection.dfy` | `Selection` | the best-so-far scan and the threshold test, on a list of scores |
| `matching.dfy` | `Matching` | `THRESHOLD`, `find_attachment`, `find_transaction` |
| `examples.dfy` | `Examples` | two worked transaction/invoice pairs |

Each operation is written twice:

- as a specification function (`NormalizeReference`, `DateDistanceDays`,
  `MaxSimilarity`, `Score`, `AttachmentFor`, `TransactionFor`), with lemmas
  that state what it means;
- where the source computes by a loop or an accumulator (`_get_att_dates`,
  `_max_name_similarity`, `_score_pair`, the two `find_*` functions), as a
  `method` that follows the source statement by statement and is proved
  equal to that function.

The definitions behind the lemmas, for a reader looking for them:

- `Normalize.NormalizeReference` is `_normalize_reference`.
- `Features.TxAmount`, `Features.AttAmount`, `Features.TxDate`, `Features.AttDates`, `Features.DateDistanceDays`, `Features.TxName` and `Features.MaxSimilarity` are the extractors.
- `Scoring.AmountPoints`, `Scoring.DatePoints` and `Scoring.NamePoints` are the three bucket tables of `_score_pair`. `Scoring.Score` is their sum.
- `Selection.Scan` is the best-so-far scan and `Selection.Accept` the threshold test.
- `Matching.Decide` is the two-phase decision shared by both matchers. `Matching.AttachmentFor` and `Matching.TransactionFor` apply it to `find_attachment` and `find_transaction`.

The records are immutable values: the engine never updates them.

## Model

| member | source | states |
|---|---|---|
| `Text.RemoveSpaces` | src/match.py:19 | the result has no space and is no longer than the input |
| `Text.RemoveSpacesOfSpaceless` | src/match.py:19 | removing spaces from a spaceless string changes nothing |
| `Text.UpperFacts` | src/match.py:19 | upper-casing keeps a spaceless string spaceless, leaves no lower-case letter, and is idempotent |
| `Text.SkipSpaceSpec` | src/match.py:103 | the characters `strip()` skips at the front are white space, and the first one kept is not |
| `Text.BackSpaceSpec` | src/match.py:103 | the characters `strip()` drops at the back are white space, and the last one kept is not |
| `Text.StripSpec` | src/match.py:103 | `strip()` returns the middle slice of the string, from its first to its last non-white-space character; everything before and after it is white space; the result is "" exactly for an all-white-space string |
| `Text.LowerFacts` | src/match.py:103 | `lower()` keeps the length, leaves no upper-case letter, and changes each upper-case letter to its lower-case form and nothing else |
| `Text.DecimalString` | src/match.py:25 | `str(n)` is a digit string with no leading zero, and is "0" exactly when n is 0 |
| `Text.DecimalStringValue` | src/match.py:22-25 | `int(str(n)) == n` |
| `Text.CanonicalPositive` | src/match.py:25 | a canonical digit string other than "0" has a positive value |
| `Text.CanonicalRoundTrip` | src/match.py:22-25 | `str(int(s)) == s` for a digit string without leading zeros |
| `Text.LeadingZeroValue` | src/match.py:22 | a leading "0" does not change `int(s)` |
| `Text.DropLeadingZerosValue` | src/match.py:20-25 | dropping leading zeros from a digit string gives a canonical string with the same value |
| `Normalize.NormalizeReferenceCases` | src/match.py:13-26 | an absent or empty reference gives ""; the result never contains a space or a lower-case letter; numeric text of at most 4300 digits gives its digits without leading zeros ("0" for all zeros), a canonical string with the same integer value; longer numeric text, which `int()` rejects, and non-numeric text give exactly the spaceless upper-cased input |
| `Normalize.NormalizeReferenceIdempotent` | src/match.py:13-26 | normalising a normalised reference changes nothing |
| `Normalize.NumericReferenceExamples` | src/match.py:20-25 | "007" and "7" both normalise to "7" |
| `Normalize.ZeroReferenceExample` | src/match.py:25 | "0000" normalises to "0" |
| `Normalize.BlankReferenceExample` | src/match.py:17-19 | no reference gives ""; a reference of only spaces also gives "" |
| `Features.Abs` | src/match.py:47 | the result is non-negative and equals the input or its negation |
| `Features.TxAmount` | src/match.py:39-49 | the amount is present exactly when the transaction has one; it is then its absolute value |
| `Features.AttAmount` | src/match.py:52-64 | the amount is present exactly when `total_amount` is; it is then its absolute value |
| `Features.TxDate` | src/match.py:67-68 | an absent or empty transaction date gives no date; otherwise the parser's result |
| `Features.ParseDate` | src/match.py:29-36 | an absent or empty date text gives no date |
| `Features.ParsedDatesMembers` | src/match.py:80-86 | a day is among the attachment dates exactly when one of the fields parses to it; there are at most as many dates as fields |
| `Features.GetAttDates` | src/match.py:71-86 | the loop returns the parsed invoicing, due and receiving dates, in that order |
| `Features.MinDistance` | src/match.py:97 | the result is at most the distance to every date and equals the distance to one of them |
| `Features.DateDistanceDaysSpec` | src/match.py:89-97 | the distance is absent exactly when the transaction date, or every attachment date, is missing or unparseable; otherwise it is the least distance in days to an attachment date |
| `Features.TxNameSpec` | src/match.py:100-103 | the name is empty exactly when the contact is absent, empty or only white space; otherwise it is the lower-cased slice of the contact from its first to its last non-white-space character; it never holds an upper-case letter |
| `Features.NameSimilarityRange` | src/match.py:106-113 | the similarity is 0 when either name is empty, and lies in [0, 1] when the library ratio does |
| `Features.CleanNamesMembers` | src/match.py:125-131 | a name is a candidate exactly when it is the stripped (as `Text.StripSpec` states), lower-cased text of a non-empty recipient, issuer or supplier |
| `Features.MaxOf` | src/match.py:136 | `max` is an upper bound of the list and one of its elements |
| `Features.MaxSimilaritySpec` | src/match.py:116-136 | the best similarity is 0 without a transaction name (in particular when the contact is absent, empty or only white space) or without a counterparty name; otherwise it is at least the similarity to every candidate and equals the similarity to one of them; it lies in [0, 1] when the ratio does |
| `Features.MaxNameSimilarity` | src/match.py:116-136 | the loop returns the best similarity that `MaxSimilaritySpec` describes |
| `Scoring.ScoreBounds` | src/match.py:149-182 | each contribution is one of its table's values; an absent amount or date contributes 0; the total lies in [0, 105] |
| `Scoring.AmountPointsMonotone` | src/match.py:154-161 | a smaller amount difference never earns fewer points, and an absent amount earns the fewest |
| `Scoring.DatePointsMonotone` | src/match.py:164-171 | a smaller day distance never earns fewer points, and an absent date earns the fewest |
| `Scoring.NamePointsMonotone` | src/match.py:174-180 | a higher name ratio never earns fewer points |
| `Scoring.ScoreMonotoneInDate` | src/match.py:140-182 | with amount and name signals equal, the attachment dated closer never scores lower |
| `Scoring.ScorePair` | src/match.py:140-182 | the accumulating method returns the sum of the three contributions, which lies in [0, 105] |
| `Selection.ScanFindsFirstMaximum` | src/match.py:213-220 | the scan finds nothing (best score 0) exactly when no score is positive; otherwise it ends on the first maximal score |
| `Selection.Accept` | src/match.py:222-224 | an accepted index is a valid position |
| `Selection.AcceptIsFirstBest` | src/match.py:212-224 | for a positive threshold the accepted index is the first maximum, reaching the threshold; every such index is accepted; nothing is accepted exactly when all scores are below the threshold |
| `Matching.RefMatchesNone` | src/match.py:201-205 | with no agreeing candidate there are no reference matches |
| `Matching.RefMatchesUnique` | src/match.py:201-208 | with exactly one agreeing candidate the reference matches are exactly that candidate |
| `Matching.RefMatchesSome` | src/match.py:201-205 | an agreeing candidate gives at least one reference match |
| `Matching.RefMatchesTwo` | src/match.py:201-210 | two agreeing candidates give at least two reference matches, so neither is returned by reference |
| `Matching.RefMatchesAreCandidates` | src/match.py:201-205 | every reference match is a candidate |
| `Matching.FallbackSpec` | src/match.py:212-224 | phase 2 returns the first candidate of maximal score when that score reaches THRESHOLD, and nothing when every score is below it or there are no candidates |
| `Matching.DecideByReference` | src/match.py:198-208 | a unique agreeing candidate is returned whatever the scores |
| `Matching.DecideByScore` | src/match.py:198-224 | with no query reference, no agreeing candidate, or two of them, the result is phase 2's |
| `Matching.DecideReturnsCandidate` | src/match.py:185-224 | the result is one of the candidates, and nothing for no candidates |
| `Matching.AttachmentScores` | src/match.py:216-217 | one score per attachment |
| `Matching.TransactionScores` | src/match.py:258-259 | one score per transaction |
| `Matching.AttachmentByReference` | src/match.py:198-208 | `find_attachment` returns the one attachment whose reference agrees with the transaction's, whatever its score |
| `Matching.AttachmentByScore` | src/match.py:210-224 | otherwise it returns the first attachment of maximal score if that reaches THRESHOLD, and nothing exactly when every score is below it |
| `Matching.AttachmentIsCandidate` | src/match.py:185-224 | `find_attachment` returns one of the attachments, and nothing for none |
| `Matching.TransactionByReference` | src/match.py:240-250 | `find_transaction` returns the one transaction whose reference agrees with the attachment's, whatever its score |
| `Matching.TransactionByScore` | src/match.py:252-266 | otherwise it returns the first transaction of maximal score if that reaches THRESHOLD, and nothing exactly when every score is below it |
| `Matching.TransactionIsCandidate` | src/match.py:227-266 | `find_transaction` returns one of the transactions, and nothing for none |
| `Matching.SingletonSymmetry` | src/match.py:185-266 | for one transaction and one attachment, `find_attachment` returns the attachment exactly when `find_transaction` returns the transaction, with or without references |
| `Matching.SingleAttachmentThreshold` | src/match.py:222-224 | without an agreeing reference, a lone attachment is returned exactly when its score is at least 75.0 |
| `Matching.CollectAttachmentMatches` | src/match.py:199-205 | the loop collects the agreeing attachments, in order |
| `Matching.ScanAttachments` | src/match.py:213-220 | the loop ends with the scan's best score and the attachment that first reached it |
| `Matching.FindAttachment` | src/match.py:185-224 | the method returns what `find_attachment` specifies, as the lemmas above describe |
| `Matching.CollectTransactionMatches` | src/match.py:241-247 | the loop collects the agreeing transactions, in order |
| `Matching.ScanTransactions` | src/match.py:255-262 | the loop ends with the scan's best score and the transaction that first reached it |
| `Matching.FindTransaction` | src/match.py:227-266 | the method returns what `find_transaction` specifies, as the lemmas above describe |
| `Examples.AcmeName` | src/match.py:100-103 | the contact "Acme Corp" gives the name "acme corp" |
| `Examples.RecipientOnly` | src/match.py:125-131 | with only a recipient set, it is the one name candidate |
| `Examples.InvoicingDateOnly` | src/match.py:80-86 | with only an invoicing date set, and parsing, it is the one attachment date |
| `Examples.AcmeSignals` | src/match.py:140-182 | the Acme pair has amount difference 0 and is one day apart; its name similarity is the ratio of "acme corp" to "acme corporation" |
| `Examples.AcmeExample` | src/match.py:140-224 | the Acme pair scores 60 plus the name points, and is matched exactly when that ratio is at least 0.80 |
| `Examples.UnrelatedSignals` | src/match.py:140-182 | the unrelated pair is 380.00 and 69 days apart |
| `Examples.UnrelatedExample` | src/match.py:140-224 | the unrelated pair scores at most 30, so it is not matched whatever its name ratio; it scores 0 when the ratio is below 0.70 |

## Left out

- The library routines are parameters of the model, not definitions. They are carried by a `Library` value:
  - `difflib.SequenceMatcher(...).ratio()` is `ratio`. It is constrained only by `RatioInUnit` (values in [0, 1]), taken as a hypothesis where needed.
  - `datetime.strptime(value, "%Y-%m-%d").date()` is `parseDate`. It gives a day ordinal, or nothing where strptime raises `ValueError`. Date subtraction is the difference of ordinals.
- The Acme example is stated for an arbitrary ratio. For these two strings SequenceMatcher gives 2·9/25 = 0.72 (their longest common block is the prefix "acme corp"). That is 10 name points, a score of 70, and no match. The model does not compute SequenceMatcher, so this value is not proved here.
- Amounts are exact reals; Python uses IEEE doubles. Near a bucket edge the two can differ. For example, in floating point `abs(120.01 - 120.00)` is slightly above 0.01, so it earns 30 points, not the 40 the model gives.
- `float(amount)` and its `TypeError`/`ValueError` branches (src/match.py:46-49, 61-64) are not modelled. Records hold amounts that are already numbers, or absent. The case of text that does not convert is therefore not represented.
- Records are typed values, not dictionaries.
  - A missing key is `None`.
  - An attachment without `data` has every field `None`.
  - `data` explicitly set to `None`, which would raise in the source, is not represented.
  - Counterparty fields are strings, so `str(value)` is the identity.
- Text handling is ASCII only. `upper`, `lower`, `strip` and `isdigit` agree with Python on ASCII characters. Unicode letters and digits are not modelled, and neither are the non-ASCII digits that `isdigit` accepts but `int()` rejects.
- The `ValueError` branch of src/match.py:23-24 is modelled for the one ASCII case that reaches it. `int()` refuses a digit string longer than CPython's integer string conversion limit, leading zeros included. The model fixes that limit at 4300, the default (`Normalize.MaxStrDigits`), and returns such a reference cleaned but otherwise unchanged. A limit changed at run time (`sys.set_int_max_str_digits`), and interpreters without the limit, are not modelled.
- The normaliser removes only the space character (`str.replace(" ", "")`). Tabs and other white space stay in a reference. The model follows the code here, not a description of it as removing all white space.
- `Normalize.NormalizeReferenceCases` does not state the result for a reference such as " rf-12 ab " as a concrete string. It states the general rule instead: non-numeric text gives exactly the spaceless, upper-cased input. For that input the rule gives "RF-12AB".
- When several candidates tie on the highest score, the first one is returned. The model keeps this order dependence, as the source has it.
